/** The CX-empire junction endpoint: the user posts, for each of their CX
    preferences, the empires that use it. After two ownership checks and a
    duplicate check, every empire of the user is detached from its CX and
    the empires of the payload are attached to the CX of their item. */
module CxJunctions {
  import opened Common

  type Uuid = string

  /** One item of the payload: a CX preference and the empires using it. */
  datatype CxItem = CxItem(cxUuid: Uuid, empires: seq<Uuid>)

  /** The user's empires: empire uuid -> the CX it uses, if any. */
  type EmpireCx = map<Uuid, Option<Uuid>>

  datatype CxResponse =
    | InvalidCx         // 403
    | InvalidEmpires    // 403
    | DuplicateEmpire   // 400
    | CxUpdated         // 200

  datatype CxSyncResult = CxSyncResult(response: CxResponse, empires: EmpireCx)

  function CxUuids(payload: seq<CxItem>): set<Uuid>
  {
    set item | item in payload :: item.cxUuid
  }

  /** Every empire uuid of the payload, item by item, repeats included. */
  function EmpireList(payload: seq<CxItem>): seq<Uuid>
  {
    if |payload| == 0 then []
    else EmpireList(payload[..|payload| - 1]) + payload[|payload| - 1].empires
  }

  function EmpireUuids(payload: seq<CxItem>): set<Uuid>
  {
    set e | e in EmpireList(payload)
  }

  /** One bulk update: the listed empires get the item's CX. */
  function AssignItem(m: EmpireCx, item: CxItem): EmpireCx
  {
    map e | e in m :: if e in item.empires then Some(item.cxUuid) else m[e]
  }

  /** An item naming no empire changes nothing, so the update is skipped. */
  lemma AssignItemNone(m: EmpireCx, item: CxItem)
    requires item.empires == []
    ensures AssignItem(m, item) == m
  {
    assert forall e :: e in m ==> AssignItem(m, item)[e] == m[e];
  }

  /** Detach every empire, then apply the items in order. */
  function AssignAll(empires: EmpireCx, payload: seq<CxItem>): (r: EmpireCx)
    ensures r.Keys == empires.Keys
  {
    if |payload| == 0 then map e | e in empires :: None
    else AssignItem(AssignAll(empires, payload[..|payload| - 1]), payload[|payload| - 1])
  }

  lemma AssignAllSnoc(empires: EmpireCx, payload: seq<CxItem>, i: nat)
    requires i < |payload|
    ensures AssignAll(empires, payload[..i + 1]) == AssignItem(AssignAll(empires, payload[..i]), payload[i])
  {
    assert payload[..i + 1][..i] == payload[..i];
  }

  /** The endpoint's outcome, check by check: a CX preference the user does
      not own, then an empire the user does not own, then an empire named
      twice; each refusal writes nothing. Otherwise every empire is
      detached and the payload's empires are attached. The code tests
      ownership and repeats by counting; `SyncCxJunctions` proves the counts
      agree with these conditions. */
  function CxSyncSpec(empires: EmpireCx, ownedCx: set<Uuid>, payload: seq<CxItem>): CxSyncResult
  {
    if !(CxUuids(payload) <= ownedCx) then CxSyncResult(InvalidCx, empires)
    else if !(EmpireUuids(payload) <= empires.Keys) then CxSyncResult(InvalidEmpires, empires)
    else if !Distinct(EmpireList(payload)) then CxSyncResult(DuplicateEmpire, empires)
    else CxSyncResult(CxUpdated, AssignAll(empires, payload))
  }

  /** The endpoint as the view runs it: the counting checks, then the
      reset of every empire and one bulk update per item naming empires. */
  method SyncCxJunctions(empires: EmpireCx, ownedCx: set<Uuid>, payload: seq<CxItem>)
    returns (response: CxResponse, after: EmpireCx)
    ensures CxSyncResult(response, after) == CxSyncSpec(empires, ownedCx, payload)
  {
    var inputCx := CxUuids(payload);
    var inputEmpires := EmpireUuids(payload);
    CountCheckIsSubset(inputCx, ownedCx);
    if |inputCx * ownedCx| != |inputCx| {
      return InvalidCx, empires;
    }
    CountCheckIsSubset(inputEmpires, empires.Keys);
    if |inputEmpires * empires.Keys| != |inputEmpires| {
      return InvalidEmpires, empires;
    }
    var all := EmpireList(payload);
    SetOfSeqCard(all);
    if |all| != |set e | e in all| {
      return DuplicateEmpire, empires;
    }
    after := map e | e in empires :: None;
    for i := 0 to |payload|
      invariant after == AssignAll(empires, payload[..i])
    {
      AssignAllSnoc(empires, payload, i);
      var item := payload[i];
      if item.empires != [] {
        after := AssignItem(after, item);
      } else {
        AssignItemNone(after, item);
      }
    }
    assert payload[..|payload|] == payload;
    response := CxUpdated;
  }

  // ---------------------------------------------------------------------
  // The counting checks

  /** Counting the owned rows among the requested ones detects exactly a
      requested uuid that is not owned. */
  lemma CountCheckIsSubset(requested: set<Uuid>, owned: set<Uuid>)
    ensures |requested * owned| == |requested| <==> requested <= owned
  {
    if !(requested <= owned) {
      var x :| x in requested && x !in owned;
      StrictSubsetCard(requested * owned, requested, x);
    } else {
      assert requested * owned == requested;
    }
  }

  // ---------------------------------------------------------------------
  // Properties of the endpoint

  lemma {:induction false} EmpireListMembers(payload: seq<CxItem>, i: int, e: Uuid)
    requires 0 <= i < |payload| && e in payload[i].empires
    ensures e in EmpireList(payload)
  {
    var n := |payload| - 1;
    if i < n {
      EmpireListMembers(payload[..n], i, e);
    }
  }

  lemma DistinctSplit(a: seq<Uuid>, b: seq<Uuid>)
    requires Distinct(a + b)
    ensures Distinct(a)
    ensures forall x :: x in a ==> x !in b
  {
    forall i, j | 0 <= i < j < |a|
      ensures a[i] != a[j]
    {
      assert (a + b)[i] == a[i] && (a + b)[j] == a[j];
    }
    forall i, k | 0 <= i < |a| && 0 <= k < |b|
      ensures a[i] != b[k]
    {
      assert (a + b)[i] == a[i] && (a + b)[|a| + k] == b[k];
    }
  }

  /** An empire no item names ends with no CX. */
  lemma {:induction false} UnnamedDetached(empires: EmpireCx, payload: seq<CxItem>, e: Uuid)
    requires e in empires && e !in EmpireList(payload)
    ensures AssignAll(empires, payload)[e] == None
  {
    if |payload| > 0 {
      var n := |payload| - 1;
      UnnamedDetached(empires, payload[..n], e);
    }
  }

  /** With no empire named twice, a named empire ends with the CX of the
      item naming it. */
  lemma {:induction false} NamedAttached(empires: EmpireCx, payload: seq<CxItem>, i: int, e: Uuid)
    requires Distinct(EmpireList(payload))
    requires e in empires && 0 <= i < |payload| && e in payload[i].empires
    ensures AssignAll(empires, payload)[e] == Some(payload[i].cxUuid)
  {
    var n := |payload| - 1;
    if i < n {
      DistinctSplit(EmpireList(payload[..n]), payload[n].empires);
      EmpireListMembers(payload[..n], i, e);
      NamedAttached(empires, payload[..n], i, e);
    }
  }

  /** A successful sync keeps the user's empires, detaches every empire the
      payload does not name and attaches each named one to the CX of the
      item naming it. */
  lemma SuccessAssignment(empires: EmpireCx, ownedCx: set<Uuid>, payload: seq<CxItem>)
    requires CxSyncSpec(empires, ownedCx, payload).response == CxUpdated
    ensures CxSyncSpec(empires, ownedCx, payload).empires.Keys == empires.Keys
    ensures forall e :: e in empires && e !in EmpireUuids(payload) ==>
      CxSyncSpec(empires, ownedCx, payload).empires[e] == None
    ensures forall i, e :: 0 <= i < |payload| && e in payload[i].empires ==>
      e in empires && CxSyncSpec(empires, ownedCx, payload).empires[e] == Some(payload[i].cxUuid)
  {
    var after := AssignAll(empires, payload);
    assert CxSyncSpec(empires, ownedCx, payload).empires == after;
    AssignAllEffect(empires, payload);
    forall i, e | 0 <= i < |payload| && e in payload[i].empires
      ensures e in empires && after[e] == Some(payload[i].cxUuid)
    {
      NamedAssigned(empires, payload, i, e);
    }
  }

  /** A named empire of a payload that passed the checks is one of the
      user's and gets the CX of the item naming it. */
  lemma NamedAssigned(empires: EmpireCx, payload: seq<CxItem>, i: int, e: Uuid)
    requires Distinct(EmpireList(payload)) && EmpireUuids(payload) <= empires.Keys
    requires 0 <= i < |payload| && e in payload[i].empires
    ensures e in empires && AssignAll(empires, payload)[e] == Some(payload[i].cxUuid)
  {
    EmpireListMembers(payload, i, e);
    NamedAttached(empires, payload, i, e);
  }

  /** The bulk updates, once the checks have passed. */
  lemma AssignAllEffect(empires: EmpireCx, payload: seq<CxItem>)
    requires Distinct(EmpireList(payload)) && EmpireUuids(payload) <= empires.Keys
    ensures var after := AssignAll(empires, payload);
      && (forall e :: e in empires && e !in EmpireUuids(payload) ==> after[e] == None)
      && (forall i, e :: 0 <= i < |payload| && e in payload[i].empires ==> e in after && after[e] == Some(payload[i].cxUuid))
  {
    var after := AssignAll(empires, payload);
    forall e | e in empires && e !in EmpireUuids(payload)
      ensures after[e] == None
    {
      UnnamedDetached(empires, payload, e);
    }
    forall i, e | 0 <= i < |payload| && e in payload[i].empires
      ensures e in after && after[e] == Some(payload[i].cxUuid)
    {
      NamedAssigned(empires, payload, i, e);
    }
  }
}
