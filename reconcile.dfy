/** Reconciliation of a stored child table with a fetched feed, by natural
    key: the pattern shared by the resource, COGC program and production
    fee synchronisation of a planet import.

    The stored table maps each natural key to its row. For every fetched
    record, the stored row with the same key is updated in place (several
    records with one key update it several times); records whose key is
    not stored are collected for one bulk creation, which the table's
    unique constraint rejects when two of them share a key; finally every
    stored row whose key was not fetched is deleted. Created rows receive
    consecutive row ids from `nextId`, in feed order. */
module Reconcile {
  import opened Common
  import opened Sorting
  import opened KeyedSeq

  /** The fetched records whose key is not stored, in feed order. */
  function NewItems<T, K>(feed: seq<T>, key: T -> K, known: set<K>): (r: seq<T>)
    ensures |r| <= |feed|
  {
    if |feed| == 0 then []
    else
      var last := feed[|feed| - 1];
      NewItems(feed[..|feed| - 1], key, known) + (if key(last) in known then [] else [last])
  }

  /** Position of a new key among the created rows (0 for any other key). */
  function NewIndex<T, K>(feed: seq<T>, key: T -> K, known: set<K>, k: K): nat
  {
    var newKeys := MapSeq(NewItems(feed, key, known), key);
    if k in newKeys then LastIndex(newKeys, k) else 0
  }

  /** Updating twice is updating with the later record. */
  ghost predicate Overwrites<T(!new), V(!new)>(update: (V, T) -> V)
  {
    forall v, a, b :: update(update(v, a), b) == update(v, b)
  }

  /** The rows after a reconciliation that succeeds: a fetched key keeps
      its stored row, updated with the last record of that key; a new key
      gets a fresh row from its record, numbered by its position among the
      created rows. */
  function SpecTable<T, K, V>(existing: map<K, V>, feed: seq<T>, key: T -> K,
                              update: (V, T) -> V, create: (T, nat) -> V, nextId: nat): map<K, V>
  {
    var ks := MapSeq(feed, key);
    map k | k in ks ::
      if k in existing then update(existing[k], feed[LastIndex(ks, k)])
      else create(feed[LastIndex(ks, k)], nextId + NewIndex(feed, key, existing.Keys, k))
  }

  /** The table after reconciliation, or `None` when the creation violates
      the unique constraint: some key that is not stored occurs twice in the
      feed. */
  function ReconcileSpec<T, K, V>(existing: map<K, V>, feed: seq<T>, key: T -> K,
                                  update: (V, T) -> V, create: (T, nat) -> V, nextId: nat): Option<map<K, V>>
  {
    if HasDuplicateOutside(MapSeq(feed, key), existing.Keys) then None
    else Some(SpecTable(existing, feed, key, update, create, nextId))
  }

  // ---------------------------------------------------------------------
  // Facts about the new records

  lemma NewItemsSnoc<T, K>(feed: seq<T>, key: T -> K, known: set<K>, i: nat)
    requires i < |feed|
    ensures NewItems(feed[..i + 1], key, known)
         == NewItems(feed[..i], key, known) + (if key(feed[i]) in known then [] else [feed[i]])
  {
    assert feed[..i + 1][..i] == feed[..i];
  }

  /** The keys of the new records, appended one record at a time. */
  lemma NewKeysSnoc<T, K>(feed: seq<T>, key: T -> K, known: set<K>, i: nat)
    requires i < |feed|
    ensures MapSeq(NewItems(feed[..i + 1], key, known), key)
         == MapSeq(NewItems(feed[..i], key, known), key) + (if key(feed[i]) in known then [] else [key(feed[i])])
  {
    var n := NewItems(feed[..i], key, known);
    NewItemsSnoc(feed, key, known, i);
    if key(feed[i]) in known {
      assert n + [] == n;
    } else {
      MapSeqAppend(n, [feed[i]], key);
      assert MapSeq([feed[i]], key) == [key(feed[i])] + MapSeq([feed[i]][1..], key);
    }
  }

  /** The keys of the new records are exactly the fetched keys that are not
      stored. */
  lemma {:induction false} NewItemsKeys<T, K>(feed: seq<T>, key: T -> K, known: set<K>)
    ensures forall k :: k in MapSeq(NewItems(feed, key, known), key) <==> k in MapSeq(feed, key) && k !in known
  {
    if |feed| > 0 {
      var i := |feed| - 1;
      NewItemsKeys(feed[..i], key, known);
      NewKeysSnoc(feed, key, known, i);
      MapSeqSnoc(feed, i, key);
      assert feed[..i + 1] == feed;
    }
  }

  lemma NewKeyMember<T, K>(feed: seq<T>, key: T -> K, known: set<K>, k: K)
    ensures k in MapSeq(NewItems(feed, key, known), key) <==> k in MapSeq(feed, key) && k !in known
  {
    NewItemsKeys(feed, key, known);
  }

  /** When every fetched key is stored there is nothing to create. */
  lemma {:induction false} NewItemsAllKnown<T, K>(feed: seq<T>, key: T -> K, known: set<K>)
    requires forall k :: k in MapSeq(feed, key) ==> k in known
    ensures NewItems(feed, key, known) == []
  {
    if |feed| > 0 {
      var i := |feed| - 1;
      MapSeqSnoc(feed, i, key);
      assert feed[..i + 1] == feed;
      assert MapSeq(feed, key) == MapSeq(feed[..i], key) + [key(feed[i])];
      NewItemsAllKnown(feed[..i], key, known);
      NewItemsSnoc(feed, key, known, i);
    }
  }

  /** The database sees duplicate new keys exactly when a key that is not
      stored occurs twice in the feed. */
  lemma {:induction false} NewItemsDuplicates<T, K>(feed: seq<T>, key: T -> K, known: set<K>)
    ensures NoDuplicates(MapSeq(NewItems(feed, key, known), key)) <==> !HasDuplicateOutside(MapSeq(feed, key), known)
  {
    if |feed| > 0 {
      var i := |feed| - 1;
      var ks := MapSeq(feed, key);
      var x := key(feed[i]);
      var n := MapSeq(NewItems(feed[..i], key, known), key);
      NewItemsDuplicates(feed[..i], key, known);
      NewItemsKeys(feed[..i], key, known);
      NewKeysSnoc(feed, key, known, i);
      MapSeqSnoc(feed, i, key);
      assert feed[..i + 1] == feed;
      assert ks[..i] == MapSeq(feed[..i], key) by {
        assert ks == MapSeq(feed[..i], key) + [x];
      }
      assert ks[..i + 1] == ks;
      DuplicateSnoc(ks, i, known);
      var nn := MapSeq(NewItems(feed, key, known), key);
      if x in known {
        assert nn == n + [] == n;
      } else {
        assert nn == n + [x];
        NoDuplicatesSnoc(n, x);
        NewKeyMember(feed[..i], key, known, x);
      }
    }
  }

  /** Without duplicate new keys, the record a new key was created from is
      its last (and only) record in the feed. */
  lemma {:induction false} NewItemsLast<T, K>(feed: seq<T>, key: T -> K, known: set<K>, k: K)
    requires k in MapSeq(feed, key) && k !in known
    requires NoDuplicates(MapSeq(NewItems(feed, key, known), key))
    ensures k in MapSeq(NewItems(feed, key, known), key)
    ensures var n := NewItems(feed, key, known);
      n[LastIndex(MapSeq(n, key), k)] == feed[LastIndex(MapSeq(feed, key), k)]
  {
    NewItemsKeys(feed, key, known);
    var i := |feed| - 1;
    var ks := MapSeq(feed, key);
    var n0 := NewItems(feed[..i], key, known);
    var n := NewItems(feed, key, known);
    var nk0 := MapSeq(n0, key);
    var nk := MapSeq(n, key);
    NewItemsSnoc(feed, key, known, i);
    NewKeysSnoc(feed, key, known, i);
    MapSeqSnoc(feed, i, key);
    assert feed[..i + 1] == feed;
    if key(feed[i]) == k {
      assert n == n0 + [feed[i]];
      assert nk[|nk| - 1] == k;
    } else {
      assert ks == MapSeq(feed[..i], key) + [key(feed[i])];
      assert k in MapSeq(feed[..i], key);
      assert ks[..i] == MapSeq(feed[..i], key) && ks[..i + 1] == ks;
      LastIndexSnoc(ks, i, k);
      assert nk0 == nk[..|nk0|];
      NoDuplicatesPrefix(nk, |nk0|);
      NewItemsLast(feed[..i], key, known, k);
      LastIndexPrefix(nk, |nk0|, k);
      assert n[LastIndex(nk0, k)] == n0[LastIndex(nk0, k)];
    }
  }

  // ---------------------------------------------------------------------
  // The two phases of the loop, as tables

  /** The stored rows after the first `i` records updated them in turn. */
  function Updated<T, K, V>(existing: map<K, V>, feed: seq<T>, key: T -> K, update: (V, T) -> V, i: nat): map<K, V>
    requires i <= |feed|
  {
    if i == 0 then existing
    else
      var u := Updated(existing, feed, key, update, i - 1);
      var k := key(feed[i - 1]);
      if k in u then u[k := update(u[k], feed[i - 1])] else u
  }

  /** Under the overwrite law, a stored row after `i` records is the stored
      row updated once, with the last of those records that has its key. */
  lemma {:induction false} UpdatedValue<T(!new), K, V(!new)>(existing: map<K, V>, feed: seq<T>, key: T -> K,
                                                            update: (V, T) -> V, i: nat)
    requires Overwrites(update) && i <= |feed|
    ensures var u := Updated(existing, feed, key, update, i);
      var ks := MapSeq(feed, key);
      && u.Keys == existing.Keys
      && forall k :: k in existing ==>
           u[k] == if k in ks[..i] then update(existing[k], feed[LastIndex(ks[..i], k)]) else existing[k]
  {
    if i > 0 {
      var ks := MapSeq(feed, key);
      var u := Updated(existing, feed, key, update, i);
      UpdatedValue(existing, feed, key, update, i - 1);
      forall k | k in existing
        ensures u[k] == if k in ks[..i] then update(existing[k], feed[LastIndex(ks[..i], k)]) else existing[k]
      {
        UpdatedKeyStep(existing, feed, key, update, i, k);
      }
    }
  }

  /** One more record: the row of a stored key moves on by that record only
      when the record has its key. */
  lemma UpdatedKeyStep<T(!new), K, V(!new)>(existing: map<K, V>, feed: seq<T>, key: T -> K,
                                            update: (V, T) -> V, i: nat, k: K)
    requires Overwrites(update) && 0 < i <= |feed| && k in existing
    requires var u := Updated(existing, feed, key, update, i - 1);
      var ks := MapSeq(feed, key);
      && u.Keys == existing.Keys
      && u[k] == if k in ks[..i - 1] then update(existing[k], feed[LastIndex(ks[..i - 1], k)]) else existing[k]
    ensures var u := Updated(existing, feed, key, update, i);
      var ks := MapSeq(feed, key);
      && k in u
      && u[k] == if k in ks[..i] then update(existing[k], feed[LastIndex(ks[..i], k)]) else existing[k]
  {
    var ks := MapSeq(feed, key);
    MapSeqIndex(feed, key, i - 1);
    PrefixSnoc(ks, i - 1);
    if k in ks[..i] {
      LastIndexSnoc(ks, i - 1, k);
    }
  }

  /** The table after the first `j` new records were created on top of
      `base`. */
  function CreateAll<T, K, V>(base: map<K, V>, items: seq<T>, key: T -> K, create: (T, nat) -> V, nextId: nat, j: nat): map<K, V>
    requires j <= |items|
  {
    if j == 0 then base
    else CreateAll(base, items, key, create, nextId, j - 1)[key(items[j - 1]) := create(items[j - 1], nextId + j - 1)]
  }

  lemma {:induction false} CreateAllKeys<T, K, V>(base: map<K, V>, items: seq<T>, key: T -> K,
                                                  create: (T, nat) -> V, nextId: nat, j: nat)
    requires j <= |items|
    ensures CreateAll(base, items, key, create, nextId, j).Keys == base.Keys + Elems(MapSeq(items, key)[..j])
  {
    if j > 0 {
      CreateAllKeys(base, items, key, create, nextId, j - 1);
      MapSeqIndex(items, key, j - 1);
      PrefixSnoc(MapSeq(items, key), j - 1);
    }
  }

  /** A row of `base` whose key no created record has stays as it was. */
  lemma {:induction false} CreateAllBase<T, K, V>(base: map<K, V>, items: seq<T>, key: T -> K,
                                                  create: (T, nat) -> V, nextId: nat, j: nat, k: K)
    requires j <= |items| && k in base && k !in MapSeq(items, key)[..j]
    ensures k in CreateAll(base, items, key, create, nextId, j)
    ensures CreateAll(base, items, key, create, nextId, j)[k] == base[k]
  {
    if j > 0 {
      var nk := MapSeq(items, key);
      MapSeqIndex(items, key, j - 1);
      PrefixSnoc(nk, j - 1);
      CreateAllBase(base, items, key, create, nextId, j - 1, k);
    }
  }

  /** A created row comes from the last record with its key, numbered by
      that record's position. */
  lemma {:induction false} CreateAllNew<T, K, V>(base: map<K, V>, items: seq<T>, key: T -> K,
                                                 create: (T, nat) -> V, nextId: nat, j: nat, k: K)
    requires j <= |items| && k in MapSeq(items, key)[..j]
    ensures var nk := MapSeq(items, key)[..j];
      && k in CreateAll(base, items, key, create, nextId, j)
      && CreateAll(base, items, key, create, nextId, j)[k]
         == create(items[LastIndex(nk, k)], nextId + LastIndex(nk, k))
  {
    var nk := MapSeq(items, key);
    MapSeqIndex(items, key, j - 1);
    LastIndexSnoc(nk, j - 1, k);
    assert nk[..j - 1 + 1] == nk[..j];
    if nk[j - 1] != k {
      CreateAllNew(base, items, key, create, nextId, j - 1, k);
    }
  }

  /** The table after both phases of the loop, before the deletion. */
  function BothPhases<T, K, V>(existing: map<K, V>, feed: seq<T>, key: T -> K,
                               update: (V, T) -> V, create: (T, nat) -> V, nextId: nat): map<K, V>
  {
    var items := NewItems(feed, key, existing.Keys);
    CreateAll(Updated(existing, feed, key, update, |feed|), items, key, create, nextId, |items|)
  }

  lemma BothPhasesUnfold<T, K, V>(existing: map<K, V>, feed: seq<T>, key: T -> K,
                                  update: (V, T) -> V, create: (T, nat) -> V, nextId: nat)
    ensures var items := NewItems(feed, key, existing.Keys);
      BothPhases(existing, feed, key, update, create, nextId)
      == CreateAll(Updated(existing, feed, key, update, |feed|), items, key, create, nextId, |items|)
  {
  }

  /** A fetched key that was stored holds its updated row after both
      phases. */
  lemma FinalStored<T(!new), K, V(!new)>(existing: map<K, V>, feed: seq<T>, key: T -> K,
                                         update: (V, T) -> V, create: (T, nat) -> V, nextId: nat, k: K)
    requires Overwrites(update)
    requires k in MapSeq(feed, key) && k in existing
    ensures var table := BothPhases(existing, feed, key, update, create, nextId);
      k in table && table[k] == update(existing[k], feed[LastIndex(MapSeq(feed, key), k)])
  {
    var ks := MapSeq(feed, key);
    var items := NewItems(feed, key, existing.Keys);
    var updated := Updated(existing, feed, key, update, |feed|);
    assert ks[..|feed|] == ks;
    NewKeyMember(feed, key, existing.Keys, k);
    assert MapSeq(items, key)[..|items|] == MapSeq(items, key);
    UpdatedValue(existing, feed, key, update, |feed|);
    CreateAllBase(updated, items, key, create, nextId, |items|, k);
  }

  /** Without duplicate new keys, a new key is created from its last record,
      at its position among the new keys. */
  lemma NewRecordOf<T, K>(feed: seq<T>, key: T -> K, known: set<K>, k: K)
    requires !HasDuplicateOutside(MapSeq(feed, key), known)
    requires k in MapSeq(feed, key) && k !in known
    ensures k in MapSeq(NewItems(feed, key, known), key)
    ensures NewIndex(feed, key, known, k) == LastIndex(MapSeq(NewItems(feed, key, known), key), k)
    ensures NewItems(feed, key, known)[NewIndex(feed, key, known, k)] == feed[LastIndex(MapSeq(feed, key), k)]
  {
    NewItemsDuplicates(feed, key, known);
    NewItemsLast(feed, key, known, k);
  }

  /** Creating every item: a created key holds the row of its last item. */
  lemma CreateAllKey<T, K, V>(base: map<K, V>, items: seq<T>, key: T -> K, create: (T, nat) -> V, nextId: nat, k: K)
    requires k in MapSeq(items, key)
    ensures var j := LastIndex(MapSeq(items, key), k);
      k in CreateAll(base, items, key, create, nextId, |items|)
      && CreateAll(base, items, key, create, nextId, |items|)[k] == create(items[j], nextId + j)
  {
    var nk := MapSeq(items, key);
    assert nk[..|items|] == nk;
    CreateAllNew(base, items, key, create, nextId, |items|, k);
  }

  /** A fetched key that was not stored holds the row created from its
      record after both phases. */
  lemma FinalNew<T(!new), K, V(!new)>(existing: map<K, V>, feed: seq<T>, key: T -> K,
                                      update: (V, T) -> V, create: (T, nat) -> V, nextId: nat, k: K)
    requires !HasDuplicateOutside(MapSeq(feed, key), existing.Keys)
    requires k in MapSeq(feed, key) && k !in existing
    ensures var table := BothPhases(existing, feed, key, update, create, nextId);
      k in table && table[k] == create(feed[LastIndex(MapSeq(feed, key), k)], nextId + NewIndex(feed, key, existing.Keys, k))
  {
    var items := NewItems(feed, key, existing.Keys);
    var updated := Updated(existing, feed, key, update, |feed|);
    var table := CreateAll(updated, items, key, create, nextId, |items|);
    var j := NewIndex(feed, key, existing.Keys, k);
    NewRecordOf(feed, key, existing.Keys, k);
    CreateAllKey(updated, items, key, create, nextId, k);
    assert k in table && table[k] == create(items[j], nextId + j);
    BothPhasesUnfold(existing, feed, key, update, create, nextId);
  }

  /** After both phases a fetched key holds the row the specified table
      gives it. */
  lemma FinalAt<T(!new), K, V(!new)>(existing: map<K, V>, feed: seq<T>, key: T -> K,
                                     update: (V, T) -> V, create: (T, nat) -> V, nextId: nat, k: K)
    requires Overwrites(update)
    requires !HasDuplicateOutside(MapSeq(feed, key), existing.Keys)
    requires k in MapSeq(feed, key)
    ensures var table := BothPhases(existing, feed, key, update, create, nextId);
      k in table && table[k] == SpecTable(existing, feed, key, update, create, nextId)[k]
  {
    var ks := MapSeq(feed, key);
    var s := SpecTable(existing, feed, key, update, create, nextId);
    if k in existing {
      assert s[k] == update(existing[k], feed[LastIndex(ks, k)]);
      FinalStored(existing, feed, key, update, create, nextId, k);
    } else {
      assert s[k] == create(feed[LastIndex(ks, k)], nextId + NewIndex(feed, key, existing.Keys, k));
      FinalNew(existing, feed, key, update, create, nextId, k);
    }
  }

  /** A table that agrees with `s` on the keys of `s` and is cut down to
      exactly those keys is `s`. */
  lemma RestrictToSpec<K, V>(table: map<K, V>, ks: seq<K>, s: map<K, V>)
    requires forall k :: k in s <==> k in ks
    requires forall k :: k in ks ==> k in table && table[k] == s[k]
    ensures s == map k | k in table && k in ks :: table[k]
  {
    var r := map k | k in table && k in ks :: table[k];
    assert r.Keys == s.Keys;
  }

  /** Deleting the rows not fetched from the table after both phases gives
      the specified table. */
  lemma FinalTable<T(!new), K, V(!new)>(existing: map<K, V>, feed: seq<T>, key: T -> K,
                                        update: (V, T) -> V, create: (T, nat) -> V, nextId: nat)
    requires Overwrites(update)
    requires !HasDuplicateOutside(MapSeq(feed, key), existing.Keys)
    ensures var table := BothPhases(existing, feed, key, update, create, nextId);
      SpecTable(existing, feed, key, update, create, nextId)
        == map k | k in table && k in MapSeq(feed, key) :: table[k]
  {
    var table := BothPhases(existing, feed, key, update, create, nextId);
    var s := SpecTable(existing, feed, key, update, create, nextId);
    forall k | k in MapSeq(feed, key)
      ensures k in table && table[k] == s[k]
    {
      FinalAt(existing, feed, key, update, create, nextId, k);
    }
    RestrictToSpec(table, MapSeq(feed, key), s);
  }

  // ---------------------------------------------------------------------
  // The synchronisation loop

  /** Walks the feed updating stored rows and collecting new records, bulk
      creates the new records, then deletes the rows not fetched. */
  method Synchronize<T(!new), K, V(!new)>(existing: map<K, V>, feed: seq<T>, key: T -> K,
                                        update: (V, T) -> V, create: (T, nat) -> V, nextId: nat)
    returns (result: Option<map<K, V>>)
    requires Overwrites(update)
    ensures result == ReconcileSpec(existing, feed, key, update, create, nextId)
  {
    ghost var ks := MapSeq(feed, key);
    var table := existing;
    var seen: set<K> := {};
    var toCreate: seq<T> := [];
    for i := 0 to |feed|
      invariant seen == Elems(ks[..i])
      invariant table == Updated(existing, feed, key, update, i)
      invariant table.Keys == existing.Keys
      invariant toCreate == NewItems(feed[..i], key, existing.Keys)
    {
      var item := feed[i];
      var k := key(item);
      MapSeqIndex(feed, key, i);
      PrefixSnoc(ks, i);
      NewItemsSnoc(feed, key, existing.Keys, i);
      seen := seen + {k};
      if k in table {
        table := table[k := update(table[k], item)];
      } else {
        toCreate := toCreate + [item];
      }
    }
    assert feed[..|feed|] == feed && ks[..|feed|] == ks;
    var newKeys := MapSeq(toCreate, key);
    if !NoDuplicates(newKeys) {
      NewItemsDuplicates(feed, key, existing.Keys);
      return None;
    }
    ghost var updated := table;
    for j := 0 to |toCreate|
      invariant table == CreateAll(updated, toCreate, key, create, nextId, j)
    {
      table := table[key(toCreate[j]) := create(toCreate[j], nextId + j)];
    }
    assert table == BothPhases(existing, feed, key, update, create, nextId);
    ghost var full := table;
    table := map k | k in table && k in seen :: table[k];
    assert table == map k | k in full && k in ks :: full[k];
    NewItemsDuplicates(feed, key, existing.Keys);
    FinalTable(existing, feed, key, update, create, nextId);
    result := Some(table);
  }

  // ---------------------------------------------------------------------
  // Properties of the reconciled table

  /** Reconciliation fails exactly when a key that is not stored occurs
      twice in the feed; otherwise the stored keys afterwards are exactly
      the fetched keys, so an empty feed deletes every row. */
  lemma ReconcileKeys<T, K, V>(existing: map<K, V>, feed: seq<T>, key: T -> K,
                               update: (V, T) -> V, create: (T, nat) -> V, nextId: nat)
    ensures var r := ReconcileSpec(existing, feed, key, update, create, nextId);
      && (r.None? <==> exists i, j :: 0 <= i < j < |feed| && key(feed[i]) == key(feed[j]) && key(feed[i]) !in existing)
      && (r.Some? ==> forall k :: k in r.value <==> exists i :: 0 <= i < |feed| && key(feed[i]) == k)
  {
    var ks := MapSeq(feed, key);
    forall i | 0 <= i < |feed| ensures ks[i] == key(feed[i]) {
      MapSeqIndex(feed, key, i);
    }
  }

  /** The keys of the reconciled table are the keys of the fetched records. */
  lemma ReconcileKeySet<T, K, V>(existing: map<K, V>, feed: seq<T>, key: T -> K,
                                 update: (V, T) -> V, create: (T, nat) -> V, nextId: nat)
    requires ReconcileSpec(existing, feed, key, update, create, nextId).Some?
    ensures ReconcileSpec(existing, feed, key, update, create, nextId).value.Keys == set t | t in feed :: key(t)
  {
    var r := ReconcileSpec(existing, feed, key, update, create, nextId).value;
    var ks := MapSeq(feed, key);
    assert r.Keys == set k | k in ks;
    forall k | k in ks ensures k in set t | t in feed :: key(t) {
      var i :| 0 <= i < |ks| && ks[i] == k;
      MapSeqIndex(feed, key, i);
      assert feed[i] in feed;
    }
    forall k | k in set t | t in feed :: key(t) ensures k in ks {
      var t :| t in feed && key(t) == k;
      var i :| 0 <= i < |feed| && feed[i] == t;
      MapSeqIndex(feed, key, i);
      assert ks[i] == k;
    }
  }

  /** A fetched key that was stored keeps its row, updated with the last
      record of that key; the row is not recreated. */
  lemma ReconcileKeepsStoredRows<T, K, V>(existing: map<K, V>, feed: seq<T>, key: T -> K,
                                          update: (V, T) -> V, create: (T, nat) -> V, nextId: nat, i: nat)
    requires i < |feed| && key(feed[i]) in existing
    requires forall j :: i < j < |feed| ==> key(feed[j]) != key(feed[i])
    requires ReconcileSpec(existing, feed, key, update, create, nextId).Some?
    ensures var r := ReconcileSpec(existing, feed, key, update, create, nextId).value;
      key(feed[i]) in r && r[key(feed[i])] == update(existing[key(feed[i])], feed[i])
  {
    var ks := MapSeq(feed, key);
    MapSeqIndex(feed, key, i);
    forall j | i < j < |feed| ensures ks[j] != ks[i] {
      MapSeqIndex(feed, key, j);
    }
  }

  /** Created rows get distinct ids from `nextId` on, below `nextId` plus
      the number of created rows. */
  lemma {:induction false} NewIndexFresh<T, K>(feed: seq<T>, key: T -> K, known: set<K>, k1: K, k2: K)
    requires !HasDuplicateOutside(MapSeq(feed, key), known)
    requires k1 in MapSeq(feed, key) && k2 in MapSeq(feed, key)
    requires k1 !in known && k2 !in known && k1 != k2
    ensures NewIndex(feed, key, known, k1) != NewIndex(feed, key, known, k2)
    ensures NewIndex(feed, key, known, k1) < |NewItems(feed, key, known)|
  {
    NewItemsKeys(feed, key, known);
  }

  /** Reconciling the result again with the same feed creates, deletes and
      changes nothing, provided a record applied to the row it created
      leaves that row as it is. */
  lemma ReconcileIdempotent<T(!new), K, V(!new)>(existing: map<K, V>, feed: seq<T>, key: T -> K,
                                                 update: (V, T) -> V, create: (T, nat) -> V, nextId: nat, nextId2: nat)
    requires Overwrites(update)
    requires forall t, id :: update(create(t, id), t) == create(t, id)
    requires ReconcileSpec(existing, feed, key, update, create, nextId).Some?
    ensures var r := ReconcileSpec(existing, feed, key, update, create, nextId).value;
      && NewItems(feed, key, r.Keys) == []
      && ReconcileSpec(r, feed, key, update, create, nextId2) == Some(r)
  {
    var ks := MapSeq(feed, key);
    var r := SpecTable(existing, feed, key, update, create, nextId);
    assert r.Keys == set k | k in ks;
    NewItemsAllKnown(feed, key, r.Keys);
    assert !HasDuplicateOutside(ks, r.Keys) by {
      forall i | 0 <= i < |ks| ensures ks[i] in r.Keys {
      }
    }
    var r2 := SpecTable(r, feed, key, update, create, nextId2);
    forall k | k in ks
      ensures r2[k] == r[k]
    {
      SpecTableStable(existing, feed, key, update, create, nextId, nextId2, k);
    }
    assert r2 == r;
  }

  /** One key of the reconciled table is left as it is by a second
      reconciliation with the same feed. */
  lemma SpecTableStable<T(!new), K, V(!new)>(existing: map<K, V>, feed: seq<T>, key: T -> K,
                                             update: (V, T) -> V, create: (T, nat) -> V, nextId: nat, nextId2: nat, k: K)
    requires Overwrites(update)
    requires forall t, id :: update(create(t, id), t) == create(t, id)
    requires k in MapSeq(feed, key)
    ensures var r := SpecTable(existing, feed, key, update, create, nextId);
      k in r && SpecTable(r, feed, key, update, create, nextId2)[k] == r[k]
  {
    var ks := MapSeq(feed, key);
    var r := SpecTable(existing, feed, key, update, create, nextId);
    var last := feed[LastIndex(ks, k)];
    assert SpecTable(r, feed, key, update, create, nextId2)[k] == update(r[k], last);
    if k in existing {
      assert update(update(existing[k], last), last) == update(existing[k], last);
    } else {
      var id := nextId + NewIndex(feed, key, existing.Keys, k);
      assert update(create(last, id), last) == create(last, id);
    }
  }
}
