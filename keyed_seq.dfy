/** Facts about sequences of keys, as met when a feed of records is
    reconciled against a table keyed by the same natural key. */
module KeyedSeq {

  function Elems<K>(ks: seq<K>): set<K>
  {
    set k | k in ks
  }

  /** Position of the last occurrence of `k`: the record whose values win
      when a loop overwrites the same row several times. */
  function LastIndex<K(==)>(ks: seq<K>, k: K): (i: nat)
    requires k in ks
    ensures i < |ks| && ks[i] == k
    ensures forall j :: i < j < |ks| ==> ks[j] != k
  {
    if ks[|ks| - 1] == k then |ks| - 1
    else
      assert k in ks[..|ks| - 1] by {
        var j :| 0 <= j < |ks| && ks[j] == k;
        assert ks[..|ks| - 1][j] == k;
      }
      LastIndex(ks[..|ks| - 1], k)
  }

  /** Some key outside `known` occurs twice. */
  predicate HasDuplicateOutside<K(==)>(ks: seq<K>, known: set<K>)
  {
    exists i, j :: 0 <= i < j < |ks| && ks[i] == ks[j] && ks[i] !in known
  }

  predicate NoDuplicates<K(==)>(ks: seq<K>)
  {
    forall i, j :: 0 <= i < j < |ks| ==> ks[i] != ks[j]
  }

  lemma PrefixSnoc<K>(ks: seq<K>, i: nat)
    requires i < |ks|
    ensures ks[..i + 1] == ks[..i] + [ks[i]]
    ensures Elems(ks[..i + 1]) == Elems(ks[..i]) + {ks[i]}
  {
    assert ks[..i + 1] == ks[..i] + [ks[i]];
  }

  lemma LastIndexSnoc<K>(ks: seq<K>, i: nat, k: K)
    requires i < |ks| && k in ks[..i + 1]
    ensures k != ks[i] ==> k in ks[..i]
    ensures LastIndex(ks[..i + 1], k) == if ks[i] == k then i else LastIndex(ks[..i], k)
  {
    PrefixSnoc(ks, i);
    assert ks[..i + 1][..i] == ks[..i];
  }

  lemma DuplicateSnoc<K>(ks: seq<K>, i: nat, known: set<K>)
    requires i < |ks|
    ensures HasDuplicateOutside(ks[..i + 1], known) <==>
      HasDuplicateOutside(ks[..i], known) || (ks[i] !in known && ks[i] in ks[..i])
  {
    var p, q := ks[..i + 1], ks[..i];
    if HasDuplicateOutside(p, known) {
      var a, b :| 0 <= a < b < |p| && p[a] == p[b] && p[a] !in known;
      if b < i {
        assert q[a] == q[b];
      } else {
        assert q[a] == ks[i];
      }
    }
    if HasDuplicateOutside(q, known) {
      var a, b :| 0 <= a < b < |q| && q[a] == q[b] && q[a] !in known;
      assert p[a] == p[b];
    }
    if ks[i] !in known && ks[i] in q {
      var a :| 0 <= a < |q| && q[a] == ks[i];
      assert p[a] == p[i];
    }
  }

  lemma NoDuplicatesSnoc<K>(ks: seq<K>, x: K)
    ensures NoDuplicates(ks + [x]) <==> NoDuplicates(ks) && x !in ks
  {
    var s := ks + [x];
    if NoDuplicates(s) {
      forall i, j | 0 <= i < j < |ks| ensures ks[i] != ks[j] {
        assert s[i] == ks[i] && s[j] == ks[j];
      }
      forall i | 0 <= i < |ks| ensures ks[i] != x {
        assert s[i] == ks[i] && s[|ks|] == x;
      }
    }
  }

  /** In a sequence without duplicates, every position is the last
      occurrence of its element. */
  lemma NoDuplicatesPrefix<K>(ks: seq<K>, m: nat)
    requires NoDuplicates(ks) && m <= |ks|
    ensures NoDuplicates(ks[..m])
  {
    forall a, b | 0 <= a < b < m ensures ks[..m][a] != ks[..m][b] {
      assert ks[..m][a] == ks[a] && ks[..m][b] == ks[b];
    }
  }

  lemma LastIndexNoDuplicates<K>(ks: seq<K>, j: nat)
    requires NoDuplicates(ks) && j < |ks|
    ensures LastIndex(ks, ks[j]) == j
  {
  }

  /** The last occurrence of a key that only the prefix holds. */
  lemma LastIndexPrefix<K>(ks: seq<K>, m: nat, k: K)
    requires m <= |ks| && k in ks[..m]
    requires forall j :: m <= j < |ks| ==> ks[j] != k
    ensures LastIndex(ks, k) == LastIndex(ks[..m], k)
  {
    var i := LastIndex(ks[..m], k);
    assert ks[i] == k;
    var l := LastIndex(ks, k);
    assert l < m;
    assert ks[..m][l] == k;
  }
}
