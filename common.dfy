/** Value types and string helpers shared by every module of the model.
    Strings are sequences of characters; the case mapping and whitespace
    handling cover ASCII only. */
module Common {

  datatype Option<+T> = None | Some(value: T)

  /** A JSON value as a validator or a serializer receives it; numbers are
      whole numbers. */
  datatype Json =
    | JNull
    | JBool(b: bool)
    | JNum(n: int)
    | JText(text: string)
    | JList(items: seq<Json>)
    | JObject(fields: map<string, Json>)

  /** `"".join` with a one-character separator, as Python's `sep.join(parts)`. */
  function Join(parts: seq<string>, sep: char): string
  {
    if |parts| == 0 then ""
    else if |parts| == 1 then parts[0]
    else parts[0] + [sep] + Join(parts[1..], sep)
  }

  lemma ConcatAssoc<T>(a: seq<T>, b: seq<T>, c: seq<T>)
    ensures a + (b + c) == (a + b) + c
  {
  }

  /** One more part of a join moves into the text built so far. */
  lemma JoinStep(prefix: string, head: string, rest: seq<string>, sep: char)
    requires |rest| >= 1
    ensures prefix + Join([head] + rest, sep) == prefix + head + [sep] + Join(rest, sep)
  {
    JoinCons(head, rest, sep);
    ConcatAssoc(prefix, head + [sep], Join(rest, sep));
    ConcatAssoc(prefix, head, [sep]);
  }

  /** The first four parts of a join, left-associated. */
  lemma JoinFourHead(a: string, b: string, c: string, e: string, last: seq<string>, sep: char)
    requires |last| >= 1
    ensures Join([a, b, c, e] + last, sep) == a + [sep] + b + [sep] + c + [sep] + e + ([sep] + Join(last, sep))
  {
    var r3 := [e] + last;
    var r2 := [c] + r3;
    var r1 := [b] + r2;
    assert [a, b, c, e] + last == [a] + r1;
    JoinCons(a, r1, sep);
    JoinStep(a + [sep], b, r2, sep);
    JoinStep(a + [sep] + b + [sep], c, r3, sep);
    JoinStep(a + [sep] + b + [sep] + c + [sep], e, last, sep);
    ConcatAssoc(a + [sep] + b + [sep] + c + [sep] + e, [sep], Join(last, sep));
  }

  /** The first four parts of a join, with the last three grouped. */
  lemma JoinFourGrouped(a: string, b: string, c: string, e: string, last: seq<string>, sep: char)
    requires |last| >= 1
    ensures Join([a, b, c, e] + last, sep) == a + [sep] + (b + [sep] + c + [sep] + e) + ([sep] + Join(last, sep))
  {
    JoinFourHead(a, b, c, e, last, sep);
    var s := [sep];
    ConcatAssoc(a + s, b + s + c + s, e);
    ConcatAssoc(a + s, b + s + c, s);
    ConcatAssoc(a + s, b + s, c);
    ConcatAssoc(a + s, b, s);
  }

  lemma JoinCons(head: string, rest: seq<string>, sep: char)
    requires |rest| >= 1
    ensures Join([head] + rest, sep) == head + [sep] + Join(rest, sep)
  {
    assert ([head] + rest)[1..] == rest;
  }

  /** Index of the first occurrence of `c` in `s`, or `|s|` when there is none. */
  function FirstIndexOf(s: string, c: char): (i: nat)
    ensures i <= |s|
    ensures i < |s| ==> s[i] == c
    ensures c !in s[..i]
  {
    if |s| == 0 then 0
    else if s[0] == c then 0
    else
      var j := FirstIndexOf(s[1..], c);
      assert s[1..][..j] == s[1..j + 1];
      assert s[..j + 1] == [s[0]] + s[1..j + 1];
      1 + j
  }

  /** Python's `s.split(sep)` for a one-character separator. */
  function Split(s: string, sep: char): (r: seq<string>)
    ensures |r| >= 1
    decreases |s|
  {
    var i := FirstIndexOf(s, sep);
    if i == |s| then [s] else [s[..i]] + Split(s[i + 1..], sep)
  }

  lemma FirstIndexAbsent(s: string, c: char)
    requires c !in s
    ensures FirstIndexOf(s, c) == |s|
  {
    if |s| > 0 {
      assert s[0] in s;
      assert s == [s[0]] + s[1..];
      FirstIndexAbsent(s[1..], c);
    }
  }

  lemma FirstIndexAfterPart(p: string, sep: char, t: string)
    requires sep !in p
    ensures FirstIndexOf(p + [sep] + t, sep) == |p|
  {
    if |p| > 0 {
      assert p[0] in p;
      assert p == [p[0]] + p[1..];
      assert (p + [sep] + t)[1..] == p[1..] + [sep] + t;
      FirstIndexAfterPart(p[1..], sep, t);
    }
  }

  /** Splitting undoes joining when no part contains the separator. */
  lemma {:induction false} SplitJoin(parts: seq<string>, sep: char)
    requires |parts| >= 1
    requires forall k :: 0 <= k < |parts| ==> sep !in parts[k]
    ensures Split(Join(parts, sep), sep) == parts
  {
    if |parts| == 1 {
      FirstIndexAbsent(parts[0], sep);
    } else {
      var p, rest := parts[0], parts[1..];
      var t := Join(rest, sep);
      var s := p + [sep] + t;
      assert Join(parts, sep) == s;
      FirstIndexAfterPart(p, sep, t);
      assert s[..|p|] == p;
      assert s[|p| + 1..] == t;
      assert Split(s, sep) == [p] + Split(t, sep);
      forall k | 0 <= k < |rest|
        ensures sep !in rest[k]
      {
        assert rest[k] == parts[k + 1];
      }
      SplitJoin(rest, sep);
      assert parts == [p] + rest;
    }
  }

  /** Joining is injective on non-empty lists of separator-free parts. */
  lemma JoinInjective(a: seq<string>, b: seq<string>, sep: char)
    requires |a| >= 1 && |b| >= 1
    requires forall k :: 0 <= k < |a| ==> sep !in a[k]
    requires forall k :: 0 <= k < |b| ==> sep !in b[k]
    requires Join(a, sep) == Join(b, sep)
    ensures a == b
  {
    SplitJoin(a, sep);
    SplitJoin(b, sep);
  }

  lemma {:induction false} JoinStartsWithHead(parts: seq<string>, sep: char)
    requires |parts| >= 1
    ensures StartsWith(Join(parts, sep), parts[0])
  {
    if |parts| > 1 {
      assert Join(parts, sep) == parts[0] + ([sep] + Join(parts[1..], sep));
    }
  }

  lemma StartsWithAppend(p: string, t: string, q: string)
    requires StartsWith(t, q)
    ensures StartsWith(p + t, p + q)
  {
    assert (p + t)[..|p + q|] == p + t[..|q|];
  }

  /** A joined list starts with its first two parts and the separator between them. */
  lemma JoinStartsWithFirstTwo(parts: seq<string>, sep: char)
    requires |parts| >= 2
    ensures StartsWith(Join(parts, sep), parts[0] + [sep] + parts[1])
  {
    JoinStartsWithHead(parts[1..], sep);
    StartsWithAppend(parts[0] + [sep], Join(parts[1..], sep), parts[1]);
    assert Join(parts, sep) == (parts[0] + [sep]) + Join(parts[1..], sep);
  }

  /** A character other than the separator occurs in a joined list only if
      it occurs in a part. */
  lemma {:induction false} JoinNoChar(parts: seq<string>, sep: char, c: char)
    requires c != sep
    requires forall k :: 0 <= k < |parts| ==> c !in parts[k]
    ensures c !in Join(parts, sep)
  {
    if |parts| > 1 {
      JoinNoChar(parts[1..], sep, c);
    }
  }

  predicate IsDigit(c: char)
  {
    '0' <= c <= '9'
  }

  function DigitChar(d: nat): (c: char)
    requires d < 10
    ensures IsDigit(c)
  {
    "0123456789"[d]
  }

  /** Python's `str(n)` for a natural number. */
  function NatToString(n: nat): (s: string)
    ensures |s| >= 1
    ensures n < 10 <==> |s| == 1
    ensures forall k :: 0 <= k < |s| ==> IsDigit(s[k])
  {
    if n < 10 then [DigitChar(n)] else NatToString(n / 10) + [DigitChar(n % 10)]
  }

  /** A digit string followed by ':' is determined by any digit string
      followed by ':' that starts the same text. */
  lemma DigitsColonPrefix(d1: string, d2: string, x: string)
    requires forall k :: 0 <= k < |d1| ==> IsDigit(d1[k])
    requires forall k :: 0 <= k < |d2| ==> IsDigit(d2[k])
    requires |d2| + 1 <= |d1 + ":" + x|
    requires (d1 + ":" + x)[..|d2| + 1] == d2 + ":"
    ensures d1 == d2
  {
    var t := d1 + ":" + x;
    assert t[|d1|] == ':';
    assert t[|d2|] == (d2 + ":")[|d2|] == ':';
    assert forall k :: 0 <= k < |d1| ==> t[k] == d1[k];
    assert forall k :: 0 <= k < |d2| ==> t[k] == d2[k];
    assert |d1| == |d2|;
    assert d1 == t[..|d1|] == d2;
  }

  /** Distinct numbers print differently. */
  lemma {:induction false} NatToStringInjective(a: nat, b: nat)
    requires NatToString(a) == NatToString(b)
    ensures a == b
  {
    var sa, sb := NatToString(a), NatToString(b);
    if a < 10 || b < 10 {
      assert a < 10 && b < 10;
      assert DigitChar(a) == sa[0] == DigitChar(b);
    } else {
      assert sa[|sa| - 1] == DigitChar(a % 10);
      assert sb[|sb| - 1] == DigitChar(b % 10);
      assert a % 10 == b % 10;
      assert sa[..|sa| - 1] == NatToString(a / 10);
      assert sb[..|sb| - 1] == NatToString(b / 10);
      NatToStringInjective(a / 10, b / 10);
    }
  }

  predicate StartsWith(s: string, prefix: string)
  {
    |prefix| <= |s| && s[..|prefix|] == prefix
  }

  /** `sub` occurs in `s` starting at index `i`. */
  predicate OccursAt(s: string, sub: string, i: int)
  {
    0 <= i && i + |sub| <= |s| && s[i..i + |sub|] == sub
  }

  /** Python's `sub in s` for strings. */
  predicate Contains(s: string, sub: string)
  {
    exists i :: 0 <= i <= |s| - |sub| && OccursAt(s, sub, i)
  }

  lemma StartsWithConcat(prefix: string, rest: string)
    ensures StartsWith(prefix + rest, prefix)
    ensures Contains(prefix + rest, prefix)
  {
    assert (prefix + rest)[..|prefix|] == prefix;
    ContainsAt(prefix + rest, prefix, 0);
  }

  lemma ContainsPrefix(s: string, prefix: string)
    requires StartsWith(s, prefix)
    ensures Contains(s, prefix)
  {
    ContainsAt(s, prefix, 0);
  }

  lemma ContainsAt(s: string, sub: string, i: nat)
    requires OccursAt(s, sub, i)
    ensures Contains(s, sub)
  {
  }

  /** A string contains every middle piece of a concatenation. */
  lemma ContainsMiddle(a: string, b: string, c: string)
    ensures Contains(a + b + c, b)
  {
    assert (a + b + c)[|a|..|a| + |b|] == b;
    ContainsAt(a + b + c, b, |a|);
  }

  /** A string cannot contain a substring with a character it lacks. */
  lemma MissingCharNotContained(s: string, sub: string, c: char)
    requires c in sub && c !in s
    ensures !Contains(s, sub)
  {
    var j :| 0 <= j < |sub| && sub[j] == c;
    forall i | 0 <= i <= |s| - |sub| ensures !OccursAt(s, sub, i) {
      assert s[i..i + |sub|][j] == s[i + j];
      assert s[i + j] in s;
    }
  }

  function LowerChar(c: char): char
  {
    if 'A' <= c <= 'Z' then (c as int + 32) as char else c
  }

  function UpperChar(c: char): char
  {
    if 'a' <= c <= 'z' then (c as int - 32) as char else c
  }

  /** `str.lower()` on ASCII letters. */
  function Lower(s: string): (r: string)
    ensures |r| == |s|
  {
    seq(|s|, i requires 0 <= i < |s| => LowerChar(s[i]))
  }

  /** `str.upper()` on ASCII letters. */
  function Upper(s: string): (r: string)
    ensures |r| == |s|
  {
    seq(|s|, i requires 0 <= i < |s| => UpperChar(s[i]))
  }

  /** `s.replace(a, b)` for single characters. */
  function ReplaceChar(s: string, a: char, b: char): (r: string)
    ensures |r| == |s|
  {
    seq(|s|, i requires 0 <= i < |s| => if s[i] == a then b else s[i])
  }

  /** `s.replace(sub, '')`: removes the non-overlapping occurrences found left to right. */
  function RemoveAll(s: string, sub: string): (r: string)
    requires |sub| > 0
    ensures |r| <= |s|
    decreases |s|
  {
    if |s| < |sub| then s
    else if s[..|sub|] == sub then RemoveAll(s[|sub|..], sub)
    else [s[0]] + RemoveAll(s[1..], sub)
  }

  predicate IsSpace(c: char)
  {
    c == ' ' || c == '\t' || c == '\n' || c == '\r' || c == '\U{000B}' || c == '\U{000C}'
  }

  function StripStart(s: string): (r: string)
    ensures |r| <= |s|
  {
    if |s| > 0 && IsSpace(s[0]) then StripStart(s[1..]) else s
  }

  function StripEnd(s: string): (r: string)
    ensures |r| <= |s|
  {
    if |s| > 0 && IsSpace(s[|s| - 1]) then StripEnd(s[..|s| - 1]) else s
  }

  /** `str.strip()` for ASCII whitespace. */
  function Strip(s: string): string
  {
    StripEnd(StripStart(s))
  }

  /** Keeps the first `n` characters: `s[:n]`. */
  function Prefix(s: string, n: nat): (r: string)
    ensures |r| == if |s| <= n then |s| else n
    ensures forall k :: 0 <= k < |r| ==> r[k] == s[k]
  {
    if |s| <= n then s else s[..n]
  }

  /** No element occurs twice. */
  predicate Distinct<T(==)>(s: seq<T>)
  {
    forall i, j :: 0 <= i < j < |s| ==> s[i] != s[j]
  }

  /** A subset is no larger. */
  lemma {:induction false} SubsetCard<T>(a: set<T>, b: set<T>)
    requires a <= b
    ensures |a| <= |b|
    decreases |b|
  {
    if b != {} {
      var y :| y in b;
      SubsetCard(a - {y}, b - {y});
    }
  }

  /** A subset that misses an element of the larger set is smaller. */
  lemma StrictSubsetCard<T>(a: set<T>, b: set<T>, x: T)
    requires a <= b && x in b && x !in a
    ensures |a| < |b|
  {
    SubsetCard(a, b - {x});
    assert b == (b - {x}) + {x};
  }

  /** A list has as many distinct elements as entries exactly when no
      element occurs twice: Python's `len(l) != len(set(l))` test. */
  lemma {:induction false} SetOfSeqCard<T>(s: seq<T>)
    ensures |set e | e in s| <= |s|
    ensures |set e | e in s| == |s| <==> Distinct(s)
  {
    if |s| > 0 {
      var n := |s| - 1;
      var init := s[..n];
      SetOfSeqCard(init);
      assert s == init + [s[n]];
      assert (set e | e in s) == (set e | e in init) + {s[n]};
      if s[n] in init {
        assert (set e | e in s) == (set e | e in init);
        var k :| 0 <= k < n && init[k] == s[n];
        assert s[k] == s[n];
      } else {
        assert s[n] !in (set e | e in init);
        if Distinct(init) {
          forall i, j | 0 <= i < j < |s|
            ensures s[i] != s[j]
          {
            if j == n {
              assert s[i] == init[i];
            } else {
              assert s[i] == init[i] && s[j] == init[j];
            }
          }
        } else {
          var i, j :| 0 <= i < j < n && init[i] == init[j];
          assert s[i] == s[j];
        }
      }
    }
  }
}
