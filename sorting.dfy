/** Python's ordering of `str` values (code point by code point, a proper
    prefix first) and sorting of (name, value) pairs by name, as done by
    `sorted(d.items())` when the names are distinct. */
module Sorting {

  /** `a < b` on Python strings. */
  predicate Less(a: string, b: string)
    decreases |a|
  {
    if a == [] then b != []
    else if b == [] then false
    else if a[0] != b[0] then a[0] < b[0]
    else Less(a[1..], b[1..])
  }

  lemma {:induction false} LessTotal(a: string, b: string)
    requires a != b
    ensures Less(a, b) || Less(b, a)
    decreases |a|
  {
    if a != [] && b != [] && a[0] == b[0] {
      assert a == [a[0]] + a[1..] && b == [b[0]] + b[1..];
      LessTotal(a[1..], b[1..]);
    }
  }

  lemma {:induction false} LessAsymmetric(a: string, b: string)
    requires Less(a, b)
    ensures !Less(b, a)
    decreases |a|
  {
    if a != [] && b != [] && a[0] == b[0] { LessAsymmetric(a[1..], b[1..]); }
  }

  lemma {:induction false} LessTransitive(a: string, b: string, c: string)
    requires Less(a, b) && Less(b, c)
    ensures Less(a, c)
    decreases |a|
  {
    if a != [] && a[0] == b[0] && b[0] == c[0] {
      LessTransitive(a[1..], b[1..], c[1..]);
    }
  }

  /** No name occurs twice, as in the items of a dict. */
  predicate DistinctNames<T>(s: seq<(string, T)>)
  {
    forall i, j :: 0 <= i < j < |s| ==> s[i].0 != s[j].0
  }

  /** Names in ascending order (equal names allowed). */
  predicate SortedByName<T>(s: seq<(string, T)>)
  {
    forall i, j :: 0 <= i < j < |s| ==> !Less(s[j].0, s[i].0)
  }

  /** Every entry of an arrangement of the tail of `s` and a greater `p`
      is at least the head of `s`. */
  lemma {:induction false} HeadBelowInserted<T>(p: (string, T), s: seq<(string, T)>, rest: seq<(string, T)>)
    requires SortedByName(s) && s != [] && Less(s[0].0, p.0)
    requires multiset(rest) == multiset(s[1..]) + multiset{p}
    ensures forall j :: 0 <= j < |rest| ==> !Less(rest[j].0, s[0].0)
  {
    forall j | 0 <= j < |rest| ensures !Less(rest[j].0, s[0].0) {
      assert rest[j] in multiset(s[1..]) + multiset{p};
      if rest[j] == p {
        LessAsymmetric(s[0].0, p.0);
      } else {
        assert rest[j] in s[1..];
        var k :| 0 <= k < |s[1..]| && s[1..][k] == rest[j];
        assert s[k + 1] == rest[j];
      }
    }
  }

  /** When `p` is at most the head of a sorted `s`, it is at most every entry. */
  lemma {:induction false} BelowHead<T>(p: (string, T), s: seq<(string, T)>)
    requires SortedByName(s) && s != [] && !Less(s[0].0, p.0)
    ensures forall j :: 0 <= j < |s| ==> !Less(s[j].0, p.0)
  {
    forall j | 0 <= j < |s| ensures !Less(s[j].0, p.0) {
      if Less(s[j].0, p.0) && j > 0 && !Less(s[j].0, s[0].0) && s[0].0 != s[j].0 {
        LessTotal(s[0].0, s[j].0);
        LessTransitive(s[0].0, s[j].0, p.0);
      }
    }
  }

  /** Insert `p` before the first entry whose name is greater than its own. */
  function Insert<T>(p: (string, T), s: seq<(string, T)>): (r: seq<(string, T)>)
    requires SortedByName(s)
    ensures SortedByName(r)
    ensures multiset(r) == multiset(s) + multiset{p}
    ensures |r| == |s| + 1
  {
    if s == [] then [p]
    else if Less(s[0].0, p.0) then
      var rest := Insert(p, s[1..]);
      assert s == [s[0]] + s[1..];
      HeadBelowInserted(p, s, rest);
      [s[0]] + rest
    else
      BelowHead(p, s);
      [p] + s
  }

  /** `sorted(items)` for items with distinct names (insertion sort). */
  function SortByName<T>(s: seq<(string, T)>): (r: seq<(string, T)>)
    ensures SortedByName(r)
    ensures multiset(r) == multiset(s)
    ensures |r| == |s|
  {
    if s == [] then []
    else
      assert s == [s[0]] + s[1..];
      Insert(s[0], SortByName(s[1..]))
  }

  lemma {:induction false} TailsAgree<T>(a: seq<(string, T)>, b: seq<(string, T)>)
    requires a != [] && b != [] && a[0] == b[0] && multiset(a) == multiset(b)
    ensures multiset(a[1..]) == multiset(b[1..])
  {
    assert a == [a[0]] + a[1..] && b == [b[0]] + b[1..];
    assert multiset(a) == multiset{a[0]} + multiset(a[1..]);
    assert multiset(b) == multiset{b[0]} + multiset(b[1..]);
    forall e ensures multiset(a[1..])[e] == multiset(b[1..])[e] {
      assert multiset(a)[e] == multiset{a[0]}[e] + multiset(a[1..])[e];
      assert multiset(b)[e] == multiset{b[0]}[e] + multiset(b[1..])[e];
    }
  }

  /** The first item of a sorted sequence of distinct names is the one with
      the least name, so two such arrangements of one multiset begin alike. */
  lemma {:induction false} HeadsAgree<T>(a: seq<(string, T)>, b: seq<(string, T)>)
    requires a != [] && SortedByName(a) && SortedByName(b)
    requires DistinctNames(a) && DistinctNames(b)
    requires multiset(a) == multiset(b)
    ensures b != [] && a[0] == b[0]
  {
    assert a[0] in multiset(b);
    var k :| 0 <= k < |b| && b[k] == a[0];
    assert b[0] in multiset(a);
    var m :| 0 <= m < |a| && a[m] == b[0];
    if k != 0 {
      assert m != 0;
      LessTotal(a[0].0, a[m].0);
      assert false;
    }
  }

  /** Two sorted arrangements of the same distinct items are the same
      sequence: sorting forgets the order the items came in. */
  lemma {:induction false} SortedUnique<T>(a: seq<(string, T)>, b: seq<(string, T)>)
    requires SortedByName(a) && SortedByName(b)
    requires DistinctNames(a) && DistinctNames(b)
    requires multiset(a) == multiset(b)
    ensures a == b
    decreases |a|
  {
    if a == [] {
      assert |multiset(b)| == 0;
    } else {
      HeadsAgree(a, b);
      TailsAgree(a, b);
      SortedUnique(a[1..], b[1..]);
      assert a == [a[0]] + a[1..] && b == [b[0]] + b[1..];
    }
  }

  /** Sorting two dicts' items with the same entries, whatever their order,
      gives one and the same sequence. */
  lemma {:induction false} SortForgetsOrder<T>(a: seq<(string, T)>, b: seq<(string, T)>)
    requires DistinctNames(a) && DistinctNames(b)
    requires multiset(a) == multiset(b)
    ensures SortByName(a) == SortByName(b)
  {
    DistinctPreserved(a, SortByName(a));
    DistinctPreserved(b, SortByName(b));
    SortedUnique(SortByName(a), SortByName(b));
  }

  lemma {:induction false} OccursAtMostOnce<T>(a: seq<(string, T)>, e: (string, T))
    requires DistinctNames(a)
    ensures multiset(a)[e] <= 1
    decreases |a|
  {
    if a != [] {
      assert a == [a[0]] + a[1..];
      OccursAtMostOnce(a[1..], e);
      if a[0] == e {
        assert e !in a[1..] by {
          forall k | 0 <= k < |a[1..]| ensures a[1..][k] != e {
            assert a[1..][k].0 == a[k + 1].0;
          }
        }
      }
    }
  }

  lemma {:induction false} OccursTwice<T>(b: seq<(string, T)>, i: nat, j: nat)
    requires i < j < |b| && b[i] == b[j]
    ensures multiset(b)[b[i]] >= 2
  {
    assert b == b[..i] + [b[i]] + b[i + 1..j] + [b[j]] + b[j + 1..];
  }

  /** A rearrangement of items with distinct names still has distinct names. */
  lemma {:induction false} DistinctPreserved<T>(a: seq<(string, T)>, b: seq<(string, T)>)
    requires DistinctNames(a) && multiset(a) == multiset(b)
    ensures DistinctNames(b)
  {
    forall i, j | 0 <= i < j < |b| ensures b[i].0 != b[j].0 {
      if b[i] == b[j] {
        OccursTwice(b, i, j);
        OccursAtMostOnce(a, b[i]);
      } else {
        assert b[i] in multiset(a) && b[j] in multiset(a);
        var x :| 0 <= x < |a| && a[x] == b[i];
        var y :| 0 <= y < |a| && a[y] == b[j];
        assert x != y;
      }
    }
  }
}
