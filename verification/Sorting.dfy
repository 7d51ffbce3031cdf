/** Lists of strings in byte order. */
module Sorting {

  /** Byte-wise lexicographic order. */
  predicate Less(a: string, b: string) {
    b != [] && (a == [] || a[0] < b[0] || (a[0] == b[0] && Less(a[1..], b[1..])))
  }

  lemma {:induction false} LessIsTotal(a: string, b: string)
    ensures !(Less(a, b) && Less(b, a))
    ensures !Less(a, b) && !Less(b, a) <==> a == b
  {
    if a != [] && b != [] {
      LessIsTotal(a[1..], b[1..]);
      assert a == [a[0]] + a[1..] && b == [b[0]] + b[1..];
    }
  }

  lemma {:induction false} LessIsTransitive(a: string, b: string, c: string)
    requires !Less(b, a) && !Less(c, b)
    ensures !Less(c, a)
  {
    if a != [] && b != [] && c != [] && a[0] == b[0] == c[0] { LessIsTransitive(a[1..], b[1..], c[1..]); }
  }

  /** In the order of their keys. */
  predicate SortedBy<T>(s: seq<T>, key: T -> string) { forall i, j :: 0 <= i < j < |s| ==> !Less(key(s[j]), key(s[i])) }

  function InsertBy<T>(x: T, s: seq<T>, key: T -> string): seq<T> {
    if s == [] || !Less(key(s[0]), key(x)) then [x] + s else [s[0]] + InsertBy(x, s[1..], key)
  }

  function SortBy<T>(s: seq<T>, key: T -> string): seq<T> {
    if s == [] then [] else InsertBy(s[0], SortBy(s[1..], key), key)
  }

  lemma {:induction false} InsertByKeeps<T>(x: T, s: seq<T>, key: T -> string)
    ensures multiset(InsertBy(x, s, key)) == multiset(s) + multiset{x}
    ensures SortedBy(s, key) ==> SortedBy(InsertBy(x, s, key), key)
  {
    if s != [] {
      assert s == [s[0]] + s[1..];
      if Less(key(s[0]), key(x)) {
        InsertByKeeps(x, s[1..], key);
        if SortedBy(s, key) { InsertBelow(x, s, key); }
      } else if SortedBy(s, key) {
        forall j | 0 <= j < |s|
          ensures !Less(key(s[j]), key(x))
        {
          if j > 0 { LessIsTransitive(key(x), key(s[0]), key(s[j])); }
        }
      }
    }
  }

  lemma InsertBelow<T>(x: T, s: seq<T>, key: T -> string)
    requires s != [] && SortedBy(s, key) && Less(key(s[0]), key(x)) && SortedBy(InsertBy(x, s[1..], key), key)
    requires multiset(InsertBy(x, s[1..], key)) == multiset(s[1..]) + multiset{x}
    ensures SortedBy(InsertBy(x, s, key), key)
  {
    var rest := InsertBy(x, s[1..], key);
    forall j | 0 <= j < |rest|
      ensures !Less(key(rest[j]), key(s[0]))
    {
      assert rest[j] in multiset(rest);
      if rest[j] == x {
        LessIsTotal(key(s[0]), key(x));
      } else {
        assert rest[j] in s[1..];
        var k :| 0 <= k < |s[1..]| && s[1..][k] == rest[j];
        assert s[k + 1] == rest[j];
      }
    }
  }

  lemma {:induction false} SortBySorts<T>(s: seq<T>, key: T -> string)
    ensures multiset(SortBy(s, key)) == multiset(s) && SortedBy(SortBy(s, key), key)
  {
    if s != [] {
      SortBySorts(s[1..], key);
      InsertByKeeps(s[0], SortBy(s[1..], key), key);
      assert s == [s[0]] + s[1..];
    }
  }

  lemma SameElements<T>(s: seq<T>, t: seq<T>)
    requires multiset(s) == multiset(t)
    ensures |s| == |t| && forall x :: x in s <==> x in t
  {
    assert |s| == |multiset(s)| == |multiset(t)| == |t|;
    forall x
      ensures x in s <==> x in t
    {
      assert x in multiset(s) <==> x in multiset(t);
    }
  }

  // ---- strings by themselves ----

  function Self(s: string): string { s }

  predicate Sorted(s: seq<string>) { SortedBy(s, Self) }

  function Insert(x: string, s: seq<string>): seq<string> { InsertBy(x, s, Self) }

  function Sort(s: seq<string>): seq<string> { SortBy(s, Self) }

  lemma InsertKeeps(x: string, s: seq<string>)
    ensures multiset(Insert(x, s)) == multiset(s) + multiset{x}
    ensures Sorted(s) ==> Sorted(Insert(x, s))
  {
    InsertByKeeps(x, s, Self);
  }

  lemma SortSorts(s: seq<string>)
    ensures multiset(Sort(s)) == multiset(s) && Sorted(Sort(s))
  {
    SortBySorts(s, Self);
  }

  /** There is one sorted arrangement of given strings. */
  lemma {:induction false} SortedIsUnique(a: seq<string>, b: seq<string>)
    requires Sorted(a) && Sorted(b) && multiset(a) == multiset(b)
    ensures a == b
  {
    assert |a| == |multiset(a)| == |multiset(b)| == |b|;
    if a != [] {
      FirstIsLeast(a, b);
      FirstIsLeast(b, a);
      LessIsTotal(a[0], b[0]);
      assert a == [a[0]] + a[1..] && b == [b[0]] + b[1..];
      assert multiset(a[1..]) == multiset(a) - multiset{a[0]} == multiset(b[1..]);
      SortedIsUnique(a[1..], b[1..]);
    }
  }

  lemma FirstIsLeast(a: seq<string>, b: seq<string>)
    requires a != [] && b != [] && Sorted(a) && multiset(a) == multiset(b)
    ensures !Less(b[0], a[0])
  {
    assert b[0] in multiset(b);
    assert b[0] in a;
    var k :| 0 <= k < |a| && a[k] == b[0];
    LessIsTotal(a[0], a[0]);
  }
}
