/** Options, orderings and small collection facts shared by the other modules. */
module Prelude {

  datatype Option<+T> = None | Some(value: T)

  /** Nanoseconds. */
  type Time = int

  const SECOND: Time := 1_000_000_000

  /** A comparison that any two values answer and that chains. */
  ghost predicate TotalPreorder<T(!new)>(leq: (T, T) -> bool) {
    && (forall a, b :: leq(a, b) || leq(b, a))
    && (forall a, b, c :: leq(a, b) && leq(b, c) ==> leq(a, c))
  }

  ghost predicate Ascending<T>(leq: (T, T) -> bool, s: seq<T>) {
    forall i, j :: 0 <= i < j < |s| ==> leq(s[i], s[j])
  }

  lemma Chain<T(!new)>(leq: (T, T) -> bool, a: T, b: T, c: T)
    requires TotalPreorder(leq) && leq(a, b) && leq(b, c)
    ensures leq(a, c)
  {
  }

  lemma InsertedAscends<T(!new)>(leq: (T, T) -> bool, r: seq<T>, k: nat, x: T, s: seq<T>)
    requires TotalPreorder(leq) && Ascending(leq, r) && k <= |r|
    requires (forall i :: 0 <= i < k ==> leq(r[i], x)) && (k < |r| ==> leq(x, r[k]))
    requires |s| == |r| + 1 && s[k] == x
    requires forall i :: 0 <= i < |r| ==> r[i] == s[if i < k then i else i + 1]
    ensures Ascending(leq, s)
  {
    hide TotalPreorder;
    forall i, j | 0 <= i < j < |s| ensures leq(s[i], s[j]) {
      var from, to := if i < k then i else i - 1, if j < k then j else j - 1;
      if i != k { assert r[from] == s[i]; }
      if j != k { assert r[to] == s[j]; }
      if i == k < to { Chain(leq, x, r[k], r[to]); }
    }
  }

  lemma InsertedElements<T>(r: seq<T>, k: nat, x: T)
    requires k <= |r|
    ensures var s := r[..k] + [x] + r[k..];
      && |s| == |r| + 1 && s[k] == x && multiset(s) == multiset(r) + multiset{x}
      && forall i :: 0 <= i < |r| ==> r[i] == s[if i < k then i else i + 1]
  {
    assert r == r[..k] + r[k..];
  }

  lemma InsertedAt<T(!new)>(leq: (T, T) -> bool, r: seq<T>, k: nat, x: T)
    requires TotalPreorder(leq) && Ascending(leq, r) && k <= |r|
    requires (forall i :: 0 <= i < k ==> leq(r[i], x)) && (k < |r| ==> leq(x, r[k]))
    ensures var s := r[..k] + [x] + r[k..]; Ascending(leq, s) && multiset(s) == multiset(r) + multiset{x}
  {
    hide TotalPreorder, Ascending;
    InsertedElements(r, k, x);
    InsertedAscends(leq, r, k, x, r[..k] + [x] + r[k..]);
  }

  /** Stands for the library sorts: insertion into an ascending prefix. */
  method SortBy<T(!new)>(leq: (T, T) -> bool, s: seq<T>) returns (r: seq<T>)
    requires TotalPreorder(leq)
    ensures Ascending(leq, r) && multiset(r) == multiset(s)
  {
    r := [];
    for n := 0 to |s|
      invariant Ascending(leq, r) && multiset(r) == multiset(s[..n])
    {
      var k := 0;
      while k < |r| && leq(r[k], s[n])
        invariant 0 <= k <= |r|
        invariant forall i :: 0 <= i < k ==> leq(r[i], s[n])
      {
        k := k + 1;
      }
      assert s[..n + 1] == s[..n] + [s[n]];
      InsertedAt(leq, r, k, s[n]);
      r := r[..k] + [s[n]] + r[k..];
    }
    assert s[..|s|] == s;
  }

  /** An ascending arrangement is unique when the order separates the elements. */
  lemma {:induction false} AscendingIsUnique<T>(leq: (T, T) -> bool, a: seq<T>, b: seq<T>)
    requires Ascending(leq, a) && Ascending(leq, b) && multiset(a) == multiset(b)
    requires forall i, j :: 0 <= i < |a| && 0 <= j < |a| && leq(a[i], a[j]) && leq(a[j], a[i]) ==> a[i] == a[j]
    ensures a == b
  {
    assert |a| == |multiset(a)| == |multiset(b)| == |b|;
    if a != [] {
      HeadsAgree(leq, a, b);
      var x, s, t := a[0], a[1..], b[1..];
      assert a == [x] + s && b == [x] + t;
      TailsAgree(x, s, t);
      AscendingIsUnique(leq, s, t);
    }
  }

  lemma HeadsAgree<T>(leq: (T, T) -> bool, a: seq<T>, b: seq<T>)
    requires Ascending(leq, a) && Ascending(leq, b) && multiset(a) == multiset(b)
    requires forall i, j :: 0 <= i < |a| && 0 <= j < |a| && leq(a[i], a[j]) && leq(a[j], a[i]) ==> a[i] == a[j]
    requires a != [] && b != []
    ensures a[0] == b[0]
  {
    var i := Position(b[0], b, a);
    var j := Position(a[0], a, b);
    assert leq(a[0], a[i]) || i == 0;
    assert leq(b[0], b[j]) || j == 0;
  }

  lemma TailsAgree<T>(x: T, s: seq<T>, t: seq<T>)
    requires multiset([x] + s) == multiset([x] + t)
    ensures multiset(s) == multiset(t)
  {
    assert multiset(s) == multiset([x] + s) - multiset{x};
    assert multiset(t) == multiset([x] + t) - multiset{x};
  }

  lemma Position<T>(x: T, from: seq<T>, into: seq<T>) returns (i: nat)
    requires x in from && multiset(from) == multiset(into)
    ensures i < |into| && into[i] == x
  {
    assert x in multiset(from);
    assert x in into;
    i :| 0 <= i < |into| && into[i] == x;
  }

  function InsertBy<T>(leq: (T, T) -> bool, x: T, s: seq<T>): seq<T> {
    if s == [] || leq(x, s[0]) then [x] + s else [s[0]] + InsertBy(leq, x, s[1..])
  }

  lemma {:induction false} InsertByKeeps<T>(leq: (T, T) -> bool, x: T, s: seq<T>)
    ensures multiset(InsertBy(leq, x, s)) == multiset(s) + multiset{x}
    ensures forall y :: y in InsertBy(leq, x, s) ==> y == x || y in s
  {
    if s != [] && !leq(x, s[0]) {
      InsertByKeeps(leq, x, s[1..]);
      assert s == [s[0]] + s[1..];
    }
  }

  lemma {:induction false} InsertBySorts<T(!new)>(leq: (T, T) -> bool, x: T, s: seq<T>)
    requires TotalPreorder(leq) && Ascending(leq, s)
    ensures Ascending(leq, InsertBy(leq, x, s))
  {
    if s != [] && !leq(x, s[0]) {
      InsertBySorts(leq, x, s[1..]);
      InsertByKeeps(leq, x, s[1..]);
      var rest := InsertBy(leq, x, s[1..]);
      forall j | 0 <= j < |rest| ensures leq(s[0], rest[j]) {
        assert rest[j] in rest;
      }
    }
  }

  /** Byte-wise comparison of strings. */
  predicate StringLeq(a: string, b: string) {
    a == "" || (b != "" && (a[0] < b[0] || (a[0] == b[0] && StringLeq(a[1..], b[1..]))))
  }

  lemma {:induction false} StringLeqTotal(a: string, b: string)
    ensures StringLeq(a, b) || StringLeq(b, a)
    ensures StringLeq(a, b) && StringLeq(b, a) ==> a == b
  {
    if a != "" && b != "" {
      StringLeqTotal(a[1..], b[1..]);
      assert a == [a[0]] + a[1..] && b == [b[0]] + b[1..];
    }
  }

  lemma {:induction false} StringLeqChains(a: string, b: string, c: string)
    requires StringLeq(a, b) && StringLeq(b, c)
    ensures StringLeq(a, c)
  {
    if a != "" && a[0] == b[0] == c[0] {
      StringLeqChains(a[1..], b[1..], c[1..]);
    }
  }

  lemma StringLeqIsOrder()
    ensures TotalPreorder(StringLeq)
    ensures forall a, b :: StringLeq(a, b) && StringLeq(b, a) ==> a == b
  {
    forall a, b ensures StringLeq(a, b) || StringLeq(b, a)
      ensures StringLeq(a, b) && StringLeq(b, a) ==> a == b
    { StringLeqTotal(a, b); }
    forall a, b, c | StringLeq(a, b) && StringLeq(b, c) ensures StringLeq(a, c) { StringLeqChains(a, b, c); }
  }

  /** The first difference, by code point, decides; a proper prefix comes first. */
  ghost predicate Precedes(a: string, b: string) {
    exists i :: DiffersAt(a, b, i)
  }

  ghost predicate DiffersAt(a: string, b: string, i: int) {
    0 <= i <= |a| && i < |b| && a[..i] == b[..i] && (i < |a| ==> a[i] < b[i])
  }

  lemma FirstSame(a: string, b: string, i: nat)
    requires 0 < i <= |a| && i <= |b| && a[..i] == b[..i]
    ensures a[0] == b[0]
  {
    assert a[..i][0] == b[..i][0];
  }

  lemma DiffersLater(a: string, b: string, i: nat)
    requires a != "" && b != "" && a[0] == b[0]
    ensures DiffersAt(a, b, i + 1) <==> DiffersAt(a[1..], b[1..], i)
  {
    if i <= |a| - 1 && i <= |b| - 1 {
      assert a[..i + 1] == [a[0]] + a[1..][..i] && b[..i + 1] == [b[0]] + b[1..][..i];
    }
  }

  lemma {:induction false} StringLeqMeans(a: string, b: string)
    ensures StringLeq(a, b) <==> a == b || Precedes(a, b)
  {
    if a == "" {
      if b != "" { assert DiffersAt(a, b, 0); }
    } else if b != "" && a[0] == b[0] {
      StringLeqMeans(a[1..], b[1..]);
      assert a == [a[0]] + a[1..] && b == [b[0]] + b[1..];
      if i: nat :| DiffersAt(a[1..], b[1..], i) {
        DiffersLater(a, b, i);
      }
      if i :| DiffersAt(a, b, i) {
        DiffersLater(a, b, i - 1);
      }
    } else if b != "" {
      if a[0] < b[0] { assert DiffersAt(a, b, 0); }
      if i :| DiffersAt(a, b, i) && i > 0 {
        FirstSame(a, b, i);
      }
    }
  }

  lemma TwiceCounts<T>(s: seq<T>, i: nat, j: nat)
    requires i < j < |s| && s[i] == s[j]
    ensures multiset(s)[s[i]] >= 2
  {
    assert s == s[..i] + [s[i]] + s[i + 1..j] + [s[j]] + s[j + 1..];
  }

  /** A sequence that holds each element of a set once does not repeat itself. */
  lemma NoRepeat<T>(s: seq<T>, elements: set<T>, i: nat, j: nat)
    requires multiset(s) == multiset(elements) && i < j < |s|
    ensures s[i] != s[j]
  {
    if s[i] == s[j] {
      TwiceCounts(s, i, j);
    }
  }

  lemma SubsetCard<T>(a: set<T>, b: set<T>)
    requires a <= b
    ensures |a| <= |b|
  {
    assert b == a + (b - a);
  }
}
