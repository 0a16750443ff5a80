/** A stable sort by a total preorder, as the standard library's `sort` and `sort_by_key`. */
module StableSort {

  ghost predicate TotalPreorder<T(!new)>(leq: (T, T) -> bool) {
    (forall x, y :: leq(x, y) || leq(y, x)) && (forall x, y, z :: leq(x, y) && leq(y, z) ==> leq(x, z))
  }

  ghost predicate Sorted<T>(s: seq<T>, leq: (T, T) -> bool) {
    forall i, j :: 0 <= i < j < |s| ==> leq(s[i], s[j])
  }

  /** Put `x` before the first element that is not strictly below it. */
  function Insert<T>(x: T, s: seq<T>, leq: (T, T) -> bool): (r: seq<T>) {
    if s == [] || leq(x, s[0]) then [x] + s else [s[0]] + Insert(x, s[1..], leq)
  }

  function Sort<T>(s: seq<T>, leq: (T, T) -> bool): (r: seq<T>) {
    if s == [] then [] else Insert(s[0], Sort(s[1..], leq), leq)
  }

  lemma {:induction false} InsertSorts<T(!new)>(x: T, s: seq<T>, leq: (T, T) -> bool)
    requires TotalPreorder(leq) && Sorted(s, leq)
    ensures Sorted(Insert(x, s, leq), leq) && multiset(Insert(x, s, leq)) == multiset([x]) + multiset(s)
  {
    if s != [] {
      assert s == [s[0]] + s[1..];
      if !leq(x, s[0]) {
        var rest := Insert(x, s[1..], leq);
        InsertSorts(x, s[1..], leq);
        forall k | 0 <= k < |rest| ensures leq(s[0], rest[k]) {
          assert rest[k] in multiset(rest);
          assert rest[k] == x || rest[k] in s[1..];
        }
      } else {
        forall k | 0 <= k < |s| ensures leq(x, s[k]) { assert leq(x, s[0]); }
      }
    }
  }

  /** The result is sorted and has the same elements. */
  lemma {:induction false} SortSorts<T(!new)>(s: seq<T>, leq: (T, T) -> bool)
    requires TotalPreorder(leq)
    ensures Sorted(Sort(s, leq), leq) && multiset(Sort(s, leq)) == multiset(s)
  {
    if s != [] {
      SortSorts(s[1..], leq);
      InsertSorts(s[0], Sort(s[1..], leq), leq);
      assert s == [s[0]] + s[1..];
    }
  }

  lemma SameMembers<T>(a: seq<T>, b: seq<T>)
    requires multiset(a) == multiset(b)
    ensures |a| == |b| && forall x :: x in a <==> x in b
  {
    assert |a| == |multiset(a)| && |b| == |multiset(b)|;
    forall x ensures x in a <==> x in b {
      assert x in a <==> x in multiset(a);
      assert x in b <==> x in multiset(b);
    }
  }

  /** The first element of `s` with the given property. */
  function First<T>(s: seq<T>, p: T -> bool): (i: nat)
    ensures i <= |s| && (i < |s| ==> p(s[i])) && forall k :: 0 <= k < i ==> !p(s[k])
  {
    if s == [] || p(s[0]) then 0 else 1 + First(s[1..], p)
  }

  /** Elements that the order does not tell apart. */
  function Alike<T>(x: T, leq: (T, T) -> bool): (r: T -> bool) { y => leq(x, y) && leq(y, x) }

  lemma {:induction false} InsertFirst<T(!new)>(x: T, s: seq<T>, k: T, leq: (T, T) -> bool)
    requires TotalPreorder(leq) && Sorted(s, leq)
    ensures var t := Insert(x, s, leq);
            var i, j := First(t, Alike(k, leq)), First(s, Alike(k, leq));
            (i < |t| <==> Alike(k, leq)(x) || j < |s|) &&
            (i < |t| ==> t[i] == if Alike(k, leq)(x) then x else s[j])
  {
    var p := Alike(k, leq);
    var t := Insert(x, s, leq);
    if s == [] || leq(x, s[0]) {
      assert t[1..] == s;
    } else {
      assert t[1..] == Insert(x, s[1..], leq);
      InsertFirst(x, s[1..], k, leq);
      if p(s[0]) { assert !p(x); }
    }
  }

  /** Stability: of the elements alike to `k`, the first stays first. */
  lemma {:induction false} SortFirst<T(!new)>(s: seq<T>, k: T, leq: (T, T) -> bool)
    requires TotalPreorder(leq)
    ensures var t := Sort(s, leq);
            var i, j := First(t, Alike(k, leq)), First(s, Alike(k, leq));
            (i < |t| <==> j < |s|) && (i < |t| ==> t[i] == s[j])
  {
    if s != [] {
      SortSorts(s[1..], leq);
      SortFirst(s[1..], k, leq);
      InsertFirst(s[0], Sort(s[1..], leq), k, leq);
    }
  }
}
