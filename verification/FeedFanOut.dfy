/**
 The fan-out of a scheduled feed (src/config/feeds.rs): one call for every
 combination of the `each` lists, the last key in name order varying fastest.

 `each` is the source's ordered map as the sequence of its entries in name order.
*/
module FeedFanOut {
  import Positional

  const MAX_CALLS: nat := 500

  /** Largest `usize` of the 64-bit targets. */
  const USIZE_MAX: nat := 0xFFFF_FFFF_FFFF_FFFF

  datatype Entry<V> = Entry(key: string, values: seq<V>)

  type Args<V> = map<string, V>

  ghost predicate DistinctKeys<V>(each: seq<Entry<V>>) {
    forall i, j :: 0 <= i < j < |each| ==> each[i].key != each[j].key
  }

  // ---- mixed-radix numbers ----

  /** How many combinations of one position per list there are. */
  function Product(radix: seq<nat>): (r: nat) {
    if radix == [] then 1 else Product(radix[..|radix| - 1]) * radix[|radix| - 1]
  }

  lemma {:induction false} ProductPositive(radix: seq<nat>)
    ensures Product(radix) > 0 <==> forall j :: 0 <= j < |radix| ==> radix[j] > 0
  {
    if radix != [] {
      var front, n := radix[..|radix| - 1], radix[|radix| - 1];
      ProductPositive(front);
    }
  }

  /** As soon as there is a combination at all, there is one of the last lists. */
  lemma TailPositive(radix: seq<nat>, j: nat)
    requires Product(radix) > 0 && j <= |radix|
    ensures Product(radix[j..]) > 0 && (j < |radix| ==> radix[j] > 0)
  {
    ProductPositive(radix);
    ProductPositive(radix[j..]);
  }

  /** The digit of `k` at place `j`: how often the later places have been through. */
  function DigitAt(radix: seq<nat>, k: nat, j: nat): (d: nat)
    requires Product(radix) > 0 && j < |radix|
    ensures d < radix[j]
  {
    TailPositive(radix, j);
    TailPositive(radix, j + 1);
    (k / Product(radix[j + 1..])) % radix[j]
  }

  /** The last place counts the new list; every earlier place keeps its digit. */
  lemma DigitSnoc(radix: seq<nat>, n: nat, q: nat, i: nat, k: nat, j: nat)
    requires i < n && Product(radix) > 0 && Product(radix + [n]) > 0 && j <= |radix|
    requires k == q * n + i
    ensures DigitAt(radix + [n], k, j) == if j < |radix| then DigitAt(radix, q, j) else i
  {
    var later := (radix + [n])[j + 1..];
    if j < |radix| {
      assert later == radix[j + 1..] + [n];
      TailPositive(radix, j + 1);
      FrontPlace(k, Product(later), Product(radix[j + 1..]), n, q, i);
    } else {
      assert later == [];
      LastPlace(k, Product(later), n, q, i);
    }
  }

  lemma FrontPlace(k: nat, pn: nat, p: nat, n: nat, q: nat, i: nat)
    requires i < n && p > 0 && pn == p * n && k == q * n + i
    ensures pn > 0 && k / pn == q / p
  {
    var a, b := q / p, q % p;
    assert q == a * p + b;
    Distribute(a * p, b, n);
    assert (a * p) * n == a * (p * n);
    Positional.MulMono(n, b + 1, p);
    Distribute(b, 1, n);
    DivByParts(a, b * n + i, p * n);
  }

  lemma LastPlace(k: nat, one: nat, n: nat, q: nat, i: nat)
    requires i < n && one == 1 && k == q * n + i
    ensures (k / one) % n == i
  {
    DivByParts(q, i, n);
  }

  lemma DivByParts(a: nat, r: nat, m: nat)
    requires r < m
    ensures (a * m + r) / m == a && (a * m + r) % m == r
  {
    var t := a * m + r;
    var d := t / m;
    assert t == d * m + t % m;
    if d < a { Positional.MulMono(m, d + 1, a); Distribute(d, 1, m); }
    if a < d { Positional.MulMono(m, a + 1, d); Distribute(a, 1, m); }
  }

  lemma Distribute(a: nat, b: nat, n: nat)
    ensures (a + b) * n == a * n + b * n
  {
  }

  lemma SplitIndex(k: nat, n: nat, m: nat) returns (q: nat, i: nat)
    requires k < m * n
    ensures n > 0 && q < m && i < n && k == q * n + i
  {
    assert n == 0 ==> m * n == 0;
    q, i := k / n, k % n;
    assert k == q * n + i;
    if q >= m { Positional.MulMono(n, m, q); }
  }

  /** Different numbers below the product differ in some digit. */
  lemma {:induction false} DigitsTell(radix: seq<nat>, k: nat, l: nat)
    requires k < Product(radix) && l < Product(radix)
    requires forall j :: 0 <= j < |radix| ==> DigitAt(radix, k, j) == DigitAt(radix, l, j)
    ensures k == l
  {
    if radix != [] {
      var last := |radix| - 1;
      var front, n := radix[..last], radix[last];
      assert radix == front + [n];
      var q1, i1 := SplitIndex(k, n, Product(front));
      var q2, i2 := SplitIndex(l, n, Product(front));
      forall j | 0 <= j < last ensures DigitAt(front, q1, j) == DigitAt(front, q2, j) {
        DigitSnoc(front, n, q1, i1, k, j);
        DigitSnoc(front, n, q2, i2, l, j);
      }
      DigitSnoc(front, n, q1, i1, k, last);
      DigitSnoc(front, n, q2, i2, l, last);
      DigitsTell(front, q1, q2);
    }
  }

  /** Numbers go up with their digits, the first place deciding: the last place varies fastest. */
  lemma {:induction false} DigitsAscend(radix: seq<nat>, k: nat, l: nat) returns (j: nat)
    requires k < l < Product(radix)
    ensures j < |radix| && DigitAt(radix, k, j) < DigitAt(radix, l, j)
    ensures forall i :: 0 <= i < j ==> DigitAt(radix, k, i) == DigitAt(radix, l, i)
  {
    assert radix != [];
    var last := |radix| - 1;
    var front, n := radix[..last], radix[last];
    assert radix == front + [n];
    var q1, i1 := SplitIndex(k, n, Product(front));
    var q2, i2 := SplitIndex(l, n, Product(front));
    forall i | 0 <= i <= last
      ensures DigitAt(radix, k, i) == if i < last then DigitAt(front, q1, i) else i1
      ensures DigitAt(radix, l, i) == if i < last then DigitAt(front, q2, i) else i2
    {
      DigitSnoc(front, n, q1, i1, k, i);
      DigitSnoc(front, n, q2, i2, l, i);
    }
    if q2 < q1 {
      Positional.MulMono(n, q2 + 1, q1);
      Distribute(q2, 1, n);
    }
    if q1 < q2 { j := DigitsAscend(front, q1, q2); } else { j := last; }
  }

  /** Every choice of digits is some number below the product. */
  lemma {:induction false} DigitsReach(radix: seq<nat>, pick: seq<nat>) returns (k: nat)
    requires |pick| == |radix| && forall j :: 0 <= j < |radix| ==> pick[j] < radix[j]
    ensures k < Product(radix)
    ensures forall j :: 0 <= j < |radix| ==> DigitAt(radix, k, j) == pick[j]
  {
    if radix == [] {
      k := 0;
    } else {
      var last := |radix| - 1;
      var front, n := radix[..last], radix[last];
      assert radix == front + [n];
      var q := DigitsReach(front, pick[..last]);
      k := q * n + pick[last];
      Distribute(q, 1, n);
      Positional.MulMono(n, q + 1, Product(front));
      forall j | 0 <= j < |radix| ensures DigitAt(radix, k, j) == pick[j] {
        DigitSnoc(front, n, q, pick[last], k, j);
      }
    }
  }

  // ---- what a call carries ----

  /** The lengths of the lists. */
  function Radix<V>(each: seq<Entry<V>>): (r: seq<nat>)
    ensures |r| == |each| && forall j :: 0 <= j < |each| ==> r[j] == |each[j].values|
  {
    seq(|each|, j requires 0 <= j < |each| => |each[j].values|)
  }

  lemma RadixSnoc<V>(each: seq<Entry<V>>, e: Entry<V>)
    ensures Radix(each + [e]) == Radix(each) + [|e.values|]
  {
  }

  ghost function KeysOf<V>(each: seq<Entry<V>>): (r: set<string>) { set j | 0 <= j < |each| :: each[j].key }

  /** Call `k`: a value for every key of `each` by its digit, and all else as in `args`. */
  ghost predicate Carries<V>(call: Args<V>, args: Args<V>, each: seq<Entry<V>>, k: nat)
    requires Product(Radix(each)) > 0
  {
    (forall j :: 0 <= j < |each| ==>
      each[j].key in call && call[each[j].key] == each[j].values[DigitAt(Radix(each), k, j)]) &&
    call - KeysOf(each) == args - KeysOf(each)
  }

  // ---- the enumeration ----

  /** `out.flat_map(|base| values.map(|v| base + {key: v}))`. */
  function Expand<V>(out: seq<Args<V>>, e: Entry<V>): (r: seq<Args<V>>)
  {
    if out == [] then []
    else seq(|e.values|, i requires 0 <= i < |e.values| => out[0][e.key := e.values[i]]) + Expand(out[1..], e)
  }

  lemma {:induction false} ExpandLength<V>(out: seq<Args<V>>, e: Entry<V>)
    ensures |Expand(out, e)| == |out| * |e.values|
  {
    if out != [] {
      ExpandLength(out[1..], e);
      Distribute(1, |out| - 1, |e.values|);
    }
  }

  lemma {:induction false} ExpandAt<V>(out: seq<Args<V>>, e: Entry<V>, q: nat, i: nat)
    requires q < |out| && i < |e.values|
    ensures q * |e.values| + i < |Expand(out, e)|
    ensures Expand(out, e)[q * |e.values| + i] == out[q][e.key := e.values[i]]
  {
    if q > 0 {
      ExpandAt(out[1..], e, q - 1, i);
      Distribute(1, q - 1, |e.values|);
    }
  }

  method Calls<V>(args: Args<V>, each: seq<Entry<V>>) returns (out: seq<Args<V>>)
    requires DistinctKeys(each)
    ensures |out| == Product(Radix(each))
    ensures forall k :: 0 <= k < |out| ==> Carries(out[k], args, each, k)
  {
    out := [args];
    for n := 0 to |each|
      invariant |out| == Product(Radix(each[..n]))
      invariant forall k :: 0 <= k < |out| ==> Carries(out[k], args, each[..n], k)
    {
      assert each[..n + 1] == each[..n] + [each[n]];
      ExpandCarries(out, args, each[..n], each[n]);
      out := Expand(out, each[n]);
    }
    assert each[..|each|] == each;
  }

  /** Going through the values of one more key keeps the enumeration. */
  lemma ExpandCarries<V>(out: seq<Args<V>>, args: Args<V>, each: seq<Entry<V>>, e: Entry<V>)
    requires DistinctKeys(each + [e]) && |out| == Product(Radix(each))
    requires forall k :: 0 <= k < |out| ==> Carries(out[k], args, each, k)
    ensures |Expand(out, e)| == Product(Radix(each + [e]))
    ensures forall k :: 0 <= k < |Expand(out, e)| ==> Carries(Expand(out, e)[k], args, each + [e], k)
  {
    ExpandLength(out, e);
    RadixSnoc(each, e);
    forall k | 0 <= k < |Expand(out, e)| ensures Carries(Expand(out, e)[k], args, each + [e], k) {
      var q, i := SplitIndex(k, |e.values|, |out|);
      ExpandAt(out, e, q, i);
      CarriesSnoc(out[q], args, each, e, q, i, k);
    }
  }

  /** Call `q` of the shorter feed with value `i` of the new key is call `q * n + i`. */
  lemma CarriesSnoc<V>(call: Args<V>, args: Args<V>, each: seq<Entry<V>>, e: Entry<V>, q: nat, i: nat, k: nat)
    requires DistinctKeys(each + [e]) && i < |e.values| && k == q * |e.values| + i
    requires Product(Radix(each)) > 0 && Product(Radix(each + [e])) > 0 && Carries(call, args, each, q)
    ensures Carries(call[e.key := e.values[i]], args, each + [e], k)
  {
    var all := each + [e];
    forall j | 0 <= j < |all|
      ensures all[j].key in call[e.key := e.values[i]]
      ensures call[e.key := e.values[i]][all[j].key] == all[j].values[DigitAt(Radix(all), k, j)]
    {
      CarriesAt(call, args, each, e, q, i, k, j);
    }
    KeysSnoc(each, e);
    LeavesRest(call, args, KeysOf(each), e.key, e.values[i]);
  }

  lemma CarriesAt<V>(
    call: Args<V>, args: Args<V>, each: seq<Entry<V>>, e: Entry<V>, q: nat, i: nat, k: nat, j: nat)
    requires DistinctKeys(each + [e]) && i < |e.values| && k == q * |e.values| + i && j <= |each|
    requires Product(Radix(each)) > 0 && Product(Radix(each + [e])) > 0 && Carries(call, args, each, q)
    ensures var all := each + [e];
            all[j].key in call[e.key := e.values[i]] &&
            call[e.key := e.values[i]][all[j].key] == all[j].values[DigitAt(Radix(all), k, j)]
  {
    var all := each + [e];
    RadixSnoc(each, e);
    DigitSnoc(Radix(each), |e.values|, q, i, k, j);
    if j < |each| { assert all[j] == each[j] && all[j].key != all[|each|].key; }
  }

  /** Setting one more key leaves what is outside the keys as it was. */
  lemma LeavesRest<V>(call: Args<V>, args: Args<V>, keys: set<string>, key: string, value: V)
    requires call - keys == args - keys
    ensures call[key := value] - (keys + {key}) == args - (keys + {key})
  {
    assert call[key := value] - (keys + {key}) == (call - keys) - {key};
    assert args - (keys + {key}) == (args - keys) - {key};
  }

  lemma KeysSnoc<V>(each: seq<Entry<V>>, e: Entry<V>)
    ensures KeysOf(each + [e]) == KeysOf(each) + {e.key}
  {
    var all := each + [e];
    assert forall j :: 0 <= j < |each| ==> all[j] == each[j];
    assert all[|each|] == e;
    forall key | key in KeysOf(each) + {e.key} ensures key in KeysOf(all) {
      if key in KeysOf(each) {
        var j :| 0 <= j < |each| && each[j].key == key;
        assert all[j].key == key;
      }
    }
  }

  /** The feed makes a call exactly when no list is empty. */
  lemma SomeCall<V>(each: seq<Entry<V>>)
    ensures Product(Radix(each)) > 0 <==> forall j :: 0 <= j < |each| ==> each[j].values != []
  {
    ProductPositive(Radix(each));
  }

  /** Call `k` takes position `pick[j]` of every list `j`. */
  ghost predicate Picks(radix: seq<nat>, k: nat, pick: seq<nat>) {
    k < Product(radix) && |pick| == |radix| &&
    forall j :: 0 <= j < |radix| ==> DigitAt(radix, k, j) == pick[j]
  }

  /** Every combination of positions is taken by exactly one call. */
  lemma CombinationsOnce(radix: seq<nat>, pick: seq<nat>) returns (k: nat)
    requires |pick| == |radix| && forall j :: 0 <= j < |radix| ==> pick[j] < radix[j]
    ensures Picks(radix, k, pick)
    ensures forall l :: Picks(radix, l, pick) ==> l == k
  {
    k := DigitsReach(radix, pick);
    forall l | Picks(radix, l, pick) ensures l == k { DigitsTell(radix, k, l); }
  }

  /** With no key in both `args` and `each`, a call carries all of `args`. */
  lemma ArgsKept<V>(call: Args<V>, args: Args<V>, each: seq<Entry<V>>, k: nat)
    requires Product(Radix(each)) > 0 && Carries(call, args, each, k)
    requires forall j :: 0 <= j < |each| ==> each[j].key !in args
    ensures call.Keys == args.Keys + KeysOf(each)
    ensures forall key :: key in args ==> call[key] == args[key]
  {
    assert args - KeysOf(each) == args;
    assert call.Keys == (call - KeysOf(each)).Keys + KeysOf(each) by {
      forall key | key in KeysOf(each) ensures key in call {
        var j :| 0 <= j < |each| && each[j].key == key;
      }
    }
    forall key | key in args ensures call[key] == args[key] {
      assert key in call - KeysOf(each);
    }
  }

  // ---- the bound ----

  function SaturatingMul(a: nat, b: nat): (r: nat) { if a * b > USIZE_MAX then USIZE_MAX else a * b }

  /** The check of `calls > MAX_CALLS`, with the count it reports. */
  method CountCalls<V>(each: seq<Entry<V>>) returns (calls: nat, tooMany: bool)
    ensures tooMany <==> Product(Radix(each)) > MAX_CALLS
    ensures calls == if Product(Radix(each)) > USIZE_MAX then USIZE_MAX else Product(Radix(each))
  {
    calls := 1;
    for n := 0 to |each|
      invariant calls == Clamped(Product(Radix(each[..n])))
    {
      assert each[..n + 1] == each[..n] + [each[n]];
      RadixSnoc(each[..n], each[n]);
      calls := SaturatingMul(calls, |each[n].values|);
    }
    assert each[..|each|] == each;
    tooMany := calls > MAX_CALLS;
  }

  function Clamped(n: nat): (r: nat) { if n > USIZE_MAX then USIZE_MAX else n }

}
