/**
 base58 over the Bitcoin alphabet (src/domain/base58.rs).

 The two codec methods keep the source's digit buffers and carry loops. Each is
 proved against a positional specification: leading zero bytes become leading
 `1`s, and the rest is read as one number and written in the other base. The
 codec's laws are then lemmas about that specification.

 A `string` here is the sequence of bytes of the source's UTF-8 string, one
 `char` a byte: the bytes of a non-ASCII character are all outside the alphabet.
 */
module Base58 {
  import opened Prelude
  import opened Positional

  type byte = x: nat | x < 256

  /** `Err` names the first character outside the alphabet. */
  type Decoding = Result<seq<byte>, char>

  // ---- the alphabet ----

  /** The symbol of digit `d`: 0, I, O and l are left out. */
  function Symbol(d: nat): (c: char)
    requires d < 58
  {
    if d < 9 then '1' + d as char
    else if d < 17 then 'A' + (d - 9) as char
    else if d < 22 then 'J' + (d - 17) as char
    else if d < 33 then 'P' + (d - 22) as char
    else if d < 44 then 'a' + (d - 33) as char
    else 'm' + (d - 44) as char
  }

  const ALPHABET: string := seq(58, d requires 0 <= d < 58 => Symbol(d))

  lemma AlphabetSpelledOut()
    ensures ALPHABET == "123456789" + "ABCDEFGHJKLMNPQRSTUVWXYZ" + "abcdefghijkmnopqrstuvwxyz"
  {
  }

  predicate InAlphabet(c: char) { exists d :: 0 <= d < 58 && Symbol(d) == c }

  /** The digit that `c` stands for. */
  ghost function Digit(c: char): (d: nat)
    requires InAlphabet(c)
    ensures d < 58 && Symbol(d) == c
  {
    var d :| 0 <= d < 58 && Symbol(d) == c;
    d
  }

  /** No symbol stands for two digits. */
  lemma DigitOfSymbol(d: nat)
    requires d < 58
    ensures InAlphabet(Symbol(d)) && Digit(Symbol(d)) == d
  {
  }

  /** `ALPHABET.iter().position(..)`. */
  method Position(c: char) returns (p: Option<nat>)
    ensures p.Some? <==> InAlphabet(c)
    ensures p.Some? ==> p.value == Digit(c)
  {
    for i := 0 to |ALPHABET|
      invariant forall k :: 0 <= k < i ==> Symbol(k) != c
    {
      if ALPHABET[i] == c {
        DigitOfSymbol(i);
        return Some(i);
      }
    }
    return None;
  }

  // ---- the specification ----

  function Reverse<T>(s: seq<T>): (r: seq<T>)
    ensures |r| == |s| && forall i :: 0 <= i < |s| ==> r[i] == s[|s| - 1 - i]
  {
    seq(|s|, i requires 0 <= i < |s| => s[|s| - 1 - i])
  }

  function Repeat<T>(x: T, n: nat): (r: seq<T>)
    ensures |r| == n && forall i :: 0 <= i < n ==> r[i] == x
  {
    seq(n, _ => x)
  }

  /** How many elements at the front of `s` equal `x`. */
  function Leading<T(==)>(s: seq<T>, x: T): (n: nat)
    ensures n <= |s| && (forall i :: 0 <= i < n ==> s[i] == x)
    ensures n < |s| ==> s[n] != x
  {
    if s == [] || s[0] != x then 0 else 1 + Leading(s[1..], x)
  }

  /** The number written by `d`, most significant digit first. */
  function BigEndian(d: seq<nat>, base: nat): (r: nat) { Value(Reverse(d), base) }

  /** The same number in another base, both most significant digit first. */
  function Rebase(d: seq<nat>, from: nat, to: nat): (r: seq<nat>)
    requires to >= 2
    ensures Digits(r, to) && (r != [] ==> r[0] != 0)
  {
    Reverse(Numeral(BigEndian(d, from), to))
  }

  function Symbols(d: seq<nat>): (s: string)
    requires Digits(d, 58)
    ensures |s| == |d| && forall i :: 0 <= i < |d| ==> s[i] == Symbol(d[i])
  {
    seq(|d|, i requires 0 <= i < |d| => Symbol(d[i]))
  }

  ghost predicate Base58Text(s: string) { forall i :: 0 <= i < |s| ==> InAlphabet(s[i]) }

  ghost function DigitsOf(s: string): (d: seq<nat>)
    requires Base58Text(s)
    ensures |d| == |s| && Digits(d, 58) && forall i :: 0 <= i < |s| ==> d[i] == Digit(s[i])
  {
    seq(|s|, i requires 0 <= i < |s| => Digit(s[i]))
  }

  /** The base-58 text of `bytes`. */
  function Encoded(bytes: seq<byte>): (r: string) {
    var zeros := Leading(bytes, 0);
    Repeat('1', zeros) + Symbols(Rebase(bytes[zeros..], 256, 58))
  }

  /** The bytes that a text over the alphabet stands for. */
  ghost function Decoded(s: string): (r: seq<byte>)
    requires Base58Text(s)
  {
    Repeat(0, Leading(s, '1')) + DecodedBody(s)
  }

  ghost function DecodedBody(s: string): (r: seq<byte>)
    requires Base58Text(s)
  {
    Rebase(DigitsOf(s[Leading(s, '1')..]), 58, 256)
  }

  // ---- the carry pass: multiply a numeral by `m` and add `c` ----

  function MulAdd(d: seq<nat>, m: nat, c: nat, base: nat): (r: seq<nat>)
    requires base >= 2
  {
    if d == [] then Numeral(c, base)
    else [(c + d[0] * m) % base] + MulAdd(d[1..], m, (c + d[0] * m) / base, base)
  }

  lemma {:induction false} MulAddValue(d: seq<nat>, m: nat, c: nat, base: nat)
    requires base >= 2
    ensures Value(MulAdd(d, m, c, base), base) == m * Value(d, base) + c
  {
    if d == [] {
      NumeralDenotes(c, base);
    } else {
      var t := c + d[0] * m;
      var q, r := t / base, t % base;
      DivMod(t, base);
      MulAddValue(d[1..], m, q, base);
      ValueCons(r, MulAdd(d[1..], m, q, base), base);
      CarryStep(d[0], Value(d[1..], base), m, c, base, q, r);
    }
  }

  lemma CarryStep(x: nat, v: nat, m: nat, c: nat, base: nat, q: nat, r: nat)
    requires c + x * m == base * q + r
    ensures r + base * (m * v + q) == m * (x + base * v) + c
  {
    assert base * (m * v + q) == m * (base * v) + base * q;
    assert m * (x + base * v) == x * m + m * (base * v);
  }

  lemma {:induction false} MulAddCanonical(d: seq<nat>, m: nat, c: nat, base: nat)
    requires base >= 2 && m >= 1 && Canonical(d, base)
    ensures Canonical(MulAdd(d, m, c, base), base)
  {
    if d != [] {
      var rest := MulAdd(d[1..], m, (c + d[0] * m) / base, base);
      MulAddCanonical(d[1..], m, (c + d[0] * m) / base, base);
      if rest == [] {
        MulAddValue(d, m, c, base);
        CanonicalPositive(d, base);
        MulMono(m, 1, Value(d, base));
      }
    }
  }

  // ---- the buffer bounds ----

  lemma RatioGap(a: nat, b: nat, p: nat, q: nat, n: nat, k: nat)
    requires a >= 1 && q > 0 && Pow(a, p) >= Pow(b, q) && p * n <= k * q
    ensures Pow(a, k) >= Pow(b, n)
  {
    RaisedGap(a, b, p, q, n, k, p * n, k * q);
    var high, low := Pow(a, k), Pow(b, n);
    if high < low { PowBaseStrict(high, low, q); }
  }

  lemma RaisedGap(a: nat, b: nat, p: nat, q: nat, n: nat, k: nat, e: nat, f: nat)
    requires a >= 1 && Pow(a, p) >= Pow(b, q) && e == p * n && f == k * q && e <= f
    ensures Pow(Pow(b, n), q) <= Pow(Pow(a, k), q)
  {
    PowSwap(b, n, q);
    PowBaseMono(Pow(b, q), Pow(a, p), n);
    PowMul(a, p, n);
    PowExpMono(a, e, f);
    PowMul(a, k, q);
  }

  lemma ElevenSymbolsHoldEightBytes()
    ensures Pow(58, 11) >= Pow(256, 8)
  {
  }

  /** The two counts by name, so that nothing computes their powers again. */
  lemma ElevenToEight() returns (symbols: nat, bytes: nat)
    ensures symbols == 11 && bytes == 8 && Pow(58, symbols) >= Pow(256, bytes)
  {
    ElevenSymbolsHoldEightBytes();
    symbols, bytes := 11, 8;
  }

  /** log(256) / log(58) < 11 / 8 < 1.38. */
  lemma PowerGap(n: nat, k: nat)
    requires 100 * k > 138 * n
    ensures Pow(58, k) >= Pow(256, n)
  {
    var symbols, bytes := ElevenToEight();
    RatioGap(58, 256, symbols, bytes, n, k);
  }

  /** `bytes.len() * 138 / 100 + 1` base-58 digits hold `n <= len` bytes. */
  lemma EncodeFits(d: seq<nat>, n: nat, len: nat)
    requires Canonical(d, 58) && Value(d, 58) < Pow(256, n) && n <= len
    ensures |d| <= len * 138 / 100 + 1
  {
    if d != [] {
      ValueAtLeast(d, 58);
      if 100 * (|d| - 1) > 138 * n { PowerGap(n, |d| - 1); }
    }
  }

  /** A base-256 numeral is no longer than a base-58 one of the same number. */
  lemma DecodeFits(d: seq<nat>, n: nat)
    requires Canonical(d, 256) && Value(d, 256) < Pow(58, n)
    ensures |d| <= n
  {
    if |d| > n {
      ValueAtLeast(d, 256);
      PowBaseMono(58, 256, n);
      PowExpMono(256, n, |d| - 1);
    }
  }

  lemma BigEndianBelow(d: seq<nat>, base: nat)
    requires base >= 2 && Digits(d, base)
    ensures BigEndian(d, base) < Pow(base, |d|)
  {
    ValueBelow(Reverse(d), base);
  }

  lemma BigEndianSnoc(d: seq<nat>, x: nat, base: nat)
    ensures BigEndian(d + [x], base) == base * BigEndian(d, base) + x
  {
    assert Reverse(d + [x]) == [x] + Reverse(d);
  }

  /** One more input digit `x` in base `m`: the carry pass keeps the value. */
  lemma CarryPass(d: seq<nat>, prefix: seq<nat>, x: nat, m: nat, base: nat)
    requires base >= 2 && m >= 1 && Canonical(d, base) && Value(d, base) == BigEndian(prefix, m)
    ensures Canonical(MulAdd(d, m, x, base), base)
    ensures Value(MulAdd(d, m, x, base), base) == BigEndian(prefix + [x], m)
  {
    MulAddValue(d, m, x, base);
    MulAddCanonical(d, m, x, base);
    BigEndianSnoc(prefix, x, m);
  }

  lemma EncodeStep(d: seq<nat>, prefix: seq<byte>, x: byte, len: nat)
    requires Canonical(d, 58) && Value(d, 58) == BigEndian(prefix, 256) && |prefix| < len
    ensures var next := MulAdd(d, 256, x, 58);
            Canonical(next, 58) && Value(next, 58) == BigEndian(prefix + [x], 256) &&
            |next| <= len * 138 / 100 + 1
  {
    CarryPass(d, prefix, x, 256, 58);
    BigEndianBelow(prefix + [x], 256);
    EncodeFits(MulAdd(d, 256, x, 58), |prefix| + 1, len);
  }

  lemma DecodeStep(d: seq<nat>, prefix: seq<nat>, x: nat)
    requires Canonical(d, 256) && Value(d, 256) == BigEndian(prefix, 58)
    requires Digits(prefix, 58) && x < 58
    ensures var next := MulAdd(d, 58, x, 256);
            Canonical(next, 256) && Value(next, 256) == BigEndian(prefix + [x], 58) &&
            |next| <= |prefix| + 1
  {
    CarryPass(d, prefix, x, 58, 256);
    BigEndianBelow(prefix + [x], 58);
    DecodeFits(MulAdd(d, 58, x, 256), |prefix| + 1);
  }

  // ---- the codec ----

  /** The pass over `was` has stored its result below `i`; the rest is still to do. */
  ghost predicate Passing(was: seq<nat>, next: seq<nat>, buf: seq<nat>, i: nat, m: nat, carry: nat, base: nat)
    requires base >= 2
  {
    i <= |was| == |buf| && i <= |next| && buf[..i] == next[..i] && buf[i..] == was[i..] &&
    next[i..] == MulAdd(was[i..], m, carry, base)
  }

  lemma PassDigit(was: seq<nat>, next: seq<nat>, buf: seq<nat>, i: nat, m: nat, carry: nat, base: nat, t: nat)
    requires base >= 2 && m > carry && Digits(was, base)
    requires Passing(was, next, buf, i, m, carry, base) && i < |was| && t == carry + buf[i] * m
    ensures 0 <= t % base && 0 <= t / base < m
    ensures Passing(was, next, buf[i := t % base], i + 1, m, t / base, base)
  {
    CarryBound(carry, was[i], m, base, carry + was[i] * m);
    assert buf[i] == buf[i..][0] == was[i..][0];
    assert was[i..][1..] == was[i + 1..] && buf[i..][1..] == buf[i + 1..];
    assert next[i] == next[i..][0] && next[i + 1..] == next[i..][1..];
  }

  /** All digits passed; what is left in the carry is pushed digit by digit. */
  ghost predicate Pushing(next: seq<nat>, buf: seq<nat>, carry: nat, base: nat)
    requires base >= 2
  {
    |buf| <= |next| && buf == next[..|buf|] && next[|buf|..] == Numeral(carry, base)
  }

  lemma StartPushing(was: seq<nat>, next: seq<nat>, buf: seq<nat>, m: nat, carry: nat, base: nat)
    requires base >= 2 && Passing(was, next, buf, |buf|, m, carry, base)
    ensures Pushing(next, buf, carry, base)
  {
    assert buf[..|buf|] == buf && was[|buf|..] == [];
  }

  lemma PushDigit(next: seq<nat>, buf: seq<nat>, carry: nat, base: nat)
    requires base >= 2 && Pushing(next, buf, carry, base) && carry > 0
    ensures Pushing(next, buf + [carry % base], carry / base, base) && carry / base < carry
  {
    Shrinks(carry, base);
    var i := |buf|;
    assert next[i] == next[i..][0] && next[i + 1..] == next[i..][1..];
  }

  /** What is stored is a digit, what is carried stays below `m`. */
  lemma CarryBound(c: nat, d: nat, m: nat, base: nat, t: nat)
    requires base >= 2 && c < m && d < base && t == c + d * m
    ensures 0 <= t % base < base && 0 <= t / base < m
  {
    DivMod(t, base);
    MulMono(m, d + 1, base);
    NextTimes(d, m);
    CarryBelow(c, d * m, m, base * m, t / base, base * (t / base), base, t);
  }

  lemma NextTimes(d: nat, m: nat)
    ensures (d + 1) * m == d * m + m
  {
  }

  /** The bound on the products: `t` stays below `base * m`, so its quotient stays below `m`. */
  lemma CarryBelow(c: nat, dm: nat, m: nat, bm: nat, q: nat, bq: nat, base: nat, t: nat)
    requires base >= 2 && bm == base * m && bq == base * q
    requires c < m && t == c + dm && dm + m <= bm && bq <= t
    ensures q < m
  {
    if q >= m { MulMono(base, m, q); }
  }

  /** The first inner loop: carry through the digits already stored. */
  method CarryThrough(was: seq<nat>, m: nat, x: nat, base: nat) returns (buf: seq<nat>, carry: nat)
    requires base >= 2 && x < m && Digits(was, base)
    ensures Pushing(MulAdd(was, m, x, base), buf, carry, base) && carry < m
  {
    buf, carry := was, x;
    ghost var next := MulAdd(was, m, x, base);
    var i := 0;
    while i < |buf|
      invariant Passing(was, next, buf, i, m, carry, base) && carry < m
    {
      var t: nat := carry + buf[i] * m;
      PassDigit(was, next, buf, i, m, carry, base, t);
      buf := buf[i := t % base];
      carry := t / base;
      i := i + 1;
    }
    StartPushing(was, next, buf, m, carry, base);
  }

  /**
   The loops over the buffer for one input digit. The source writes them once
   with `<< 8`, `% 58` and `/ 58` (m = 256, base = 58) and once with `* 58`,
   `& 0xff` and `>> 8` (m = 58, base = 256).
  */
  method AddDigit(was: seq<nat>, m: nat, x: nat, base: nat) returns (buf: seq<nat>)
    requires base >= 2 && x < m && Digits(was, base)
    ensures buf == MulAdd(was, m, x, base)
  {
    var carry: nat;
    buf, carry := CarryThrough(was, m, x, base);
    while carry > 0
      invariant Pushing(MulAdd(was, m, x, base), buf, carry, base)
    {
      PushDigit(MulAdd(was, m, x, base), buf, carry, base);
      buf := buf + [carry % base];
      carry := carry / base;
    }
  }

  /** `take_while(|b| **b == x).count()`. */
  method CountLeading<T(==)>(s: seq<T>, x: T) returns (n: nat)
    ensures n == Leading(s, x)
  {
    n := 0;
    while n < |s| && s[n] == x
      invariant n <= |s| && Leading(s, x) == n + Leading(s[n..], x)
    {
      n := n + 1;
    }
  }

  method Encode(bytes: seq<byte>) returns (out: string)
    ensures out == Encoded(bytes)
  {
    var zeros := CountLeading(bytes, 0);
    var body := bytes[zeros..];
    var digits: seq<nat> := [];
    for k := 0 to |body|
      invariant Canonical(digits, 58) && |digits| <= |bytes| * 138 / 100 + 1
      invariant Value(digits, 58) == BigEndian(body[..k], 256)
    {
      EncodeStep(digits, body[..k], body[k], |bytes|);
      digits := AddDigit(digits, 256, body[k], 58);
      assert body[..k + 1] == body[..k] + [body[k]];
    }
    assert body[..|body|] == body;
    NumeralOfValue(digits, 58);
    out := Repeat('1', zeros) + Symbols(Reverse(digits));
  }

  /** `bytes` holds the number that the symbols of `s` from `ones` to `k` write. */
  ghost predicate HasRead(s: string, ones: nat, k: nat, bytes: seq<nat>)
    requires ones <= k <= |s|
  {
    Base58Text(s[..k]) && Base58Text(s[ones..k]) && Canonical(bytes, 256) && |bytes| <= k - ones &&
    Value(bytes, 256) == BigEndian(DigitsOf(s[ones..k]), 58)
  }

  lemma ReadOne(s: string, ones: nat, k: nat, bytes: seq<nat>, d: nat)
    requires ones <= k < |s| && HasRead(s, ones, k, bytes) && InAlphabet(s[k]) && d == Digit(s[k])
    ensures HasRead(s, ones, k + 1, MulAdd(bytes, 58, d, 256))
  {
    assert s[..k + 1] == s[..k] + [s[k]] && s[ones..k + 1] == s[ones..k] + [s[k]];
    assert DigitsOf(s[ones..k + 1]) == DigitsOf(s[ones..k]) + [d];
    DecodeStep(bytes, DigitsOf(s[ones..k]), d);
  }

  lemma ReadAll(s: string, bytes: seq<nat>)
    requires HasRead(s, Leading(s, '1'), |s|, bytes)
    ensures Base58Text(s) && |bytes| <= |s| && Reverse(bytes) == DecodedBody(s)
  {
    assert s[..|s|] == s;
    var body := s[Leading(s, '1')..];
    assert s[Leading(s, '1')..|s|] == body;
    NumeralOfValue(bytes, 256);
  }

  lemma OnesAreText(s: string, ones: nat)
    requires ones <= |s| && forall i :: 0 <= i < ones ==> s[i] == '1'
    ensures HasRead(s, ones, ones, [])
  {
    OneIsZero();
  }

  /** `c` is the first character of `s` outside the alphabet. */
  ghost predicate FirstForeign(s: string, c: char) {
    exists k :: 0 <= k < |s| && s[k] == c && !InAlphabet(c) && Base58Text(s[..k])
  }

  /** The loop over the symbols after the leading `1`s. */
  method DecodeBody(s: string, ones: nat) returns (r: Result<seq<nat>, char>)
    requires ones <= |s| && forall i :: 0 <= i < ones ==> s[i] == '1'
    ensures r.Ok? ==> HasRead(s, ones, |s|, r.value)
    ensures r.Err? ==> FirstForeign(s, r.error)
  {
    OnesAreText(s, ones);
    var bytes: seq<nat> := [];
    for k := ones to |s|
      invariant HasRead(s, ones, k, bytes)
    {
      var p := Position(s[k]);
      if p.None? {
        return Err(s[k]);
      }
      ReadOne(s, ones, k, bytes, p.value);
      bytes := AddDigit(bytes, 58, p.value, 256);
    }
    r := Ok(bytes);
  }

  method Decode(s: string) returns (r: Decoding)
    ensures r.Ok? <==> Base58Text(s)
    ensures r.Ok? ==> r.value == Decoded(s)
    ensures r.Err? ==> FirstForeign(s, r.error)
  {
    var ones := CountLeading(s, '1');
    var body := DecodeBody(s, ones);
    match body
    case Ok(bytes) =>
      ReadAll(s, bytes);
      r := Ok(Repeat(0, ones) + Reverse(bytes));
    case Err(c) =>
      r := Err(c);
  }

  // ---- the laws ----

  /** A prefix of `x` then something that does not start with `x` splits one way. */
  lemma LeadingSplit<T>(x: T, n: nat, rest: seq<T>)
    requires rest != [] ==> rest[0] != x
    ensures Leading(Repeat(x, n) + rest, x) == n
    ensures (Repeat(x, n) + rest)[n..] == rest
  {
    var s := Repeat(x, n) + rest;
    assert s[n..] == rest;
    assert n < |s| ==> s[n] == rest[0];
  }

  lemma LeadingRest<T>(s: seq<T>, x: T)
    ensures s == Repeat(x, Leading(s, x)) + s[Leading(s, x)..]
  {
  }

  /** Changing the base loses nothing but leading zeros. */
  lemma RebaseBack(d: seq<nat>, base: nat, other: nat)
    requires base >= 2 && other >= 2 && Digits(d, base) && (d != [] ==> d[0] != 0)
    ensures Rebase(Rebase(d, base, other), other, base) == d
  {
    RebaseValue(d, base, other);
    ReverseTwice(d);
    NumeralOfValue(Reverse(d), base);
  }

  lemma ReverseTwice<T>(s: seq<T>)
    ensures Reverse(Reverse(s)) == s
  {
  }

  /** The same number. */
  lemma RebaseValue(d: seq<nat>, base: nat, other: nat)
    requires other >= 2
    ensures BigEndian(Rebase(d, base, other), other) == BigEndian(d, base)
  {
    var v := BigEndian(d, base);
    ReverseTwice(Numeral(v, other));
    NumeralDenotes(v, other);
  }

  lemma DigitsOfSymbols(d: seq<nat>)
    requires Digits(d, 58)
    ensures Base58Text(Symbols(d)) && DigitsOf(Symbols(d)) == d
  {
    forall i | 0 <= i < |d| ensures DigitsOf(Symbols(d))[i] == d[i] { DigitOfSymbol(d[i]); }
  }

  lemma SymbolsOfDigits(s: string)
    requires Base58Text(s)
    ensures Symbols(DigitsOf(s)) == s
  {
  }

  lemma OneIsZero()
    ensures Symbol(0) == '1' && InAlphabet('1') && Digit('1') == 0
  {
    DigitOfSymbol(0);
  }

  /** `1`s, then a text that does not start with one, decode part by part. */
  lemma DecodedParts(n: nat, d: seq<nat>)
    requires Digits(d, 58) && (d != [] ==> d[0] != 0)
    ensures Base58Text(Repeat('1', n) + Symbols(d))
    ensures Decoded(Repeat('1', n) + Symbols(d)) == Repeat(0, n) + Rebase(d, 58, 256)
  {
    var s := Repeat('1', n) + Symbols(d);
    OneIsZero();
    DigitsOfSymbols(d);
    assert Base58Text(s);
    assert d != [] ==> Symbols(d)[0] != '1' by { if d != [] { DigitOfSymbol(d[0]); } }
    LeadingSplit('1', n, Symbols(d));
    assert s[Leading(s, '1')..] == Symbols(d);
  }

  /** Zero bytes, then a number without a leading zero, encode part by part. */
  lemma EncodedParts(n: nat, b: seq<byte>)
    requires b != [] ==> b[0] != 0
    ensures Encoded(Repeat(0, n) + b) == Repeat('1', n) + Symbols(Rebase(b, 256, 58))
  {
    LeadingSplit(0 as byte, n, b);
  }

  /** Every byte sequence encodes to a text over the alphabet that decodes to it. */
  lemma DecodeOfEncode(bytes: seq<byte>)
    ensures Base58Text(Encoded(bytes)) && Decoded(Encoded(bytes)) == bytes
  {
    var zeros := Leading(bytes, 0);
    DecodedParts(zeros, Rebase(bytes[zeros..], 256, 58));
    RebaseBack(bytes[zeros..], 256, 58);
    LeadingRest(bytes, 0);
  }

  lemma NoLeadingZero(body: string)
    requires Base58Text(body) && (body != [] ==> body[0] != '1')
    ensures body != [] ==> DigitsOf(body)[0] != 0
  {
    OneIsZero();
  }

  /** Every text over the alphabet decodes to bytes that encode to it. */
  lemma EncodeOfDecode(s: string)
    requires Base58Text(s)
    ensures Encoded(Decoded(s)) == s
  {
    var ones := Leading(s, '1');
    var d := DigitsOf(s[ones..]);
    NoLeadingZero(s[ones..]);
    EncodedParts(ones, DecodedBody(s));
    RebaseBack(d, 58, 256);
    SymbolsOfDigits(s[ones..]);
    LeadingRest(s, '1');
  }

  /** The same text never stands for two byte sequences, nor the converse. */
  lemma EncodeInjective(a: seq<byte>, b: seq<byte>)
    requires Encoded(a) == Encoded(b)
    ensures a == b
  {
    DecodeOfEncode(a);
    DecodeOfEncode(b);
  }

  /** The lengths the two buffers are reserved for. */
  lemma CodecLengths(bytes: seq<byte>, s: string)
    ensures |Encoded(bytes)| <= Leading(bytes, 0) + |bytes| * 138 / 100 + 1
    ensures Base58Text(s) ==> |Decoded(s)| <= |s|
  {
    var body := bytes[Leading(bytes, 0)..];
    BigEndianBelow(body, 256);
    NumeralDenotes(BigEndian(body, 256), 58);
    EncodeFits(Numeral(BigEndian(body, 256), 58), |body|, |bytes|);
    if Base58Text(s) {
      var d := DigitsOf(s[Leading(s, '1')..]);
      BigEndianBelow(d, 58);
      NumeralDenotes(BigEndian(d, 58), 256);
      DecodeFits(Numeral(BigEndian(d, 58), 256), |d|);
    }
  }

  /** Both round trips through the methods themselves. */
  method RoundTrip(bytes: seq<byte>, s: string) returns (again: Decoding, text: Option<string>)
    ensures again == Ok(bytes)
    ensures text == if Base58Text(s) then Some(s) else None
  {
    var e := Encode(bytes);
    DecodeOfEncode(bytes);
    again := Decode(e);
    var d := Decode(s);
    text := None;
    if d.Ok? {
      EncodeOfDecode(s);
      var t := Encode(d.value);
      text := Some(t);
    }
  }
}
