/**
 The rows a regrade reads (src/application/evidence.rs): the windows around each
 instant and every funding hour, merged so that no row is read twice, then sorted
 and thinned to one row per instant. A window is half-open: (a, b) holds a <= t < b.
*/
module EvidenceWindows {
  import opened Prelude
  import opened StableSort

  const HOUR_MS: int := 3_600_000

  type Span = (int, int)

  predicate Inside(w: Span, t: int) { w.0 <= t < w.1 }

  ghost predicate Covers(ws: seq<Span>, t: int) { exists i :: 0 <= i < |ws| && Inside(ws[i], t) }

  function BySpan(): (r: (Span, Span) -> bool) {
    (a: Span, b: Span) => a.0 < b.0 || (a.0 == b.0 && a.1 <= b.1)
  }

  /** In order, with a gap between neighbours: no instant is in two of them. */
  ghost predicate Apart(ws: seq<Span>) {
    forall i, j :: 0 <= i < j < |ws| ==> ws[i].1 < ws[j].0
  }

  /** Merging keeps every instant covered and covers no other, in strictly separated windows. */
  method Merge(input: seq<Span>) returns (out: seq<Span>)
    ensures Apart(out)
    ensures forall t :: Covers(out, t) <==> Covers(input, t)
  {
    var spans := Sort(input, BySpan());
    SortedSpans(input);
    out := [];
    for n := 0 to |spans|
      invariant Joined(out, spans[..n])
    {
      var s := spans[n];
      SortedUpTo(spans, n);
      JoinOne(out, spans[..n], s);
      ghost var next := Join(out, s);
      if out != [] && s.0 <= out[|out| - 1].1 {
        out := out[|out| - 1 := (out[|out| - 1].0, Max(out[|out| - 1].1, s.1))];
      } else {
        out := out + [s];
      }
      assert out == next;
    }
    assert spans[..|spans|] == spans;
  }

  lemma SortedUpTo(spans: seq<Span>, n: nat)
    requires n < |spans| && Sorted(spans, BySpan())
    ensures spans[..n + 1] == spans[..n] + [spans[n]] && Sorted(spans[..n] + [spans[n]], BySpan())
  {
  }

  lemma SortedSpans(input: seq<Span>)
    ensures Sorted(Sort(input, BySpan()), BySpan())
    ensures forall t :: Covers(Sort(input, BySpan()), t) <==> Covers(input, t)
  {
    SortSorts(input, BySpan());
    forall t ensures Covers(Sort(input, BySpan()), t) <==> Covers(input, t) {
      SameCover(Sort(input, BySpan()), input, t);
    }
  }

  function Max(a: int, b: int): (r: int) { if a > b then a else b }

  /** `out` covers what `done` does; its windows start in order, the last not after the last of `done`. */
  ghost predicate Joined(out: seq<Span>, done: seq<Span>) {
    Apart(out) && (forall t :: Covers(out, t) <==> Covers(done, t)) &&
    (out == [] <==> done == []) && (out != [] ==> out[|out| - 1].0 <= done[|done| - 1].0) &&
    (forall i :: 0 <= i < |out| ==> out[i].0 <= out[|out| - 1].0)
  }

  /** The loop's step. */
  function Join(out: seq<Span>, s: Span): (r: seq<Span>) {
    if out != [] && s.0 <= out[|out| - 1].1 then out[|out| - 1 := (out[|out| - 1].0, Max(out[|out| - 1].1, s.1))]
    else out + [s]
  }

  lemma JoinOne(out: seq<Span>, done: seq<Span>, s: Span)
    requires Joined(out, done) && Sorted(done + [s], BySpan())
    ensures Joined(Join(out, s), done + [s])
  {
    var next, all := Join(out, s), done + [s];
    forall t ensures Covers(next, t) <==> Covers(all, t) { JoinCovers(out, done, s, t); }
    if done != [] { assert BySpan()(all[|done| - 1], all[|done|]); }
    JoinApart(out, s);
  }

  lemma JoinApart(out: seq<Span>, s: Span)
    requires Apart(out) && (out != [] ==> out[|out| - 1].0 <= s.0)
    requires forall i :: 0 <= i < |out| ==> out[i].0 <= out[|out| - 1].0
    ensures Apart(Join(out, s))
  {
    if out != [] { assert forall i :: 0 <= i < |out| - 1 ==> out[i].1 < out[|out| - 1].0; }
  }

  lemma JoinCovers(out: seq<Span>, done: seq<Span>, s: Span, t: int)
    requires Joined(out, done) && Sorted(done + [s], BySpan())
    ensures Covers(Join(out, s), t) <==> Covers(done + [s], t)
  {
    CoversSnoc(done, s, t);
    if done != [] {
      assert BySpan()((done + [s])[|done| - 1], (done + [s])[|done|]);
      JoinAdds(out, s, t);
    } else {
      CoversSnoc(out, s, t);
    }
  }

  lemma CoversSnoc(done: seq<Span>, s: Span, t: int)
    ensures Covers(done + [s], t) <==> Covers(done, t) || Inside(s, t)
  {
    CoversAppend(done, [s], t);
    assert Covers([s], t) <==> Inside(s, t) by { assert [s][0] == s; }
  }

  /** Joining a window that starts no earlier than the last covers that window's instants besides. */
  lemma JoinAdds(out: seq<Span>, s: Span, t: int)
    requires out != [] && out[|out| - 1].0 <= s.0
    ensures Covers(Join(out, s), t) <==> Covers(out, t) || Inside(s, t)
  {
    var front, last := out[..|out| - 1], out[|out| - 1];
    assert out == front + [last];
    CoversSnoc(front, last, t);
    if s.0 <= last.1 {
      var joined := (last.0, Max(last.1, s.1));
      assert Join(out, s) == front + [joined];
      CoversSnoc(front, joined, t);
    } else {
      CoversSnoc(out, s, t);
    }
  }

  lemma SameCover(a: seq<Span>, b: seq<Span>, t: int)
    requires multiset(a) == multiset(b)
    ensures Covers(a, t) <==> Covers(b, t)
  {
    if Covers(a, t) {
      var i :| 0 <= i < |a| && Inside(a[i], t);
      assert a[i] in multiset(a);
      assert a[i] in multiset(b) && a[i] in b;
      var j :| 0 <= j < |b| && b[j] == a[i];
      assert Inside(b[j], t);
    }
    if Covers(b, t) {
      var i :| 0 <= i < |b| && Inside(b[i], t);
      assert b[i] in multiset(b);
      assert b[i] in multiset(a) && b[i] in a;
      var j :| 0 <= j < |a| && a[j] == b[i];
      assert Inside(a[j], t);
    }
  }

  // ---- which windows ----

  datatype Instants = Instants(anchor: int, entry: int, exit: int, signal: int)

  datatype Limits = Limits(anchorAge: int, ctxAge: int, bookAge: int, fundingAge: int)

  /** `h` is a full hour after `entry`, up to and including `exit`. */
  predicate FundingHour(inst: Instants, h: int) { h % HOUR_MS == 0 && inst.entry < h <= inst.exit }

  /** The window before `h` of the `k`-th full hour after the entry. */
  function NthHour(inst: Instants, k: nat): (r: int) { (inst.entry / HOUR_MS + 1 + k) * HOUR_MS }

  lemma NthIsHour(inst: Instants, k: nat)
    ensures NthHour(inst, k) % HOUR_MS == 0 && NthHour(inst, k) > inst.entry
    ensures NthHour(inst, k + 1) == NthHour(inst, k) + HOUR_MS
  {
    assert inst.entry == inst.entry / HOUR_MS * HOUR_MS + inst.entry % HOUR_MS;
  }

  lemma HourIsNth(inst: Instants, h: int) returns (k: nat)
    requires h % HOUR_MS == 0 && h > inst.entry
    ensures h == NthHour(inst, k)
  {
    assert inst.entry == inst.entry / HOUR_MS * HOUR_MS + inst.entry % HOUR_MS;
    assert h == h / HOUR_MS * HOUR_MS;
    k := h / HOUR_MS - inst.entry / HOUR_MS - 1;
  }

  function HourSpan(lim: Limits, h: int): (r: Span) { (h - lim.fundingAge, h + 1) }

  ghost predicate ForHour(out: seq<Span>, lim: Limits, h: int) {
    exists i :: 0 <= i < |out| && out[i] == HourSpan(lim, h)
  }

  /** One window for each full hour in (entry, exit], in order. */
  ghost predicate Hourly(inst: Instants, lim: Limits, out: seq<Span>) {
    (forall i, j :: 0 <= i < j < |out| ==> out[i].1 < out[j].1) &&
    (forall i :: 0 <= i < |out| ==> FundingHour(inst, out[i].1 - 1) && out[i] == HourSpan(lim, out[i].1 - 1)) &&
    (forall h :: FundingHour(inst, h) ==> ForHour(out, lim, h))
  }

  method HourWindows(inst: Instants, lim: Limits) returns (out: seq<Span>)
    ensures Hourly(inst, lim, out)
  {
    out := [];
    var h := (inst.entry / HOUR_MS + 1) * HOUR_MS;
    assert h == NthHour(inst, 0);
    while h <= inst.exit
      invariant h == NthHour(inst, |out|)
      invariant Begun(inst, lim, out, |out|)
      decreases inst.exit - h
    {
      NthIsHour(inst, |out|);
      BegunStep(inst, lim, out, h);
      out := out + [(h - lim.fundingAge, h + 1)];
      h := h + HOUR_MS;
    }
    BegunAll(inst, lim, out);
  }

  /** The windows so far are those of the first `n` full hours. */
  ghost predicate Begun(inst: Instants, lim: Limits, out: seq<Span>, n: nat) {
    |out| == n && forall i :: 0 <= i < n ==> out[i] == HourSpan(lim, NthHour(inst, i)) && NthHour(inst, i) <= inst.exit
  }

  lemma BegunStep(inst: Instants, lim: Limits, out: seq<Span>, h: int)
    requires Begun(inst, lim, out, |out|) && h == NthHour(inst, |out|) && h <= inst.exit
    ensures Begun(inst, lim, out + [HourSpan(lim, h)], |out| + 1)
  {
  }

  lemma BegunAll(inst: Instants, lim: Limits, out: seq<Span>)
    requires Begun(inst, lim, out, |out|) && NthHour(inst, |out|) > inst.exit
    ensures Hourly(inst, lim, out)
  {
    forall i | 0 <= i < |out| ensures FundingHour(inst, out[i].1 - 1) { NthIsHour(inst, i); }
    forall h | FundingHour(inst, h) ensures ForHour(out, lim, h) { BegunHour(inst, lim, out, h); }
  }

  lemma BegunHour(inst: Instants, lim: Limits, out: seq<Span>, h: int)
    requires Begun(inst, lim, out, |out|) && NthHour(inst, |out|) > inst.exit && FundingHour(inst, h)
    ensures ForHour(out, lim, h)
  {
    var k := HourIsNth(inst, h);
    assert out[k] == HourSpan(lim, h);
  }

  /** Some funding hour is near enough after `t`. */
  ghost predicate FundingWanted(inst: Instants, lim: Limits, t: int) {
    exists h :: FundingHour(inst, h) && h - lim.fundingAge <= t <= h
  }

  /** What the context rows are read for: the four instants, and every funding hour. */
  ghost predicate CtxWanted(inst: Instants, lim: Limits, t: int) {
    inst.anchor - lim.anchorAge <= t <= inst.anchor ||
    inst.entry - lim.ctxAge <= t <= inst.entry ||
    inst.signal - lim.ctxAge <= t <= inst.signal ||
    inst.exit - lim.ctxAge <= t <= inst.exit ||
    FundingWanted(inst, lim, t)
  }

  /** The windows before the four instants. */
  function FourSpans(inst: Instants, lim: Limits): (r: seq<Span>) {
    [(inst.anchor - lim.anchorAge, inst.anchor + 1),
     (inst.entry - lim.ctxAge, inst.entry + 1),
     (inst.signal - lim.ctxAge, inst.signal + 1),
     (inst.exit - lim.ctxAge, inst.exit + 1)]
  }

  method CtxWindows(inst: Instants, lim: Limits) returns (out: seq<Span>)
    ensures Apart(out)
    ensures forall t :: Covers(out, t) <==> CtxWanted(inst, lim, t)
  {
    var hourly := HourWindows(inst, lim);
    out := Merge(FourSpans(inst, lim) + hourly);
    forall t ensures Covers(FourSpans(inst, lim) + hourly, t) <==> CtxWanted(inst, lim, t) {
      CtxCovered(inst, lim, hourly, t);
    }
  }

  lemma CtxCovered(inst: Instants, lim: Limits, hourly: seq<Span>, t: int)
    requires Hourly(inst, lim, hourly)
    ensures Covers(FourSpans(inst, lim) + hourly, t) <==> CtxWanted(inst, lim, t)
  {
    var four := FourSpans(inst, lim);
    CoversAppend(four, hourly, t);
    FourCovered(four, t);
  }

  lemma FourCovered(four: seq<Span>, t: int)
    requires |four| == 4
    ensures Covers(four, t) <==> Inside(four[0], t) || Inside(four[1], t) || Inside(four[2], t) || Inside(four[3], t)
  {
  }

  lemma CoversAppend(a: seq<Span>, b: seq<Span>, t: int)
    ensures Covers(a + b, t) <==> Covers(a, t) || Covers(b, t)
  {
    var s := a + b;
    if Covers(s, t) {
      var i :| 0 <= i < |s| && Inside(s[i], t);
      assert i < |a| ==> Inside(a[i], t);
      assert i >= |a| ==> Inside(b[i - |a|], t);
    }
    if Covers(a, t) {
      var i :| 0 <= i < |a| && Inside(a[i], t);
      assert Inside(s[i], t);
    }
    if Covers(b, t) {
      var i :| 0 <= i < |b| && Inside(b[i], t);
      assert Inside(s[|a| + i], t);
    }
  }

  method BookWindows(inst: Instants, lim: Limits) returns (out: seq<Span>)
    ensures Apart(out)
    ensures forall t :: Covers(out, t) <==>
              inst.entry - lim.bookAge <= t <= inst.entry + lim.bookAge ||
              inst.exit - lim.bookAge <= t <= inst.exit + lim.bookAge
  {
    var two := [
      (inst.entry - lim.bookAge, inst.entry + lim.bookAge + 1),
      (inst.exit - lim.bookAge, inst.exit + lim.bookAge + 1)];
    out := Merge(two);
    forall t ensures Covers(two, t) <==> Inside(two[0], t) || Inside(two[1], t) {
    }
  }

  // ---- reading them ----

  datatype Row<T> = Row(at: int, data: T)

  /** `history.rows(key, a, b)`: the rows of the window, in the order recorded. */
  function Rows<T>(history: seq<Row<T>>, w: Span): (r: seq<Row<T>>) {
    if history == [] then []
    else (if Inside(w, history[0].at) then [history[0]] else []) + Rows(history[1..], w)
  }

  lemma {:induction false} RowsCount<T>(history: seq<Row<T>>, w: Span, r: Row<T>)
    ensures multiset(Rows(history, w))[r] == if Inside(w, r.at) then multiset(history)[r] else 0
  {
    if history != [] {
      RowsCount(history[1..], w, r);
      assert history == [history[0]] + history[1..];
    }
  }

  function ByInstant<T>(): (r: (Row<T>, Row<T>) -> bool) { (a: Row<T>, b: Row<T>) => a.at <= b.at }

  lemma InstantOrder<T(!new)>()
    ensures TotalPreorder(ByInstant<T>())
  {
  }

  /** Keep the first of every run of rows with one instant. */
  function Dedup<T>(rows: seq<Row<T>>): (r: seq<Row<T>>) {
    if rows == [] then []
    else
      var rest := Dedup(rows[1..]);
      if rest != [] && rest[0].at == rows[0].at then [rows[0]] + rest[1..] else [rows[0]] + rest
  }

  lemma {:induction false} DedupMembers<T>(rows: seq<Row<T>>)
    ensures var d := Dedup(rows);
            (d == [] <==> rows == []) && (d != [] ==> d[0] == rows[0]) && forall r :: r in d ==> r in rows
  {
    if rows != [] {
      assert rows == [rows[0]] + rows[1..];
      DedupMembers(rows[1..]);
    }
  }

  ghost predicate Ascending<T>(rows: seq<Row<T>>) {
    forall i, j :: 0 <= i < j < |rows| ==> rows[i].at < rows[j].at
  }

  /** Thinning sorted rows leaves strictly ascending instants. */
  lemma {:induction false} DedupAscends<T(!new)>(rows: seq<Row<T>>)
    requires Sorted(rows, ByInstant<T>())
    ensures Ascending(Dedup(rows))
  {
    if rows != [] {
      var rest := Dedup(rows[1..]);
      DedupAscends(rows[1..]);
      DedupMembers(rows[1..]);
      if rest != [] { assert ByInstant<T>()(rows[0], rows[1]); }
    }
  }

  ghost predicate HasInstant<T>(rows: seq<Row<T>>, t: int) { exists i :: 0 <= i < |rows| && rows[i].at == t }

  lemma InstantCons<T>(r: Row<T>, rows: seq<Row<T>>, t: int)
    ensures HasInstant([r] + rows, t) <==> r.at == t || HasInstant(rows, t)
  {
    var all := [r] + rows;
    if r.at == t { assert all[0].at == t; }
    if HasInstant(rows, t) {
      var i :| 0 <= i < |rows| && rows[i].at == t;
      assert all[i + 1].at == t;
    }
    if HasInstant(all, t) && r.at != t {
      var i :| 0 <= i < |all| && all[i].at == t;
      assert rows[i - 1].at == t;
    }
  }

  /** No instant is lost by thinning. */
  lemma {:induction false} DedupInstants<T>(rows: seq<Row<T>>, t: int)
    ensures HasInstant(Dedup(rows), t) <==> HasInstant(rows, t)
  {
    if rows != [] {
      var rest := Dedup(rows[1..]);
      assert rows == [rows[0]] + rows[1..];
      DedupInstants(rows[1..], t);
      InstantCons(rows[0], rows[1..], t);
      InstantCons(rows[0], rest, t);
      if rest != [] {
        assert rest == [rest[0]] + rest[1..];
        InstantCons(rest[0], rest[1..], t);
        InstantCons(rows[0], rest[1..], t);
      }
    }
  }

  /** The kept row of an instant is the first of the sorted rows with it. */
  lemma {:induction false} DedupKeepsFirst<T(!new)>(rows: seq<Row<T>>, r: Row<T>)
    requires Sorted(rows, ByInstant<T>()) && r in Dedup(rows)
    ensures var i := First(rows, Alike(r, ByInstant<T>())); i < |rows| && rows[i] == r
  {
    var p, d := Alike(r, ByInstant<T>()), Dedup(rows);
    DedupMembers(rows);
    DedupAscends(rows);
    if r != rows[0] {
      var i :| 0 <= i < |d| && d[i] == r;
      assert i > 0 && d[0].at < d[i].at;
      assert !p(rows[0]);
      assert r in Dedup(rows[1..]);
      DedupKeepsFirst(rows[1..], r);
    }
  }

  /** The first of the rows with instant `t`. */
  function FirstRow<T>(rows: seq<Row<T>>, t: int): (r: Option<Row<T>>) {
    if rows == [] then None else if rows[0].at == t then Some(rows[0]) else FirstRow(rows[1..], t)
  }

  lemma {:induction false} FirstAppend<T>(a: seq<Row<T>>, b: seq<Row<T>>, t: int)
    ensures FirstRow(a + b, t) == if FirstRow(a, t).Some? then FirstRow(a, t) else FirstRow(b, t)
  {
    if a == [] {
      assert a + b == b;
    } else {
      assert (a + b)[1..] == a[1..] + b;
      FirstAppend(a[1..], b, t);
    }
  }

  lemma {:induction false} FirstOfRows<T>(history: seq<Row<T>>, w: Span, t: int)
    ensures FirstRow(Rows(history, w), t) == if Inside(w, t) then FirstRow(history, t) else None
  {
    if history != [] {
      FirstOfRows(history[1..], w, t);
      var rest := Rows(history[1..], w);
      if Inside(w, history[0].at) { assert ([history[0]] + rest)[1..] == rest; } else { assert [] + rest == rest; }
    }
  }

  /** What is read first of an instant is what was recorded first of it. */
  ghost predicate ReadsFirst<T>(read: seq<Row<T>>, history: seq<Row<T>>, windows: seq<Span>) {
    forall t :: FirstRow(read, t) == if Covers(windows, t) then FirstRow(history, t) else None
  }

  lemma ReadsFirstSnoc<T>(read: seq<Row<T>>, history: seq<Row<T>>, done: seq<Span>, w: Span)
    requires ReadsFirst(read, history, done)
    ensures ReadsFirst(read + Rows(history, w), history, done + [w])
  {
    forall t ensures FirstRow(read + Rows(history, w), t) ==
                     if Covers(done + [w], t) then FirstRow(history, t) else None
    {
      FirstAppend(read, Rows(history, w), t);
      FirstOfRows(history, w, t);
      CoversSnoc(done, w, t);
    }
  }

  lemma {:induction false} FirstIs<T(!new)>(rows: seq<Row<T>>, r: Row<T>)
    ensures var i := First(rows, Alike(r, ByInstant<T>()));
            FirstRow(rows, r.at) == if i < |rows| then Some(rows[i]) else None
  {
    if rows != [] { FirstIs(rows[1..], r); }
  }

  lemma {:induction false} FirstIn<T>(rows: seq<Row<T>>, t: int)
    ensures HasInstant(rows, t) <==> FirstRow(rows, t).Some?
    ensures FirstRow(rows, t).Some? ==> FirstRow(rows, t).value in rows && FirstRow(rows, t).value.at == t
  {
    if rows != [] {
      FirstIn(rows[1..], t);
      assert rows == [rows[0]] + rows[1..];
      InstantCons(rows[0], rows[1..], t);
    }
  }

  /** Each row of the windows' union is read once, and no other row. */
  ghost predicate ReadExactly<T(!new)>(read: seq<Row<T>>, history: seq<Row<T>>, windows: seq<Span>) {
    forall r :: multiset(read)[r] == if Covers(windows, r.at) then multiset(history)[r] else 0
  }

  /** The read loop, the sort and the thinning. */
  method ReadWindows<T(!new)>(history: seq<Row<T>>, windows: seq<Span>)
    returns (kept: seq<Row<T>>, ghost read: seq<Row<T>>)
    requires Apart(windows)
    ensures ReadExactly(read, history, windows)
    ensures Ascending(kept)
    ensures forall t :: HasInstant(kept, t) <==> Covers(windows, t) && HasInstant(history, t)
    ensures forall r :: r in kept ==> var i := First(read, Alike(r, ByInstant<T>())); i < |read| && read[i] == r
    ensures ReadsFirst(kept, history, windows)
  {
    var rows: seq<Row<T>> := [];
    for n := 0 to |windows|
      invariant ReadExactly(rows, history, windows[..n]) && ReadsFirst(rows, history, windows[..n])
    {
      assert windows[..n + 1] == windows[..n] + [windows[n]];
      ReadOne(rows, history, windows[..n], windows[n]);
      ReadsFirstSnoc(rows, history, windows[..n], windows[n]);
      rows := rows + Rows(history, windows[n]);
    }
    assert windows[..|windows|] == windows;
    read := rows;
    InstantOrder<T>();
    SortSorts(read, ByInstant<T>());
    var sorted := Sort(rows, ByInstant<T>());
    kept := Dedup(sorted);
    DedupAscends(sorted);
    SameMembers(sorted, read);
    forall t ensures HasInstant(kept, t) <==> Covers(windows, t) && HasInstant(history, t) {
      DedupInstants(sorted, t);
      ReadInstants(sorted, read, history, windows, t);
    }
    forall r | r in kept ensures var i := First(read, Alike(r, ByInstant<T>())); i < |read| && read[i] == r {
      DedupKeepsFirst(sorted, r);
      SortFirst(read, r, ByInstant<T>());
    }
    KeptFirst(kept, read, history, windows);
  }

  lemma KeptFirst<T(!new)>(kept: seq<Row<T>>, read: seq<Row<T>>, history: seq<Row<T>>, windows: seq<Span>)
    requires ReadsFirst(read, history, windows)
    requires forall t :: HasInstant(kept, t) <==> Covers(windows, t) && HasInstant(history, t)
    requires forall r :: r in kept ==> var i := First(read, Alike(r, ByInstant<T>())); i < |read| && read[i] == r
    ensures ReadsFirst(kept, history, windows)
  {
    forall t ensures FirstRow(kept, t) == if Covers(windows, t) then FirstRow(history, t) else None {
      FirstIn(kept, t);
      FirstIn(history, t);
      if FirstRow(kept, t).Some? { FirstIs(read, FirstRow(kept, t).value); }
    }
  }

  lemma ReadOne<T(!new)>(read: seq<Row<T>>, history: seq<Row<T>>, done: seq<Span>, w: Span)
    requires ReadExactly(read, history, done) && Apart(done + [w])
    ensures ReadExactly(read + Rows(history, w), history, done + [w])
  {
    var all := done + [w];
    forall r ensures multiset(read + Rows(history, w))[r] == if Covers(all, r.at) then multiset(history)[r] else 0 {
      RowsCount(history, w, r);
      CoversAppend(done, [w], r.at);
      assert Covers([w], r.at) <==> Inside(w, r.at) by { if Inside(w, r.at) { assert Inside([w][0], r.at); } }
      assert !(Covers(done, r.at) && Inside(w, r.at)) by { NeverTwice(done, w, r.at); }
    }
  }

  lemma NeverTwice(done: seq<Span>, w: Span, t: int)
    requires Apart(done + [w])
    ensures !(Covers(done, t) && Inside(w, t))
  {
    var all := done + [w];
    assert forall i :: 0 <= i < |done| ==> all[i] == done[i] && all[i].1 < all[|done|].0;
  }

  lemma ReadInstants<T(!new)>(
    sorted: seq<Row<T>>, read: seq<Row<T>>, history: seq<Row<T>>, windows: seq<Span>, t: int)
    requires ReadExactly(read, history, windows) && forall x :: x in sorted <==> x in read
    ensures HasInstant(sorted, t) <==> Covers(windows, t) && HasInstant(history, t)
  {
    if HasInstant(sorted, t) {
      var i :| 0 <= i < |sorted| && sorted[i].at == t;
      assert sorted[i] in read && sorted[i] in multiset(read);
      assert sorted[i] in multiset(history) && sorted[i] in history;
    }
    if Covers(windows, t) && HasInstant(history, t) {
      var i :| 0 <= i < |history| && history[i].at == t;
      assert history[i] in multiset(history) && history[i] in multiset(read) && history[i] in read;
      assert history[i] in sorted;
    }
  }
}
