/** Where the samples come from: the shared control-channel byte counter, emptied by two separate
    atomic swaps, and the sampler that turns cumulative readings into deltas. */
module Sampler {
  import opened Common
  import NetMetrics

  const TWO_64 := 0x1_0000_0000_0000_0000

  // ---------------------------------------------------------------------
  // The counter

  /** `atomic.AddUint64` of a positive `int`; other values are ignored. */
  function Added(counter: nat, n: int): (c: nat)
    requires counter < TWO_64 && n < TWO_64
    ensures c < TWO_64
    ensures c == if n > 0 then (counter + n) % TWO_64 else counter
  {
    if n <= 0 then counter else if counter + n < TWO_64 then counter + n else counter + n - TWO_64
  }

  class ControlBytesCounter {
    var sent: nat
    var recv: nat

    ghost predicate Valid()
      reads this
    {
      sent < TWO_64 && recv < TWO_64
    }

    constructor ()
      ensures Valid() && sent == 0 && recv == 0
    {
      sent, recv := 0, 0;
    }

    method AddSent(n: int)
      requires Valid() && n < TWO_64
      modifies this`sent
      ensures Valid() && sent == if n > 0 then (old(sent) + n) % TWO_64 else old(sent)
    {
      sent := Added(sent, n);
    }

    method AddRecv(n: int)
      requires Valid() && n < TWO_64
      modifies this`recv
      ensures Valid() && recv == if n > 0 then (old(recv) + n) % TWO_64 else old(recv)
    {
      recv := Added(recv, n);
    }

    /** The first half of `SnapshotReset`; other goroutines may add before the second. */
    method SwapSent() returns (was: nat)
      requires Valid()
      modifies this`sent
      ensures Valid() && was == old(sent) && sent == 0
    {
      was, sent := sent, 0;
    }

    method SwapRecv() returns (was: nat)
      requires Valid()
      modifies this`recv
      ensures Valid() && was == old(recv) && recv == 0
    {
      was, recv := recv, 0;
    }
  }

  /** One sampler tick's control bytes, and whether its row reached the buffer. */
  datatype Tick = Tick(sent: nat, recv: nat, inserted: bool)

  /** How far the current tick has come: nothing read, the sent counter swapped, both swapped. */
  datatype Progress = Fresh | HasSent(sent: nat) | HasBoth(sent: nat, recv: nat)

  /** The counter, the tick in progress and the ticks so far. `sentAdded` and `recvAdded` are the bytes
      ever added; `sentWraps` and `recvWraps` count the overflows of the 64-bit counters. */
  datatype Meter = Meter(sent: nat, recv: nat, progress: Progress, ticks: seq<Tick>,
                         sentAdded: nat, recvAdded: nat, sentWraps: nat, recvWraps: nat)

  datatype Event = AddSent(n: int) | AddRecv(n: int) | SwapSent | SwapRecv | Insert(ok: bool)

  predicate InRange(m: Meter, e: Event) {
    && m.sent < TWO_64 && m.recv < TWO_64
    && (e.AddSent? ==> e.n < TWO_64) && (e.AddRecv? ==> e.n < TWO_64)
  }

  function Wraps(counter: nat, n: int): (w: nat) {
    if n > 0 && counter + n >= TWO_64 then 1 else 0
  }

  function Step(m: Meter, e: Event): (m': Meter)
    requires InRange(m, e)
  {
    match e
    case AddSent(n) =>
      m.(sent := Added(m.sent, n), sentWraps := m.sentWraps + Wraps(m.sent, n),
         sentAdded := m.sentAdded + if n > 0 then n else 0)
    case AddRecv(n) =>
      m.(recv := Added(m.recv, n), recvWraps := m.recvWraps + Wraps(m.recv, n),
         recvAdded := m.recvAdded + if n > 0 then n else 0)
    case SwapSent =>
      if m.progress.Fresh? then m.(sent := 0, progress := HasSent(m.sent)) else m
    case SwapRecv =>
      if m.progress.HasSent? then m.(recv := 0, progress := HasBoth(m.progress.sent, m.recv)) else m
    case Insert(ok) =>
      if m.progress.HasBoth?
      then m.(progress := Fresh, ticks := m.ticks + [Tick(m.progress.sent, m.progress.recv, ok)]) else m
  }

  const START := Meter(0, 0, Fresh, [], 0, 0, 0, 0)

  function Run(es: seq<Event>): (m: Meter)
    requires InRanges(es)
    ensures m.sent < TWO_64 && m.recv < TWO_64
  {
    if es == [] then START else Step(Run(es[..|es| - 1]), es[|es| - 1])
  }

  /** The control bytes of the ticks that were, or were not, inserted. */
  function TotalSent(ticks: seq<Tick>, inserted: bool): (n: nat) {
    if ticks == [] then 0 else
      var t := ticks[|ticks| - 1];
      TotalSent(ticks[..|ticks| - 1], inserted) + if t.inserted == inserted then t.sent else 0
  }

  function TotalRecv(ticks: seq<Tick>, inserted: bool): (n: nat) {
    if ticks == [] then 0 else
      var t := ticks[|ticks| - 1];
      TotalRecv(ticks[..|ticks| - 1], inserted) + if t.inserted == inserted then t.recv else 0
  }

  function HeldSent(p: Progress): (n: nat) {
    if p.Fresh? then 0 else p.sent
  }

  function HeldRecv(p: Progress): (n: nat) {
    if p.HasBoth? then p.recv else 0
  }

  ghost predicate Balanced(m: Meter) {
    && m.sentAdded == m.sent + HeldSent(m.progress) + TotalSent(m.ticks, true) + TotalSent(m.ticks, false)
                      + TWO_64 * m.sentWraps
    && m.recvAdded == m.recv + HeldRecv(m.progress) + TotalRecv(m.ticks, true) + TotalRecv(m.ticks, false)
                      + TWO_64 * m.recvWraps
  }

  lemma {:induction false} StepBalanced(m: Meter, e: Event)
    requires InRange(m, e) && Balanced(m)
    ensures Balanced(Step(m, e))
  {
  }

  ghost predicate InRanges(es: seq<Event>) {
    forall i :: 0 <= i < |es| ==> (es[i].AddSent? || es[i].AddRecv? ==> es[i].n < TWO_64)
  }

  /** The positive byte counts of the adds. */
  function SumSent(es: seq<Event>): (n: nat) {
    if es == [] then 0 else
      var e := es[|es| - 1];
      SumSent(es[..|es| - 1]) + if e.AddSent? && e.n > 0 then e.n else 0
  }

  function SumRecv(es: seq<Event>): (n: nat) {
    if es == [] then 0 else
      var e := es[|es| - 1];
      SumRecv(es[..|es| - 1]) + if e.AddRecv? && e.n > 0 then e.n else 0
  }

  lemma {:induction false} AddedAreSums(es: seq<Event>)
    requires InRanges(es)
    ensures Run(es).sentAdded == SumSent(es) && Run(es).recvAdded == SumRecv(es)
  {
    if es != [] {
      AddedAreSums(es[..|es| - 1]);
    }
  }

  /** The outcomes of the inserts that end a tick, in order. */
  function Outcomes(es: seq<Event>): (oks: seq<bool>)
    requires InRanges(es)
  {
    if es == [] then [] else
      var init, e := es[..|es| - 1], es[|es| - 1];
      if e.Insert? && Run(init).progress.HasBoth? then Outcomes(init) + [e.ok] else Outcomes(init)
  }

  /** A tick counts as stored exactly when its insert succeeded. */
  lemma {:induction false} TickOutcomes(es: seq<Event>)
    requires InRanges(es)
    ensures |Run(es).ticks| == |Outcomes(es)|
    ensures forall i :: 0 <= i < |Run(es).ticks| ==> Run(es).ticks[i].inserted == Outcomes(es)[i]
  {
    if es != [] {
      TickOutcomes(es[..|es| - 1]);
    }
  }

  /** A tick takes all bytes that are there and leaves none, and bytes added between its two swaps to a
      counter already swapped wait for the next one. */
  lemma {:induction false} TickTakesAll(m: Meter, n: int, ok: bool)
    requires m.sent < TWO_64 && m.recv < TWO_64 && 0 < n < TWO_64 && m.progress.Fresh?
    ensures var swapped := Step(Step(m, SwapSent), AddSent(n));
      var m' := Step(Step(swapped, SwapRecv), Insert(ok));
      m'.ticks == m.ticks + [Tick(m.sent, m.recv, ok)] && m'.sent == n && m'.recv == 0 && m'.progress.Fresh?
  {
  }

  /** Conservation under every interleaving of adds with the two swaps: each byte added is in the live
      counter, in the tick being taken, in an inserted sample, or in a sample whose insert failed. */
  lemma {:induction false} BytesConserved(es: seq<Event>)
    requires InRanges(es)
    ensures var m := Run(es);
      && Balanced(m) && m.sentAdded == SumSent(es) && m.recvAdded == SumRecv(es)
      && (m.sentAdded < TWO_64 ==> m.sentWraps == 0)
      && (m.recvAdded < TWO_64 ==> m.recvWraps == 0)
  {
    if es != [] {
      AddedAreSums(es);
      BytesConserved(es[..|es| - 1]);
      StepBalanced(Run(es[..|es| - 1]), es[|es| - 1]);
    }
  }

  // ---------------------------------------------------------------------
  // Deltas

  /** Cumulative counters since boot. */
  datatype Reading = Reading(sent: nat, recv: nat)

  predicate AtLeast(a: Reading, b: Reading) {
    a.sent >= b.sent && a.recv >= b.recv
  }

  /** The last successful reading. */
  function Baseline(readings: seq<Option<Reading>>): (r: Option<Reading>) {
    if readings == [] then None
    else if readings[|readings| - 1].Some? then readings[|readings| - 1]
    else Baseline(readings[..|readings| - 1])
  }

  /** Zero when either reading is missing or a counter went backwards. */
  function Delta(last: Option<Reading>, now: Option<Reading>): (d: Reading) {
    if last.Some? && now.Some? && AtLeast(now.value, last.value)
    then Reading(now.value.sent - last.value.sent, now.value.recv - last.value.recv)
    else Reading(0, 0)
  }

  function DeltaAt(readings: seq<Option<Reading>>, k: nat): (d: Reading)
    requires k < |readings|
  {
    Delta(Baseline(readings[..k]), readings[k])
  }

  /** What one tick reads: the clock, the cumulative counters and the control bytes since the last. */
  datatype Observation = Observation(at: int, reading: Option<Reading>, sentControl: nat, recvControl: nat)

  function Readings(os: seq<Observation>): (rs: seq<Option<Reading>>)
    ensures |rs| == |os| && forall i :: 0 <= i < |os| ==> rs[i] == os[i].reading
  {
    seq(|os|, i requires 0 <= i < |os| => os[i].reading)
  }

  /** The sample of tick k: observation 0 is taken before the first tick. */
  function SampleAt(os: seq<Observation>, k: nat): (s: NetMetrics.Sample)
    requires 0 < k < |os|
  {
    var d := DeltaAt(Readings(os), k);
    NetMetrics.Sample(os[k].at, os[k].at - os[k - 1].at, d.sent, d.recv, os[k].sentControl, os[k].recvControl)
  }

  lemma {:induction false} LastReading(rs: seq<Option<Reading>>, k: nat, p: nat)
    requires p < k <= |rs| && rs[p].Some? && forall q :: p < q < k ==> rs[q].None?
    ensures Baseline(rs[..k]) == rs[p]
  {
    if p < k - 1 {
      LastReading(rs, k - 1, p);
      assert rs[..k][..k - 1] == rs[..k - 1];
    }
  }

  lemma {:induction false} NoReading(rs: seq<Option<Reading>>, k: nat)
    requires k <= |rs| && forall q :: 0 <= q < k ==> rs[q].None?
    ensures Baseline(rs[..k]) == None
  {
    if k != 0 {
      NoReading(rs, k - 1);
      assert rs[..k][..k - 1] == rs[..k - 1];
    }
  }

  /** What a sample holds, column by column, when observation p is the last successful reading before it:
      the differences if both counters have not gone backwards, zero in both columns otherwise. */
  lemma {:induction false} SampleColumns(os: seq<Observation>, k: nat, p: nat)
    requires p < k < |os| && os[p].reading.Some? && forall q :: p < q < k ==> os[q].reading.None?
    ensures var s, was, now := SampleAt(os, k), os[p].reading.value, os[k].reading;
      && s.occurredAt == os[k].at && s.interval == os[k].at - os[k - 1].at
      && s.sentControl == os[k].sentControl && s.recvControl == os[k].recvControl
      && if now.Some? && now.value.sent >= was.sent && now.value.recv >= was.recv
         then s.sentTotal == now.value.sent - was.sent && s.recvTotal == now.value.recv - was.recv
         else s.sentTotal == 0 && s.recvTotal == 0
  {
    LastReading(Readings(os), k, p);
  }

  /** Without any successful reading before it the totals are zero. */
  lemma {:induction false} SampleWithoutBaseline(os: seq<Observation>, k: nat)
    requires 0 < k < |os| && forall q :: 0 <= q < k ==> os[q].reading.None?
    ensures SampleAt(os, k).sentTotal == 0 && SampleAt(os, k).recvTotal == 0
  {
    NoReading(Readings(os), k);
  }

  function SamplesOf(rows: seq<NetMetrics.Row>): (ss: seq<NetMetrics.Sample>)
    ensures |ss| == |rows| && forall i :: 0 <= i < |rows| ==> ss[i] == rows[i].sample
  {
    seq(|rows|, i requires 0 <= i < |rows| => rows[i].sample)
  }

  /** The samples of ticks 1 to n whose insert succeeds. */
  ghost function Stored(os: seq<Observation>, works: nat -> bool, n: nat): (ss: seq<NetMetrics.Sample>)
    requires n < |os|
  {
    if n == 0 then [] else
      var rest := Stored(os, works, n - 1);
      if works(n) then rest + [SampleAt(os, n)] else rest
  }

  function Successes(works: nat -> bool, n: nat): (count: nat) {
    if n == 0 then 0 else Successes(works, n - 1) + if works(n) then 1 else 0
  }

  /** One sample for each insert that succeeds and none for the others, in the order of the ticks. */
  lemma {:induction false} StoredExactly(os: seq<Observation>, works: nat -> bool, n: nat, k: nat)
    requires 0 < k <= n < |os|
    ensures |Stored(os, works, n)| == Successes(works, n)
    ensures works(k) ==>
      && Successes(works, k - 1) < Successes(works, n)
      && Stored(os, works, n)[Successes(works, k - 1)] == SampleAt(os, k)
  {
    if n > 1 {
      StoredExactly(os, works, n - 1, if k < n then k else 1);
    }
  }

  /** `RunSampler` over a finite number of ticks: every tick's sample is stored unless its insert fails,
      and a failed insert or reading does not disturb the later ones. */
  method RunSampler(os: seq<Observation>, store: NetMetrics.Store, works: nat -> bool)
    requires os != [] && store.Valid()
    modifies store
    ensures store.Valid()
    ensures SamplesOf(store.rows) == old(SamplesOf(store.rows)) + Stored(os, works, |os| - 1)
  {
    var rs := Readings(os);
    var last := if os[0].reading.Some? then os[0].reading.value else Reading(0, 0);
    var ok, lastAt := os[0].reading.Some?, os[0].at;
    assert rs[..1][..0] == [];
    for k := 1 to |os|
      invariant store.Valid() && lastAt == os[k - 1].at
      invariant SamplesOf(store.rows) == old(SamplesOf(store.rows)) + Stored(os, works, k - 1)
      invariant Baseline(rs[..k]) == if ok then Some(last) else None
    {
      var o := os[k];
      var delta := Reading(0, 0);
      if ok && o.reading.Some? && o.reading.value.sent >= last.sent && o.reading.value.recv >= last.recv {
        delta := Reading(o.reading.value.sent - last.sent, o.reading.value.recv - last.recv);
      }
      assert delta == DeltaAt(rs, k);
      assert rs[..k + 1][..k] == rs[..k];
      if o.reading.Some? {
        last, ok := o.reading.value, true;
      }
      var _ := store.Insert(
        NetMetrics.Sample(o.at, o.at - lastAt, delta.sent, delta.recv, o.sentControl, o.recvControl), works(k));
      lastAt := o.at;
    }
  }

  function TotalInterval(os: seq<Observation>, n: nat): (d: int)
    requires n < |os|
  {
    if n == 0 then 0 else TotalInterval(os, n - 1) + SampleAt(os, n).interval
  }

  /** The intervals of all ticks, stored or not, cover the time from the start without gap or overlap. */
  lemma {:induction false} IntervalsTelescope(os: seq<Observation>, n: nat)
    requires n < |os|
    ensures TotalInterval(os, n) == os[n].at - os[0].at
  {
    if n != 0 {
      IntervalsTelescope(os, n - 1);
    }
  }

  /** The deltas of ticks i+1 to j. */
  function Total(readings: seq<Option<Reading>>, i: nat, j: nat): (d: Reading)
    requires i <= j < |readings|
  {
    if i == j then Reading(0, 0) else
      var d, rest := DeltaAt(readings, j), Total(readings, i, j - 1);
      Reading(rest.sent + d.sent, rest.recv + d.recv)
  }

  /** No successful reading from i to j is below an earlier one of the stretch. */
  ghost predicate NonDecreasing(readings: seq<Option<Reading>>, i: nat, j: nat)
    requires j < |readings|
  {
    forall p, q :: i <= p < q <= j && readings[p].Some? && readings[q].Some? ==>
      AtLeast(readings[q].value, readings[p].value)
  }

  lemma {:induction false} BaselineInStretch(readings: seq<Option<Reading>>, i: nat, k: nat) returns (p: nat)
    requires i < k <= |readings| && readings[i].Some?
    ensures i <= p < k && readings[p].Some? && Baseline(readings[..k]) == readings[p]
  {
    assert readings[..k][..k - 1] == readings[..k - 1];
    if readings[k - 1].Some? {
      p := k - 1;
    } else {
      p := BaselineInStretch(readings, i, k - 1);
    }
  }

  /** Telescoping: over a stretch that starts with a successful reading and never decreases, the deltas
      add up to the last successful reading minus the first, however many reads in between failed. */
  lemma {:induction false} DeltasTelescope(readings: seq<Option<Reading>>, i: nat, j: nat)
    requires i <= j < |readings| && readings[i].Some? && NonDecreasing(readings, i, j)
    ensures var last, total := Baseline(readings[..j + 1]), Total(readings, i, j);
      && last.Some?
      && readings[i].value.sent + total.sent == last.value.sent
      && readings[i].value.recv + total.recv == last.value.recv
  {
    assert readings[..j + 1][..j] == readings[..j];
    if i < j {
      DeltasTelescope(readings, i, j - 1);
      var p := BaselineInStretch(readings, i, j);
    }
  }
}
