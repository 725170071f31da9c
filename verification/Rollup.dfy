/** Network metrics on the server: raw rows, their hourly sums, and the sweeper that rolls up and then
    prunes. Times are nanoseconds, hours are counted from the epoch, and sums are exact integers. */
module Rollup {
  import opened Common

  const HOUR := 3_600_000_000_000

  datatype Raw = Raw(device: nat, at: int, interval: int, sentTotal: int, recvTotal: int,
                     sentControl: int, recvControl: int)

  /** A row of the hourly table. */
  datatype Totals = Totals(interval: int, sentTotal: int, recvTotal: int, sentControl: int,
                           recvControl: int, count: nat)

  datatype Key = Key(device: nat, hour: int)

  const ZERO := Totals(0, 0, 0, 0, 0, 0)

  /** `date_trunc('hour', t)`, as an hour number. */
  function HourOf(t: int): (h: int)
    ensures h * HOUR <= t < (h + 1) * HOUR
  {
    t / HOUR
  }

  function KeyOf(r: Raw): (k: Key) {
    Key(r.device, HourOf(r.at))
  }

  function Plus(t: Totals, r: Raw): (t': Totals) {
    Totals(t.interval + r.interval, t.sentTotal + r.sentTotal, t.recvTotal + r.recvTotal,
           t.sentControl + r.sentControl, t.recvControl + r.recvControl, t.count + 1)
  }

  /** `sum(...)` and `count(*)` of one group. */
  function Sums(rows: seq<Raw>, k: Key): (t: Totals) {
    if rows == [] then ZERO else
      var r := rows[|rows| - 1];
      if KeyOf(r) == k then Plus(Sums(rows[..|rows| - 1], k), r) else Sums(rows[..|rows| - 1], k)
  }

  /** The rows observed before t. */
  function Before(rows: seq<Raw>, t: int): (r: seq<Raw>) {
    if rows == [] then [] else
      var n := |rows| - 1;
      if rows[n].at < t then Before(rows[..n], t) + [rows[n]] else Before(rows[..n], t)
  }

  /** The rows observed at t or later. */
  function From(rows: seq<Raw>, t: int): (r: seq<Raw>) {
    if rows == [] then [] else
      var n := |rows| - 1;
      if rows[n].at < t then From(rows[..n], t) else From(rows[..n], t) + [rows[n]]
  }

  // ---------------------------------------------------------------------
  // The tables

  /** `recorded` is every raw row ever inserted, `cutoff` the latest raw cutoff applied so far. */
  datatype Db = Db(raw: seq<Raw>, hourly: map<Key, Totals>, recorded: seq<Raw>, cutoff: Option<int>)

  /** The `INSERT ... SELECT ... GROUP BY ... ON CONFLICT DO UPDATE` of the roll-up. */
  function RolledUp(raw: seq<Raw>, hourly: map<Key, Totals>, now: int): (hourly': map<Key, Totals>) {
    var done := Before(raw, HourOf(now) * HOUR);
    var groups := set r | r in done :: KeyOf(r);
    map k | k in hourly.Keys + groups :: if k in groups then Sums(done, k) else hourly[k]
  }

  function Later(a: Option<int>, t: int): (c: Option<int>) {
    if a.Some? && a.value > t then a else Some(t)
  }

  function KeptHours(hourly: map<Key, Totals>, t: int): (h: map<Key, Totals>) {
    map k | k in hourly && k.hour * HOUR >= t :: hourly[k]
  }

  function Record(db: Db, rows: seq<Raw>): (db': Db) {
    db.(raw := db.raw + rows, recorded := db.recorded + rows)
  }

  function Rolled(db: Db, now: int): (db': Db) {
    db.(hourly := RolledUp(db.raw, db.hourly, now))
  }

  function PrunedRaw(db: Db, now: int, retention: int): (db': Db) {
    db.(raw := From(db.raw, now - retention), cutoff := Later(db.cutoff, now - retention))
  }

  function PrunedHourly(db: Db, now: int, retention: int): (db': Db) {
    db.(hourly := KeptHours(db.hourly, now - retention))
  }

  /** Which statements of one sweeper tick succeed. */
  datatype Outcome = Outcome(rollup: bool, raw: bool, hourly: bool)

  /** `ApplyNetworkMetricsRetention`: the second delete only follows the first. */
  function Pruned(db: Db, now: int, rawRetention: int, hourlyRetention: int, works: Outcome): (db': Db) {
    if !works.raw then db
    else if !works.hourly then PrunedRaw(db, now, rawRetention)
    else PrunedHourly(PrunedRaw(db, now, rawRetention), now, hourlyRetention)
  }

  class Metrics {
    var raw: seq<Raw>
    var hourly: map<Key, Totals>
    ghost var recorded: seq<Raw>
    ghost var cutoff: Option<int>

    ghost function Now(): Db
      reads this
    {
      Db(raw, hourly, recorded, cutoff)
    }

    constructor ()
      ensures Now() == Db([], map[], [], None)
    {
      raw, hourly := [], map[];
      recorded, cutoff := [], None;
    }

    /** `RecordNetworkMetricsBatch`: one insert per sample, all in the implicit transaction of one batch.
        `works(i)` is the result of insert i; a failed one leaves no row of the batch behind. */
    method RecordBatch(rows: seq<Raw>, works: nat -> bool) returns (ok: bool)
      modifies this
      ensures ok <==> forall i :: 0 <= i < |rows| ==> works(i)
      ensures Now() == if ok then Record(old(Now()), rows) else old(Now())
      ensures raw == if ok then old(raw) + rows else old(raw)
    {
      var inserted := raw;
      ghost var noted := recorded;
      for i := 0 to |rows|
        invariant Now() == old(Now())
        invariant inserted == raw + rows[..i] && noted == recorded + rows[..i]
        invariant forall j :: 0 <= j < i ==> works(j)
      {
        if !works(i) {
          return false;
        }
        assert rows[..i + 1] == rows[..i] + [rows[i]];
        inserted := inserted + [rows[i]];
        noted := noted + [rows[i]];
      }
      assert rows[..|rows|] == rows;
      raw, recorded := inserted, noted;
      return true;
    }

    /** Every completed hour with raw rows gets their sums and count, whatever it held; nothing else
        changes. */
    method RollupHourly(now: int)
      modifies this
      ensures Now() == Rolled(old(Now()), now)
      ensures forall k :: Mirrors(old(raw), old(hourly), hourly, now, k)
    {
      forall k ensures Mirrors(raw, hourly, RolledUp(raw, hourly, now), now, k) {
        RollupMirrorsRaw(raw, hourly, now, k);
      }
      hourly := RolledUp(raw, hourly, now);
    }

    /** Exactly the rows at or after the cutoffs stay, the hourly ones unchanged. */
    method ApplyRetention(now: int, rawRetention: int, hourlyRetention: int, works: Outcome)
      modifies this
      ensures Now() == Pruned(old(Now()), now, rawRetention, hourlyRetention, works)
      ensures forall r :: r in raw <==> r in old(raw) && (works.raw ==> r.at >= now - rawRetention)
      ensures forall k :: k in hourly <==>
        k in old(hourly) && (works.raw && works.hourly ==> k.hour * HOUR >= now - hourlyRetention)
      ensures forall k :: k in hourly ==> hourly[k] == old(hourly)[k]
    {
      if !works.raw {
        return;
      }
      FromMembers(raw, now - rawRetention);
      raw := From(raw, now - rawRetention);
      cutoff := Later(cutoff, now - rawRetention);
      if works.hourly {
        hourly := KeptHours(hourly, now - hourlyRetention);
      }
    }

    /** One tick of the sweeper: pruning only follows a roll-up that succeeded. */
    method Tick(now: int, rawRetention: int, hourlyRetention: int, works: Outcome)
      modifies this
      ensures Now() == if works.rollup then Pruned(Rolled(old(Now()), now), now, rawRetention, hourlyRetention, works)
                       else old(Now())
    {
      if !works.rollup {
        return;
      }
      RollupHourly(now);
      ApplyRetention(now, rawRetention, hourlyRetention, works);
    }
  }

  // ---------------------------------------------------------------------
  // Runs

  /** A batch is a number of uploads in a row; a tick is a roll-up and the two prunes. */
  datatype Event =
    | Upload(row: Raw)
    | Roll(now: int)
    | PruneRaw(now: int, retention: int)
    | PruneHourly(now: int, retention: int)

  function Step(db: Db, e: Event): (db': Db) {
    match e
    case Upload(row) => Record(db, [row])
    case Roll(now) => Rolled(db, now)
    case PruneRaw(now, retention) => PrunedRaw(db, now, retention)
    case PruneHourly(now, retention) => PrunedHourly(db, now, retention)
  }

  function Run(es: seq<Event>): (db: Db) {
    if es == [] then Db([], map[], [], None) else Step(Run(es[..|es| - 1]), es[|es| - 1])
  }

  // ---------------------------------------------------------------------
  // Sums of parts

  lemma {:induction false} SumsSnoc(rows: seq<Raw>, r: Raw, k: Key)
    ensures Sums(rows + [r], k) == if KeyOf(r) == k then Plus(Sums(rows, k), r) else Sums(rows, k)
  {
  }

  /** Rows older than an hour's start do not count towards it. */
  lemma {:induction false} SumsFrom(rows: seq<Raw>, t: int, k: Key)
    requires t <= k.hour * HOUR
    ensures Sums(From(rows, t), k) == Sums(rows, k)
  {
    if rows != [] {
      var n := |rows| - 1;
      SumsFrom(rows[..n], t, k);
      var rest := From(rows[..n], t);
      assert (rest + [rows[n]])[..|rest|] == rest;
    }
  }

  /** Nor do rows from the current hour on count towards an hour before it. */
  lemma {:induction false} SumsBefore(rows: seq<Raw>, hour: int, k: Key)
    requires k.hour < hour
    ensures Sums(Before(rows, hour * HOUR), k) == Sums(rows, k)
  {
    if rows != [] {
      var n := |rows| - 1;
      SumsBefore(rows[..n], hour, k);
      var rest := Before(rows[..n], hour * HOUR);
      assert (rest + [rows[n]])[..|rest|] == rest;
    }
  }

  lemma {:induction false} CountMeansRow(rows: seq<Raw>, k: Key)
    ensures Sums(rows, k).count > 0 <==> exists r :: r in rows && KeyOf(r) == k
  {
    if rows != [] {
      var n := |rows| - 1;
      CountMeansRow(rows[..n], k);
      assert rows == rows[..n] + [rows[n]];
      assert Sums(rows, k).count > 0 ==> KeyOf(rows[n]) == k || Sums(rows[..n], k).count > 0;
    }
  }

  lemma {:induction false} BeforeMembers(rows: seq<Raw>, t: int)
    ensures forall r :: r in Before(rows, t) <==> r in rows && r.at < t
  {
    if rows != [] {
      BeforeMembers(rows[..|rows| - 1], t);
      assert rows == rows[..|rows| - 1] + [rows[|rows| - 1]];
    }
  }

  // ---------------------------------------------------------------------
  // What the sums are

  /** A row of this device and this hour. */
  predicate Falls(r: Raw, k: Key) {
    r.device == k.device && k.hour * 3_600_000_000_000 <= r.at < (k.hour + 1) * 3_600_000_000_000
  }

  lemma {:induction false} KeyIff(r: Raw, k: Key)
    ensures KeyOf(r) == k <==> Falls(r, k)
  {
  }

  /** The sum of one column over the first n rows that fall into the hour. */
  function ColumnSum(rows: seq<Raw>, k: Key, column: Raw -> int, n: nat): (sum: int)
    requires n <= |rows|
  {
    if n == 0 then 0 else ColumnSum(rows, k, column, n - 1) + if Falls(rows[n - 1], k) then column(rows[n - 1]) else 0
  }

  lemma {:induction false} ColumnSumPrefix(rows: seq<Raw>, k: Key, column: Raw -> int, m: nat, n: nat)
    requires n <= m <= |rows|
    ensures ColumnSum(rows[..m], k, column, n) == ColumnSum(rows, k, column, n)
  {
    if n != 0 {
      ColumnSumPrefix(rows, k, column, m, n - 1);
    }
  }

  lemma {:induction false} ColumnSumLast(rows: seq<Raw>, k: Key, column: Raw -> int)
    requires rows != []
    ensures var init, r := rows[..|rows| - 1], rows[|rows| - 1];
      ColumnSum(rows, k, column, |rows|) ==
        ColumnSum(init, k, column, |init|) + if KeyOf(r) == k then column(r) else 0
  {
    ColumnSumPrefix(rows, k, column, |rows| - 1, |rows| - 1);
    KeyIff(rows[|rows| - 1], k);
  }

  /** Every column of an hour's totals is the sum of that column over exactly the rows of that device and
      hour, and the count their number. */
  lemma {:induction false} SumsAreColumns(rows: seq<Raw>, k: Key)
    ensures var t, n := Sums(rows, k), |rows|;
      && t.interval == ColumnSum(rows, k, (r: Raw) => r.interval, n)
      && t.sentTotal == ColumnSum(rows, k, (r: Raw) => r.sentTotal, n)
      && t.recvTotal == ColumnSum(rows, k, (r: Raw) => r.recvTotal, n)
      && t.sentControl == ColumnSum(rows, k, (r: Raw) => r.sentControl, n)
      && t.recvControl == ColumnSum(rows, k, (r: Raw) => r.recvControl, n)
      && t.count == ColumnSum(rows, k, (r: Raw) => 1, n)
  {
    if rows != [] {
      SumsAreColumns(rows[..|rows| - 1], k);
      ColumnSumLast(rows, k, (r: Raw) => r.interval);
      ColumnSumLast(rows, k, (r: Raw) => r.sentTotal);
      ColumnSumLast(rows, k, (r: Raw) => r.recvTotal);
      ColumnSumLast(rows, k, (r: Raw) => r.sentControl);
      ColumnSumLast(rows, k, (r: Raw) => r.recvControl);
      ColumnSumLast(rows, k, (r: Raw) => 1);
    }
  }

  /** The rows of the uploads of a run, in order. */
  function Uploads(es: seq<Event>): (rows: seq<Raw>) {
    if es == [] then [] else
      var init, e := es[..|es| - 1], es[|es| - 1];
      if e.Upload? then Uploads(init) + [e.row] else Uploads(init)
  }

  lemma {:induction false} RecordedAreUploads(es: seq<Event>)
    ensures Run(es).recorded == Uploads(es)
  {
    if es != [] {
      RecordedAreUploads(es[..|es| - 1]);
    }
  }

  // ---------------------------------------------------------------------
  // What the roll-up means

  /** What the roll-up does to one hourly row: a completed hour with raw rows gets their sum and count,
      every other row is whatever it was. */
  ghost predicate Mirrors(raw: seq<Raw>, before: map<Key, Totals>, after: map<Key, Totals>, now: int, k: Key) {
    if k.hour < HourOf(now) && Sums(raw, k).count > 0
    then k in after && after[k] == Sums(raw, k)
    else (k in after <==> k in before) && (k in before ==> after[k] == before[k])
  }

  lemma {:induction false} RollupMirrorsRaw(raw: seq<Raw>, hourly: map<Key, Totals>, now: int, k: Key)
    ensures Mirrors(raw, hourly, RolledUp(raw, hourly, now), now, k)
  {
    var done := Before(raw, HourOf(now) * HOUR);
    BeforeMembers(raw, HourOf(now) * HOUR);
    CountMeansRow(raw, k);
    if k.hour < HourOf(now) {
      SumsBefore(raw, HourOf(now), k);
      CountMeansRow(done, k);
    } else {
      forall r | r in done ensures KeyOf(r) != k {
        assert r.at < HourOf(now) * HOUR;
      }
    }
  }

  /** Rolling up twice is rolling up once. */
  lemma {:induction false} RollupIdempotent(raw: seq<Raw>, hourly: map<Key, Totals>, now: int)
    ensures var once := RolledUp(raw, hourly, now);
      RolledUp(raw, once, now) == once
  {
  }

  lemma {:induction false} FromMembers(rows: seq<Raw>, t: int)
    ensures forall r :: r in From(rows, t) <==> r in rows && r.at >= t
  {
    if rows != [] {
      FromMembers(rows[..|rows| - 1], t);
      assert rows == rows[..|rows| - 1] + [rows[|rows| - 1]];
    }
  }

  // ---------------------------------------------------------------------
  // When an hourly row is right

  /** The hourly row is the sum and count of every raw row ever recorded for the hour. */
  ghost predicate Right(db: Db, k: Key) {
    && (k in db.hourly <==> Sums(db.recorded, k).count > 0)
    && (k in db.hourly ==> db.hourly[k] == Sums(db.recorded, k))
  }

  /** Pruning lowers an hour's count, or leaves all its sums. */
  lemma {:induction false} SumsOfFrom(rows: seq<Raw>, t: int, k: Key)
    ensures Sums(From(rows, t), k).count + Sums(Before(rows, t), k).count == Sums(rows, k).count
    ensures Sums(From(rows, t), k).count == Sums(rows, k).count ==> Sums(From(rows, t), k) == Sums(rows, k)
  {
    if rows != [] {
      var init, r := rows[..|rows| - 1], rows[|rows| - 1];
      SumsOfFrom(init, t, k);
      if r.at < t {
        SumsSnoc(Before(init, t), r, k);
      } else {
        SumsSnoc(From(init, t), r, k);
      }
    }
  }

  /** Raw rows are recorded rows, equal counts mean that none is missing, and an hourly row counts
      recorded rows. */
  ghost predicate Accounted(db: Db, k: Key) {
    && Sums(db.raw, k).count <= Sums(db.recorded, k).count
    && (Sums(db.raw, k).count == Sums(db.recorded, k).count ==> Sums(db.raw, k) == Sums(db.recorded, k))
    && (k in db.hourly ==> 0 < db.hourly[k].count <= Sums(db.recorded, k).count)
  }

  lemma {:induction false} StepAccounted(db: Db, e: Event, k: Key)
    requires Accounted(db, k)
    ensures Accounted(Step(db, e), k)
  {
    match e {
      case Upload(row) =>
        SumsSnoc(db.raw, row, k);
        SumsSnoc(db.recorded, row, k);
      case Roll(now) => RollupMirrorsRaw(db.raw, db.hourly, now, k);
      case PruneRaw(now, retention) => SumsOfFrom(db.raw, now - retention, k);
      case PruneHourly(_, _) =>
    }
  }

  lemma {:induction false} RunAccounted(es: seq<Event>, k: Key)
    ensures Accounted(Run(es), k)
  {
    if es != [] {
      RunAccounted(es[..|es| - 1], k);
      StepAccounted(Run(es[..|es| - 1]), es[|es| - 1], k);
    }
  }

  /** Nothing of the hour has been pruned, as its counts show. */
  predicate Complete(db: Db, k: Key) {
    Sums(db.raw, k).count == Sums(db.recorded, k).count
  }

  /** Some rows of the hour have been pruned and some have not. */
  predicate Partial(db: Db, k: Key) {
    0 < Sums(db.raw, k).count < Sums(db.recorded, k).count
  }

  /** Exactly when a roll-up leaves a completed hour right: nothing of it was pruned, or all of it was
      and its row was right already. */
  lemma {:induction false} RollupRightIff(db: Db, now: int, k: Key)
    requires Accounted(db, k) && k.hour < HourOf(now)
    ensures Right(Rolled(db, now), k) <==> Complete(db, k) || (!Partial(db, k) && Right(db, k))
  {
    RollupMirrorsRaw(db.raw, db.hourly, now, k);
  }

  /** The event makes the hour right whatever it was: a roll-up that covers it while it is complete. */
  predicate Settles(db: Db, e: Event, k: Key) {
    e.Roll? && k.hour < HourOf(e.now) && Complete(db, k)
  }

  /** The event makes the hour wrong: an upload for it, a roll-up of part of it, or the hourly prune. */
  predicate Spoils(db: Db, e: Event, k: Key) {
    match e
    case Upload(row) => KeyOf(row) == k
    case Roll(now) => k.hour < HourOf(now) && Partial(db, k)
    case PruneRaw(_, _) => false
    case PruneHourly(now, retention) => k.hour * HOUR < now - retention
  }

  lemma {:induction false} RightStep(db: Db, e: Event, k: Key)
    requires Accounted(db, k) && Sums(Step(db, e).recorded, k).count > 0
    ensures Right(Step(db, e), k) <==> Settles(db, e, k) || (Right(db, k) && !Spoils(db, e, k))
  {
    match e {
      case Upload(row) => SumsSnoc(db.recorded, row, k);
      case Roll(now) =>
        if k.hour < HourOf(now) {
          RollupRightIff(db, now, k);
        } else {
          RollupMirrorsRaw(db.raw, db.hourly, now, k);
        }
      case _ =>
    }
  }

  /** Which events of a run settle the hour. */
  ghost function Settling(es: seq<Event>, k: Key): (at: seq<bool>)
    ensures |at| == |es|
  {
    if es == [] then [] else
      var init := es[..|es| - 1];
      Settling(init, k) + [Settles(Run(init), es[|es| - 1], k)]
  }

  /** Which events of a run spoil it. */
  ghost function Spoiling(es: seq<Event>, k: Key): (at: seq<bool>)
    ensures |at| == |es|
  {
    if es == [] then [] else
      var init := es[..|es| - 1];
      Spoiling(init, k) + [Spoils(Run(init), es[|es| - 1], k)]
  }

  /** Something happened, and nothing since has undone it. */
  ghost predicate Since(done: seq<bool>, undone: seq<bool>) {
    exists i :: 0 <= i < |done| && done[i] && forall j :: i < j < |undone| ==> !undone[j]
  }

  lemma {:induction false} SinceStep(done: seq<bool>, x: bool, undone: seq<bool>, y: bool)
    requires |done| == |undone|
    ensures Since(done + [x], undone + [y]) <==> x || (Since(done, undone) && !y)
  {
    var d, u, n := done + [x], undone + [y], |done|;
    assert d[n] == x && u[n] == y;
    assert forall i :: 0 <= i < n ==> d[i] == done[i] && u[i] == undone[i];
    if Since(done, undone) && !y {
      var i :| 0 <= i < n && done[i] && forall j :: i < j < n ==> !undone[j];
      assert d[i] && forall j :: i < j < |u| ==> !u[j];
    }
    if Since(d, u) && !x {
      var i :| 0 <= i < |d| && d[i] && forall j :: i < j < |u| ==> !u[j];
      assert done[i] && !u[n];
    }
  }

  /** Over every run of uploads, roll-ups and prunes in any order: an hour's row is the sum and count of
      all rows ever recorded for it if and only if some roll-up covered it while it was complete and
      since then no row was uploaded for it, no roll-up saw only part of it, and it was not pruned. */
  lemma {:induction false} HourlyRightIff(es: seq<Event>, k: Key)
    ensures Right(Run(es), k) <==> Sums(Run(es).recorded, k).count == 0 || Since(Settling(es, k), Spoiling(es, k))
  {
    RunAccounted(es, k);
    if es != [] && Sums(Run(es).recorded, k).count > 0 {
      var n := |es| - 1;
      var db := Run(es[..n]);
      HourlyRightIff(es[..n], k);
      RunAccounted(es[..n], k);
      RightStep(db, es[n], k);
      SinceStep(Settling(es[..n], k), Settles(db, es[n], k), Spoiling(es[..n], k), Spoils(db, es[n], k));
      if es[n].Upload? {
        SumsSnoc(db.recorded, es[n].row, k);
      }
    }
  }

  // ---------------------------------------------------------------------
  // How an hour becomes wrong, and how it does not

  /** No raw cutoff has passed the start of the hour. */
  predicate Unreached(db: Db, k: Key) {
    db.cutoff.None? || db.cutoff.value <= k.hour * HOUR
  }

  /** Hours that start at or after every raw cutoff applied so far still have all their rows. */
  lemma {:induction false} RawComplete(es: seq<Event>, k: Key)
    requires Unreached(Run(es), k)
    ensures Complete(Run(es), k)
  {
    if es != [] {
      var db, e := Run(es[..|es| - 1]), es[|es| - 1];
      RawComplete(es[..|es| - 1], k);
      match e {
        case Upload(row) =>
          SumsSnoc(db.raw, row, k);
          SumsSnoc(db.recorded, row, k);
        case PruneRaw(now, retention) => SumsFrom(db.raw, now - retention, k);
        case _ =>
      }
    }
  }

  /** So a roll-up makes them right, late uploads included. */
  lemma {:induction false} RollupAgrees(es: seq<Event>, now: int, k: Key)
    requires k.hour < HourOf(now) && Unreached(Run(es), k)
    ensures Right(Rolled(Run(es), now), k)
  {
    RawComplete(es, k);
    RunAccounted(es, k);
    RollupRightIff(Run(es), now, k);
  }

  /** A row of the hour that a run uploads before event n, older than t. */
  ghost predicate UploadedBefore(es: seq<Event>, n: nat, k: Key, t: int)
    requires n <= |es|
  {
    exists i :: 0 <= i < n && es[i].Upload? && KeyOf(es[i].row) == k && es[i].row.at < t
  }

  ghost predicate CutAt(es: seq<Event>, j: nat, k: Key)
    requires j < |es|
  {
    es[j].PruneRaw? && UploadedBefore(es, j, k, es[j].now - es[j].retention)
  }

  /** Some raw prune came after the upload of a row of the hour older than its cutoff. */
  ghost predicate Cut(es: seq<Event>, k: Key) {
    exists j :: 0 <= j < |es| && CutAt(es, j, k)
  }

  lemma {:induction false} SameCuts(es: seq<Event>, j: nat, k: Key)
    requires j < |es| - 1
    ensures CutAt(es[..|es| - 1], j, k) <==> CutAt(es, j, k)
  {
    var init := es[..|es| - 1];
    assert forall i :: 0 <= i <= j ==> init[i] == es[i];
  }

  lemma {:induction false} CutStep(es: seq<Event>, k: Key)
    requires es != []
    ensures Cut(es, k) <==> Cut(es[..|es| - 1], k) || CutAt(es, |es| - 1, k)
  {
    var init := es[..|es| - 1];
    forall j | 0 <= j < |init| ensures CutAt(init, j, k) <==> CutAt(es, j, k) {
      SameCuts(es, j, k);
    }
    if Cut(init, k) {
      var j :| 0 <= j < |init| && CutAt(init, j, k);
      assert CutAt(es, j, k);
    }
    if Cut(es, k) {
      var j :| 0 <= j < |es| && CutAt(es, j, k);
      assert j < |init| ==> CutAt(init, j, k);
    }
  }

  /** Raw rows are recorded, and recorded rows are the uploads. */
  lemma {:induction false} RecordedRows(es: seq<Event>, r: Raw)
    ensures r in Run(es).raw ==> r in Run(es).recorded
    ensures r in Run(es).recorded <==> exists i :: 0 <= i < |es| && es[i] == Upload(r)
  {
    if es != [] {
      var init := es[..|es| - 1];
      RecordedRows(init, r);
      assert forall i :: 0 <= i < |init| ==> init[i] == es[i];
      if es[|es| - 1].PruneRaw? {
        FromMembers(Run(init).raw, es[|es| - 1].now - es[|es| - 1].retention);
      }
    }
  }

  ghost predicate AllThere(db: Db, k: Key) {
    forall r :: r in db.recorded && KeyOf(r) == k ==> r in db.raw
  }

  /** Does the table hold a row of the hour older than t? */
  ghost predicate Holds(rows: seq<Raw>, k: Key, t: int) {
    exists r :: r in rows && KeyOf(r) == k && r.at < t
  }

  lemma {:induction false} OlderRows(rows: seq<Raw>, k: Key, t: int)
    ensures Sums(Before(rows, t), k).count > 0 <==> Holds(rows, k, t)
  {
    BeforeMembers(rows, t);
    CountMeansRow(Before(rows, t), k);
  }

  lemma {:induction false} PruneComplete(db: Db, now: int, retention: int, k: Key)
    requires Accounted(db, k) && (Complete(db, k) ==> AllThere(db, k))
    requires forall r :: r in db.raw ==> r in db.recorded
    ensures var after := PrunedRaw(db, now, retention);
      && (Complete(after, k) <==> Complete(db, k) && !Holds(db.recorded, k, now - retention))
      && (Complete(after, k) ==> AllThere(after, k))
  {
    var t := now - retention;
    SumsOfFrom(db.raw, t, k);
    OlderRows(db.raw, k, t);
    FromMembers(db.raw, t);
  }

  lemma {:induction false} UploadComplete(db: Db, row: Raw, k: Key)
    requires Complete(db, k) ==> AllThere(db, k)
    ensures Complete(Record(db, [row]), k) <==> Complete(db, k)
    ensures Complete(Record(db, [row]), k) ==> AllThere(Record(db, [row]), k)
  {
    SumsSnoc(db.raw, row, k);
    SumsSnoc(db.recorded, row, k);
  }

  /** Exactly when an hour is complete, from the events alone: no raw prune came after an upload of one of
      its rows older than that cutoff. */
  lemma {:induction false} CompleteIff(es: seq<Event>, k: Key)
    ensures Complete(Run(es), k) <==> !Cut(es, k)
    ensures Complete(Run(es), k) ==> AllThere(Run(es), k)
  {
    if es != [] {
      var n := |es| - 1;
      var db, e := Run(es[..n]), es[n];
      CompleteIff(es[..n], k);
      CutStep(es, k);
      match e {
        case Upload(row) => UploadComplete(db, row, k);
        case PruneRaw(now, retention) =>
          RunAccounted(es[..n], k);
          RecordedBefore(es, k, now - retention);
          PruneComplete(db, now, retention, k);
        case _ =>
      }
    }
  }

  lemma {:induction false} RecordedBefore(es: seq<Event>, k: Key, t: int)
    requires es != []
    ensures var init := es[..|es| - 1];
      && (forall r :: r in Run(init).raw ==> r in Run(init).recorded)
      && (Holds(Run(init).recorded, k, t) <==> UploadedBefore(es, |init|, k, t))
  {
    var init := es[..|es| - 1];
    forall r ensures r in Run(init).raw ==> r in Run(init).recorded {
      RecordedRows(init, r);
    }
    if Holds(Run(init).recorded, k, t) {
      var r :| r in Run(init).recorded && KeyOf(r) == k && r.at < t;
      RecordedRows(init, r);
      var i :| 0 <= i < |init| && init[i] == Upload(r);
      assert es[i] == init[i];
    }
    if UploadedBefore(es, |init|, k, t) {
      var i :| 0 <= i < |init| && es[i].Upload? && KeyOf(es[i].row) == k && es[i].row.at < t;
      assert init[i] == es[i];
      RecordedRows(init, es[i].row);
    }
  }

  /** A raw cutoff inside an hour, between two of its rows: the next roll-up replaces the hour's row by
      the sum of what is left. */
  lemma {:induction false} CutHourIsWrong(db: Db, now: int, retention: int, later: int, k: Key)
    requires Accounted(db, k) && k.hour < HourOf(later)
    requires Sums(Before(db.raw, now - retention), k).count > 0 && Sums(From(db.raw, now - retention), k).count > 0
    ensures var after := Rolled(PrunedRaw(db, now, retention), later);
      && !Right(after, k)
      && k in after.hourly && after.hourly[k] == Sums(From(db.raw, now - retention), k)
  {
    var pruned := PrunedRaw(db, now, retention);
    SumsOfFrom(db.raw, now - retention, k);
    RollupMirrorsRaw(pruned.raw, pruned.hourly, later, k);
  }

  /** A row that arrives after the rows of its hour were pruned: the next roll-up replaces the hour's row
      by that row alone. */
  lemma {:induction false} LateUploadIsWrong(db: Db, row: Raw, later: int)
    requires Sums(db.raw, KeyOf(row)) == ZERO && Sums(db.recorded, KeyOf(row)).count > 0
    requires KeyOf(row).hour < HourOf(later)
    ensures var after, k := Rolled(Record(db, [row]), later), KeyOf(row);
      !Right(after, k) && k in after.hourly && after.hourly[k] == Plus(ZERO, row)
  {
    var k, uploaded := KeyOf(row), Record(db, [row]);
    SumsSnoc(db.raw, row, k);
    SumsSnoc(db.recorded, row, k);
    RollupMirrorsRaw(uploaded.raw, uploaded.hourly, later, k);
  }

  /** So a row that was right turns wrong: the hour is rolled up, a cutoff falls between its rows, and
      the next roll-up counts only the later ones. */
  lemma {:induction false} RightThenWrong(rows: seq<Raw>, now: int, t: int, k: Key)
    requires Sums(Before(rows, t), k).count > 0 && Sums(From(rows, t), k).count > 0 && k.hour < HourOf(now)
    ensures var before := Rolled(Db(rows, map[], rows, None), now);
      var after := Rolled(PrunedRaw(before, now, now - t), now);
      && k in before.hourly && before.hourly[k].count == Sums(rows, k).count && Right(before, k)
      && k in after.hourly && after.hourly[k].count == Sums(From(rows, t), k).count < Sums(rows, k).count
      && !Right(after, k)
  {
    SumsOfFrom(rows, t, k);
    RollupMirrorsRaw(rows, map[], now, k);
    CutHourIsWrong(Rolled(Db(rows, map[], rows, None), now), now, now - t, now, k);
  }

  lemma {:induction false} TwoRows(first: Raw, second: Raw)
    requires KeyOf(first) == KeyOf(second) && first.at < second.at
    ensures var k, rows := KeyOf(first), [first] + [second];
      && Sums(rows, k).count == 2
      && Sums(From(rows, second.at), k).count == 1 && Sums(Before(rows, second.at), k).count == 1
  {
    var k, rows := KeyOf(first), [first] + [second];
    assert [] + [first] == [first] && [] + [second] == [second] && rows[..1] == [first];
    SumsSnoc([], first, k);
    SumsSnoc([], second, k);
    SumsSnoc([first], second, k);
    assert Before([first], second.at) == [first] && From([first], second.at) == [];
  }

  /** For instance two rows of one hour and a cutoff between them: the stored count goes from two to one. */
  lemma {:induction false} TwoRowsBecomeOne(first: Raw, second: Raw, now: int)
    requires KeyOf(first) == KeyOf(second) && first.at < second.at && HourOf(second.at) < HourOf(now)
    ensures var k, rows := KeyOf(first), [first] + [second];
      var before := Rolled(Db(rows, map[], rows, None), now);
      var after := Rolled(PrunedRaw(before, now, now - second.at), now);
      && k in before.hourly && before.hourly[k].count == 2 && Right(before, k)
      && k in after.hourly && after.hourly[k].count == 1 && !Right(after, k)
  {
    TwoRows(first, second);
    RightThenWrong([first] + [second], now, second.at, KeyOf(first));
  }

  predicate AlignedEvent(e: Event) {
    e.PruneRaw? ==> HourOf(e.now - e.retention) * HOUR == e.now - e.retention
  }

  /** Every raw cutoff is the start of an hour, and no row is uploaded for the hour once a cutoff has
      passed its start. */
  ghost predicate Orderly(es: seq<Event>, k: Key) {
    es != [] ==>
      && Orderly(es[..|es| - 1], k) && AlignedEvent(es[|es| - 1])
      && (es[|es| - 1].Upload? && KeyOf(es[|es| - 1].row) == k ==> Unreached(Run(es[..|es| - 1]), k))
  }

  /** Complete while no cutoff has reached it, empty afterwards. */
  ghost predicate Whole(db: Db, k: Key) {
    if Unreached(db, k) then Complete(db, k) else Sums(db.raw, k).count == 0
  }

  lemma {:induction false} PruneWhole(db: Db, now: int, retention: int, k: Key)
    requires Whole(db, k) && AlignedEvent(PruneRaw(now, retention))
    ensures Whole(PrunedRaw(db, now, retention), k)
  {
    var t := now - retention;
    if t <= k.hour * HOUR {
      SumsFrom(db.raw, t, k);
    } else {
      SumsOfFrom(db.raw, t, k);
      SumsBefore(db.raw, HourOf(t), k);
    }
  }

  lemma {:induction false} WholeStep(db: Db, e: Event, k: Key)
    requires Whole(db, k) && AlignedEvent(e)
    requires e.Upload? && KeyOf(e.row) == k ==> Unreached(db, k)
    ensures Whole(Step(db, e), k)
  {
    match e {
      case Upload(row) =>
        SumsSnoc(db.raw, row, k);
        SumsSnoc(db.recorded, row, k);
      case PruneRaw(now, retention) => PruneWhole(db, now, retention, k);
      case _ =>
    }
  }

  /** With aligned cutoffs and no upload for an hour already cut, a right row stays right under every
      roll-up. */
  lemma {:induction false} OrderlyStaysRight(es: seq<Event>, now: int, k: Key)
    requires Orderly(es, k)
    ensures Whole(Run(es), k)
    ensures Right(Run(es), k) ==> Right(Rolled(Run(es), now), k)
  {
    RunAccounted(es, k);
    if es != [] {
      var init := es[..|es| - 1];
      OrderlyStaysRight(init, now, k);
      RunAccounted(init, k);
      WholeStep(Run(init), es[|es| - 1], k);
    }
    if k.hour < HourOf(now) {
      RollupRightIff(Run(es), now, k);
    } else {
      RollupMirrorsRaw(Run(es).raw, Run(es).hourly, now, k);
    }
  }

  /** A row that this tick prunes was counted by this tick's roll-up, whatever the table holds, if and
      only if the raw cutoff is not past the start of the current hour. */
  lemma {:induction false} PrunedIsCountedIff(now: int, rawRetention: int)
    ensures (forall r: Raw :: r.at < now - rawRetention ==> KeyOf(r).hour < HourOf(now))
       <==> now - rawRetention <= HourOf(now) * HOUR
  {
    if now - rawRetention <= HourOf(now) * HOUR {
      forall r: Raw | r.at < now - rawRetention ensures KeyOf(r).hour < HourOf(now) {
      }
    } else {
      var r := Raw(0, HourOf(now) * HOUR, 0, 0, 0, 0, 0);
      assert KeyOf(r).hour == HourOf(now);
    }
  }

  /** Raw retention of an hour or more: a row that a tick prunes is part of the hourly row its roll-up
      has just written, and that row is right exactly when the hour was still complete. */
  lemma {:induction false} PrunedRowsWereCounted(db: Db, now: int, rawRetention: int, r: Raw)
    requires Accounted(db, KeyOf(r)) && rawRetention >= HOUR && r in db.raw && r.at < now - rawRetention
    ensures var after, k := Rolled(db, now), KeyOf(r);
      && k in after.hourly && after.hourly[k] == Sums(db.raw, k) && after.hourly[k].count > 0
      && (Right(after, k) <==> Complete(db, k))
  {
    PrunedIsCountedIff(now, rawRetention);
    CountMeansRow(db.raw, KeyOf(r));
    RollupMirrorsRaw(db.raw, db.hourly, now, KeyOf(r));
  }
}
