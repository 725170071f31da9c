/** The agent's local buffer of network samples and the batch uploader that drains it. Every fallible
    call takes its outcome as a parameter; sampler and uploader are interleaved one call at a time. */
module NetMetrics {
  import opened Common

  /** `networkBatchSize`. */
  const BATCH_SIZE := 500

  datatype Sample = Sample(occurredAt: int, interval: int, sentTotal: nat, recvTotal: nat,
                           sentControl: nat, recvControl: nat)

  /** A row of the samples table, with its AUTOINCREMENT id. */
  datatype Row = Row(id: int, sample: Sample)

  // ---------------------------------------------------------------------
  // The buffer

  ghost predicate Ascending(rows: seq<Row>) {
    forall i, j :: 0 <= i < j < |rows| ==> rows[i].id < rows[j].id
  }

  ghost predicate Below(rows: seq<Row>, bound: int) {
    forall i :: 0 <= i < |rows| ==> rows[i].id < bound
  }

  /** `ORDER BY id ASC LIMIT`. */
  function Oldest(rows: seq<Row>, limit: nat): (batch: seq<Row>) {
    if |rows| <= limit then rows else rows[..limit]
  }

  /** `DELETE WHERE id <= maxID`. */
  function Without(rows: seq<Row>, maxId: int): (rest: seq<Row>) {
    if rows == [] then [] else
      var rest := Without(rows[1..], maxId);
      if rows[0].id <= maxId then rest else [rows[0]] + rest
  }

  /** The rows that delete removes. */
  function UpTo(rows: seq<Row>, maxId: int): (taken: seq<Row>) {
    if rows == [] then [] else
      var taken := UpTo(rows[1..], maxId);
      if rows[0].id <= maxId then [rows[0]] + taken else taken
  }

  /** Rows in id order are cut in two. */
  lemma {:induction false} Cut(rows: seq<Row>, n: nat, maxId: int)
    requires n <= |rows|
    requires forall i :: 0 <= i < n ==> rows[i].id <= maxId
    requires forall i :: n <= i < |rows| ==> rows[i].id > maxId
    ensures UpTo(rows, maxId) == rows[..n] && Without(rows, maxId) == rows[n..]
  {
    if rows != [] {
      Cut(rows[1..], if n == 0 then 0 else n - 1, maxId);
      assert rows == [rows[0]] + rows[1..];
    }
  }

  /** Deleting up to the last id of a leading batch deletes exactly that batch. */
  lemma {:induction false} WithoutBatch(batch: seq<Row>, rest: seq<Row>)
    requires batch != [] && Ascending(batch + rest)
    ensures var last := batch[|batch| - 1].id;
      UpTo(batch + rest, last) == batch && Without(batch + rest, last) == rest
  {
    var rows, last := batch + rest, |batch| - 1;
    assert rows[last] == batch[last];
    Cut(rows, |batch|, batch[last].id);
    assert rows[..|batch|] == batch && rows[|batch|..] == rest;
  }

  lemma {:induction false} OlderThanRest(rows: seq<Row>, n: nat, r: Row, s: Row)
    requires Ascending(rows) && n <= |rows| && r in rows[..n] && s in rows && s !in rows[..n]
    ensures r.id < s.id
  {
    var i :| 0 <= i < n && rows[i] == r;
    var j :| 0 <= j < |rows| && rows[j] == s;
    assert n <= j || rows[..n][j] == s;
  }

  class Store {
    var rows: seq<Row>
    var nextId: int

    ghost predicate Valid()
      reads this
    {
      Ascending(rows) && Below(rows, nextId)
    }

    constructor ()
      ensures Valid() && rows == []
    {
      rows := [];
      nextId := 1;
    }

    method Insert(sample: Sample, succeeds: bool) returns (ok: bool)
      requires Valid()
      modifies this
      ensures Valid() && ok == succeeds
      ensures ok ==> rows == old(rows) + [Row(old(nextId), sample)] && nextId == old(nextId) + 1
      ensures !ok ==> rows == old(rows) && nextId == old(nextId)
    {
      ok := succeeds;
      if ok {
        rows := rows + [Row(nextId, sample)];
        nextId := nextId + 1;
      }
    }

    method Pending(limit: nat, succeeds: bool) returns (batch: Option<seq<Row>>)
      requires Valid()
      ensures batch.Some? <==> succeeds
      ensures batch.Some? ==>
        && batch.value <= rows && |batch.value| == (if |rows| < limit then |rows| else limit)
        && forall r, s :: r in batch.value && s in rows && s !in batch.value ==> r.id < s.id
    {
      if !succeeds {
        return None;
      }
      var n := if |rows| < limit then |rows| else limit;
      batch := Some(rows[..n]);
      forall r, s | r in batch.value && s in rows && s !in batch.value ensures r.id < s.id {
        OlderThanRest(rows, n, r, s);
      }
    }

    method DeleteUpTo(maxId: int, succeeds: bool) returns (ok: bool)
      requires Valid()
      modifies this
      ensures ok == succeeds && nextId == old(nextId)
      ensures rows == if ok then Without(old(rows), maxId) else old(rows)
      ensures Valid()
    {
      ok := succeeds;
      if ok {
        WithoutKeepsOrder(rows, maxId, nextId);
        rows := Without(rows, maxId);
      }
    }

    /** One round of `uploadNetworkMetrics`: read a batch, send it, delete it. `works` are the outcomes
        of the three calls, `batch` is what was sent, `again` asks for another round. */
    method UploadRound(works: nat -> bool) returns (batch: seq<Row>, again: bool)
      requires Valid()
      modifies this
      ensures Valid() && batch <= old(rows)
      ensures !works(0) || !works(1) ==> batch == [] && rows == old(rows)
      ensures works(0) && works(1) ==> |batch| == if |old(rows)| < 500 then |old(rows)| else 500
      ensures rows == if works(0) && works(1) && works(2) then old(rows)[|batch|..] else old(rows)
      ensures again <==> works(2) && |batch| == 500
    {
      batch, again := [], false;
      var pending := Pending(BATCH_SIZE, works(0));
      if pending.None? || |pending.value| == 0 || !works(1) {
        return;
      }
      batch := pending.value;
      ghost var rest := rows[|batch|..];
      assert rows == batch + rest;
      WithoutBatch(batch, rest);
      var deleted := DeleteUpTo(batch[|batch| - 1].id, works(2));
      again := deleted && |batch| == BATCH_SIZE;
    }

    /** `uploadNetworkMetrics` with nobody inserting meanwhile; `works(k)` are the outcomes of round k.
        Whatever fails, the rows sent are a leading part of the buffer and only rows that were sent
        have left it; if nothing fails everything was sent, and the loop ends. */
    method Upload(works: nat -> nat -> bool) returns (sent: seq<Row>)
      requires Valid()
      modifies this
      ensures Valid() && sent <= old(rows)
      ensures exists n :: 0 <= n <= |sent| && rows == old(rows)[n..]
      ensures (forall k, i :: works(k)(i)) ==> rows == [] && sent == old(rows)
      ensures (sent, rows) == Drained(old(rows), works, 0)
    {
      sent := [];
      ghost var all := rows;
      var round, again := 0, true;
      assert [] + Drained(all, works, 0).0 == Drained(all, works, 0).0;
      while again
        invariant Valid() && sent <= all && (again ==> rows == all[|sent|..])
        invariant exists n :: 0 <= n <= |sent| && rows == all[n..]
        invariant (forall k, i :: works(k)(i)) ==> rows == all[|sent|..] && (again || rows == [])
        invariant Drained(all, works, 0) ==
          if again then (sent + Drained(rows, works, round).0, Drained(rows, works, round).1) else (sent, rows)
        decreases again, |rows|
      {
        ghost var before, left := sent, rows;
        var batch;
        batch, again := UploadRound(works(round));
        DrainedRound(before, left, works, round, batch);
        sent := sent + batch;
        Advance(all, before, batch);
        round := round + 1;
      }
    }
  }

  /** What the rounds from k on send, and what they leave: a round whose read or send fails sends nothing,
      one whose delete fails is the last, and so is one with fewer than 500 rows. */
  function Drained(rows: seq<Row>, works: nat -> nat -> bool, k: nat): (r: (seq<Row>, seq<Row>))
    decreases |rows|
  {
    if !works(k)(0) || !works(k)(1) then ([], rows)
    else if !works(k)(2) then (if |rows| < 500 then rows else rows[..500], rows)
    else if |rows| < 500 then (rows, [])
    else
      var (sent, rest) := Drained(rows[500..], works, k + 1);
      (rows[..500] + sent, rest)
  }

  lemma {:induction false} DrainedRound(before: seq<Row>, rows: seq<Row>, works: nat -> nat -> bool, k: nat,
                                        batch: seq<Row>)
    requires works(k)(0) && works(k)(1) ==> batch == if |rows| < 500 then rows else rows[..500]
    requires !works(k)(0) || !works(k)(1) ==> batch == []
    ensures var (sent, rest) := Drained(rows, works, k);
      if works(k)(2) && |batch| == 500 then
        before + sent == before + batch + Drained(rows[500..], works, k + 1).0
        && rest == Drained(rows[500..], works, k + 1).1
      else sent == batch && rest == if works(k)(0) && works(k)(1) && works(k)(2) then rows[|batch|..] else rows
  {
  }

  ghost predicate Delivers(works: nat -> nat -> bool, j: nat) {
    works(j)(0) && works(j)(1)
  }

  ghost predicate Completes(works: nat -> nat -> bool, j: nat) {
    works(j)(0) && works(j)(1) && works(j)(2)
  }

  /** Exactly which rows a drain from round k on sends and deletes: row i belongs to the round i / 500
      later, which is reached if all rounds before it completed; it is sent if that round's read and send
      succeed, and leaves the buffer if its delete does too. */
  lemma {:induction false} DrainedIff(rows: seq<Row>, works: nat -> nat -> bool, k: nat, i: nat)
    requires i < |rows|
    ensures var (sent, rest) := Drained(rows, works, k);
      && sent <= rows && |rest| <= |rows| && rest == rows[|rows| - |rest|..]
      && (i < |sent| <==> (forall j :: k <= j < k + i / 500 ==> Completes(works, j)) && Delivers(works, k + i / 500))
      && (i < |rows| - |rest| <==> forall j :: k <= j <= k + i / 500 ==> Completes(works, j))
    decreases |rows|
  {
    if Completes(works, k) {
      if |rows| > 500 {
        DrainedIff(rows[500..], works, k + 1, if i < 500 then 0 else i - 500);
        assert i >= 500 ==> (i - 500) / 500 == i / 500 - 1;
      } else if |rows| == 500 {
        assert Drained(rows[500..], works, k + 1) == ([], []);
      }
    }
  }

  lemma {:induction false} Advance(all: seq<Row>, before: seq<Row>, batch: seq<Row>)
    requires before <= all && batch <= all[|before|..]
    ensures before + batch <= all && all[|before|..][|batch|..] == all[|before + batch|..]
  {
  }

  lemma {:induction false} WithoutIsPart(rows: seq<Row>, maxId: int, r: Row)
    requires r in Without(rows, maxId)
    ensures r in rows
  {
    if rows[0] != r {
      WithoutIsPart(rows[1..], maxId, r);
    }
  }

  lemma {:induction false} AscendingCons(r: Row, rest: seq<Row>)
    requires Ascending(rest) && forall i :: 0 <= i < |rest| ==> r.id < rest[i].id
    ensures Ascending([r] + rest)
  {
  }

  lemma {:induction false} WithoutKeepsOrder(rows: seq<Row>, maxId: int, bound: int)
    requires Ascending(rows) && Below(rows, bound)
    ensures Ascending(Without(rows, maxId)) && Below(Without(rows, maxId), bound)
  {
    if rows != [] {
      var tail := rows[1..];
      WithoutKeepsOrder(tail, maxId, bound);
      var rest := Without(tail, maxId);
      forall i | 0 <= i < |rest| ensures rows[0].id < rest[i].id {
        WithoutIsPart(tail, maxId, rest[i]);
      }
      AscendingCons(rows[0], rest);
    }
  }

  // ---------------------------------------------------------------------
  // Sampler and uploader interleaved

  /** Where the uploader stands between its calls. */
  datatype Phase = Idle | HasBatch(batch: seq<Row>) | Delivered(batch: seq<Row>)

  /** The buffer and the uploader; `inserted`, `sent` and `deleted` record the past. */
  datatype Buffer = Buffer(rows: seq<Row>, nextId: int, phase: Phase,
                           inserted: seq<Row>, sent: set<Row>, deleted: seq<Row>)

  /** One call; the flag is its outcome. `Abandon` is the end of a connection, or a restart. */
  datatype Event =
    | Insert(sample: Sample, ok: bool)
    | Read(ok: bool)
    | Send(ok: bool)
    | Delete(ok: bool)
    | Abandon

  function Step(b: Buffer, e: Event): (b': Buffer) {
    match e
    case Insert(s, ok) =>
      if !ok then b else
        var row := Row(b.nextId, s);
        b.(rows := b.rows + [row], nextId := b.nextId + 1, inserted := b.inserted + [row])
    case Read(ok) =>
      if !b.phase.Idle? || !ok || b.rows == [] then b
      else b.(phase := HasBatch(Oldest(b.rows, BATCH_SIZE)))
    case Send(ok) =>
      if !b.phase.HasBatch? then b
      else if !ok then b.(phase := Idle)
      else b.(phase := Delivered(b.phase.batch), sent := b.sent + set r | r in b.phase.batch)
    case Delete(ok) =>
      if !b.phase.Delivered? || b.phase.batch == [] then b
      else if !ok then b.(phase := Idle)
      else
        var last := b.phase.batch[|b.phase.batch| - 1].id;
        b.(phase := Idle, rows := Without(b.rows, last), deleted := b.deleted + UpTo(b.rows, last))
    case Abandon => b.(phase := Idle)
  }

  function Run(b: Buffer, es: seq<Event>): (b': Buffer) {
    if es == [] then b else Step(Run(b, es[..|es| - 1]), es[|es| - 1])
  }

  const EMPTY := Buffer([], 1, Idle, [], {}, [])

  ghost predicate PhaseOk(b: Buffer) {
    match b.phase
    case Idle => true
    case HasBatch(batch) => batch != [] && batch <= b.rows
    case Delivered(batch) => batch != [] && batch <= b.rows && forall r :: r in batch ==> r in b.sent
  }

  ghost predicate Kept(b: Buffer) {
    && Ascending(b.rows) && Below(b.rows, b.nextId)
    && PhaseOk(b)
    && b.inserted == b.deleted + b.rows
    && forall r :: r in b.deleted ==> r in b.sent
  }

  /** A delete that succeeds removes exactly the batch just sent, whatever was inserted since. */
  lemma {:induction false} DeleteExact(b: Buffer)
    requires Kept(b) && b.phase.Delivered?
    ensures var b' := Step(b, Delete(true));
      b.rows == b.phase.batch + b'.rows && b'.deleted == b.deleted + b.phase.batch
  {
    var batch := b.phase.batch;
    var rest := b.rows[|batch|..];
    assert b.rows == batch + rest;
    WithoutBatch(batch, rest);
  }

  lemma {:induction false} DeleteKeeps(b: Buffer)
    requires Kept(b) && b.phase.Delivered?
    ensures Kept(Step(b, Delete(true)))
  {
    var b', batch := Step(b, Delete(true)), b.phase.batch;
    DeleteExact(b);
    assert b'.rows == b.rows[|batch|..];
    assert b'.inserted == b'.deleted + b'.rows;
    assert PhaseOk(b);
  }

  lemma {:induction false} InsertKeeps(b: Buffer, s: Sample)
    requires Kept(b)
    ensures Kept(Step(b, Insert(s, true)))
  {
  }

  lemma {:induction false} StepKeeps(b: Buffer, e: Event)
    requires Kept(b)
    ensures Kept(Step(b, e))
  {
    match e {
      case Insert(s, ok) => if ok { InsertKeeps(b, s); }
      case Delete(ok) => if ok && b.phase.Delivered? { DeleteKeeps(b); }
      case _ =>
    }
  }

  // ---------------------------------------------------------------------
  // Where the past comes from

  /** A successful write of a batch that contains the row. */
  predicate WasSent(es: seq<Event>, r: Row) {
    es != [] &&
    var init := es[..|es| - 1];
    || WasSent(init, r)
    || (es[|es| - 1] == Send(true) && Run(EMPTY, init).phase.HasBatch? && r in Run(EMPTY, init).phase.batch)
  }

  /** Sent means exactly that. */
  lemma {:induction false} SentIff(es: seq<Event>, r: Row)
    ensures r in Run(EMPTY, es).sent <==> WasSent(es, r)
  {
    if es != [] {
      SentIff(es[..|es| - 1], r);
    }
  }

  /** The samples whose insert succeeded. */
  function Inserts(es: seq<Event>): (ss: seq<Sample>) {
    if es == [] then [] else
      var init, e := es[..|es| - 1], es[|es| - 1];
      if e.Insert? && e.ok then Inserts(init) + [e.sample] else Inserts(init)
  }

  /** The rows ever inserted are exactly those samples, in order. */
  lemma {:induction false} InsertedAre(es: seq<Event>)
    ensures var b := Run(EMPTY, es);
      |b.inserted| == |Inserts(es)| && forall i :: 0 <= i < |b.inserted| ==> b.inserted[i].sample == Inserts(es)[i]
  {
    if es != [] {
      InsertedAre(es[..|es| - 1]);
    }
  }

  /** What a read picks: the oldest rows, at most 500. */
  lemma {:induction false} ReadTakes(b: Buffer)
    requires b.phase.Idle? && b.rows != []
    ensures var b' := Step(b, Read(true));
      && b' == b.(phase := b'.phase) && b'.phase.HasBatch? && b'.phase.batch <= b.rows
      && |b'.phase.batch| == if |b.rows| < 500 then |b.rows| else 500
  {
  }

  /** Only a successful insert or a successful delete after a successful send changes the buffer, and only
      a failed call, a finished delete or a lost connection makes the uploader idle. */
  lemma {:induction false} RowsChange(b: Buffer, e: Event)
    ensures var b' := Step(b, e);
      && (b'.rows != b.rows ==> (e.Insert? && e.ok) || (e == Delete(true) && b.phase.Delivered?))
      && (e == Send(false) && b.phase.HasBatch? ==> b' == b.(phase := Idle))
      && (e == Delete(false) && b.phase.Delivered? && b.phase.batch != [] ==> b' == b.(phase := Idle))
      && (e == Abandon ==> b' == b.(phase := Idle))
      && (e == Read(false) ==> b' == b)
  {
  }

  /** No sample is lost: under every interleaving and every failure the samples ever inserted are,
      in order, those deleted followed by those still buffered, and every deleted one was sent. */
  lemma {:induction false} NothingLost(es: seq<Event>)
    ensures var b := Run(EMPTY, es);
      && b.inserted == b.deleted + b.rows
      && (forall r :: r in b.inserted ==> r in b.rows || r in b.sent)
      && Kept(b)
  {
    if es != [] {
      NothingLost(es[..|es| - 1]);
      StepKeeps(Run(EMPTY, es[..|es| - 1]), es[|es| - 1]);
    }
    var b := Run(EMPTY, es);
    forall r | r in b.inserted ensures r in b.rows || r in b.sent {
      assert r in b.deleted || r in b.rows;
    }
  }
}
