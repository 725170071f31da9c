/** The audit log's hash chain: `Record` transactions interleaved in any order, `VerifyChain`, and
    what a verifying log binds. SHA-256 is a parameter. A NULL
    hash column and an empty one read back the same way, so both are the empty byte string. */
module AuditChain {
  import opened Common

  type Digest = Bytes -> Bytes

  /** The one property of SHA-256 that is used: its results have 32 bytes. */
  ghost predicate Is32Bytes(hash: Digest) {
    forall x :: |hash(x)| == 32
  }

  /** `chainableFields`, each already rendered as the bytes that are hashed. */
  datatype Fields = Fields(occurredAt: Bytes, actorType: Bytes, actorId: Option<Bytes>,
                           sessionId: Option<Bytes>, deviceId: Option<Bytes>, customerId: Option<Bytes>,
                           eventType: Bytes, result: Bytes, sourceIp: Bytes, requestId: Option<Bytes>,
                           metadata: Bytes)

  /** A row of audit_log. An empty source address is stored as NULL. */
  datatype Row = Row(id: int, fields: Fields, sourceIp: Option<Bytes>, prev: Bytes, entry: Bytes)

  function OptionalBytes(x: Option<Bytes>): (b: Bytes) {
    if x.Some? then x.value else []
  }

  /** The fields in hashing order. */
  function Parts(f: Fields): (parts: seq<Bytes>) {
    [f.occurredAt, f.actorType, OptionalBytes(f.actorId), OptionalBytes(f.sessionId),
     OptionalBytes(f.deviceId), OptionalBytes(f.customerId), f.eventType, f.result, f.sourceIp,
     OptionalBytes(f.requestId), f.metadata]
  }

  /** Successive writes to the hash: the parts follow each other without separators. */
  function Written(parts: seq<Bytes>): (b: Bytes) {
    if parts == [] then [] else parts[0] + Written(parts[1..])
  }

  function Encode(f: Fields): (b: Bytes) {
    Written(Parts(f))
  }

  /** `computeEntryHash`. */
  function EntryHash(hash: Digest, prev: Bytes, f: Fields): (h: Bytes) {
    hash(prev + Encode(f))
  }

  /** What verification reads back from a row. */
  function ReadBack(r: Row): (f: Fields) {
    r.fields.(sourceIp := OptionalBytes(r.sourceIp))
  }

  function NewRow(hash: Digest, id: int, f: Fields, prev: Bytes): (r: Row)
    ensures ReadBack(r) == f && r.id == id && r.prev == prev
    ensures r.entry == EntryHash(hash, r.prev, ReadBack(r))
    ensures r.sourceIp.Some? ==> r.sourceIp.value != []
  {
    Row(id, f, if f.sourceIp == [] then None else Some(f.sourceIp), prev, EntryHash(hash, prev, f))
  }

  // ---------------------------------------------------------------------
  // Verification

  /** The first k rows, and no more, predate the chain. */
  ghost predicate Leading(rows: seq<Row>, k: int) {
    && 0 <= k <= |rows|
    && (forall i :: 0 <= i < k ==> rows[i].entry == [])
    && (k < |rows| ==> rows[k].entry != [])
  }

  /** The hash row i of a chain starting at row k must continue. */
  ghost function ExpectedPrev(rows: seq<Row>, k: int, i: int): (prev: Bytes)
    requires 0 <= k <= i <= |rows|
  {
    if i == k then [] else rows[i - 1].entry
  }

  /** The byte string hashed for row i. */
  ghost function Hashed(rows: seq<Row>, k: int, i: int): (b: Bytes)
    requires 0 <= k <= i < |rows|
  {
    ExpectedPrev(rows, k, i) + Encode(ReadBack(rows[i]))
  }

  /** Row i continues the row before it and hashes to its stored entry. */
  ghost predicate Linked(hash: Digest, rows: seq<Row>, k: int, i: int)
    requires 0 <= k <= i < |rows|
  {
    rows[i].prev == ExpectedPrev(rows, k, i) && rows[i].entry == hash(Hashed(rows, k, i))
  }

  ghost predicate LinkedUpTo(hash: Digest, rows: seq<Row>, k: int, n: int)
    requires 0 <= k <= |rows| && n <= |rows|
  {
    forall i :: k <= i < n ==> Linked(hash, rows, k, i)
  }

  datatype Verification = Verification(valid: bool, checked: int, preChain: int, brokenAt: Option<int>)

  /** The verdict: either all rows are linked, or the first row that is not is named. */
  ghost predicate IsVerdict(hash: Digest, rows: seq<Row>, v: Verification) {
    && Leading(rows, v.preChain)
    && 0 <= v.checked <= |rows| - v.preChain
    && var end := v.preChain + v.checked;
       if v.valid then
         end == |rows| && v.brokenAt == None && LinkedUpTo(hash, rows, v.preChain, |rows|)
       else
         && v.checked > 0 && v.brokenAt == Some(rows[end - 1].id)
         && LinkedUpTo(hash, rows, v.preChain, end - 1) && !Linked(hash, rows, v.preChain, end - 1)
  }

  method VerifyChain(hash: Digest, rows: seq<Row>) returns (v: Verification)
    ensures IsVerdict(hash, rows, v)
  {
    var expectedPrev: Bytes := [];
    var count, preChain := 0, 0;
    var chainStarted := false;
    for i := 0 to |rows|
      invariant 0 <= preChain && 0 <= count && preChain + count == i
      invariant forall j :: 0 <= j < preChain ==> rows[j].entry == []
      invariant chainStarted <==> count > 0
      invariant chainStarted ==> rows[preChain].entry != []
      invariant expectedPrev == ExpectedPrev(rows, preChain, i)
      invariant LinkedUpTo(hash, rows, preChain, i)
    {
      var row := rows[i];
      if !chainStarted && |row.entry| == 0 {
        preChain := preChain + 1;
        continue;
      }
      chainStarted := true;
      count := count + 1;
      var recomputed := EntryHash(hash, expectedPrev, ReadBack(row));
      if row.prev != expectedPrev || row.entry != recomputed {
        assert !Linked(hash, rows, preChain, i);
        return Verification(false, count, preChain, Some(row.id));
      }
      expectedPrev := row.entry;
    }
    return Verification(true, count, preChain, None);
  }

  /** A log has one verdict. */
  lemma {:induction false} VerdictUnique(hash: Digest, rows: seq<Row>, v: Verification, u: Verification)
    requires IsVerdict(hash, rows, v) && IsVerdict(hash, rows, u)
    ensures u == v
  {
  }

  // ---------------------------------------------------------------------
  // Concurrent writers

  /** How far one `Record` transaction has come. */
  datatype Phase =
    | Begun(fields: Fields)
    | Locked(fields: Fields)
    | HasPrev(fields: Fields, prev: Bytes)
    | Inserted(row: Row)

  /** Committed rows in id order, the id sequence, the advisory lock and the open transactions. */
  datatype Db = Db(rows: seq<Row>, nextId: int, lock: Option<nat>, open: map<nat, Phase>)

  datatype Event =
    | Begin(writer: nat, fields: Fields)
    | Acquire(writer: nat)
    | ReadLast(writer: nat)
    | Insert(writer: nat)
    | Commit(writer: nat)
    | Rollback(writer: nat)
    | Update(writer: nat, at: nat, row: Row)
    | Delete(writer: nat, at: nat)

  /** The hash in the last row by id, empty when there is no row or it predates the chain. */
  function LastHash(rows: seq<Row>): (h: Bytes) {
    if rows == [] then [] else rows[|rows| - 1].entry
  }

  function Release(lock: Option<nat>, w: nat): (l: Option<nat>) {
    if lock == Some(w) then None else lock
  }

  /** One step of one transaction; a step that is not possible changes nothing. */
  function Step(hash: Digest, db: Db, e: Event): (db': Db) {
    var w := e.writer;
    match e
    case Begin(_, f) =>
      if w in db.open then db else db.(open := db.open[w := Begun(f)])
    case Acquire(_) =>
      if w in db.open && db.open[w].Begun? && db.lock == None
      then db.(lock := Some(w), open := db.open[w := Locked(db.open[w].fields)]) else db
    case ReadLast(_) =>
      if w in db.open && db.open[w].Locked?
      then db.(open := db.open[w := HasPrev(db.open[w].fields, LastHash(db.rows))]) else db
    case Insert(_) =>
      if w in db.open && db.open[w].HasPrev?
      then db.(nextId := db.nextId + 1,
               open := db.open[w := Inserted(NewRow(hash, db.nextId, db.open[w].fields, db.open[w].prev))])
      else db
    case Commit(_) =>
      if Commits(db, e)
      then Db(db.rows + [db.open[w].row], db.nextId, Release(db.lock, w), db.open - {w}) else db
    case Rollback(_) => Aborted(db, w)
    case Update(_, at, _) => if at < |db.rows| then Aborted(db, w) else db
    case Delete(_, at) => if at < |db.rows| then Aborted(db, w) else db
  }

  /** The end of a transaction that is rolled back, by its own choice or because the trigger on
      audit_log raised an exception for a row it tried to update or delete. */
  function Aborted(db: Db, w: nat): (db': Db) {
    if w in db.open then db.(lock := Release(db.lock, w), open := db.open - {w}) else db
  }

  predicate Commits(db: Db, e: Event) {
    e.Commit? && e.writer in db.open && db.open[e.writer].Inserted?
  }

  function Run(hash: Digest, db: Db, es: seq<Event>): (db': Db) {
    if es == [] then db else Step(hash, Run(hash, db, es[..|es| - 1]), es[|es| - 1])
  }

  /** How many transactions of a run committed. */
  function CommitCount(hash: Digest, db: Db, es: seq<Event>): (n: nat) {
    if es == [] then 0 else
      var init := es[..|es| - 1];
      CommitCount(hash, db, init) + if Commits(Run(hash, db, init), es[|es| - 1]) then 1 else 0
  }

  /** An installation upgraded with rows that predate the chain, no transaction open. */
  ghost predicate Upgraded(db: Db) {
    && (forall i :: 0 <= i < |db.rows| ==> db.rows[i].entry == [])
    && Ascending(db.rows, db.nextId) && db.lock == None && db.open == map[]
  }

  ghost predicate Ascending(rows: seq<Row>, bound: int) {
    && (forall i, j :: 0 <= i < j < |rows| ==> rows[i].id < rows[j].id)
    && (forall i :: 0 <= i < |rows| ==> rows[i].id < bound)
  }

  /** What the lock holder relies on: its view of the log is current. */
  ghost predicate PhaseOk(hash: Digest, rows: seq<Row>, nextId: int, phase: Phase) {
    match phase
    case Begun(_) => true
    case Locked(_) => true
    case HasPrev(_, prev) => prev == LastHash(rows)
    case Inserted(row) =>
      && row.prev == LastHash(rows) && row.entry == EntryHash(hash, row.prev, ReadBack(row))
      && row.id < nextId && Ascending(rows, row.id)
  }

  /** Everyone who has passed the lock holds it. */
  ghost predicate Exclusive(db: Db) {
    forall w :: w in db.open && !db.open[w].Begun? ==> db.lock == Some(w)
  }

  /** k rows without a hash, then a chain; open transactions see the end of it. */
  ghost predicate Honest(hash: Digest, db: Db, k: int) {
    && Leading(db.rows, k)
    && LinkedUpTo(hash, db.rows, k, |db.rows|)
    && Ascending(db.rows, db.nextId)
    && Exclusive(db)
    && forall w :: w in db.open ==> PhaseOk(hash, db.rows, db.nextId, db.open[w])
  }

  lemma {:induction false} AppendLinked(hash: Digest, rows: seq<Row>, k: int, row: Row)
    requires Is32Bytes(hash) && Leading(rows, k) && LinkedUpTo(hash, rows, k, |rows|)
    requires row.prev == LastHash(rows) && row.entry == EntryHash(hash, row.prev, ReadBack(row))
    ensures Leading(rows + [row], k) && LinkedUpTo(hash, rows + [row], k, |rows| + 1)
  {
    var more := rows + [row];
    forall i | k <= i < |more| ensures Linked(hash, more, k, i) {
      if i < |rows| {
        assert Linked(hash, rows, k, i);
      }
    }
  }

  lemma {:induction false} AppendAscending(rows: seq<Row>, row: Row, bound: int)
    requires Ascending(rows, row.id) && row.id < bound
    ensures Ascending(rows + [row], bound)
  {
  }

  lemma {:induction false} CommitHonest(hash: Digest, db: Db, k: int, w: nat)
    requires Is32Bytes(hash) && Honest(hash, db, k) && Commits(db, Commit(w))
    ensures Honest(hash, Step(hash, db, Commit(w)), k)
  {
    var row := db.open[w].row;
    assert PhaseOk(hash, db.rows, db.nextId, Inserted(row));
    AppendLinked(hash, db.rows, k, row);
    AppendAscending(db.rows, row, db.nextId);
    var db' := Step(hash, db, Commit(w));
    forall v | v in db'.open ensures PhaseOk(hash, db'.rows, db'.nextId, db'.open[v]) {
      assert v != w && db.open[v].Begun?;
    }
  }

  lemma {:induction false} InsertHonest(hash: Digest, db: Db, k: int, w: nat)
    requires Is32Bytes(hash) && Honest(hash, db, k)
    ensures Honest(hash, Step(hash, db, Insert(w)), k)
  {
  }

  lemma {:induction false} StepHonest(hash: Digest, db: Db, k: int, e: Event)
    requires Is32Bytes(hash) && Honest(hash, db, k)
    ensures Honest(hash, Step(hash, db, e), k)
  {
    if Commits(db, e) {
      CommitHonest(hash, db, k, e.writer);
    } else if e.Insert? {
      InsertHonest(hash, db, k, e.writer);
    } else {
      var db' := Step(hash, db, e);
      assert db'.rows == db.rows && db'.nextId == db.nextId;
      forall v | v in db'.open ensures PhaseOk(hash, db'.rows, db'.nextId, db'.open[v]) {
        assert v in db.open ==> PhaseOk(hash, db.rows, db.nextId, db.open[v]);
      }
    }
  }

  lemma {:induction false} RunHonest(hash: Digest, db: Db, es: seq<Event>)
    requires Is32Bytes(hash) && Upgraded(db)
    ensures Honest(hash, Run(hash, db, es), |db.rows|)
    ensures |Run(hash, db, es).rows| == |db.rows| + CommitCount(hash, db, es)
  {
    if es != [] {
      var init := es[..|es| - 1];
      RunHonest(hash, db, init);
      StepHonest(hash, Run(hash, db, init), |db.rows|, es[|es| - 1]);
    }
  }

  /** Every interleaving of honest writers verifies, with exactly the committed transactions checked
      and exactly the rows from before the upgrade set aside. */
  lemma {:induction false} HonestWritersVerify(hash: Digest, db: Db, es: seq<Event>, v: Verification)
    requires Is32Bytes(hash) && Upgraded(db) && IsVerdict(hash, Run(hash, db, es).rows, v)
    ensures v == Verification(true, CommitCount(hash, db, es), |db.rows|, None)
  {
    RunHonest(hash, db, es);
    VerdictUnique(hash, Run(hash, db, es).rows, v,
                  Verification(true, CommitCount(hash, db, es), |db.rows|, None));
  }

  /** A writer that finds the lock free and is not disturbed adds exactly its row, which continues the last
      one, and leaves the lock free. */
  lemma {:induction false} RecordAlone(hash: Digest, db: Db, w: nat, f: Fields)
    requires db.lock == None && w !in db.open
    ensures var locked := Step(hash, Step(hash, db, Begin(w, f)), Acquire(w));
      var written := Step(hash, Step(hash, locked, ReadLast(w)), Insert(w));
      && locked.lock == Some(w)
      && Step(hash, written, Commit(w)) ==
           db.(rows := db.rows + [NewRow(hash, db.nextId, f, if db.rows == [] then [] else db.rows[|db.rows| - 1].entry)],
               nextId := db.nextId + 1)
      && Step(hash, written, Rollback(w)) == db.(nextId := db.nextId + 1)
  {
    var locked := Step(hash, Step(hash, db, Begin(w, f)), Acquire(w));
    var written := Step(hash, Step(hash, locked, ReadLast(w)), Insert(w));
    assert written.open - {w} == db.open;
  }

  /** A second writer waits while the lock is held. */
  lemma {:induction false} LockIsExclusive(hash: Digest, db: Db, w: nat)
    requires db.lock.Some?
    ensures Step(hash, db, Acquire(w)) == db
  {
  }

  /** A writer of this run began with these fields. */
  ghost predicate Began(es: seq<Event>, w: nat, f: Fields) {
    exists j :: 0 <= j < |es| && es[j] == Begin(w, f)
  }

  function FieldsOf(p: Phase): (f: Fields) {
    if p.Inserted? then ReadBack(p.row) else p.fields
  }

  lemma {:induction false} BeganMore(es: seq<Event>, w: nat, f: Fields)
    requires es != [] && Began(es[..|es| - 1], w, f)
    ensures Began(es, w, f)
  {
    var j :| 0 <= j < |es| - 1 && es[..|es| - 1][j] == Begin(w, f);
    assert es[j] == Begin(w, f);
  }

  lemma {:induction false} OpenAsBegun(hash: Digest, db: Db, es: seq<Event>, w: nat)
    requires db.open == map[] && w in Run(hash, db, es).open
    ensures Began(es, w, FieldsOf(Run(hash, db, es).open[w]))
  {
    var init := es[..|es| - 1];
    var before, after := Run(hash, db, init), Run(hash, db, es);
    if w in before.open && FieldsOf(before.open[w]) == FieldsOf(after.open[w]) {
      OpenAsBegun(hash, db, init, w);
      BeganMore(es, w, FieldsOf(after.open[w]));
    } else {
      assert es[|es| - 1] == Begin(w, FieldsOf(after.open[w]));
    }
  }

  /** What the log says is what its writers recorded: every row a run adds reads back as the fields some
      writer began with. */
  lemma {:induction false} RowsAsBegun(hash: Digest, db: Db, es: seq<Event>, i: nat)
    requires db.open == map[] && |db.rows| <= i < |Run(hash, db, es).rows|
    ensures exists w :: Began(es, w, ReadBack(Run(hash, db, es).rows[i]))
  {
    var init, e := es[..|es| - 1], es[|es| - 1];
    var before, row := Run(hash, db, init), Run(hash, db, es).rows[i];
    if i < |before.rows| {
      RowsAsBegun(hash, db, init, i);
      var w :| Began(init, w, ReadBack(before.rows[i]));
      BeganMore(es, w, ReadBack(row));
    } else {
      OpenAsBegun(hash, db, init, e.writer);
      BeganMore(es, e.writer, ReadBack(row));
    }
  }

  /** The log only ever grows at its end, whatever transactions try. */
  lemma {:induction false} AppendOnly(hash: Digest, db: Db, es: seq<Event>)
    ensures db.rows <= Run(hash, db, es).rows
  {
    if es != [] {
      AppendOnly(hash, db, es[..|es| - 1]);
    }
  }

  // ---------------------------------------------------------------------
  // What a verifying log binds

  ghost predicate Collision(hash: Digest, x: Bytes, y: Bytes) {
    x != y && hash(x) == hash(y)
  }

  /** Position i of the chain: row k + i. */
  ghost predicate SameHashedAt(a: seq<Row>, j: int, b: seq<Row>, k: int, i: int)
    requires 0 <= j <= j + i < |a| && 0 <= k <= k + i < |b|
  {
    Hashed(a, j, j + i) == Hashed(b, k, k + i)
  }

  /** Past its first row, what a chain hashes starts with the 32 bytes it continues. */
  lemma {:induction false} HashedPrefix(hash: Digest, rows: seq<Row>, k: int, i: int)
    requires Is32Bytes(hash) && 0 <= k < i < |rows| && LinkedUpTo(hash, rows, k, |rows|)
    ensures |Hashed(rows, k, i)| >= 32 && Hashed(rows, k, i)[..32] == rows[i - 1].entry
  {
    assert Linked(hash, rows, k, i - 1);
  }

  /** Equal entries at position n: the two logs hashed the same bytes at every position up to it,
      or two different byte strings with the same digest are found. */
  lemma {:induction false} BindingUpTo(hash: Digest, a: seq<Row>, j: int, b: seq<Row>, k: int, n: nat)
    returns (clash: Option<(Bytes, Bytes)>)
    requires Is32Bytes(hash)
    requires 0 <= j && j + n < |a| && LinkedUpTo(hash, a, j, |a|)
    requires 0 <= k && k + n < |b| && LinkedUpTo(hash, b, k, |b|)
    requires a[j + n].entry == b[k + n].entry
    ensures clash.Some? ==> Collision(hash, clash.value.0, clash.value.1)
    ensures clash.None? ==> forall i :: 0 <= i <= n ==> SameHashedAt(a, j, b, k, i)
  {
    assert Linked(hash, a, j, j + n) && Linked(hash, b, k, k + n);
    if !SameHashedAt(a, j, b, k, n) {
      return Some((Hashed(a, j, j + n), Hashed(b, k, k + n)));
    }
    if n == 0 {
      return None;
    }
    HashedPrefix(hash, a, j, j + n);
    HashedPrefix(hash, b, k, k + n);
    clash := BindingUpTo(hash, a, j, b, k, n - 1);
  }

  /** Two verifying logs with equally many chained rows and the same final hash hashed the same byte
      string at every position, or they exhibit a collision. */
  lemma {:induction false} ChainBinding(hash: Digest, a: seq<Row>, v: Verification, b: seq<Row>, u: Verification)
    returns (clash: Option<(Bytes, Bytes)>)
    requires Is32Bytes(hash)
    requires IsVerdict(hash, a, v) && v.valid && IsVerdict(hash, b, u) && u.valid
    requires v.checked == u.checked && LastHash(a) == LastHash(b)
    ensures clash.Some? ==> Collision(hash, clash.value.0, clash.value.1)
    ensures clash.None? ==>
      forall i :: 0 <= i < v.checked ==> SameHashedAt(a, v.preChain, b, u.preChain, i)
  {
    if v.checked == 0 {
      return None;
    }
    clash := BindingUpTo(hash, a, v.preChain, b, u.preChain, v.checked - 1);
  }

  /** The same ids and stored hashes. */
  ghost predicate SameHashes(a: seq<Row>, b: seq<Row>) {
    && |a| == |b|
    && forall i :: 0 <= i < |a| ==> a[i].id == b[i].id && a[i].prev == b[i].prev && a[i].entry == b[i].entry
  }

  ghost predicate SameContent(a: Row, b: Row) {
    Encode(ReadBack(a)) == Encode(ReadBack(b))
  }

  lemma {:induction false} UneditedLinked(hash: Digest, a: seq<Row>, k: int, b: seq<Row>, n: int)
    requires SameHashes(a, b) && Leading(a, k) && k <= n <= |a| && LinkedUpTo(hash, a, k, n)
    requires forall i :: k <= i < n ==> SameContent(a[i], b[i])
    ensures Leading(b, k) && LinkedUpTo(hash, b, k, n)
  {
    forall i | k <= i < n ensures Linked(hash, b, k, i) {
      assert Linked(hash, a, k, i) && SameContent(a[i], b[i]);
    }
  }

  lemma {:induction false} BrokenVerdict(hash: Digest, rows: seq<Row>, k: int, n: int)
    requires Leading(rows, k) && k <= n < |rows| && LinkedUpTo(hash, rows, k, n) && !Linked(hash, rows, k, n)
    ensures IsVerdict(hash, rows, Verification(false, n - k + 1, k, Some(rows[n].id)))
  {
  }

  lemma {:induction false} EditedUnlinked(hash: Digest, a: seq<Row>, k: int, b: seq<Row>, i: int)
    requires SameHashes(a, b) && 0 <= k <= i < |a| && Linked(hash, a, k, i) && !SameContent(a[i], b[i])
    ensures Collision(hash, Hashed(a, k, i), Hashed(b, k, i)) || !Linked(hash, b, k, i)
  {
    SamePrefixDifferentRest(ExpectedPrev(a, k, i), Encode(ReadBack(a[i])), Encode(ReadBack(b[i])));
  }

  /** Editing the hashed content of row n, the first row edited, under unchanged stored hashes is
      reported at exactly that row, or the edit is a collision. */
  lemma {:induction false} EditIsLocated(hash: Digest, a: seq<Row>, v: Verification, b: seq<Row>, n: nat,
                                         u: Verification)
    requires IsVerdict(hash, a, v) && v.valid && v.preChain <= n < |a|
    requires SameHashes(a, b) && !SameContent(a[n], b[n])
    requires forall i :: v.preChain <= i < n ==> SameContent(a[i], b[i])
    requires IsVerdict(hash, b, u)
    ensures || Collision(hash, Hashed(a, v.preChain, n), Hashed(b, v.preChain, n))
            || u == Verification(false, n - v.preChain + 1, v.preChain, Some(a[n].id))
  {
    var k := v.preChain;
    assert Linked(hash, a, k, n) && LinkedUpTo(hash, a, k, n);
    EditedUnlinked(hash, a, k, b, n);
    UneditedLinked(hash, a, k, b, n);
    if !Linked(hash, b, k, n) {
      BrokenVerdict(hash, b, k, n);
      VerdictUnique(hash, b, u, Verification(false, n - k + 1, k, Some(b[n].id)));
    }
  }

  /** A stored link is checked for itself: another value in it is reported at its row. */
  lemma {:induction false} LinkEditIsLocated(hash: Digest, a: seq<Row>, v: Verification, n: nat, prev: Bytes,
                                             u: Verification)
    requires IsVerdict(hash, a, v) && v.valid && v.preChain <= n < |a| && prev != a[n].prev
    requires IsVerdict(hash, a[n := a[n].(prev := prev)], u)
    ensures u == Verification(false, n - v.preChain + 1, v.preChain, Some(a[n].id))
  {
    var k, b := v.preChain, a[n := a[n].(prev := prev)];
    assert Leading(b, k);
    forall i | k <= i < n ensures Linked(hash, b, k, i) {
      assert Linked(hash, a, k, i);
    }
    assert Linked(hash, a, k, n) && ExpectedPrev(b, k, n) == ExpectedPrev(a, k, n);
    BrokenVerdict(hash, b, k, n);
    VerdictUnique(hash, b, u, Verification(false, n - k + 1, k, Some(b[n].id)));
  }

  // ---------------------------------------------------------------------
  // Which columns the hash covers

  datatype Column = OccurredAt | ActorType | ActorId | SessionId | DeviceId | CustomerId | EventType
                  | ResultOf | SourceIp | RequestId | Metadata

  /** The stored bytes of a column; NULL has none. */
  function Cell(r: Row, c: Column): (b: Bytes) {
    match c
    case OccurredAt => r.fields.occurredAt
    case ActorType => r.fields.actorType
    case ActorId => OptionalBytes(r.fields.actorId)
    case SessionId => OptionalBytes(r.fields.sessionId)
    case DeviceId => OptionalBytes(r.fields.deviceId)
    case CustomerId => OptionalBytes(r.fields.customerId)
    case EventType => r.fields.eventType
    case ResultOf => r.fields.result
    case SourceIp => OptionalBytes(r.sourceIp)
    case RequestId => OptionalBytes(r.fields.requestId)
    case Metadata => r.fields.metadata
  }

  function Position(c: Column): (i: nat)
    ensures i < 11
  {
    match c
    case OccurredAt => 0
    case ActorType => 1
    case ActorId => 2
    case SessionId => 3
    case DeviceId => 4
    case CustomerId => 5
    case EventType => 6
    case ResultOf => 7
    case SourceIp => 8
    case RequestId => 9
    case Metadata => 10
  }

  /** Every column is hashed, in this order and nothing else. */
  lemma {:induction false} HashedColumns(r: Row)
    ensures Parts(ReadBack(r)) ==
      [Cell(r, OccurredAt), Cell(r, ActorType), Cell(r, ActorId), Cell(r, SessionId), Cell(r, DeviceId),
       Cell(r, CustomerId), Cell(r, EventType), Cell(r, ResultOf), Cell(r, SourceIp), Cell(r, RequestId),
       Cell(r, Metadata)]
    ensures forall c :: Parts(ReadBack(r))[Position(c)] == Cell(r, c)
  {
  }

  lemma {:induction false} WrittenFrom(parts: seq<Bytes>, i: nat)
    requires i < |parts|
    ensures Written(parts[i..]) == parts[i] + Written(parts[i + 1..])
  {
    assert parts[i..][1..] == parts[i + 1..];
  }

  lemma {:induction false} LastFive(p: seq<Bytes>)
    requires |p| == 11
    ensures Written(p[6..]) == p[6] + (p[7] + (p[8] + (p[9] + p[10])))
  {
    assert p[11..] == [] && p[10] + [] == p[10];
    WrittenFrom(p, 10);
    WrittenFrom(p, 9);
    WrittenFrom(p, 8);
    WrittenFrom(p, 7);
    WrittenFrom(p, 6);
  }

  lemma {:induction false} AllEleven(p: seq<Bytes>)
    requires |p| == 11
    ensures Written(p) == p[0] + (p[1] + (p[2] + (p[3] + (p[4] + (p[5] + Written(p[6..]))))))
  {
    assert p[0..] == p;
    WrittenFrom(p, 5);
    WrittenFrom(p, 4);
    WrittenFrom(p, 3);
    WrittenFrom(p, 2);
    WrittenFrom(p, 1);
    WrittenFrom(p, 0);
  }

  /** The hashed content of a row is its columns one after the other. */
  lemma {:induction false} ContentIsColumns(r: Row)
    ensures Encode(ReadBack(r)) ==
      Cell(r, OccurredAt) + (Cell(r, ActorType) + (Cell(r, ActorId) + (Cell(r, SessionId) + (Cell(r, DeviceId)
      + (Cell(r, CustomerId) + (Cell(r, EventType) + (Cell(r, ResultOf) + (Cell(r, SourceIp)
      + (Cell(r, RequestId) + Cell(r, Metadata))))))))))
  {
    HashedColumns(r);
    AllEleven(Parts(ReadBack(r)));
    LastFive(Parts(ReadBack(r)));
  }

  lemma {:induction false} WrittenSplit(parts: seq<Bytes>, i: nat)
    requires i < |parts|
    ensures Written(parts) == Written(parts[..i]) + (parts[i] + Written(parts[i + 1..]))
  {
    if i != 0 {
      WrittenSplit(parts[1..], i - 1);
      assert parts[1..][..i - 1] == parts[..i][1..];
      assert parts[1..][i..] == parts[i + 1..];
    }
  }

  lemma {:induction false} SameBeforeSuffix(x: Bytes, y: Bytes, q: Bytes)
    requires x + q == y + q
    ensures x == y
  {
    assert |x| == |y|;
    assert (x + q)[..|x|] == x && (y + q)[..|y|] == y;
  }

  lemma {:induction false} MiddleMatters(p: Bytes, x: Bytes, y: Bytes, q: Bytes)
    requires x != y
    ensures p + (x + q) != p + (y + q)
  {
    if x + q == y + q {
      SameBeforeSuffix(x, y, q);
    }
    SamePrefixDifferentRest(p, x + q, y + q);
  }

  lemma {:induction false} PartMatters(a: seq<Bytes>, b: seq<Bytes>, i: nat)
    requires i < |a| == |b| && a[i] != b[i] && forall j :: 0 <= j < |a| && j != i ==> a[j] == b[j]
    ensures Written(a) != Written(b)
  {
    WrittenSplit(a, i);
    WrittenSplit(b, i);
    assert a[..i] == b[..i] && a[i + 1..] == b[i + 1..];
    MiddleMatters(Written(a[..i]), a[i], b[i], Written(a[i + 1..]));
  }

  /** The rows differ in the bytes of this column and of no other. */
  ghost predicate DiffersIn(a: Row, b: Row, c: Column) {
    Cell(a, c) != Cell(b, c) && forall d :: d != c ==> Cell(a, d) == Cell(b, d)
  }

  /** Changing the bytes of any one column changes what is hashed. */
  lemma {:induction false} ColumnMatters(a: Row, b: Row, c: Column)
    requires DiffersIn(a, b, c)
    ensures !SameContent(a, b)
  {
    HashedColumns(a);
    HashedColumns(b);
    var x, y := Parts(ReadBack(a)), Parts(ReadBack(b));
    forall j | 0 <= j < 11 && j != Position(c) ensures x[j] == y[j] {
      var d := ColumnAt(j);
      assert Cell(a, d) == Cell(b, d);
    }
    PartMatters(x, y, Position(c));
  }

  function ColumnAt(i: nat): (c: Column)
    requires i < 11
    ensures Position(c) == i
  {
    if i == 0 then OccurredAt else if i == 1 then ActorType else if i == 2 then ActorId
    else if i == 3 then SessionId else if i == 4 then DeviceId else if i == 5 then CustomerId
    else if i == 6 then EventType else if i == 7 then ResultOf else if i == 8 then SourceIp
    else if i == 9 then RequestId else Metadata
  }

  /** Editing one column of one chained row, whichever it is, under unchanged stored hashes is reported at
      exactly that row, or the edit is a collision. */
  lemma {:induction false} ColumnEditIsLocated(hash: Digest, a: seq<Row>, v: Verification, b: seq<Row>, n: nat,
                                               c: Column, u: Verification)
    requires IsVerdict(hash, a, v) && v.valid && v.preChain <= n < |a| && IsVerdict(hash, b, u)
    requires SameHashes(a, b) && DiffersIn(a[n], b[n], c) && forall i :: 0 <= i < n ==> a[i] == b[i]
    ensures || Collision(hash, Hashed(a, v.preChain, n), Hashed(b, v.preChain, n))
            || u == Verification(false, n - v.preChain + 1, v.preChain, Some(a[n].id))
  {
    ColumnMatters(a[n], b[n], c);
    EditIsLocated(hash, a, v, b, n, u);
  }

  lemma {:induction false} SamePrefixDifferentRest(p: Bytes, x: Bytes, y: Bytes)
    requires x != y
    ensures p + x != p + y
  {
    assert (p + x)[|p|..] == x && (p + y)[|p|..] == y;
  }
}
