/** The agent's self-update as a recovery protocol over four paths: staging and swap, the update
    marker, reconciliation at boot and commit on the first connect. Every file operation consults a
    fate: it may succeed, fail, leave a torn file behind, or be the point where the machine dies. */
module SelfUpdate {
  import opened Common

  /** `MaxBootAttempts`. */
  const MAX_BOOT_ATTEMPTS := 3

  /** `maxArtifactBytes`: 256 MiB. */
  const MAX_ARTIFACT_BYTES := 268435456

  /** The executable, its `.new` and `.old` siblings, and `update.marker` in the data directory. */
  datatype Path = Exe | Staged | Backup | MarkerFile

  datatype Marker = Marker(version: string, backup: Path, attempts: int)

  /** A complete binary, a complete marker, or the remains of an interrupted write. */
  datatype Content = Image(data: Bytes) | Record(marker: Marker) | Torn

  /** What each path holds, if it exists. */
  datatype Files = Files(exe: Option<Content>, staged: Option<Content>,
                         backup: Option<Content>, marker: Option<Content>)
  {
    function At(p: Path): (c: Option<Content>) {
      match p
      case Exe => exe
      case Staged => staged
      case Backup => backup
      case MarkerFile => marker
    }

    /** The files after one path changed and no other. */
    function With(p: Path, c: Option<Content>): (f: Files)
      ensures f.At(p) == c
      ensures forall q :: q != p ==> f.At(q) == At(q)
    {
      match p
      case Exe => this.(exe := c)
      case Staged => this.(staged := c)
      case Backup => this.(backup := c)
      case MarkerFile => this.(marker := c)
    }
  }

  /** What happens to one file operation. Only a write can be torn. */
  datatype Fate = Ok | Fail | FailTorn | Crash | CrashTorn

  type Fates = nat -> Fate

  /** The files, the number of operations attempted so far, and whether the process is still alive.
      A dead process attempts nothing: every later operation leaves the files alone. */
  datatype World = World(files: Files, ops: nat, alive: bool)

  datatype Loaded = Found(marker: Marker) | Missing | Unreadable

  datatype Restored = Done | NoBackup | RenameFailed

  datatype Reconciled = Running | RestoreFailed(why: Restored) | Exited

  // ---------------------------------------------------------------------
  // File operations

  function Attempt(w: World, fate: Fates, onOk: Files, onTorn: Files): (r: (World, bool)) {
    if !w.alive then (w, false) else
      match fate(w.ops)
      case Ok => (World(onOk, w.ops + 1, true), true)
      case Fail => (World(w.files, w.ops + 1, true), false)
      case FailTorn => (World(onTorn, w.ops + 1, true), false)
      case Crash => (World(w.files, w.ops + 1, false), false)
      case CrashTorn => (World(onTorn, w.ops + 1, false), false)
  }

  function Write(w: World, fate: Fates, p: Path, c: Content): (r: (World, bool)) {
    Attempt(w, fate, w.files.With(p, Some(c)), w.files.With(p, Some(Torn)))
  }

  /** False also when there was nothing to remove. */
  function Remove(w: World, fate: Fates, p: Path): (r: (World, bool)) {
    var (w1, ok) := Attempt(w, fate, w.files.With(p, None), w.files);
    (w1, ok && w.files.At(p).Some?)
  }

  function Rename(w: World, fate: Fates, from: Path, to: Path): (r: (World, bool)) {
    if w.files.At(from).None? then
      (Attempt(w, fate, w.files, w.files).0, false)
    else
      Attempt(w, fate, w.files.With(from, None).With(to, w.files.At(from)), w.files)
  }

  function Read(w: World, fate: Fates): (r: (World, bool)) {
    Attempt(w, fate, w.files, w.files)
  }

  // ---------------------------------------------------------------------
  // The protocol's operations

  function LoadMarker(w: World, fate: Fates): (r: (World, Loaded)) {
    var (w1, ok) := Read(w, fate);
    (w1, if !ok then Unreadable
         else match w.files.marker
              case None => Missing
              case Some(Record(m)) => Found(m)
              case Some(_) => Unreadable)
  }

  function StageAndSwap(w: World, fate: Fates, data: Bytes): (r: (World, bool)) {
    var (w1, written) := Write(w, fate, Staged, Image(data));
    if !written then (w1, false) else
      var (w2, _) := Remove(w1, fate, Backup);
      var (w3, backedUp) := Rename(w2, fate, Exe, Backup);
      if !backedUp then
        (Remove(w3, fate, Staged).0, false)
      else
        var (w4, moved) := Rename(w3, fate, Staged, Exe);
        if !moved then (Rename(w4, fate, Backup, Exe).0, false) else (w4, true)
  }

  function RestoreBackup(w: World, fate: Fates, backup: Path): (r: (World, Restored)) {
    var (w1, ok) := Read(w, fate);
    if !ok || w.files.At(backup).None? then (w1, NoBackup) else
      var (w2, _) := Remove(w1, fate, Exe);
      var (w3, moved) := Rename(w2, fate, backup, Exe);
      (w3, if moved then Done else RenameFailed)
  }

  function Reconcile(w: World, fate: Fates): (r: (World, Reconciled)) {
    var (w1, loaded) := LoadMarker(w, fate);
    if !loaded.Found? then (w1, Running) else
      var m := loaded.marker.(attempts := loaded.marker.attempts + 1);
      if m.attempts > MAX_BOOT_ATTEMPTS then
        var (w2, restored) := RestoreBackup(w1, fate, m.backup);
        if restored != Done then (w2, RestoreFailed(restored))
        else (Remove(w2, fate, MarkerFile).0, Exited)
      else
        (Write(w1, fate, MarkerFile, Record(m)).0, Running)
  }

  function Commit(w: World, fate: Fates): (w': World) {
    var (w1, loaded) := LoadMarker(w, fate);
    if !loaded.Found? then w1 else
      var w2 := Remove(w1, fate, loaded.marker.backup).0;
      Remove(w2, fate, MarkerFile).0
  }

  /** The build-embedded key and the Ed25519-over-SHA-256 check, which is a library call. */
  datatype Trust = Trust(key: Option<Bytes>, verify: (Bytes, Bytes, string, string) -> bool)

  /** An update command and what its download yields. */
  datatype Request = Request(version: string, download: Option<Bytes>, sha: string, signature: string)

  predicate Accepts(t: Trust, q: Request) {
    && t.key.Some?
    && q.download.Some?
    && |q.download.value| <= MAX_ARTIFACT_BYTES
    && t.verify(t.key.value, q.download.value, q.sha, q.signature)
  }

  function BeginUpdate(w: World, fate: Fates, t: Trust, q: Request): (r: (World, bool)) {
    if !Accepts(t, q) then (w, false) else
      var (w1, staged) := StageAndSwap(w, fate, q.download.value);
      if !staged then (w1, false) else
        (Write(w1, fate, MarkerFile, Record(Marker(q.version, Backup, 0))).0, true)
  }

  // ---------------------------------------------------------------------
  // The same operations as code on a disk

  class Disk {
    const fate: Fates
    var files: Files
    var ops: nat
    var alive: bool

    constructor (files: Files, fate: Fates)
      ensures this.fate == fate && Now() == World(files, 0, true)
    {
      this.fate := fate;
      this.files := files;
      ops := 0;
      alive := true;
    }

    ghost function Now(): World
      reads this
    {
      World(files, ops, alive)
    }

    method WriteFile(p: Path, c: Content) returns (ok: bool)
      modifies this
      ensures (Now(), ok) == Write(old(Now()), fate, p, c)
    {
      ok := false;
      if alive {
        match fate(ops) {
          case Ok => files := files.With(p, Some(c)); ok := true;
          case Fail =>
          case FailTorn => files := files.With(p, Some(Torn));
          case Crash => alive := false;
          case CrashTorn => files := files.With(p, Some(Torn)); alive := false;
        }
        ops := ops + 1;
      }
    }

    /** Consumes the fate of an operation that cannot be torn. */
    method Proceed() returns (ok: bool)
      modifies this
      ensures (Now(), ok) == Read(old(Now()), fate)
    {
      ok := false;
      if alive {
        var f := fate(ops);
        ok := f == Ok;
        alive := f != Crash && f != CrashTorn;
        ops := ops + 1;
      }
    }

    method RemoveFile(p: Path) returns (ok: bool)
      modifies this
      ensures (Now(), ok) == Remove(old(Now()), fate, p)
    {
      ok := Proceed();
      if ok {
        ok := files.At(p).Some?;
        files := files.With(p, None);
      }
    }

    method RenameFile(from: Path, to: Path) returns (ok: bool)
      modifies this
      ensures (Now(), ok) == Rename(old(Now()), fate, from, to)
    {
      ok := Proceed();
      if ok {
        ok := files.At(from).Some?;
        if ok {
          files := files.With(from, None).With(to, files.At(from));
        }
      }
    }

    method ReadMarker() returns (loaded: Loaded)
      modifies this
      ensures (Now(), loaded) == LoadMarker(old(Now()), fate)
      ensures files == old(files)
      ensures loaded.Found? ==> files.marker == Some(Record(loaded.marker))
      ensures old(alive) && fate(old(ops)) == Ok ==>
        (loaded.Missing? <==> files.marker.None?) && (loaded.Found? <==> files.marker.Some? && files.marker.value.Record?)
      ensures !old(alive) || fate(old(ops)) != Ok ==> loaded == Unreadable
    {
      var ok := Proceed();
      if !ok {
        return Unreadable;
      }
      match files.marker {
        case None => return Missing;
        case Some(Record(m)) => return Found(m);
        case Some(_) => return Unreadable;
      }
    }

    method Stage(data: Bytes) returns (ok: bool)
      modifies this
      ensures (Now(), ok) == StageAndSwap(old(Now()), fate, data)
    {
      ok := WriteFile(Staged, Image(data));
      if !ok {
        return;
      }
      var _ := RemoveFile(Backup);
      ok := RenameFile(Exe, Backup);
      if !ok {
        var _ := RemoveFile(Staged);
        return;
      }
      ok := RenameFile(Staged, Exe);
      if !ok {
        var _ := RenameFile(Backup, Exe);
      }
    }

    method Restore(backup: Path) returns (result: Restored)
      modifies this
      ensures (Now(), result) == RestoreBackup(old(Now()), fate, backup)
    {
      var ok := Proceed();
      if !ok || files.At(backup).None? {
        return NoBackup;
      }
      var _ := RemoveFile(Exe);
      ok := RenameFile(backup, Exe);
      return if ok then Done else RenameFailed;
    }

    method ReconcilePendingUpdate() returns (result: Reconciled)
      modifies this
      ensures (Now(), result) == Reconcile(old(Now()), fate)
    {
      var loaded := ReadMarker();
      if !loaded.Found? {
        return Running;
      }
      var m := loaded.marker.(attempts := loaded.marker.attempts + 1);
      if m.attempts > MAX_BOOT_ATTEMPTS {
        var restored := Restore(m.backup);
        if restored != Done {
          return RestoreFailed(restored);
        }
        var _ := RemoveFile(MarkerFile);
        return Exited;
      }
      var _ := WriteFile(MarkerFile, Record(m));
      return Running;
    }

    method CommitPendingUpdate()
      modifies this
      ensures Now() == Commit(old(Now()), fate)
    {
      var loaded := ReadMarker();
      if loaded.Found? {
        var _ := RemoveFile(loaded.marker.backup);
        var _ := RemoveFile(MarkerFile);
      }
    }

    method Update(t: Trust, q: Request) returns (ok: bool)
      modifies this
      ensures (Now(), ok) == BeginUpdate(old(Now()), fate, t, q)
      ensures ok ==> t.key.Some? && q.download.Some? && t.verify(t.key.value, q.download.value, q.sha, q.signature)
      ensures (t.key.None? || q.download.None? || |q.download.value| > 268435456
               || !t.verify(t.key.value, q.download.value, q.sha, q.signature)) ==> !ok && files == old(files)
    {
      ok := Accepts(t, q);
      if ok {
        ok := Stage(q.download.value);
        if ok {
          var _ := WriteFile(MarkerFile, Record(Marker(q.version, Backup, 0)));
        }
      }
    }
  }

  // ---------------------------------------------------------------------
  // Runs of the agent

  datatype Process = Down | Up(image: Bytes, connected: bool)

  /** `proven` holds the binary the agent was installed with and every binary that has reached
      the server since. */
  datatype Agent = Agent(files: Files, process: Process, proven: set<Bytes>)

  datatype Event =
    | Boot(fate: Fates)
    | Connect(fate: Fates)
    | Update(request: Request, fate: Fates)
    | Stop

  function Booted(a: Agent, fate: Fates): (r: (World, Reconciled)) {
    Reconcile(World(a.files, 0, true), fate)
  }

  function Step(t: Trust, a: Agent, e: Event): (a': Agent) {
    match e
    case Stop => a.(process := Down)
    case Boot(fate) =>
      if a.process.Up? || a.files.exe.None? || !a.files.exe.value.Image? then a else
        var (w, result) := Booted(a, fate);
        a.(files := w.files,
           process := if w.alive && !result.Exited? then Up(a.files.exe.value.data, false) else Down)
    case Connect(fate) =>
      if a.process.Down? then a else
        var proven := a.proven + {a.process.image};
        if a.process.connected then a.(proven := proven) else
          var w := Commit(World(a.files, 0, true), fate);
          Agent(w.files, if w.alive then a.process.(connected := true) else Down, proven)
    case Update(q, fate) =>
      if a.process.Down? || !a.process.connected then a else
        var (w, _) := BeginUpdate(World(a.files, 0, true), fate, t, q);
        a.(files := w.files, process := if w.alive then a.process else Down)
  }

  function Run(t: Trust, a: Agent, es: seq<Event>): (a': Agent) {
    if es == [] then a else Step(t, Run(t, a, es[..|es| - 1]), es[|es| - 1])
  }

  function Installed(image: Bytes): (a: Agent) {
    Agent(Files(Some(Image(image)), None, None, None), Down, {image})
  }

  // ---------------------------------------------------------------------
  // A proven binary is always on disk

  ghost predicate Holds(c: Option<Content>, images: set<Bytes>) {
    c.Some? && c.value.Image? && c.value.data in images
  }

  ghost predicate Recoverable(files: Files, proven: set<Bytes>) {
    Holds(files.exe, proven) || Holds(files.backup, proven)
  }

  ghost predicate MarkerNamesBackup(f: Files) {
    Readable(f) ==> f.marker.value.marker.backup == Backup
  }

  /** Is there a marker that can be read? */
  predicate Readable(f: Files) {
    f.marker.Some? && f.marker.value.Record?
  }

  ghost predicate Safe(a: Agent) {
    Recoverable(a.files, a.proven)
  }

  /** What can be checked before an event: an accepted update starts from a proven executable, and a
      first connect that finds a marker has a proven executable, the connecting one included. Boots and
      stops need nothing. */
  ghost predicate Guarded(t: Trust, a: Agent, e: Event) {
    match e
    case Update(q, _) => a.process.Up? && a.process.connected && Accepts(t, q) ==> Holds(a.files.exe, a.proven)
    case Connect(_) =>
      a.process.Up? && !a.process.connected && Readable(a.files) ==>
        Holds(a.files.exe, a.proven + {a.process.image})
    case Boot(_) => true
    case Stop => true
  }

  ghost predicate GuardedRun(t: Trust, a: Agent, es: seq<Event>) {
    es != [] ==> GuardedRun(t, a, es[..|es| - 1]) && Guarded(t, Run(t, a, es[..|es| - 1]), es[|es| - 1])
  }

  ghost predicate Kept(a: Agent) {
    && Safe(a)
    && (a.files.backup.Some? ==> Holds(a.files.backup, a.proven))
    && MarkerNamesBackup(a.files)
  }

  /** What staging can leave behind, at every crash point and for every failure. */
  ghost predicate Swapped(f: Files, f': Files, data: Bytes) {
    f.exe.Some? && f'.exe == Some(Image(data)) && f'.backup == f.exe && f'.marker == f.marker
  }

  ghost predicate NotSwapped(f: Files, f': Files) {
    && f'.marker == f.marker
    && (|| (f'.exe == f.exe && (f'.backup == f.backup || f'.backup == None))
        || (f.exe.Some? && f'.exe == None && f'.backup == f.exe))
  }

  lemma {:induction false} StageOutcomes(w: World, fate: Fates, data: Bytes)
    ensures var (w', ok) := StageAndSwap(w, fate, data);
      if ok then Swapped(w.files, w'.files, data) else NotSwapped(w.files, w'.files)
  {
    var (w1, written) := Write(w, fate, Staged, Image(data));
    if written {
      var (w2, _) := Remove(w1, fate, Backup);
      assert w2.files == w1.files || w2.files == w1.files.(backup := None);
      var (w3, backedUp) := Rename(w2, fate, Exe, Backup);
      if backedUp {
        var (w4, moved) := Rename(w3, fate, Staged, Exe);
        assert moved || w4.files == w3.files;
      }
    }
  }

  predicate Dies(f: Fate) {
    f == Crash || f == CrashTorn
  }

  /** A swap that cannot move the executable away takes the staged file back, if that call succeeds. */
  lemma {:induction false} StagedFileGoneIff(w: World, fate: Fates, data: Bytes)
    requires w.alive && fate(w.ops) == Ok && !Dies(fate(w.ops + 1)) && !Dies(fate(w.ops + 2))
    requires fate(w.ops + 2) != Ok || w.files.exe.None?
    ensures StageAndSwap(w, fate, data).0.files.staged.None? <==> fate(w.ops + 3) == Ok
    ensures !StageAndSwap(w, fate, data).1
  {
    var (w1, _) := Write(w, fate, Staged, Image(data));
    var (w2, _) := Remove(w1, fate, Backup);
    var (w3, _) := Rename(w2, fate, Exe, Backup);
    assert w3.files.staged == Some(Image(data)) && w3.ops == w.ops + 3 && w3.alive;
  }

  /** The executable path is empty after staging if and only if the running binary was moved to the
      backup path, the new one could not be moved in, and either the machine died there or moving the
      old one back failed too. A staging error alone does not say that the old binary is in place. */
  lemma {:induction false} ExecutableMissingIff(f: Files, fate: Fates, data: Bytes)
    requires f.exe.Some?
    ensures StageAndSwap(World(f, 0, true), fate, data).0.files.exe == None <==>
      && fate(0) == Ok && !Dies(fate(1)) && fate(2) == Ok && fate(3) != Ok
      && (Dies(fate(3)) || fate(4) != Ok)
  {
  }

  lemma {:induction false} RestoreOutcomes(w: World, fate: Fates)
    ensures var (w', result) := RestoreBackup(w, fate, Backup);
      var f, f' := w.files, w'.files;
      && f'.marker == f.marker
      && (result == NoBackup ==> f' == f)
      && (result == Done ==> f.backup.Some? && f'.backup == None && f'.exe == f.backup)
      && (result == RenameFailed ==>
            f.backup.Some? && f'.backup == f.backup && (f'.exe == f.exe || f'.exe == None))
  {
  }

  lemma {:induction false} BootKeeps(t: Trust, a: Agent, fate: Fates)
    requires Kept(a)
    ensures Kept(Step(t, a, Boot(fate)))
  {
    BootMoves(World(a.files, 0, true), fate);
  }

  lemma {:induction false} ConnectKeeps(t: Trust, a: Agent, fate: Fates)
    requires Kept(a) && Guarded(t, a, Connect(fate))
    ensures Kept(Step(t, a, Connect(fate)))
  {
    CommitRemoves(World(a.files, 0, true), fate);
  }

  lemma {:induction false} UpdateKeeps(t: Trust, a: Agent, q: Request, fate: Fates)
    requires Kept(a) && Guarded(t, a, Update(q, fate))
    ensures Kept(Step(t, a, Update(q, fate)))
  {
    if Accepts(t, q) {
      StageOutcomes(World(a.files, 0, true), fate, q.download.value);
    }
  }

  lemma {:induction false} StepKeeps(t: Trust, a: Agent, e: Event)
    requires Kept(a) && Guarded(t, a, e)
    ensures Kept(Step(t, a, e))
  {
    match e {
      case Boot(fate) => BootKeeps(t, a, fate);
      case Connect(fate) => ConnectKeeps(t, a, fate);
      case Update(q, fate) => UpdateKeeps(t, a, q, fate);
      case Stop =>
    }
  }

  /** Safety over whole guarded runs: whichever calls fail and wherever the machine dies, the executable
      or its backup is the complete image of a binary that was installed or has reached the server. */
  lemma {:induction false} AlwaysRecoverable(t: Trust, image: Bytes, es: seq<Event>)
    requires GuardedRun(t, Installed(image), es)
    ensures Kept(Run(t, Installed(image), es)) && Safe(Run(t, Installed(image), es))
  {
    if es != [] {
      var init := es[..|es| - 1];
      AlwaysRecoverable(t, image, init);
      StepKeeps(t, Run(t, Installed(image), init), es[|es| - 1]);
    }
  }

  // ---------------------------------------------------------------------
  // Exactly when staging and committing keep it there

  function AllOk(): (f: Fates) {
    k => Ok
  }

  function CrashAt(n: nat): (f: Fates) {
    k => if k == n then Crash else Ok
  }

  /** Staging keeps a proven binary on disk, whatever happens to its file calls, if and only if the
      executable is a proven binary when it starts. A second update command that arrives before the
      restart, or after a swap that could not be undone, starts from a different file. */
  lemma {:induction false} StageSafeIff(f: Files, proven: set<Bytes>, data: Bytes)
    requires Recoverable(f, proven)
    ensures (forall fate: Fates :: Recoverable(StageAndSwap(World(f, 0, true), fate, data).0.files, proven))
       <==> Holds(f.exe, proven)
  {
    var w := World(f, 0, true);
    if Holds(f.exe, proven) {
      forall fate: Fates ensures Recoverable(StageAndSwap(w, fate, data).0.files, proven) {
        StageOutcomes(w, fate, data);
      }
    } else {
      var fate := CrashAt(2);
      var (w1, _) := Write(w, fate, Staged, Image(data));
      var (w2, _) := Remove(w1, fate, Backup);
      assert w2.files == f.(staged := Some(Image(data)), backup := None);
      var (w3, _) := Rename(w2, fate, Exe, Backup);
      assert w3.files == w2.files && !w3.alive;
      assert !Recoverable(StageAndSwap(w, fate, data).0.files, proven);
    }
  }

  /** Committing keeps a proven binary on disk if and only if there is no readable marker or the
      executable is a proven binary. After a rollback that removed the executable and then failed to
      rename, the still running process can connect and delete the only copy. */
  lemma {:induction false} CommitSafeIff(f: Files, proven: set<Bytes>)
    requires Recoverable(f, proven) && MarkerNamesBackup(f)
    ensures (forall fate: Fates :: Recoverable(Commit(World(f, 0, true), fate).files, proven))
       <==> !Readable(f) || Holds(f.exe, proven)
  {
    var w := World(f, 0, true);
    if !Readable(f) || Holds(f.exe, proven) {
      forall fate: Fates ensures Recoverable(Commit(w, fate).files, proven) {
        var (w1, loaded) := LoadMarker(w, fate);
        assert w1.files == f;
      }
    } else {
      var fate := AllOk();
      var (w1, loaded) := LoadMarker(w, fate);
      var w2 := Remove(w1, fate, Backup).0;
      assert w2.files == f.(backup := None);
      assert !Recoverable(Commit(w, fate).files, proven);
    }
  }

  /** The same event with other outcomes of its calls. */
  function WithFate(e: Event, fate: Fates): (e': Event) {
    match e
    case Boot(_) => Boot(fate)
    case Connect(_) => Connect(fate)
    case Update(q, _) => Update(q, fate)
    case Stop => Stop
  }

  lemma {:induction false} UnguardedConnectLoses(t: Trust, a: Agent, fate: Fates)
    requires Kept(a) && !Guarded(t, a, Connect(fate))
    ensures !Safe(Step(t, a, Connect(AllOk())))
  {
    var w := World(a.files, 0, true);
    var w1 := LoadMarker(w, AllOk()).0;
    assert Remove(w1, AllOk(), Backup).0.files == a.files.(backup := None);
  }

  lemma {:induction false} UnguardedUpdateLoses(t: Trust, a: Agent, q: Request, fate: Fates)
    requires Kept(a) && !Guarded(t, a, Update(q, fate))
    ensures !Safe(Step(t, a, Update(q, CrashAt(2))))
  {
    var w, f := World(a.files, 0, true), CrashAt(2);
    var w1 := Write(w, f, Staged, Image(q.download.value)).0;
    var w2 := Remove(w1, f, Backup).0;
    assert w2.files == a.files.(staged := Some(Image(q.download.value)), backup := None);
    assert Rename(w2, f, Exe, Backup).0.files == w2.files;
  }

  /** The guard is exact: in every state of a guarded run an event keeps a proven binary on disk, whatever
      its calls do, if and only if it is guarded. */
  lemma {:induction false} StepSafeIff(t: Trust, a: Agent, e: Event)
    requires Kept(a)
    ensures (forall fate: Fates :: Safe(Step(t, a, WithFate(e, fate)))) <==> Guarded(t, a, e)
  {
    if Guarded(t, a, e) {
      forall fate: Fates ensures Safe(Step(t, a, WithFate(e, fate))) {
        StepKeeps(t, a, WithFate(e, fate));
      }
    } else {
      match e {
        case Connect(fate) =>
          UnguardedConnectLoses(t, a, fate);
          assert !Safe(Step(t, a, WithFate(e, AllOk())));
        case Update(q, fate) =>
          UnguardedUpdateLoses(t, a, q, fate);
          assert !Safe(Step(t, a, WithFate(e, CrashAt(2))));
      }
    }
  }

  /** An update guard that is not met: two update commands before the restart leave no proven binary,
      although every call succeeds. */
  lemma {:induction false} SecondUpdateLosesBoth(t: Trust, a: Agent, q1: Request, q2: Request)
    requires a.process.Up? && a.process.connected && a.files.exe == Some(Image(a.process.image))
    requires Accepts(t, q1) && q1.download.value !in a.proven
    requires Accepts(t, q2) && q2.download.value !in a.proven
    ensures var b := Step(t, a, Update(q1, AllOk()));
      !Guarded(t, b, Update(q2, AllOk())) && !Safe(Step(t, b, Update(q2, AllOk())))
  {
  }

  /** A connect guard that is not met: a rollback whose rename fails loses nothing, but a connect after it
      leaves neither file. */
  lemma {:induction false} FailedRollbackLosesBoth(t: Trust, a: Agent, m: Marker)
    requires Kept(a) && a.process.Down? && a.files.exe.Some? && a.files.exe.value.Image? && a.files.backup.Some?
    requires a.files.marker == Some(Record(m)) && m.attempts == MAX_BOOT_ATTEMPTS
    ensures var b := Step(t, a, Boot(k => if k == 3 then Fail else Ok));
      var c := Step(t, b, Connect(AllOk()));
      && Kept(b) && !Guarded(t, b, Connect(AllOk()))
      && c.files.exe == None && c.files.backup == None
  {
    BootKeeps(t, a, k => if k == 3 then Fail else Ok);
  }

  // ---------------------------------------------------------------------
  // Guarded without looking at the files

  /** Staging starts from the running binary's own file, and a rollback that has seen its backup and
      survives completes its rename. */
  ghost predicate Legal(a: Agent, e: Event) {
    match e
    case Update(_, _) =>
      a.process.Up? && a.process.connected ==> a.files.exe == Some(Image(a.process.image))
    case Boot(fate) =>
      var (w, result) := Booted(a, fate);
      w.alive ==> result != RestoreFailed(RenameFailed)
    case _ => true
  }

  ghost predicate LegalRun(t: Trust, a: Agent, es: seq<Event>) {
    es != [] ==> LegalRun(t, a, es[..|es| - 1]) && Legal(Run(t, a, es[..|es| - 1]), es[|es| - 1])
  }

  /** The executable is the process's own until it connects, and a connected process is proven. */
  ghost predicate OwnFile(a: Agent) {
    a.process.Up? ==>
      if a.process.connected then a.process.image in a.proven
      else a.files.exe == Some(Image(a.process.image))
  }

  lemma {:induction false} LegalStep(t: Trust, a: Agent, e: Event)
    requires OwnFile(a) && MarkerNamesBackup(a.files) && Legal(a, e)
    ensures OwnFile(Step(t, a, e)) && Guarded(t, a, e)
  {
    match e {
      case Boot(fate) =>
        var w1 := LoadMarker(World(a.files, 0, true), fate).0;
        assert w1.files == a.files;
        RestoreOutcomes(w1, fate);
      case Connect(fate) => CommitRemoves(World(a.files, 0, true), fate);
      case _ =>
    }
  }

  /** Runs in which updates start from the running binary's own file and no surviving rollback fails its
      rename are guarded, so they are safe as well. */
  lemma {:induction false} LegalRunsAreGuarded(t: Trust, image: Bytes, es: seq<Event>)
    requires LegalRun(t, Installed(image), es)
    ensures GuardedRun(t, Installed(image), es) && OwnFile(Run(t, Installed(image), es))
  {
    if es != [] {
      var init := es[..|es| - 1];
      LegalRunsAreGuarded(t, image, init);
      AlwaysRecoverable(t, image, init);
      LegalStep(t, Run(t, Installed(image), init), es[|es| - 1]);
    }
  }

  // ---------------------------------------------------------------------
  // Only verified bytes reach the executable path

  /** Bytes of at most 256 MiB for which some signature passes under the build's key. */
  ghost predicate Verified(t: Trust, data: Bytes) {
    && t.key.Some? && |data| <= 268435456
    && exists sha, signature :: t.verify(t.key.value, data, sha, signature)
  }

  ghost predicate Trusted(t: Trust, image: Bytes, c: Option<Content>) {
    c.Some? ==> c.value.Image? && (c.value.data == image || Verified(t, c.value.data))
  }

  /** In every run, with any failures and any crashes, the executable and its backup are absent, the
      installed binary, or complete bytes that passed verification. */
  lemma {:induction false} OnlyVerified(t: Trust, image: Bytes, es: seq<Event>)
    ensures var f := Run(t, Installed(image), es).files;
      Trusted(t, image, f.exe) && Trusted(t, image, f.backup) && MarkerNamesBackup(f)
  {
    if es != [] {
      var n := |es| - 1;
      OnlyVerified(t, image, es[..n]);
      OnlyVerifiedStep(t, image, Run(t, Installed(image), es[..n]), es[n]);
    }
  }

  lemma {:induction false} OnlyVerifiedStep(t: Trust, image: Bytes, a: Agent, e: Event)
    requires Trusted(t, image, a.files.exe) && Trusted(t, image, a.files.backup) && MarkerNamesBackup(a.files)
    ensures var f := Step(t, a, e).files;
      Trusted(t, image, f.exe) && Trusted(t, image, f.backup) && MarkerNamesBackup(f)
  {
    var w := World(a.files, 0, true);
    match e {
      case Boot(fate) => BootMoves(w, fate);
      case Connect(fate) => CommitRemoves(w, fate);
      case Update(q, fate) =>
        if Accepts(t, q) {
          AcceptedIsVerified(t, q);
          StageOutcomes(w, fate, q.download.value);
        }
      case Stop =>
    }
  }

  /** What the gate lets through, spelled out. */
  lemma {:induction false} AcceptedIsVerified(t: Trust, q: Request)
    ensures Accepts(t, q) <==>
      && t.key.Some? && q.download.Some? && |q.download.value| <= 268435456
      && t.verify(t.key.value, q.download.value, q.sha, q.signature)
    ensures Accepts(t, q) ==> Verified(t, q.download.value)
  {
  }

  lemma {:induction false} BootMoves(w: World, fate: Fates)
    requires MarkerNamesBackup(w.files)
    ensures var f, f' := w.files, Reconcile(w, fate).0.files;
      && MarkerNamesBackup(f')
      && (f'.backup == f.backup || f'.backup == None)
      && (f'.exe == f.exe || f'.exe == None || f'.exe == f.backup)
  {
    var (w1, loaded) := LoadMarker(w, fate);
    assert w1.files == w.files;
    if loaded.Found? && loaded.marker.attempts + 1 > MAX_BOOT_ATTEMPTS {
      var w2 := Read(w1, fate).0;
      assert w2.files == w.files;
      var w3 := Remove(w2, fate, Exe).0;
      assert w3.files == w.files || w3.files == w.files.(exe := None);
      RestoreOutcomes(w1, fate);
    }
  }

  lemma {:induction false} CommitRemoves(w: World, fate: Fates)
    requires MarkerNamesBackup(w.files)
    ensures var f, f' := w.files, Commit(w, fate).files;
      && f'.exe == f.exe
      && (f'.backup == f.backup || f'.backup == None)
      && (f'.marker == f.marker || f'.marker == None)
  {
  }

  /** An artifact whose signature passes does become the executable when every call succeeds, and the
      binary it replaces the backup. */
  lemma {:induction false} VerifiedIsInstalled(t: Trust, a: Agent, q: Request)
    requires a.process.Up? && a.process.connected && a.files.exe.Some?
    requires t.key.Some? && q.download.Some? && |q.download.value| <= 268435456
    requires t.verify(t.key.value, q.download.value, q.sha, q.signature)
    ensures Step(t, a, Update(q, AllOk())).files ==
      Files(Some(Image(q.download.value)), None, a.files.exe, Some(Record(Marker(q.version, Backup, 0))))
  {
  }

  /** A process running these bytes has connected. */
  predicate HasConnected(t: Trust, a: Agent, es: seq<Event>, data: Bytes) {
    es != [] &&
    var init := es[..|es| - 1];
    || HasConnected(t, a, init, data)
    || (es[|es| - 1].Connect? && Run(t, a, init).process.Up? && Run(t, a, init).process.image == data)
  }

  /** Proven means exactly that: the installed binary, and those that have connected. */
  lemma {:induction false} ProvenIff(t: Trust, image: Bytes, es: seq<Event>, data: Bytes)
    ensures data in Run(t, Installed(image), es).proven <==>
      data == image || HasConnected(t, Installed(image), es, data)
  {
    if es != [] {
      ProvenIff(t, image, es[..|es| - 1], data);
    }
  }

  // ---------------------------------------------------------------------
  // What a marker says

  ghost predicate MarkerCounts(f: Files) {
    MarkerNamesBackup(f) && (Readable(f) ==> 0 <= f.marker.value.marker.attempts <= MAX_BOOT_ATTEMPTS)
  }

  lemma {:induction false} MarkerCountsStep(t: Trust, a: Agent, e: Event)
    requires MarkerCounts(a.files)
    ensures MarkerCounts(Step(t, a, e).files)
  {
    var w := World(a.files, 0, true);
    match e {
      case Boot(fate) =>
        var w1 := LoadMarker(w, fate).0;
        assert w1.files == a.files;
        RestoreOutcomes(w1, fate);
      case Connect(fate) => CommitRemoves(w, fate);
      case Update(q, fate) =>
        if Accepts(t, q) {
          StageOutcomes(w, fate, q.download.value);
        }
      case Stop =>
    }
  }

  /** In every run a marker that can be read names the backup path and at most MAX_BOOT_ATTEMPTS boots. */
  lemma {:induction false} MarkersCount(t: Trust, image: Bytes, es: seq<Event>)
    ensures MarkerCounts(Run(t, Installed(image), es).files)
  {
    if es != [] {
      MarkersCount(t, image, es[..|es| - 1]);
      MarkerCountsStep(t, Run(t, Installed(image), es[..|es| - 1]), es[|es| - 1]);
    }
  }
}
