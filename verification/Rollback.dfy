/** Exactly when an update that never connects is rolled back: from the update command on, over every
    run of boots and stops and for every outcome of every file call. */
module Rollback {
  import opened Common
  import opened SelfUpdate

  /** What a marker is about: the version it names, the binary in place and the one it replaced. */
  datatype Release = Release(version: string, data: Bytes, previous: Bytes)

  /** How far an update is that never connects: so many boots counted in its marker, the marker torn by
      an interrupted write, the old binary restored, or the new one removed and the old one not put
      back. */
  datatype Progress = Counting(n: nat) | TornMarker | Restored(marked: bool) | Lost

  function MarkerAt(version: string, n: nat): (c: Option<Content>) {
    Some(Record(Marker(version, Backup, n)))
  }

  function FilesAt(r: Release, p: Progress): (f: Files) {
    var new', old' := Some(Image(r.data)), Some(Image(r.previous));
    match p
    case Counting(n) => Files(new', None, old', MarkerAt(r.version, n))
    case TornMarker => Files(new', None, old', Some(Torn))
    case Restored(marked) =>
      Files(old', None, None, if marked then MarkerAt(r.version, MAX_BOOT_ATTEMPTS) else None)
    case Lost => Files(None, None, old', MarkerAt(r.version, MAX_BOOT_ATTEMPTS))
  }

  // ---------------------------------------------------------------------
  // One boot

  // The calls of a boot: load 0 and write 1 while it counts; load 0, look for the backup 1, remove the
  // executable 2, rename 3 and remove the marker 4 when it rolls back.

  predicate Counted(f: Fates) {
    f(0) == Ok && f(1) == Ok
  }

  predicate Tears(f: Fates) {
    f(0) == Ok && (f(1) == FailTorn || f(1) == CrashTorn)
  }

  predicate Restores(f: Fates) {
    f(0) == Ok && f(1) == Ok && !Dies(f(2)) && f(3) == Ok
  }

  predicate Loses(f: Fates) {
    f(0) == Ok && f(1) == Ok && f(2) == Ok && f(3) != Ok
  }

  function Advance(p: Progress, f: Fates): (p': Progress) {
    if !p.Counting? then p
    else if p.n < MAX_BOOT_ATTEMPTS then
      if Counted(f) then Counting(p.n + 1) else if Tears(f) then TornMarker else p
    else if Restores(f) then Restored(f(4) != Ok) else if Loses(f) then Lost else p
  }

  lemma {:induction false} CountingBoot(t: Trust, a: Agent, r: Release, n: nat, fate: Fates)
    requires a.process.Down? && n < MAX_BOOT_ATTEMPTS && a.files == FilesAt(r, Counting(n))
    ensures Step(t, a, Boot(fate)).files == FilesAt(r, Advance(Counting(n), fate))
  {
  }

  lemma {:induction false} RestoringBoot(t: Trust, a: Agent, r: Release, fate: Fates)
    requires a.process.Down? && a.files == FilesAt(r, Counting(MAX_BOOT_ATTEMPTS))
    ensures Step(t, a, Boot(fate)).files == FilesAt(r, Advance(Counting(MAX_BOOT_ATTEMPTS), fate))
  {
    var f := a.files;
    var w1 := SelfUpdate.Read(World(f, 0, true), fate).0;
    if fate(0) == Ok {
      var w2 := SelfUpdate.Read(w1, fate).0;
      if fate(1) == Ok {
        var w3 := Remove(w2, fate, Exe).0;
        assert w3.files == if fate(2) == Ok then f.(exe := None) else f;
        assert w3.alive <==> !Dies(fate(2));
        var w4 := Rename(w3, fate, Backup, Exe).0;
        assert Restores(fate) ==> w4.files == f.(exe := f.backup, backup := None);
      }
    }
  }

  /** One boot of an update that has not connected, whatever its calls do. */
  lemma {:induction false} BootAdvances(t: Trust, a: Agent, r: Release, p: Progress, fate: Fates)
    requires a.process.Down? && a.files == FilesAt(r, p) && (p.Counting? ==> p.n <= MAX_BOOT_ATTEMPTS)
    ensures Step(t, a, Boot(fate)).files == FilesAt(r, Advance(p, fate))
  {
    match p {
      case Counting(n) =>
        if n < MAX_BOOT_ATTEMPTS {
          CountingBoot(t, a, r, n, fate);
        } else {
          RestoringBoot(t, a, r, fate);
        }
      case _ =>
    }
  }

  /** Exactly which calls count a boot, and which tear the marker. */
  lemma {:induction false} BootCountsIff(t: Trust, a: Agent, r: Release, n: nat, fate: Fates)
    requires a.process.Down? && n < MAX_BOOT_ATTEMPTS && a.files == FilesAt(r, Counting(n))
    ensures var f := Step(t, a, Boot(fate)).files;
      && f == a.files.(marker := f.marker)
      && (f.marker == MarkerAt(r.version, n + 1) <==> fate(0) == Ok && fate(1) == Ok)
      && (f.marker == Some(Torn) <==> fate(0) == Ok && (fate(1) == FailTorn || fate(1) == CrashTorn))
      && (f.marker == MarkerAt(r.version, n) <==> fate(0) != Ok || fate(1) == Fail || fate(1) == Crash)
  {
    CountingBoot(t, a, r, n, fate);
  }

  // ---------------------------------------------------------------------
  // Every run of boots and stops

  ghost predicate BootsAndStops(es: seq<Event>) {
    forall i :: 0 <= i < |es| ==> es[i].Boot? || es[i].Stop?
  }

  /** The calls of the boots of a run, leaving out those that find the agent already up. */
  function Boots(t: Trust, a: Agent, es: seq<Event>): (fs: seq<Fates>) {
    if es == [] then [] else
      var init, e := es[..|es| - 1], es[|es| - 1];
      if e.Boot? && Run(t, a, init).process.Down? then Boots(t, a, init) + [e.fate] else Boots(t, a, init)
  }

  /** How far an update with m boots counted at first is after the first n boots. */
  function Progressed(fs: seq<Fates>, m: nat, n: nat): (p: Progress)
    requires n <= |fs| && m <= MAX_BOOT_ATTEMPTS
    ensures p.Counting? ==> p.n <= MAX_BOOT_ATTEMPTS
  {
    if n == 0 then Counting(m) else Advance(Progressed(fs, m, n - 1), fs[n - 1])
  }

  lemma {:induction false} ProgressedMore(fs: seq<Fates>, f: Fates, m: nat, n: nat)
    requires n <= |fs| && m <= MAX_BOOT_ATTEMPTS
    ensures Progressed(fs + [f], m, n) == Progressed(fs, m, n)
  {
    if n != 0 {
      ProgressedMore(fs, f, m, n - 1);
    }
  }

  lemma {:induction false} RunProgress(t: Trust, a: Agent, r: Release, m: nat, es: seq<Event>)
    requires m <= MAX_BOOT_ATTEMPTS && a.process.Down? && a.files == FilesAt(r, Counting(m)) && BootsAndStops(es)
    ensures var fs := Boots(t, a, es);
      Run(t, a, es).files == FilesAt(r, Progressed(fs, m, |fs|))
  {
    if es != [] {
      var init, e := es[..|es| - 1], es[|es| - 1];
      var b, fs := Run(t, a, init), Boots(t, a, init);
      RunProgress(t, a, r, m, init);
      if e.Boot? && b.process.Down? {
        BootAdvances(t, b, r, Progressed(fs, m, |fs|), e.fate);
        ProgressedMore(fs, e.fate, m, |fs|);
      }
    }
  }

  /** How many of the first n boots loaded the marker and completed their next call. */
  function CountedBoots(fs: seq<Fates>, n: nat): (c: nat)
    requires n <= |fs|
  {
    if n == 0 then 0 else CountedBoots(fs, n - 1) + if Counted(fs[n - 1]) then 1 else 0
  }

  ghost predicate NoTear(fs: seq<Fates>, n: nat)
    requires n <= |fs|
  {
    forall j :: 0 <= j < n ==> !Tears(fs[j])
  }

  ghost predicate NoLoss(fs: seq<Fates>, i: nat, n: nat)
    requires n <= |fs|
  {
    forall j :: i <= j < n ==> !Loses(fs[j])
  }

  /** `missing` boots were counted, none of those up to then tore the marker, and no attempt to roll back
      since has removed the executable without putting the old one in place. */
  ghost predicate Ready(fs: seq<Fates>, missing: nat, n: nat)
    requires n <= |fs|
  {
    exists i :: 0 <= i <= n && CountedBoots(fs, i) == missing && NoTear(fs, i) && NoLoss(fs, i, n)
  }

  /** After that, a boot whose load, look at the backup and rename succeed. */
  ghost predicate Happened(fs: seq<Fates>, missing: nat, n: nat)
    requires n <= |fs|
  {
    exists k :: 0 <= k < n && Ready(fs, missing, k) && Restores(fs[k])
  }

  lemma {:induction false} ReadyStep(fs: seq<Fates>, missing: nat, n: nat)
    requires n < |fs|
    ensures Ready(fs, missing, n + 1) <==>
      || (Ready(fs, missing, n) && !Loses(fs[n]))
      || (CountedBoots(fs, n + 1) == missing && NoTear(fs, n + 1))
  {
    if Ready(fs, missing, n) && !Loses(fs[n]) {
      var i :| 0 <= i <= n && CountedBoots(fs, i) == missing && NoTear(fs, i) && NoLoss(fs, i, n);
      assert NoLoss(fs, i, n + 1);
    }
    if CountedBoots(fs, n + 1) == missing && NoTear(fs, n + 1) {
      assert NoLoss(fs, n + 1, n + 1);
    }
    if Ready(fs, missing, n + 1) {
      var i :| 0 <= i <= n + 1 && CountedBoots(fs, i) == missing && NoTear(fs, i) && NoLoss(fs, i, n + 1);
      if i <= n {
        assert NoLoss(fs, i, n);
      }
    }
  }

  lemma {:induction false} HappenedStep(fs: seq<Fates>, missing: nat, n: nat)
    requires n < |fs|
    ensures Happened(fs, missing, n + 1) <==>
      Happened(fs, missing, n) || (Ready(fs, missing, n) && Restores(fs[n]))
  {
  }

  /** What each kind of progress says about the boots so far. */
  ghost predicate Describes(fs: seq<Fates>, missing: nat, n: nat, p: Progress)
    requires n <= |fs|
  {
    match p
    case Counting(c) =>
      && !Happened(fs, missing, n)
      && if c < MAX_BOOT_ATTEMPTS
         then c + missing == MAX_BOOT_ATTEMPTS + CountedBoots(fs, n) && NoTear(fs, n) && !Ready(fs, missing, n)
         else CountedBoots(fs, n) >= missing && Ready(fs, missing, n)
    case TornMarker => !Happened(fs, missing, n) && !Ready(fs, missing, n) && !NoTear(fs, n)
    case Lost => !Happened(fs, missing, n) && !Ready(fs, missing, n) && CountedBoots(fs, n) > missing
    case Restored(_) => Happened(fs, missing, n)
  }

  lemma {:induction false} DescribesStep(fs: seq<Fates>, missing: nat, n: nat, p: Progress)
    requires n < |fs| && Describes(fs, missing, n, p) && (p.Counting? ==> p.n <= MAX_BOOT_ATTEMPTS)
    ensures Describes(fs, missing, n + 1, Advance(p, fs[n]))
  {
    ReadyStep(fs, missing, n);
    HappenedStep(fs, missing, n);
    assert NoTear(fs, n + 1) <==> NoTear(fs, n) && !Tears(fs[n]);
  }

  lemma {:induction false} DescribesStart(fs: seq<Fates>, m: nat)
    requires m <= MAX_BOOT_ATTEMPTS
    ensures Describes(fs, MAX_BOOT_ATTEMPTS - m, 0, Counting(m))
  {
    if m == MAX_BOOT_ATTEMPTS {
      assert CountedBoots(fs, 0) == 0 && NoTear(fs, 0) && NoLoss(fs, 0, 0);
    }
  }

  lemma {:induction false} ProgressDescribes(fs: seq<Fates>, m: nat, n: nat, p: Progress)
    requires n <= |fs| && m <= MAX_BOOT_ATTEMPTS && p == Progressed(fs, m, n)
    ensures Describes(fs, MAX_BOOT_ATTEMPTS - m, n, p)
  {
    if n == 0 {
      DescribesStart(fs, m);
    } else {
      var before := Progressed(fs, m, n - 1);
      ProgressDescribes(fs, m, n - 1, before);
      DescribesStep(fs, MAX_BOOT_ATTEMPTS - m, n - 1, before);
    }
  }

  /** Over every run of boots and stops from a marker that counts m boots, whatever their calls do: the
      byte-identical old binary is back in place if and only if the missing boots were counted, none of
      them tore the marker, and a later boot's load, look at the backup and rename succeeded before any
      attempt had lost the executable. */
  lemma {:induction false} RollbackFrom(t: Trust, a: Agent, r: Release, m: nat, es: seq<Event>)
    requires m <= MAX_BOOT_ATTEMPTS && a.process.Down? && a.files == FilesAt(r, Counting(m)) && BootsAndStops(es)
    ensures var f, fs := Run(t, a, es).files, Boots(t, a, es);
      f.exe == Some(Image(r.previous)) && f.backup == None <==> Happened(fs, MAX_BOOT_ATTEMPTS - m, |fs|)
  {
    var fs := Boots(t, a, es);
    RunProgress(t, a, r, m, es);
    ProgressDescribes(fs, m, |fs|, Progressed(fs, m, |fs|));
  }

  // ---------------------------------------------------------------------
  // From the update command on

  /** The calls of an update command that swap the binaries: write 0, remove the old backup 1, the two
      renames 2 and 3. Call 4 then writes the marker. */
  predicate Swaps(f: Fates) {
    f(0) == Ok && !Dies(f(1)) && f(2) == Ok && f(3) == Ok
  }

  /** A failed marker write is only logged: what was there before stays. */
  function MarkerAfter(before: Option<Content>, version: string, f: Fate): (c: Option<Content>) {
    match f
    case Ok => MarkerAt(version, 0)
    case Fail => before
    case Crash => before
    case FailTorn => Some(Torn)
    case CrashTorn => Some(Torn)
  }

  lemma {:induction false} SwapsIff(f: Files, fate: Fates, data: Bytes)
    requires f.exe.Some?
    ensures var (w, ok) := StageAndSwap(World(f, 0, true), fate, data);
      && (ok <==> Swaps(fate))
      && (ok ==> w == World(Files(Some(Image(data)), None, f.exe, f.marker), 4, true))
  {
    var w1 := Write(World(f, 0, true), fate, Staged, Image(data)).0;
    if fate(0) == Ok {
      var w2 := Remove(w1, fate, Backup).0;
      assert w2.ops == 2 && (w2.alive <==> !Dies(fate(1)));
      assert w2.files == w1.files || w2.files == w1.files.(backup := None);
      var (w3, moved) := Rename(w2, fate, Exe, Backup);
      assert moved ==> w3 == World(Files(None, Some(Image(data)), f.exe, f.marker), 3, true);
    }
  }

  /** Connected, with a complete binary in place, its own or not. */
  predicate InPlace(a: Agent) {
    a.process.Up? && a.process.connected && a.files.exe.Some? && a.files.exe.value.Image?
  }

  function Replaced(a: Agent): (image: Bytes)
    requires InPlace(a)
  {
    a.files.exe.value.data
  }

  lemma {:induction false} UpdateOutcome(t: Trust, a: Agent, q: Request, fate: Fates)
    requires InPlace(a) && Accepts(t, q)
    ensures var f := Step(t, a, Update(q, fate)).files;
      if Swaps(fate) then
        f == Files(Some(Image(q.download.value)), None, a.files.exe,
                   MarkerAfter(a.files.marker, q.version, fate(4)))
      else NotSwapped(a.files, f)
  {
    SwapsIff(a.files, fate, q.download.value);
    StageOutcomes(World(a.files, 0, true), fate, q.download.value);
  }

  /** The boots counted in a marker, at most MAX_BOOT_ATTEMPTS in every run. */
  function CountIn(marker: Option<Content>): (m: Option<nat>)
    ensures m.Some? ==> m.value <= MAX_BOOT_ATTEMPTS
  {
    if marker.Some? && marker.value.Record? && 0 <= marker.value.marker.attempts <= MAX_BOOT_ATTEMPTS
    then Some(marker.value.marker.attempts) else None
  }

  /** The boots that an update's marker counts before its first boot: none if its own write succeeded, and
      those of an earlier marker if that was left behind and the write failed cleanly. */
  function StartCount(before: Option<Content>, f: Fate): (m: Option<nat>)
    ensures m.Some? ==> m.value <= MAX_BOOT_ATTEMPTS
  {
    match f
    case Ok => Some(0)
    case Fail => CountIn(before)
    case Crash => CountIn(before)
    case FailTorn => None
    case CrashTorn => None
  }

  lemma {:induction false} UpdateStarts(t: Trust, a: Agent, q: Request, fate: Fates)
    requires MarkerCounts(a.files) && InPlace(a) && Accepts(t, q) && Swaps(fate)
    ensures var b, m := Step(t, Step(t, a, Update(q, fate)), Stop), StartCount(a.files.marker, fate(4));
      && b.process.Down? && b.files.exe == Some(Image(q.download.value)) && b.files.backup == a.files.exe
      && (Readable(b.files) <==> m.Some?)
    ensures var b, m := Step(t, Step(t, a, Update(q, fate)), Stop), StartCount(a.files.marker, fate(4));
      m.Some? ==>
        b.files == FilesAt(Release(b.files.marker.value.marker.version, q.download.value, Replaced(a)),
                           Counting(m.value))
  {
    UpdateOutcome(t, a, q, fate);
  }

  lemma {:induction false} AfterUpdate(t: Trust, a: Agent, q: Request, fate: Fates, es: seq<Event>)
    requires MarkerCounts(a.files) && InPlace(a) && Accepts(t, q) && Swaps(fate) && BootsAndStops(es)
    ensures var b, m := Step(t, Step(t, a, Update(q, fate)), Stop), StartCount(a.files.marker, fate(4));
      var f, fs := Run(t, b, es).files, Boots(t, b, es);
      f.exe == a.files.exe && f.backup == None <==> m.Some? && Happened(fs, MAX_BOOT_ATTEMPTS - m.value, |fs|)
  {
    var b, m := Step(t, Step(t, a, Update(q, fate)), Stop), StartCount(a.files.marker, fate(4));
    UpdateStarts(t, a, q, fate);
    if m.Some? {
      var r := Release(b.files.marker.value.marker.version, q.download.value, Replaced(a));
      RollbackFrom(t, b, r, m.value, es);
    } else {
      NothingPending(t, b, es);
    }
  }

  /** Rollback exactness for every update in every run, whatever its own calls and those of the boots
      after it do. The swapped-out binary comes back if and only if there is a marker to start from, the
      boots missing from its count were counted, none of them tore it, and a later boot's load, look at
      the backup and rename succeeded before any attempt had lost the executable. */
  lemma {:induction false} RollbackExact(t: Trust, image: Bytes, past: seq<Event>, q: Request, fate: Fates,
                                         es: seq<Event>)
    requires var a := Run(t, Installed(image), past);
      a.process.Up? && a.process.connected && a.files.exe.Some?
    requires Accepts(t, q) && Swaps(fate) && BootsAndStops(es)
    ensures var a := Run(t, Installed(image), past);
      var b, m := Step(t, Step(t, a, Update(q, fate)), Stop), StartCount(a.files.marker, fate(4));
      var f, fs := Run(t, b, es).files, Boots(t, b, es);
      f.exe == a.files.exe && f.backup == None <==> m.Some? && Happened(fs, MAX_BOOT_ATTEMPTS - m.value, |fs|)
  {
    MarkersCount(t, image, past);
    OnlyVerified(t, image, past);
    AfterUpdate(t, Run(t, Installed(image), past), q, fate, es);
  }

  function FailAt(n: nat): (f: Fates) {
    k => if k == n then Fail else Ok
  }

  /** An update that gets no boots at all. The last permitted boot of an earlier update connects, removes
      the backup and fails to remove the marker; the next update's marker write fails, which is only
      logged; and its very first boot, with every call succeeding, rolls it back. */
  lemma {:induction false} StaleMarkerRollsBackAtOnce(t: Trust, a: Agent, r: Release, q: Request)
    requires a.files == FilesAt(r, Counting(MAX_BOOT_ATTEMPTS)) && a.process == Up(r.data, false) && Accepts(t, q)
    ensures var connected := Step(t, a, Connect(FailAt(2)));
      var updated := Step(t, Step(t, connected, Update(q, FailAt(4))), Stop);
      var booted := Step(t, updated, Boot(AllOk()));
      && InPlace(connected)
      && updated.files.exe == Some(Image(q.download.value))
      && booted.process.Down? && booted.files.exe == Some(Image(r.data)) && booted.files.backup == None
  {
    var connected := Step(t, a, Connect(FailAt(2)));
    StaleMarker(t, a, r);
    UpdateOutcome(t, connected, q, FailAt(4));
    var updated := Step(t, Step(t, connected, Update(q, FailAt(4))), Stop);
    RestoringBoot(t, updated, Release(r.version, q.download.value, r.data), AllOk());
  }

  lemma {:induction false} StaleMarker(t: Trust, a: Agent, r: Release)
    requires a.files == FilesAt(r, Counting(MAX_BOOT_ATTEMPTS)) && a.process == Up(r.data, false)
    ensures var c := Step(t, a, Connect(FailAt(2)));
      && c.process == Up(r.data, true)
      && c.files == Files(Some(Image(r.data)), None, None, MarkerAt(r.version, MAX_BOOT_ATTEMPTS))
  {
    var w1 := LoadMarker(World(a.files, 0, true), FailAt(2)).0;
    assert Remove(w1, FailAt(2), Backup).0 == World(a.files.(backup := None), 2, true);
  }

  // ---------------------------------------------------------------------
  // What ends it

  ghost predicate NoUpdates(es: seq<Event>) {
    forall i :: 0 <= i < |es| ==> !es[i].Update?
  }

  /** Without a readable marker no boot, connect or crash changes any file, whatever its calls return. */
  lemma {:induction false} NothingPending(t: Trust, a: Agent, es: seq<Event>)
    requires !Readable(a.files) && NoUpdates(es)
    ensures Run(t, a, es).files == a.files
  {
    if es != [] {
      NothingPending(t, a, es[..|es| - 1]);
    }
  }

  /** A boot that tears the marker ends it: no later boot, connect or crash changes any file. */
  lemma {:induction false} TornMarkerIsFinal(t: Trust, a: Agent, r: Release, n: nat, fate: Fates, es: seq<Event>)
    requires a.process.Down? && n < MAX_BOOT_ATTEMPTS && a.files == FilesAt(r, Counting(n))
    requires Tears(fate) && NoUpdates(es)
    ensures var b := Step(t, a, Boot(fate));
      b.files == FilesAt(r, TornMarker) && Run(t, b, es).files == b.files
  {
    CountingBoot(t, a, r, n, fate);
    NothingPending(t, Step(t, a, Boot(fate)), es);
  }

  /** Nothing to roll back to, or nothing that says so. */
  ghost predicate Final(f: Files) {
    MarkerNamesBackup(f) && (!Readable(f) || f.backup == None)
  }

  lemma {:induction false} FinalStep(t: Trust, a: Agent, e: Event)
    requires Final(a.files) && !e.Update?
    ensures Final(Step(t, a, e).files) && Step(t, a, e).files.exe == a.files.exe
  {
    match e {
      case Boot(fate) =>
        var w := LoadMarker(World(a.files, 0, true), fate).0;
        assert w.files == a.files;
      case Connect(fate) => CommitRemoves(World(a.files, 0, true), fate);
      case _ =>
    }
  }

  lemma {:induction false} FinalForever(t: Trust, a: Agent, es: seq<Event>)
    requires Final(a.files) && NoUpdates(es)
    ensures Final(Run(t, a, es).files) && Run(t, a, es).files.exe == a.files.exe
  {
    if es != [] {
      FinalForever(t, a, es[..|es| - 1]);
      FinalStep(t, Run(t, a, es[..|es| - 1]), es[|es| - 1]);
    }
  }

  /** The first connect loads the marker and removes the backup or, failing that, the marker. */
  predicate Confirms(f: Fates) {
    f(0) == Ok && (f(1) == Ok || (!Dies(f(1)) && f(2) == Ok))
  }

  lemma {:induction false} ConnectOutcomes(t: Trust, a: Agent, r: Release, n: nat, fate: Fates)
    requires a.files == FilesAt(r, Counting(n)) && a.process == Up(r.data, false)
    ensures var f := Step(t, a, Connect(fate)).files;
      (Confirms(fate) ==> Final(f) && f.exe == a.files.exe) && (!Confirms(fate) ==> f == a.files)
  {
    var w1 := LoadMarker(World(a.files, 0, true), fate).0;
    assert w1.files == a.files;
    if fate(0) == Ok {
      var w2 := Remove(w1, fate, Backup).0;
      assert w2.files == if fate(1) == Ok then a.files.(backup := None) else a.files;
    }
  }

  /** A connect before the last permitted boot makes rollback impossible if and only if its load and one
      of its two removals succeed: then no later boot, connect or crash changes the executable, and
      otherwise enough boots that succeed put the old binary back. */
  lemma {:induction false} ConnectPreventsRollbackIff(t: Trust, a: Agent, r: Release, n: nat, fate: Fates)
    requires a.files == FilesAt(r, Counting(n)) && a.process == Up(r.data, false) && n <= MAX_BOOT_ATTEMPTS
    ensures var c := Step(t, a, Connect(fate));
      if Confirms(fate) then forall es :: NoUpdates(es) ==> Run(t, c, es).files.exe == a.files.exe
      else AfterBoots(t, Step(t, c, Stop), MAX_BOOT_ATTEMPTS + 1) == RolledBack(c, r.previous)
  {
    var c := Step(t, a, Connect(fate));
    ConnectOutcomes(t, a, r, n, fate);
    if Confirms(fate) {
      forall es | NoUpdates(es) ensures Run(t, c, es).files.exe == a.files.exe {
        FinalForever(t, c, es);
      }
    } else {
      assert Step(t, c, Stop) == Pending(c, r, n);
      StateAfterBoots(t, c, r, n, MAX_BOOT_ATTEMPTS + 1);
    }
  }

  // ---------------------------------------------------------------------
  // When every call succeeds

  /** An update that has been staged and `attempts` boots since, none of them confirmed. */
  ghost function Pending(a: Agent, r: Release, attempts: nat): (b: Agent) {
    Agent(FilesAt(r, Counting(attempts)), Down, a.proven)
  }

  function RolledBack(a: Agent, image: Bytes): (b: Agent) {
    Agent(Files(Some(Image(image)), None, None, None), Down, a.proven)
  }

  lemma {:induction false} PendingBoot(t: Trust, a: Agent, r: Release, attempts: nat)
    requires attempts <= MAX_BOOT_ATTEMPTS
    ensures Step(t, Pending(a, r, attempts), Boot(AllOk())) ==
      if attempts < MAX_BOOT_ATTEMPTS
      then Pending(a, r, attempts + 1).(process := Up(r.data, false))
      else RolledBack(a, r.previous)
  {
  }

  lemma {:induction false} RolledBackBoot(t: Trust, a: Agent, image: Bytes)
    ensures Step(t, RolledBack(a, image), Boot(AllOk())) == RolledBack(a, image).(process := Up(image, false))
  {
  }

  /** An update after n boots, none of which connected. */
  ghost function Awaiting(a: Agent, r: Release, n: nat): (b: Agent) {
    if n <= MAX_BOOT_ATTEMPTS then Pending(a, r, n) else RolledBack(a, r.previous)
  }

  lemma {:induction false} AwaitingBoot(t: Trust, a: Agent, r: Release, n: nat)
    ensures var b := Step(t, Awaiting(a, r, n), Boot(AllOk()));
      && Step(t, b, Stop) == Awaiting(a, r, n + 1)
      && b.process == (if n < MAX_BOOT_ATTEMPTS then Up(r.data, false)
                       else if n == MAX_BOOT_ATTEMPTS then Down else Up(r.previous, false))
  {
    if n <= MAX_BOOT_ATTEMPTS {
      PendingBoot(t, a, r, n);
    } else {
      RolledBackBoot(t, a, r.previous);
    }
  }

  /** n boots in a row, each stopped again before it connected. */
  function AfterBoots(t: Trust, a: Agent, n: nat): (b: Agent) {
    if n == 0 then a else Step(t, Step(t, AfterBoots(t, a, n - 1), Boot(AllOk())), Stop)
  }

  lemma {:induction false} StateAfterBoots(t: Trust, a: Agent, r: Release, m: nat, n: nat)
    ensures AfterBoots(t, Awaiting(a, r, m), n) == Awaiting(a, r, m + n)
  {
    if n != 0 {
      StateAfterBoots(t, a, r, m, n - 1);
      AwaitingBoot(t, a, r, m + n - 1);
    }
  }

  lemma {:induction false} UpdateAwaits(t: Trust, a: Agent, q: Request)
    requires InPlace(a) && Accepts(t, q)
    ensures Step(t, Step(t, a, Update(q, AllOk())), Stop) ==
      Awaiting(a, Release(q.version, q.download.value, Replaced(a)), 0)
  {
    UpdateOutcome(t, a, q, AllOk());
  }

  /** An update that never connects is then booted exactly three times; the next boot puts the
      byte-identical previous binary back and exits, and every later boot runs it. */
  lemma {:induction false} ThreeBootsThenBack(t: Trust, a: Agent, q: Request, n: nat)
    requires InPlace(a) && Accepts(t, q)
    ensures var b := AfterBoots(t, Step(t, Step(t, a, Update(q, AllOk())), Stop), n);
      && b == Awaiting(a, Release(q.version, q.download.value, Replaced(a)), n)
      && Step(t, b, Boot(AllOk())).process ==
           (if n < 3 then Up(q.download.value, false)
            else if n == 3 then Down
            else Up(Replaced(a), false))
  {
    var r := Release(q.version, q.download.value, Replaced(a));
    UpdateAwaits(t, a, q);
    StateAfterBoots(t, a, r, 0, n);
    AwaitingBoot(t, a, r, n);
  }
}
