/** Alert rules: the nested evaluation loop against its pointwise meaning, and the alerts table over
    every run with users acknowledging, resolving and deleting. `evaluateRule` is an oracle. Opening
    and resolution times are left out. */
module Alerting {
  import opened Common

  datatype State = Open | Acknowledged | Resolved

  datatype Alert = Alert(device: nat, rule: Option<nat>, state: State, severity: string, summary: string)

  datatype Scope = Global | OfCustomer | OfGroup | OfDevice | OtherScope

  datatype Rule = Rule(id: nat, scope: Scope, scopeId: Option<nat>, enabled: bool)

  datatype Device = Device(id: nat, customer: Option<nat>, group: Option<nat>)

  /** What `evaluateRule` says about a rule and a device. */
  datatype Verdict = Triggered(severity: string, summary: string) | Clear | Error

  type Oracle = (Rule, Device) -> Verdict

  // ---------------------------------------------------------------------
  // The table

  /** The alerts by id, and the pairs that were notified about, in order. */
  datatype Alerts = Alerts(rows: map<nat, Alert>, nextId: nat, notified: seq<(nat, nat)>)

  predicate IsActive(a: Alert, device: nat, rule: nat) {
    a.device == device && a.rule == Some(rule) && a.state != Resolved
  }

  predicate Active(rows: map<nat, Alert>, device: nat, rule: nat) {
    exists id :: id in rows && IsActive(rows[id], device, rule)
  }

  /** A new row, and the notification that follows it. */
  function Opened(s: Alerts, device: nat, rule: nat, severity: string, summary: string): (s': Alerts) {
    Alerts(s.rows[s.nextId := Alert(device, Some(rule), Open, severity, summary)], s.nextId + 1,
           s.notified + [(device, rule)])
  }

  function OpenIfNotExists(s: Alerts, device: nat, rule: nat, severity: string, summary: string): (s': Alerts) {
    if Active(s.rows, device, rule) then s else Opened(s, device, rule, severity, summary)
  }

  function ResolveIf(a: Alert, device: nat, rule: nat): (a': Alert) {
    if IsActive(a, device, rule) then a.(state := Resolved) else a
  }

  function AutoResolve(s: Alerts, device: nat, rule: nat): (s': Alerts) {
    s.(rows := map id | id in s.rows :: ResolveIf(s.rows[id], device, rule))
  }

  // ---------------------------------------------------------------------
  // Scopes

  predicate InScope(rule: Rule, d: Device) {
    match rule.scope
    case Global => true
    case OfCustomer => rule.scopeId.Some? && d.customer == rule.scopeId
    case OfGroup => rule.scopeId.Some? && d.group == rule.scopeId
    case OfDevice => rule.scopeId == Some(d.id)
    case OtherScope => false
  }

  function Filter(all: seq<Device>, rule: Rule): (r: seq<Device>) {
    if all == [] then [] else
      var n := |all| - 1;
      if InScope(rule, all[n]) then Filter(all[..n], rule) + [all[n]] else Filter(all[..n], rule)
  }

  ghost predicate DistinctDevices(ds: seq<Device>) {
    forall i, j :: 0 <= i < j < |ds| ==> ds[i].id != ds[j].id
  }

  lemma {:induction false} FilterAll(all: seq<Device>, rule: Rule)
    requires forall i :: 0 <= i < |all| ==> InScope(rule, all[i])
    ensures Filter(all, rule) == all
  {
    if all != [] {
      FilterAll(all[..|all| - 1], rule);
    }
  }

  lemma {:induction false} FilterNone(all: seq<Device>, rule: Rule)
    requires forall i :: 0 <= i < |all| ==> !InScope(rule, all[i])
    ensures Filter(all, rule) == []
  {
    if all != [] {
      FilterNone(all[..|all| - 1], rule);
    }
  }

  lemma {:induction false} FilterOne(all: seq<Device>, rule: Rule, k: nat)
    requires k < |all| && InScope(rule, all[k])
    requires forall i :: 0 <= i < |all| && i != k ==> !InScope(rule, all[i])
    ensures Filter(all, rule) == [all[k]]
  {
    var n := |all| - 1;
    if k == n {
      FilterNone(all[..n], rule);
    } else {
      FilterOne(all[..n], rule, k);
    }
  }

  /** Membership, order and distinctness of a filtered list. */
  lemma {:induction false} FilterMembers(all: seq<Device>, rule: Rule)
    ensures forall d :: d in Filter(all, rule) <==> d in all && InScope(rule, d)
    ensures DistinctDevices(all) ==> DistinctDevices(Filter(all, rule))
  {
    if all != [] {
      var n := |all| - 1;
      FilterMembers(all[..n], rule);
      assert all == all[..n] + [all[n]];
      if DistinctDevices(all) {
        var rest := Filter(all[..n], rule);
        forall i | 0 <= i < |rest| ensures rest[i].id != all[n].id {
          assert rest[i] in all[..n];
        }
      }
    }
  }

  /** What each scope means. */
  lemma {:induction false} ScopeMeans(rule: Rule, d: Device, id: nat)
    ensures rule.scope == Global ==> InScope(rule, d)
    ensures rule.scopeId == Some(id) && rule.scope == OfCustomer ==> (InScope(rule, d) <==> d.customer == Some(id))
    ensures rule.scopeId == Some(id) && rule.scope == OfGroup ==> (InScope(rule, d) <==> d.group == Some(id))
    ensures rule.scopeId == Some(id) && rule.scope == OfDevice ==> (InScope(rule, d) <==> d.id == id)
    ensures rule.scopeId == None && rule.scope != Global ==> !InScope(rule, d)
    ensures rule.scope == OtherScope ==> !InScope(rule, d)
  {
  }

  /** `scopedDevices`; a device scope stops at the first match. */
  method ScopedDevices(all: seq<Device>, rule: Rule) returns (out: seq<Device>)
    requires DistinctDevices(all)
    ensures out == Filter(all, rule)
  {
    match rule.scope {
      case Global =>
        FilterAll(all, rule);
        return all;
      case OtherScope =>
        FilterNone(all, rule);
        return [];
      case _ =>
    }
    if rule.scopeId.None? {
      FilterNone(all, rule);
      return [];
    }
    if rule.scope == OfDevice {
      for i := 0 to |all|
        invariant forall j :: 0 <= j < i ==> !InScope(rule, all[j])
      {
        if all[i].id == rule.scopeId.value {
          FilterOne(all, rule, i);
          return [all[i]];
        }
      }
      FilterNone(all, rule);
      return [];
    }
    out := [];
    for i := 0 to |all|
      invariant out == Filter(all[..i], rule)
    {
      assert all[..i + 1][..i] == all[..i];
      var d := all[i];
      var owner := if rule.scope == OfCustomer then d.customer else d.group;
      if owner.Some? && owner.value == rule.scopeId.value {
        out := out + [d];
      }
    }
    assert all[..|all|] == all;
  }

  // ---------------------------------------------------------------------
  // Evaluation

  /** One evaluated pair. */
  datatype Visit = Visit(device: nat, rule: nat, verdict: Verdict)

  function Apply(s: Alerts, v: Visit): (s': Alerts) {
    match v.verdict
    case Error => s
    case Triggered(severity, summary) => OpenIfNotExists(s, v.device, v.rule, severity, summary)
    case Clear => AutoResolve(s, v.device, v.rule)
  }

  function ApplyAll(s: Alerts, vs: seq<Visit>): (s': Alerts) {
    if vs == [] then s else Apply(ApplyAll(s, vs[..|vs| - 1]), vs[|vs| - 1])
  }

  /** A store call that fails is logged and skipped, as if the condition could not be evaluated. */
  function Effective(oracle: Oracle, works: (Rule, Device) -> bool): (o: Oracle) {
    (rule, d) => if works(rule, d) then oracle(rule, d) else Error
  }

  /** The pairs one rule visits. */
  function VisitsOf(rule: Rule, scoped: seq<Device>, oracle: Oracle): (vs: seq<Visit>)
    ensures |vs| == |scoped|
  {
    seq(|scoped|, i requires 0 <= i < |scoped| => Visit(scoped[i].id, rule.id, oracle(rule, scoped[i])))
  }

  /** All pairs one evaluation visits, in order. */
  function Visits(rules: seq<Rule>, devices: seq<Device>, oracle: Oracle): (vs: seq<Visit>) {
    if rules == [] then [] else
      var rule := rules[|rules| - 1];
      var rest := Visits(rules[..|rules| - 1], devices, oracle);
      if rule.enabled then rest + VisitsOf(rule, Filter(devices, rule), oracle) else rest
  }

  lemma {:induction false} ApplyAllAppend(s: Alerts, vs: seq<Visit>, us: seq<Visit>)
    ensures ApplyAll(s, vs + us) == ApplyAll(ApplyAll(s, vs), us)
  {
    if us == [] {
      assert vs + us == vs;
    } else {
      var n := |us| - 1;
      assert (vs + us)[..|vs + us| - 1] == vs + us[..n];
      ApplyAllAppend(s, vs, us[..n]);
    }
  }

  class Engine {
    var rows: map<nat, Alert>
    var nextId: nat
    var notified: seq<(nat, nat)>

    ghost function Now(): Alerts
      reads this
    {
      Alerts(rows, nextId, notified)
    }

    constructor ()
      ensures Now() == Alerts(map[], 0, [])
    {
      rows, nextId, notified := map[], 0, [];
    }

    /** `OpenIfNotExists` and the notification; nothing happens when the store call fails. */
    method OpenAlert(device: nat, rule: nat, severity: string, summary: string, works: bool) returns (created: bool)
      modifies this
      ensures Now() == if works then OpenIfNotExists(old(Now()), device, rule, severity, summary) else old(Now())
      ensures created == (works && !Active(old(rows), device, rule))
    {
      created := works && !Active(rows, device, rule);
      if created {
        rows := rows[nextId := Alert(device, Some(rule), Open, severity, summary)];
        nextId := nextId + 1;
        notified := notified + [(device, rule)];
      }
    }

    method AutoResolveIfOpen(device: nat, rule: nat, works: bool) returns (resolved: bool)
      modifies this
      ensures Now() == if works then AutoResolve(old(Now()), device, rule) else old(Now())
      ensures resolved == (works && Active(old(rows), device, rule))
    {
      resolved := works && Active(rows, device, rule);
      if works {
        rows := map id | id in rows :: ResolveIf(rows[id], device, rule);
      }
    }

    method EvaluateRule(rule: Rule, devices: seq<Device>, oracle: Oracle, works: (Rule, Device) -> bool)
      requires DistinctDevices(devices)
      modifies this
      ensures Now() == ApplyAll(old(Now()), VisitsOf(rule, Filter(devices, rule), Effective(oracle, works)))
    {
      var scoped := ScopedDevices(devices, rule);
      ghost var visits := VisitsOf(rule, scoped, Effective(oracle, works));
      for i := 0 to |scoped|
        invariant Now() == ApplyAll(old(Now()), visits[..i])
      {
        assert visits[..i + 1][..i] == visits[..i];
        var d := scoped[i];
        match oracle(rule, d) {
          case Error =>
          case Triggered(severity, summary) =>
            var _ := OpenAlert(d.id, rule.id, severity, summary, works(rule, d));
          case Clear => var _ := AutoResolveIfOpen(d.id, rule.id, works(rule, d));
        }
      }
      assert visits[..|scoped|] == visits;
    }

    /** `Evaluate`; the lists are missing when their queries fail. */
    method Evaluate(rules: Option<seq<Rule>>, devices: Option<seq<Device>>, oracle: Oracle,
                    works: (Rule, Device) -> bool) returns (ok: bool)
      requires devices.Some? ==> DistinctDevices(devices.value)
      modifies this
      ensures ok == (rules.Some? && devices.Some?)
      ensures Now() == if ok then ApplyAll(old(Now()), Visits(rules.value, devices.value, Effective(oracle, works)))
                       else old(Now())
    {
      if rules.None? || devices.None? {
        return false;
      }
      var rs, ds := rules.value, devices.value;
      for i := 0 to |rs|
        invariant Now() == ApplyAll(old(Now()), Visits(rs[..i], ds, Effective(oracle, works)))
      {
        var rule := rs[i];
        assert rs[..i + 1][..i] == rs[..i];
        if rule.enabled {
          ApplyAllAppend(old(Now()), Visits(rs[..i], ds, Effective(oracle, works)),
                         VisitsOf(rule, Filter(ds, rule), Effective(oracle, works)));
          EvaluateRule(rule, ds, oracle, works);
        }
      }
      assert rs[..|rs|] == rs;
      return true;
    }
  }

  // ---------------------------------------------------------------------
  // The pointwise meaning of an evaluation

  ghost predicate DistinctRules(rules: seq<Rule>) {
    forall i, j :: 0 <= i < j < |rules| ==> rules[i].id != rules[j].id
  }

  ghost predicate Concerns(v: Visit, device: nat, rule: nat) {
    v.device == device && v.rule == rule
  }

  ghost predicate DistinctPairs(vs: seq<Visit>) {
    forall i, j :: 0 <= i < j < |vs| ==> !Concerns(vs[i], vs[j].device, vs[j].rule)
  }

  ghost predicate FreshIds(s: Alerts) {
    forall id :: id in s.rows ==> id < s.nextId
  }

  /** Opening: nothing happens while an open or acknowledged alert of the pair exists; otherwise exactly one
      open alert with the given severity and summary is added, and the pair notified about. */
  lemma {:induction false} OpenExactly(s: Alerts, device: nat, rule: nat, severity: string, summary: string)
    ensures var after := OpenIfNotExists(s, device, rule, severity, summary);
      if exists id :: id in s.rows && s.rows[id].device == device && s.rows[id].rule == Some(rule)
                      && (s.rows[id].state == Open || s.rows[id].state == Acknowledged)
      then after == s
      else
        && after.rows == s.rows[s.nextId := Alert(device, Some(rule), Open, severity, summary)]
        && after.nextId == s.nextId + 1 && after.notified == s.notified + [(device, rule)]
  {
    if id :| id in s.rows && s.rows[id].device == device && s.rows[id].rule == Some(rule)
             && (s.rows[id].state == Open || s.rows[id].state == Acknowledged) {
      assert IsActive(s.rows[id], device, rule);
    }
  }

  /** Clearing: exactly the open and acknowledged alerts of the pair become resolved, and nothing else of
      them or of any other changes. */
  lemma {:induction false} ResolveExactly(s: Alerts, device: nat, rule: nat)
    ensures var after := AutoResolve(s, device, rule);
      && after == s.(rows := after.rows) && after.rows.Keys == s.rows.Keys
      && forall id :: id in s.rows ==>
           after.rows[id] == if s.rows[id].device == device && s.rows[id].rule == Some(rule)
                             then s.rows[id].(state := Resolved) else s.rows[id]
  {
  }

  lemma {:induction false} ApplyPointwise(s: Alerts, v: Visit, device: nat, rule: nat)
    requires FreshIds(s)
    ensures FreshIds(Apply(s, v))
    ensures var after := Active(Apply(s, v).rows, device, rule);
      if Concerns(v, device, rule) && !v.verdict.Error? then after <==> v.verdict.Triggered?
      else after <==> Active(s.rows, device, rule)
  {
    var s' := Apply(s, v);
    if v.verdict.Triggered? && s' != s {
      assert IsActive(s'.rows[s.nextId], v.device, v.rule);
      forall id | id in s.rows ensures s'.rows[id] == s.rows[id] {
      }
      assert Active(s.rows, device, rule) ==> Active(s'.rows, device, rule);
    } else if v.verdict.Clear? {
      forall id | id in s.rows
        ensures IsActive(s'.rows[id], device, rule) <==>
          IsActive(s.rows[id], device, rule) && !Concerns(v, device, rule)
      {
      }
      assert Active(s.rows, device, rule) && !Concerns(v, device, rule) ==> Active(s'.rows, device, rule);
    }
  }

  /** The last word about a pair: its one visit that was not an error, or else what was there before. */
  lemma {:induction false} ApplyAllPointwise(s: Alerts, vs: seq<Visit>, device: nat, rule: nat)
    requires FreshIds(s) && DistinctPairs(vs)
    ensures FreshIds(ApplyAll(s, vs))
    ensures forall i :: 0 <= i < |vs| && Concerns(vs[i], device, rule) && !vs[i].verdict.Error? ==>
      (Active(ApplyAll(s, vs).rows, device, rule) <==> vs[i].verdict.Triggered?)
    ensures (forall i :: 0 <= i < |vs| && Concerns(vs[i], device, rule) ==> vs[i].verdict.Error?) ==>
      (Active(ApplyAll(s, vs).rows, device, rule) <==> Active(s.rows, device, rule))
  {
    if vs != [] {
      var n := |vs| - 1;
      ApplyAllPointwise(s, vs[..n], device, rule);
      ApplyPointwise(ApplyAll(s, vs[..n]), vs[n], device, rule);
      assert forall i :: 0 <= i < n ==> vs[..n][i] == vs[i];
    }
  }

  /** A row that no effective visit concerns is left exactly as it was. */
  lemma {:induction false} OtherRowsKept(s: Alerts, vs: seq<Visit>, id: nat)
    requires FreshIds(s) && id in s.rows
    requires forall i :: 0 <= i < |vs| && !vs[i].verdict.Error? ==>
      s.rows[id].rule.None? || !Concerns(vs[i], s.rows[id].device, s.rows[id].rule.value)
    ensures FreshIds(ApplyAll(s, vs))
    ensures id in ApplyAll(s, vs).rows && ApplyAll(s, vs).rows[id] == s.rows[id]
  {
    if vs != [] {
      var n := |vs| - 1;
      assert forall i :: 0 <= i < n ==> vs[..n][i] == vs[i];
      OtherRowsKept(s, vs[..n], id);
      ApplyPointwise(ApplyAll(s, vs[..n]), vs[n], 0, 0);
    }
  }

  /** Every new alert was opened for a visit that triggered. */
  lemma {:induction false} NewRowsTriggered(s: Alerts, vs: seq<Visit>, id: nat) returns (i: nat)
    requires id !in s.rows && id in ApplyAll(s, vs).rows
    ensures i < |vs| && vs[i].verdict.Triggered?
    ensures var a := ApplyAll(s, vs).rows[id];
      a.rule.Some? && Concerns(vs[i], a.device, a.rule.value)
  {
    var n := |vs| - 1;
    if id in ApplyAll(s, vs[..n]).rows && (vs[n].verdict.Triggered? ==> ApplyAll(s, vs).rows[id] == ApplyAll(s, vs[..n]).rows[id]) {
      i := NewRowsTriggered(s, vs[..n], id);
    } else {
      i := n;
    }
  }

  /** What a new alert holds after a pass: it is open, with the severity and summary of its visit. */
  lemma {:induction false} NewRowHolds(s: Alerts, vs: seq<Visit>, id: nat) returns (i: nat)
    requires FreshIds(s) && DistinctPairs(vs) && id !in s.rows && id in ApplyAll(s, vs).rows
    ensures i < |vs| && vs[i].verdict.Triggered?
    ensures ApplyAll(s, vs).rows[id] ==
      Alert(vs[i].device, Some(vs[i].rule), Open, vs[i].verdict.severity, vs[i].verdict.summary)
  {
    var n := |vs| - 1;
    var before := ApplyAll(s, vs[..n]);
    OthersFresh(s, vs[..n]);
    if id in before.rows {
      i := NewRowHolds(s, vs[..n], id);
      assert vs[..n][i] == vs[i] && !Concerns(vs[i], vs[n].device, vs[n].rule);
    } else {
      i := n;
    }
  }

  lemma {:induction false} OthersFresh(s: Alerts, vs: seq<Visit>)
    requires FreshIds(s)
    ensures FreshIds(ApplyAll(s, vs))
  {
    if vs != [] {
      OthersFresh(s, vs[..|vs| - 1]);
      ApplyPointwise(ApplyAll(s, vs[..|vs| - 1]), vs[|vs| - 1], 0, 0);
    }
  }

  /** The i-th new notification names the pair of the i-th new alert. */
  ghost predicate Notified(s: Alerts, after: Alerts, id: nat)
    requires s.nextId <= id < after.nextId && |after.notified| - |s.notified| == after.nextId - s.nextId
  {
    && id in after.rows && after.rows[id].rule.Some?
    && after.notified[|s.notified| + id - s.nextId] == (after.rows[id].device, after.rows[id].rule.value)
  }

  /** New alerts and new notifications correspond one to one, in order. */
  lemma {:induction false} OneNotificationEach(s: Alerts, vs: seq<Visit>)
    ensures var after := ApplyAll(s, vs);
      && after.nextId >= s.nextId && s.notified <= after.notified
      && |after.notified| - |s.notified| == after.nextId - s.nextId
      && forall id :: s.nextId <= id < after.nextId ==> Notified(s, after, id)
  {
    if vs != [] {
      var n := |vs| - 1;
      OneNotificationEach(s, vs[..n]);
      var before, after := ApplyAll(s, vs[..n]), ApplyAll(s, vs);
      forall id | s.nextId <= id < after.nextId ensures Notified(s, after, id) {
        if id < before.nextId {
          assert Notified(s, before, id);
        }
      }
    }
  }

  ghost predicate Evaluated(rules: seq<Rule>, devices: seq<Device>, oracle: Oracle, v: Visit, rule: Rule, d: Device) {
    && rule in rules && rule.enabled && d in devices && InScope(rule, d)
    && v == Visit(d.id, rule.id, oracle(rule, d))
  }

  /** An evaluation visits exactly the devices in scope of an enabled rule. */
  lemma {:induction false} VisitsIff(rules: seq<Rule>, devices: seq<Device>, oracle: Oracle, v: Visit)
    ensures v in Visits(rules, devices, oracle) <==>
      exists rule, d :: Evaluated(rules, devices, oracle, v, rule, d)
  {
    if rules != [] {
      var n := |rules| - 1;
      var init, last := rules[..n], rules[n];
      VisitsIff(init, devices, oracle, v);
      FilterMembers(devices, last);
      assert rules == init + [last];
      var own := VisitsOf(last, Filter(devices, last), oracle);
      if v in Visits(rules, devices, oracle) {
        if v in Visits(init, devices, oracle) {
          var rule, d :| Evaluated(init, devices, oracle, v, rule, d);
          assert Evaluated(rules, devices, oracle, v, rule, d);
        } else {
          var i :| 0 <= i < |own| && own[i] == v;
          assert Filter(devices, last)[i] in Filter(devices, last);
          assert Evaluated(rules, devices, oracle, v, last, Filter(devices, last)[i]);
        }
      }
      if rule, d :| Evaluated(rules, devices, oracle, v, rule, d) {
        if rule in init {
          assert Evaluated(init, devices, oracle, v, rule, d);
        } else {
          var i :| 0 <= i < |Filter(devices, last)| && Filter(devices, last)[i] == d;
          assert own[i] == v;
        }
      }
    }
  }

  lemma {:induction false} VisitsDistinct(rules: seq<Rule>, devices: seq<Device>, oracle: Oracle)
    requires DistinctRules(rules) && DistinctDevices(devices)
    ensures DistinctPairs(Visits(rules, devices, oracle))
  {
    if rules != [] {
      var n := |rules| - 1;
      var rest, last := Visits(rules[..n], devices, oracle), rules[n];
      VisitsDistinct(rules[..n], devices, oracle);
      FilterMembers(devices, last);
      forall i | 0 <= i < |rest| ensures rest[i].rule != last.id {
        VisitsIff(rules[..n], devices, oracle, rest[i]);
        assert rest[i] in rest;
        var rule, d :| Evaluated(rules[..n], devices, oracle, rest[i], rule, d);
        var k :| 0 <= k < n && rules[..n][k] == rule;
        assert rules[k] == rule;
      }
    }
  }

  lemma {:induction false} SameRule(rules: seq<Rule>, a: Rule, b: Rule)
    requires DistinctRules(rules) && a in rules && b in rules && a.id == b.id
    ensures a == b
  {
  }

  lemma {:induction false} SameDevice(devices: seq<Device>, a: Device, b: Device)
    requires DistinctDevices(devices) && a in devices && b in devices && a.id == b.id
    ensures a == b
  {
  }

  /** Evaluation is its pointwise specification: a pair in the scope of an enabled rule has an active
      alert afterwards exactly when its condition triggered; an error, a disabled rule or a device out
      of scope leaves the pair as it was. */
  lemma {:induction false} EvaluatePointwise(s: Alerts, rules: seq<Rule>, devices: seq<Device>, oracle: Oracle,
                                             rule: Rule, d: Device)
    requires FreshIds(s) && DistinctRules(rules) && DistinctDevices(devices)
    requires rule in rules && d in devices
    ensures var after := ApplyAll(s, Visits(rules, devices, oracle));
      Active(after.rows, d.id, rule.id) <==>
        if rule.enabled && InScope(rule, d) && !oracle(rule, d).Error? then oracle(rule, d).Triggered?
        else Active(s.rows, d.id, rule.id)
  {
    var vs := Visits(rules, devices, oracle);
    VisitsDistinct(rules, devices, oracle);
    ApplyAllPointwise(s, vs, d.id, rule.id);
    forall i | 0 <= i < |vs| && Concerns(vs[i], d.id, rule.id)
      ensures rule.enabled && InScope(rule, d) && vs[i].verdict == oracle(rule, d)
    {
      VisitsIff(rules, devices, oracle, vs[i]);
      assert vs[i] in vs;
      var r, e :| Evaluated(rules, devices, oracle, vs[i], r, e);
      SameRule(rules, r, rule);
      SameDevice(devices, e, d);
    }
    if rule.enabled && InScope(rule, d) {
      var v := Visit(d.id, rule.id, oracle(rule, d));
      VisitsIff(rules, devices, oracle, v);
      assert Evaluated(rules, devices, oracle, v, rule, d);
      var i :| 0 <= i < |vs| && vs[i] == v;
      assert Concerns(vs[i], d.id, rule.id);
    }
  }

  /** Every other pair, listed or not, is as it was: no enabled rule with that id has a device with that
      id in scope whose condition could be evaluated. */
  lemma {:induction false} EvaluateElsewhere(s: Alerts, rules: seq<Rule>, devices: seq<Device>, oracle: Oracle,
                                             device: nat, rule: nat)
    requires FreshIds(s) && DistinctRules(rules) && DistinctDevices(devices)
    requires forall r, d :: r in rules && d in devices && r.id == rule && d.id == device && r.enabled ==>
      InScope(r, d) ==> oracle(r, d).Error?
    ensures Active(ApplyAll(s, Visits(rules, devices, oracle)).rows, device, rule) <==> Active(s.rows, device, rule)
  {
    var vs := Visits(rules, devices, oracle);
    VisitsDistinct(rules, devices, oracle);
    ApplyAllPointwise(s, vs, device, rule);
    forall i | 0 <= i < |vs| && Concerns(vs[i], device, rule) ensures vs[i].verdict.Error? {
      VisitsIff(rules, devices, oracle, vs[i]);
      assert vs[i] in vs;
      var r, d :| Evaluated(rules, devices, oracle, vs[i], r, d);
    }
  }

  /** The same with the outcomes of the store calls spelled out. */
  lemma {:induction false} EvaluateWithStore(s: Alerts, rules: seq<Rule>, devices: seq<Device>, oracle: Oracle,
                                             works: (Rule, Device) -> bool, rule: Rule, d: Device)
    requires FreshIds(s) && DistinctRules(rules) && DistinctDevices(devices)
    requires rule in rules && d in devices
    ensures var after := ApplyAll(s, Visits(rules, devices, Effective(oracle, works)));
      Active(after.rows, d.id, rule.id) <==>
        if rule.enabled && InScope(rule, d) && works(rule, d) && !oracle(rule, d).Error?
        then oracle(rule, d).Triggered? else Active(s.rows, d.id, rule.id)
  {
    EvaluatePointwise(s, rules, devices, Effective(oracle, works), rule, d);
  }

  ghost predicate Settled(s: Alerts, v: Visit) {
    v.verdict.Error? || (Active(s.rows, v.device, v.rule) <==> v.verdict.Triggered?)
  }

  lemma {:induction false} SettledIdle(s: Alerts, vs: seq<Visit>)
    requires forall i :: 0 <= i < |vs| ==> Settled(s, vs[i])
    ensures ApplyAll(s, vs) == s
  {
    if vs != [] {
      var n := |vs| - 1;
      assert forall i :: 0 <= i < n ==> vs[..n][i] == vs[i];
      SettledIdle(s, vs[..n]);
      assert Settled(s, vs[n]);
      if vs[n].verdict.Clear? {
        assert AutoResolve(s, vs[n].device, vs[n].rule).rows == s.rows;
      }
    }
  }

  /** A second evaluation with the same verdicts changes nothing and notifies about nothing. */
  lemma {:induction false} SecondPassIdle(s: Alerts, rules: seq<Rule>, devices: seq<Device>, oracle: Oracle)
    requires FreshIds(s) && DistinctRules(rules) && DistinctDevices(devices)
    ensures var once := ApplyAll(s, Visits(rules, devices, oracle));
      ApplyAll(once, Visits(rules, devices, oracle)) == once
  {
    var vs := Visits(rules, devices, oracle);
    VisitsDistinct(rules, devices, oracle);
    var once := ApplyAll(s, vs);
    forall i | 0 <= i < |vs| ensures Settled(once, vs[i]) {
      ApplyAllPointwise(s, vs, vs[i].device, vs[i].rule);
      assert Concerns(vs[i], vs[i].device, vs[i].rule);
    }
    SettledIdle(once, vs);
  }

  // ---------------------------------------------------------------------
  // At most one active alert per pair

  /** The alerts and the evaluator's position: after a SELECT that found no active alert for the pair,
      before the INSERT. Users act at any time in between. */
  datatype Table = Table(alerts: Alerts, checked: Option<(nat, nat)>)

  datatype Event =
    | Select(device: nat, rule: nat)
    | Insert(severity: string, summary: string, ok: bool)
    | ConditionCleared(device: nat, rule: nat)
    | Acknowledge(id: nat)
    | Resolve(id: nat)
    | Delete(id: nat)
    | DeleteDevice(device: nat)
    | DeleteRule(rule: nat)

  function Detach(a: Alert, rule: nat): (a': Alert) {
    if a.rule == Some(rule) then a.(rule := None) else a
  }

  /** What a user action or a cleared condition makes of the rows. */
  function Changed(rows: map<nat, Alert>, e: Event): (rows': map<nat, Alert>) {
    match e
    case Select(_, _) => rows
    case Insert(_, _, _) => rows
    case ConditionCleared(d, r) => map id | id in rows :: ResolveIf(rows[id], d, r)
    case Acknowledge(id) =>
      if id in rows && rows[id].state == Open then rows[id := rows[id].(state := Acknowledged)] else rows
    case Resolve(id) => if id in rows then rows[id := rows[id].(state := Resolved)] else rows
    case Delete(id) => rows - {id}
    case DeleteDevice(d) => map id | id in rows && rows[id].device != d :: rows[id]
    case DeleteRule(r) => map id | id in rows :: Detach(rows[id], r)
  }

  function Step(t: Table, e: Event): (t': Table) {
    match e
    case Select(d, r) => t.(checked := if Active(t.alerts.rows, d, r) then None else Some((d, r)))
    case Insert(severity, summary, ok) =>
      if t.checked.None? then t
      else if !ok then t.(checked := None)
      else Table(Opened(t.alerts, t.checked.value.0, t.checked.value.1, severity, summary), None)
    case _ => t.(alerts := t.alerts.(rows := Changed(t.alerts.rows, e)))
  }

  function Run(es: seq<Event>): (t: Table) {
    if es == [] then Table(Alerts(map[], 0, []), None) else Step(Run(es[..|es| - 1]), es[|es| - 1])
  }

  /** What users and cleared conditions do to the rows, one by one. */
  lemma {:induction false} ActionsExactly(t: Table, id: nat, d: nat, r: nat)
    ensures Step(t, Acknowledge(id)).alerts.rows ==
      if id in t.alerts.rows && t.alerts.rows[id].state == Open
      then t.alerts.rows[id := t.alerts.rows[id].(state := Acknowledged)] else t.alerts.rows
    ensures Step(t, Resolve(id)).alerts.rows ==
      if id in t.alerts.rows then t.alerts.rows[id := t.alerts.rows[id].(state := Resolved)] else t.alerts.rows
    ensures Step(t, Delete(id)).alerts.rows == t.alerts.rows - {id}
    ensures Step(t, ConditionCleared(d, r)).alerts == AutoResolve(t.alerts, d, r)
    ensures forall i :: i in Step(t, DeleteDevice(d)).alerts.rows <==>
      i in t.alerts.rows && t.alerts.rows[i].device != d
    ensures forall i :: i in Step(t, DeleteDevice(d)).alerts.rows ==>
      Step(t, DeleteDevice(d)).alerts.rows[i] == t.alerts.rows[i]
    ensures Step(t, DeleteRule(r)).alerts.rows.Keys == t.alerts.rows.Keys
    ensures forall i :: i in t.alerts.rows ==>
      Step(t, DeleteRule(r)).alerts.rows[i] ==
        if t.alerts.rows[i].rule == Some(r) then t.alerts.rows[i].(rule := None) else t.alerts.rows[i]
  {
  }

  /** The evaluator's two statements: with nothing in between they are `OpenIfNotExists`. */
  lemma {:induction false} SelectThenInsert(t: Table, d: nat, r: nat, severity: string, summary: string)
    ensures var t' := Step(Step(t, Select(d, r)), Insert(severity, summary, true));
      t'.alerts == OpenIfNotExists(t.alerts, d, r, severity, summary) && t'.checked == None
    ensures Step(Step(t, Select(d, r)), Insert(severity, summary, false)) == Table(t.alerts, None)
  {
  }

  ghost predicate SinglyActive(rows: map<nat, Alert>) {
    forall i, j, d, r :: i in rows && j in rows && IsActive(rows[i], d, r) && IsActive(rows[j], d, r) ==> i == j
  }

  ghost predicate TableOk(t: Table) {
    && FreshIds(t.alerts)
    && SinglyActive(t.alerts.rows)
    && (t.checked.Some? ==> !Active(t.alerts.rows, t.checked.value.0, t.checked.value.1))
  }

  /** User actions keep or end alerts, and move none to another pair. */
  lemma {:induction false} ChangedFewer(rows: map<nat, Alert>, e: Event, id: nat, d: nat, r: nat)
    requires id in Changed(rows, e) && IsActive(Changed(rows, e)[id], d, r)
    ensures id in rows && IsActive(rows[id], d, r)
  {
  }

  /** Whatever does that keeps them single. */
  lemma {:induction false} FewerActive(t: Table, rows: map<nat, Alert>)
    requires TableOk(t)
    requires forall id :: id in rows ==> id in t.alerts.rows
    requires forall id, d, r :: id in rows && IsActive(rows[id], d, r) ==> IsActive(t.alerts.rows[id], d, r)
    ensures TableOk(t.(alerts := t.alerts.(rows := rows)))
  {
  }

  lemma {:induction false} InsertKeeps(t: Table, severity: string, summary: string)
    requires TableOk(t)
    ensures TableOk(Step(t, Insert(severity, summary, true)))
  {
  }

  lemma {:induction false} StepKeeps(t: Table, e: Event)
    requires TableOk(t)
    ensures TableOk(Step(t, e))
  {
    match e {
      case Select(_, _) =>
      case Insert(severity, summary, ok) => if ok { InsertKeeps(t, severity, summary); }
      case _ =>
        var rows := Changed(t.alerts.rows, e);
        forall id, d, r | id in rows && IsActive(rows[id], d, r) ensures IsActive(t.alerts.rows[id], d, r) {
          ChangedFewer(t.alerts.rows, e, id, d, r);
        }
        FewerActive(t, rows);
    }
  }

  /** Over every run with one evaluator and any user actions, a pair has at most one active alert. */
  lemma {:induction false} AtMostOneActive(es: seq<Event>)
    ensures TableOk(Run(es)) && SinglyActive(Run(es).alerts.rows)
  {
    if es != [] {
      AtMostOneActive(es[..|es| - 1]);
      StepKeeps(Run(es[..|es| - 1]), es[|es| - 1]);
    }
  }
}
