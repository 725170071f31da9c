/** The control hub: correlating replies with waiting callers on one connection, and the table of live
    connections. Each critical section under a mutex, and each channel operation, is one atomic step. */
module ControlHub {
  import opened Common

  datatype Id = Id(text: string)

  /** A message; `requestId` is the message it answers, if any. */
  datatype Envelope = Envelope(requestId: Option<Id>, body: Bytes)

  /** What a caller of `sendAndWait` or `waitForID` is doing: blocked, leaving with a reply or an error,
      or returned after its deferred cleanup. */
  datatype Stage = Waiting | Leaving(reply: Option<Envelope>) | Returned(reply: Option<Envelope>)

  /** The correlation id, the buffered channel of capacity one, and the stage. */
  datatype Waiter = Waiter(id: Id, channel: seq<Envelope>, stage: Stage)

  /** An envelope on its way from the pending map to a waiter's channel. */
  datatype Handover = Handover(waiter: nat, envelope: Envelope)

  /** One connection. The read loop handles one message at a time, so at most one handover is open.
      `matched`, `handled` and `dropped` record which messages were matched with a waiter, which were
      passed to `handleMessage`, and which a full channel refused. */
  datatype Connection = Connection(pending: map<Id, nat>, waiters: map<nat, Waiter>,
                                   handover: Option<Handover>, matched: seq<Handover>,
                                   handled: seq<Envelope>, dropped: seq<Envelope>)

  datatype Event =
    | Register(waiter: nat, id: Id)
    | Arrive(envelope: Envelope)
    | Push
    | Receive(waiter: nat)
    | GiveUp(waiter: nat)
    | Cleanup(waiter: nat)

  /** Does `tryDeliver` find a waiter? */
  predicate Matches(c: Connection, e: Envelope) {
    e.requestId.Some? && e.requestId.value in c.pending
  }

  /** One atomic step; a step that is not possible changes nothing. */
  function Step(c: Connection, e: Event): (c': Connection) {
    match e
    case Register(w, id) =>
      if w in c.waiters then c
      else c.(pending := c.pending[id := w], waiters := c.waiters[w := Waiter(id, [], Waiting)])
    case Arrive(env) =>
      if c.handover.Some? then c
      else if Matches(c, env) then
        var h := Handover(c.pending[env.requestId.value], env);
        c.(pending := c.pending - {env.requestId.value}, handover := Some(h), matched := c.matched + [h])
      else c.(handled := c.handled + [env])
    case Push =>
      if c.handover.None? || c.handover.value.waiter !in c.waiters then c else
        var h := c.handover.value;
        var w := c.waiters[h.waiter];
        if |w.channel| < 1
        then c.(handover := None, waiters := c.waiters[h.waiter := w.(channel := w.channel + [h.envelope])])
        else c.(handover := None, dropped := c.dropped + [h.envelope])
    case Receive(w) =>
      if w in c.waiters && c.waiters[w].stage.Waiting? && c.waiters[w].channel != [] then
        var r := c.waiters[w];
        c.(waiters := c.waiters[w := r.(channel := r.channel[1..], stage := Leaving(Some(r.channel[0])))])
      else c
    case GiveUp(w) =>
      if w in c.waiters && c.waiters[w].stage.Waiting?
      then c.(waiters := c.waiters[w := c.waiters[w].(stage := Leaving(None))]) else c
    case Cleanup(w) =>
      if w in c.waiters && c.waiters[w].stage.Leaving? then
        var r := c.waiters[w];
        c.(pending := c.pending - {r.id}, waiters := c.waiters[w := r.(stage := Returned(r.stage.reply))])
      else c
  }

  const OPENED := Connection(map[], map[], None, [], [], [])

  function Run(es: seq<Event>): (c: Connection) {
    if es == [] then OPENED else Step(Run(es[..|es| - 1]), es[|es| - 1])
  }

  /** No two registrations use the same correlation id. */
  ghost predicate DistinctIds(es: seq<Event>) {
    forall i, j :: 0 <= i < j < |es| && es[i].Register? && es[j].Register? ==> es[i].id != es[j].id
  }

  /** No waiter so far uses this id. */
  ghost predicate Unused(c: Connection, id: Id) {
    forall w :: w in c.waiters ==> c.waiters[w].id != id
  }

  ghost predicate Answers(e: Envelope, id: Id) {
    e.requestId == Some(id)
  }

  /** Has this waiter been handed its envelope, wherever it is by now? */
  ghost predicate Served(c: Connection, w: nat)
    requires w in c.waiters
  {
    || (c.handover.Some? && c.handover.value.waiter == w)
    || c.waiters[w].channel != []
    || (!c.waiters[w].stage.Waiting? && c.waiters[w].stage.reply.Some?)
  }

  ghost predicate WaiterOk(c: Connection, w: nat)
    requires w in c.waiters
  {
    var r := c.waiters[w];
    && |r.channel| <= 1
    && (forall i :: 0 <= i < |r.channel| ==> Answers(r.channel[i], r.id))
    && (!r.stage.Waiting? && r.stage.reply.Some? ==> Answers(r.stage.reply.value, r.id) && r.channel == [])
    && (c.handover.Some? && c.handover.value.waiter == w ==>
          && Answers(c.handover.value.envelope, r.id) && r.channel == []
          && (r.stage.Waiting? || r.stage.reply.None?))
    && (r.id in c.pending ==> c.pending[r.id] == w && !Served(c, w) && !r.stage.Returned?)
  }

  ghost predicate Correlated(c: Connection) {
    && (forall v, w :: v in c.waiters && w in c.waiters && v != w ==> c.waiters[v].id != c.waiters[w].id)
    && (forall w :: w in c.waiters ==> WaiterOk(c, w))
    && (forall id :: id in c.pending ==> c.pending[id] in c.waiters && c.waiters[c.pending[id]].id == id)
    && (c.handover.Some? ==> c.handover.value.waiter in c.waiters)
    && c.dropped == []
  }

  lemma {:induction false} RegisterKeeps(c: Connection, w: nat, id: Id)
    requires Correlated(c) && Unused(c, id)
    ensures Correlated(Step(c, Register(w, id)))
  {
    var c' := Step(c, Register(w, id));
    if w !in c.waiters {
      forall v | v in c'.waiters ensures WaiterOk(c', v) {
        assert v != w ==> WaiterOk(c, v);
      }
    }
  }

  lemma {:induction false} ArriveKeeps(c: Connection, env: Envelope)
    requires Correlated(c)
    ensures Correlated(Step(c, Arrive(env)))
  {
  }

  lemma {:induction false} PushKeeps(c: Connection)
    requires Correlated(c)
    ensures Correlated(Step(c, Push))
  {
    var c' := Step(c, Push);
    forall v | v in c'.waiters ensures WaiterOk(c', v) {
      assert WaiterOk(c, v);
    }
  }

  lemma {:induction false} ReceiveKeeps(c: Connection, w: nat)
    requires Correlated(c)
    ensures Correlated(Step(c, Receive(w)))
  {
    var c' := Step(c, Receive(w));
    forall v | v in c'.waiters ensures WaiterOk(c', v) {
      assert WaiterOk(c, v);
    }
  }

  lemma {:induction false} GiveUpKeeps(c: Connection, w: nat)
    requires Correlated(c)
    ensures Correlated(Step(c, GiveUp(w)))
  {
    var c' := Step(c, GiveUp(w));
    forall v | v in c'.waiters ensures WaiterOk(c', v) {
      assert WaiterOk(c, v);
    }
  }

  lemma {:induction false} CleanupKeeps(c: Connection, w: nat)
    requires Correlated(c)
    ensures Correlated(Step(c, Cleanup(w)))
  {
    var c' := Step(c, Cleanup(w));
    forall v | v in c'.waiters ensures WaiterOk(c', v) {
      assert WaiterOk(c, v);
    }
  }

  lemma {:induction false} StepKeeps(c: Connection, e: Event)
    requires Correlated(c) && (e.Register? ==> Unused(c, e.id))
    ensures Correlated(Step(c, e))
  {
    match e {
      case Register(w, id) => RegisterKeeps(c, w, id);
      case Arrive(env) => ArriveKeeps(c, env);
      case Push => PushKeeps(c);
      case Receive(w) => ReceiveKeeps(c, w);
      case GiveUp(w) => GiveUpKeeps(c, w);
      case Cleanup(w) => CleanupKeeps(c, w);
    }
  }

  lemma {:induction false} RegisteredBefore(es: seq<Event>, w: nat) returns (i: nat)
    requires w in Run(es).waiters
    ensures i < |es| && es[i] == Register(w, Run(es).waiters[w].id)
  {
    var n := |es| - 1;
    var c := Run(es[..n]);
    if w in c.waiters {
      assert Step(c, es[n]).waiters[w].id == c.waiters[w].id;
      i := RegisteredBefore(es[..n], w);
    } else {
      i := n;
    }
  }

  lemma {:induction false} NextIdUnused(es: seq<Event>)
    requires es != [] && DistinctIds(es) && es[|es| - 1].Register?
    ensures Unused(Run(es[..|es| - 1]), es[|es| - 1].id)
  {
    var init := es[..|es| - 1];
    forall w | w in Run(init).waiters ensures Run(init).waiters[w].id != es[|es| - 1].id {
      var i := RegisteredBefore(init, w);
      assert es[i] == init[i];
    }
  }

  lemma {:induction false} RunCorrelated(es: seq<Event>)
    requires DistinctIds(es)
    ensures Correlated(Run(es))
  {
    if es != [] {
      var init := es[..|es| - 1];
      RunCorrelated(init);
      if es[|es| - 1].Register? {
        NextIdUnused(es);
      }
      StepKeeps(Run(init), es[|es| - 1]);
    }
  }

  // ---------------------------------------------------------------------
  // Every message has exactly one destination

  /** The envelope is on its way to the waiter, in its channel, or what it leaves with. */
  ghost predicate Located(c: Connection, w: nat, env: Envelope)
    requires w in c.waiters
  {
    || c.handover == Some(Handover(w, env))
    || c.waiters[w].channel == [env]
    || (!c.waiters[w].stage.Waiting? && c.waiters[w].stage.reply == Some(env))
  }

  ghost predicate Accounted(c: Connection) {
    && (forall i, j :: 0 <= i < j < |c.matched| ==> c.matched[i].waiter != c.matched[j].waiter)
    && (forall i :: 0 <= i < |c.matched| ==>
          c.matched[i].waiter in c.waiters && Located(c, c.matched[i].waiter, c.matched[i].envelope))
  }

  lemma {:induction false} LocatedStep(c: Connection, e: Event, w: nat, env: Envelope)
    requires Correlated(c) && w in c.waiters && Located(c, w, env)
    ensures w in Step(c, e).waiters && Located(Step(c, e), w, env)
  {
    assert WaiterOk(c, w);
  }

  lemma {:induction false} StepAccounted(c: Connection, e: Event)
    requires Correlated(c) && Accounted(c)
    ensures Accounted(Step(c, e))
  {
    var c' := Step(c, e);
    forall i | 0 <= i < |c.matched|
      ensures c.matched[i].waiter in c'.waiters && Located(c', c.matched[i].waiter, c.matched[i].envelope)
    {
      LocatedStep(c, e, c.matched[i].waiter, c.matched[i].envelope);
    }
    if e.Arrive? && c.handover.None? && Matches(c, e.envelope) {
      var w := c.pending[e.envelope.requestId.value];
      assert WaiterOk(c, w);
      forall i | 0 <= i < |c.matched| ensures c.matched[i].waiter != w {
        assert Located(c, c.matched[i].waiter, c.matched[i].envelope);
      }
    }
  }

  /** Does the read loop take up a message? */
  predicate TakesUp(c: Connection, e: Event) {
    e.Arrive? && c.handover.None?
  }

  /** The messages the read loop has taken up. */
  function Arrived(es: seq<Event>): (envelopes: multiset<Envelope>) {
    if es == [] then multiset{} else
      var init, e := es[..|es| - 1], es[|es| - 1];
      if TakesUp(Run(init), e) then Arrived(init) + multiset{e.envelope} else Arrived(init)
  }

  function Envelopes(hs: seq<Handover>): (envelopes: multiset<Envelope>) {
    if hs == [] then multiset{} else Envelopes(hs[..|hs| - 1]) + multiset{hs[|hs| - 1].envelope}
  }

  lemma {:induction false} EnvelopesSnoc(hs: seq<Handover>, h: Handover)
    ensures Envelopes(hs + [h]) == Envelopes(hs) + multiset{h.envelope}
  {
    assert (hs + [h])[..|hs|] == hs;
  }

  /** Where a step puts the message it takes up. */
  lemma {:induction false} Routed(c: Connection, e: Event)
    ensures var c' := Step(c, e);
      if !TakesUp(c, e) then c'.matched == c.matched && c'.handled == c.handled
      else if Matches(c, e.envelope) then
        c'.matched == c.matched + [Handover(c.pending[e.envelope.requestId.value], e.envelope)]
        && c'.handled == c.handled
      else c'.matched == c.matched && c'.handled == c.handled + [e.envelope]
  {
  }

  function Placed(matched: seq<Handover>, handled: seq<Envelope>): (envelopes: multiset<Envelope>) {
    Envelopes(matched) + multiset(handled)
  }

  lemma {:induction false} PlaceMatched(matched: seq<Handover>, handled: seq<Envelope>, h: Handover)
    ensures Placed(matched + [h], handled) == Placed(matched, handled) + multiset{h.envelope}
  {
    EnvelopesSnoc(matched, h);
  }

  lemma {:induction false} PlaceHandled(matched: seq<Handover>, handled: seq<Envelope>, env: Envelope)
    ensures Placed(matched, handled + [env]) == Placed(matched, handled) + multiset{env}
  {
  }

  lemma {:induction false} MessageStep(c: Connection, e: Event)
    ensures var c' := Step(c, e);
      Placed(c'.matched, c'.handled) ==
        if TakesUp(c, e) then Placed(c.matched, c.handled) + multiset{e.envelope} else Placed(c.matched, c.handled)
  {
    Routed(c, e);
    if TakesUp(c, e) {
      if Matches(c, e.envelope) {
        PlaceMatched(c.matched, c.handled, Handover(c.pending[e.envelope.requestId.value], e.envelope));
      } else {
        PlaceHandled(c.matched, c.handled, e.envelope);
      }
    }
  }

  lemma {:induction false} MessagesAccounted(es: seq<Event>)
    requires DistinctIds(es)
    ensures Accounted(Run(es))
  {
    if es != [] {
      var init := es[..|es| - 1];
      MessagesAccounted(init);
      RunCorrelated(init);
      StepAccounted(Run(init), es[|es| - 1]);
    }
  }

  lemma {:induction false} MessagesConserved(es: seq<Event>)
    ensures Arrived(es) == Placed(Run(es).matched, Run(es).handled)
  {
    if es != [] {
      MessagesConserved(es[..|es| - 1]);
      MessageStep(Run(es[..|es| - 1]), es[|es| - 1]);
    }
  }

  /** Each message that arrived is passed to `handleMessage` or matched with a waiter, and nothing else
      is; no waiter is matched twice, and a matched envelope stays with its waiter unchanged. */
  lemma {:induction false} EveryMessageOnce(es: seq<Event>)
    requires DistinctIds(es)
    ensures Accounted(Run(es))
    ensures Arrived(es) == Placed(Run(es).matched, Run(es).handled)
  {
    MessagesAccounted(es);
    MessagesConserved(es);
  }

  // ---------------------------------------------------------------------
  // A reply finds its waiter

  /** A waiter that has neither returned nor been handed a reply is in the pending map. */
  ghost predicate AwaitedAt(c: Connection, w: nat)
    requires w in c.waiters
  {
    !c.waiters[w].stage.Returned? && !Served(c, w) ==>
      c.waiters[w].id in c.pending && c.pending[c.waiters[w].id] == w
  }

  ghost predicate Awaited(c: Connection) {
    forall w :: w in c.waiters ==> AwaitedAt(c, w)
  }

  lemma {:induction false} AwaitedAtStep(c: Connection, e: Event, w: nat)
    requires w in c.waiters && WaiterOk(c, w) && AwaitedAt(c, w) && (e.Register? ==> e.id != c.waiters[w].id)
    requires forall v :: v in c.waiters && v != w ==> c.waiters[v].id != c.waiters[w].id
    ensures AwaitedAt(Step(c, e), w)
  {
  }

  lemma {:induction false} AwaitedStep(c: Connection, e: Event)
    requires Correlated(c) && Awaited(c) && (e.Register? ==> Unused(c, e.id))
    ensures Awaited(Step(c, e))
  {
    var c' := Step(c, e);
    forall w | w in c'.waiters ensures AwaitedAt(c', w) {
      if w in c.waiters {
        assert WaiterOk(c, w);
        AwaitedAtStep(c, e, w);
      }
    }
  }

  lemma {:induction false} RunAwaited(es: seq<Event>)
    requires DistinctIds(es)
    ensures Awaited(Run(es))
  {
    if es != [] {
      var init := es[..|es| - 1];
      RunAwaited(init);
      RunCorrelated(init);
      if es[|es| - 1].Register? {
        NextIdUnused(es);
      }
      AwaitedStep(Run(init), es[|es| - 1]);
    }
  }

  lemma {:induction false} HandedOver(c: Connection, w: nat, env: Envelope)
    requires w in c.waiters && c.waiters[w].stage.Waiting? && c.waiters[w].channel == []
    requires c.handover == Some(Handover(w, env))
    ensures Step(Step(Step(c, Push), Receive(w)), Cleanup(w)).waiters[w].stage == Returned(Some(env))
  {
    var pushed := Step(c, Push);
    assert pushed.waiters[w] == c.waiters[w].(channel := [env]);
    assert Step(pushed, Receive(w)).waiters[w].stage == Leaving(Some(env));
  }

  /** A reply to a registered id whose waiter has not been served is always handed to that waiter, and if
      the waiter is still there it returns exactly that reply. */
  lemma {:induction false} ReplyIsDelivered(es: seq<Event>, w: nat, env: Envelope)
    requires DistinctIds(es)
    requires var c := Run(es);
      w in c.waiters && !c.waiters[w].stage.Returned? && !Served(c, w) && c.handover.None?
      && env.requestId == Some(c.waiters[w].id)
    ensures var c := Run(es);
      var matched := Step(c, Arrive(env));
      && matched.handover == Some(Handover(w, env)) && matched.handled == c.handled
      && matched.matched == c.matched + [Handover(w, env)]
      && (c.waiters[w].stage.Waiting? ==>
            Step(Step(Step(matched, Push), Receive(w)), Cleanup(w)).waiters[w].stage == Returned(Some(env)))
  {
    var c := Run(es);
    RunAwaited(es);
    assert AwaitedAt(c, w);
    var matched := Step(c, Arrive(env));
    if c.waiters[w].stage.Waiting? {
      HandedOver(matched, w, env);
    }
  }

  /** Any other message goes to `handleMessage`: one without a request id, or with one that nobody waits
      for. */
  lemma {:induction false} OtherwiseHandled(c: Connection, env: Envelope)
    requires c.handover.None? && (env.requestId.None? || env.requestId.value !in c.pending)
    ensures Step(c, Arrive(env)) == c.(handled := c.handled + [env])
  {
  }

  /** Registering makes a caller wait for its id, and giving up or being served ends the wait. */
  lemma {:induction false} RegisterWaits(c: Connection, w: nat, id: Id)
    requires w !in c.waiters
    ensures var c' := Step(c, Register(w, id));
      && c'.waiters == c.waiters[w := Waiter(id, [], Waiting)] && c'.pending == c.pending[id := w]
      && Step(c', GiveUp(w)).waiters[w] == Waiter(id, [], Leaving(None))
      && Step(Step(c', GiveUp(w)), Cleanup(w)).pending == c.pending - {id}
  {
  }

  // ---------------------------------------------------------------------
  // Which replies reach their caller

  /** Does the event make the waiter leave with an error? */
  predicate Abandons(c: Connection, e: Event, w: nat) {
    e == GiveUp(w) && w in c.waiters && c.waiters[w].stage.Waiting?
  }

  /** Did the waiter time out, or its context end, or its write fail, before it took a reply? */
  predicate GaveUp(es: seq<Event>, w: nat) {
    es != [] && (GaveUp(es[..|es| - 1], w) || Abandons(Run(es[..|es| - 1]), es[|es| - 1], w))
  }

  lemma {:induction false} StageStep(c: Connection, e: Event, w: nat)
    requires w in c.waiters
    ensures var before, after := c.waiters[w].stage, Step(c, e).waiters[w].stage;
      if before.Waiting?
      then if after.Waiting? then !Abandons(c, e, w) else (after.reply.None? <==> Abandons(c, e, w))
      else !after.Waiting? && after.reply == before.reply
  {
  }

  /** A waiter has no reply to return exactly when it gave up. */
  lemma {:induction false} GaveUpIff(es: seq<Event>, w: nat)
    ensures w !in Run(es).waiters ==> !GaveUp(es, w)
    ensures w in Run(es).waiters ==>
      var stage := Run(es).waiters[w].stage;
      if stage.Waiting? then !GaveUp(es, w) else (stage.reply.None? <==> GaveUp(es, w))
  {
    if es != [] {
      var c, e := Run(es[..|es| - 1]), es[|es| - 1];
      GaveUpIff(es[..|es| - 1], w);
      if w in c.waiters {
        StageStep(c, e, w);
      }
    }
  }

  /** Exactly which matched replies reach their caller: the one that a returned waiter was matched with is
      what it returns if and only if the waiter did not give up first. */
  lemma {:induction false} ReplyReachesCallerIff(es: seq<Event>, i: nat)
    requires DistinctIds(es) && i < |Run(es).matched|
    ensures var c := Run(es);
      var h := c.matched[i];
      && h.waiter in c.waiters
      && (c.waiters[h.waiter].stage.Returned? ==>
            (c.waiters[h.waiter].stage.reply == Some(h.envelope) <==> !GaveUp(es, h.waiter)))
  {
    var c := Run(es);
    var h := c.matched[i];
    RunCorrelated(es);
    MessagesAccounted(es);
    GaveUpIff(es, h.waiter);
    assert Located(c, h.waiter, h.envelope) && WaiterOk(c, h.waiter);
  }

  ghost predicate Reached(es: seq<Event>, h: Handover) {
    var c := Run(es);
    && h.waiter in c.waiters
    && (c.waiters[h.waiter].stage.Returned? ==>
          (c.waiters[h.waiter].stage.reply == Some(h.envelope) <==> !GaveUp(es, h.waiter)))
  }

  lemma {:induction false} OwnReplies(es: seq<Event>)
    requires DistinctIds(es)
    ensures var c := Run(es);
      && c.dropped == []
      && (forall w :: w in c.waiters && c.waiters[w].stage.Returned? && c.waiters[w].stage.reply.Some? ==>
            Answers(c.waiters[w].stage.reply.value, c.waiters[w].id))
      && ((forall w :: w in c.waiters ==> c.waiters[w].stage.Returned?) ==> c.pending == map[])
  {
    RunCorrelated(es);
    var c := Run(es);
    forall w | w in c.waiters && c.waiters[w].stage.Returned? && c.waiters[w].stage.reply.Some?
      ensures Answers(c.waiters[w].stage.reply.value, c.waiters[w].id)
    {
      assert WaiterOk(c, w);
    }
    if forall w :: w in c.waiters ==> c.waiters[w].stage.Returned? {
      forall id ensures id !in c.pending {
        assert id in c.pending ==> WaiterOk(c, c.pending[id]);
      }
    }
  }

  /** In every interleaving of registrations, replies and timeouts: no reply is dropped by a full channel,
      a caller that returns an envelope returns one that answers its own id, a matched reply is what its
      caller returns if and only if the caller did not give up first, and once every caller has returned
      nothing is left in the pending map. */
  lemma {:induction false} RepliesCorrelated(es: seq<Event>)
    requires DistinctIds(es)
    ensures var c := Run(es);
      && c.dropped == []
      && (forall w :: w in c.waiters && c.waiters[w].stage.Returned? && c.waiters[w].stage.reply.Some? ==>
            Answers(c.waiters[w].stage.reply.value, c.waiters[w].id))
      && (forall i :: 0 <= i < |c.matched| ==> Reached(es, c.matched[i]))
      && ((forall w :: w in c.waiters ==> c.waiters[w].stage.Returned?) ==> c.pending == map[])
  {
    OwnReplies(es);
    forall i | 0 <= i < |Run(es).matched| ensures Reached(es, Run(es).matched[i]) {
      ReplyReachesCallerIff(es, i);
    }
  }

  /** A reply that nobody gets: the caller times out, the reply is matched all the same, and it stays in
      the channel of a caller that has returned an error; it is neither handled nor counted as dropped. */
  lemma {:induction false} AbandonedReply(id: Id, body: Bytes)
    ensures var env := Envelope(Some(id), body);
      var waiting := Step(Step(OPENED, Register(0, id)), GiveUp(0));
      var c := Step(Step(Step(waiting, Arrive(env)), Push), Cleanup(0));
      && c.matched == [Handover(0, env)] && c.handled == [] && c.dropped == []
      && c.waiters[0] == Waiter(id, [env], Returned(None))
  {
  }

  // ---------------------------------------------------------------------
  // The connection table

  datatype TableEvent =
    | Connected(connection: nat, device: nat)
    | Closed(device: nat)
    | ReadLoopExit(connection: nat, device: nat)

  function TableStep(conns: map<nat, nat>, e: TableEvent): (conns': map<nat, nat>) {
    match e
    case Connected(c, d) => conns[d := c]
    case Closed(d) => conns - {d}
    case ReadLoopExit(c, d) => if d in conns && conns[d] == c then conns - {d} else conns
  }

  function Table(es: seq<TableEvent>): (conns: map<nat, nat>) {
    if es == [] then map[] else TableStep(Table(es[..|es| - 1]), es[|es| - 1])
  }

  /** Does the event end c as the connection of d? */
  predicate Ends(e: TableEvent, c: nat, d: nat) {
    match e
    case Connected(_, d') => d' == d
    case Closed(d') => d' == d
    case ReadLoopExit(c', d') => c' == c && d' == d
  }

  /** c connected for d, and nothing since has superseded, closed or cleaned it up. */
  ghost predicate Current(es: seq<TableEvent>, c: nat, d: nat) {
    exists i :: 0 <= i < |es| && es[i] == Connected(c, d) && forall j :: i < j < |es| ==> !Ends(es[j], c, d)
  }

  lemma {:induction false} CurrentStep(es: seq<TableEvent>, e: TableEvent, c: nat, d: nat)
    ensures Current(es + [e], c, d) <==> e == Connected(c, d) || (Current(es, c, d) && !Ends(e, c, d))
  {
    var more := es + [e];
    assert more[|es|] == e;
    if Current(es, c, d) && !Ends(e, c, d) {
      var i :| 0 <= i < |es| && es[i] == Connected(c, d) && forall j :: i < j < |es| ==> !Ends(es[j], c, d);
      assert more[i] == Connected(c, d);
    }
    if Current(more, c, d) && e != Connected(c, d) {
      var i :| 0 <= i < |more| && more[i] == Connected(c, d) && forall j :: i < j < |more| ==> !Ends(more[j], c, d);
      assert i < |es| && es[i] == Connected(c, d);
      assert forall j :: i < j < |es| ==> es[j] == more[j];
      assert !Ends(more[|es|], c, d);
    }
  }

  /** In every interleaving the table entry of a device is exactly its current connection. */
  lemma {:induction false} TableIsCurrent(es: seq<TableEvent>, c: nat, d: nat)
    ensures d in Table(es) && Table(es)[d] == c <==> Current(es, c, d)
  {
    if es != [] {
      var n := |es| - 1;
      TableIsCurrent(es[..n], c, d);
      CurrentStep(es[..n], es[n], c, d);
      assert es == es[..n] + [es[n]];
    }
  }

  /** A superseded connection's late cleanup never removes its successor. */
  lemma {:induction false} LateCleanupHarmless(es: seq<TableEvent>, previous: nat, c: nat, d: nat)
    requires Current(es, c, d) && previous != c
    ensures Current(es + [ReadLoopExit(previous, d)], c, d)
  {
    CurrentStep(es, ReadLoopExit(previous, d), c, d);
  }

  class Hub {
    var conns: map<nat, nat>

    constructor ()
      ensures conns == Table([])
    {
      conns := map[];
    }

    /** The registration in `ServeAgentWS`; `superseded` is the connection to cancel. */
    method Register(c: nat, device: nat) returns (superseded: Option<nat>)
      modifies this
      ensures conns == TableStep(old(conns), Connected(c, device))
      ensures superseded == if device in old(conns) then Some(old(conns)[device]) else None
    {
      superseded := None;
      if device in conns {
        superseded := Some(conns[device]);
        conns := conns - {device};
      }
      conns := conns[device := c];
    }

    method CloseConn(device: nat) returns (closed: Option<nat>)
      modifies this
      ensures conns == TableStep(old(conns), Closed(device))
      ensures closed == if device in old(conns) then Some(old(conns)[device]) else None
    {
      closed := if device in conns then Some(conns[device]) else None;
      conns := conns - {device};
    }

    /** The cleanup after the read loop ends. */
    method Unregister(c: nat, device: nat)
      modifies this
      ensures conns == TableStep(old(conns), ReadLoopExit(c, device))
    {
      if device in conns && conns[device] == c {
        conns := conns - {device};
      }
    }
  }
}
