/**
 Whole runs of subscription reconciliation: control cycles interleaved with
 dropped sessions, reconnects and requests to resubscribe, in any order, with
 any part of any subscribe request lost.  A reconnect does not fall inside a
 control cycle; a session may be lost at any moment, also inside one.
 */
module ReconciliationRuns {
  import opened Seqs
  import opened Subscription
  import opened SubscriptionServer
  import opened SubscriptionManager

  datatype System = System(mgr: Mgr, server: Server)

  datatype Event =
    | Control(wantPoll: bool, env: LoadEnv, reqs: seq<Request>, tr: seq<Server>)
    | SessionLost
    | Connected(err: int)
    | ForceResubscribe

  /** The server during a cycle; at any request the session may have been lost. */
  ghost predicate LossyTrace(tr: seq<Server>, reqs: seq<Request>) {
    && |tr| == |reqs| + 1
    && forall k :: 0 <= k < |reqs| ==> Answer(tr[k], reqs[k], tr[k + 1]) || tr[k + 1] == {}
  }

  ghost predicate Possible(s: System, e: Event) {
    e.Control? ==>
      && CyclePlan(s.mgr, e.wantPoll, e.env, e.reqs)
      && LossyTrace(e.tr, e.reqs) && e.tr[0] == s.server
  }

  ghost function After(s: System, e: Event): System
    requires Possible(s, e)
  {
    match e
    case Control(wantPoll, env, _, tr) => System(Cycle(s.mgr, wantPoll, env), Last(tr))
    case SessionLost => s.(server := {})
    case Connected(err) =>
      s.(mgr := s.mgr.(connected := err == 0, force := err == 0 || s.mgr.force))
    case ForceResubscribe => s.(mgr := s.mgr.(force := true))
  }

  /** `s` is reached from the start by `events`. */
  ghost predicate Reaches(events: seq<Event>, s: System)
    decreases |events|
  {
    if events == [] then s == System(INIT_MGR, {})
    else exists s0 :: Reaches(Front(events), s0) && Possible(s0, Last(events)) && s == After(s0, Last(events))
  }

  ghost predicate Inv(s: System) {
    && !s.mgr.hasPending
    && (!s.mgr.hasCurrent ==> s.mgr.current == map[])
    && s.server <= Pairs(s.mgr.current)
  }

  /** Plans in the presence of lost sessions: nothing outside what was on and
      what is subscribed ever shows, and at the end nothing unsubscribed. */
  lemma {:induction false} LossyBatch(tr: seq<Server>, reqs: seq<Request>, subscribe: bool, want: set<Pair>)
    requires LossyTrace(tr, reqs) && Batch(reqs, subscribe, want)
    ensures Last(tr) <= if subscribe then tr[0] + want else tr[0] - want
    decreases |reqs|
  {
    if reqs != [] {
      var n := |reqs| - 1;
      LossyBatch(Front(tr), Front(reqs), subscribe, want - PairsOf(reqs[n]));
      assert Last(Front(tr)) == tr[n];
      assert Answer(tr[n], reqs[n], tr[n + 1]) || tr[n + 1] == {};
    }
  }

  lemma LossyPlan(tr: seq<Server>, reqs: seq<Request>, dels: set<Pair>, adds: set<Pair>)
    requires LossyTrace(tr, reqs) && Plan(reqs, dels, adds)
    ensures Last(tr) <= tr[0] - dels + adds
  {
    var k: nat :| PlanAt(reqs, k, dels, adds);
    LossyBatch(tr[..k + 1], reqs[..k], false, dels);
    LossyBatch(tr[k..], reqs[k..], true, adds);
  }

  lemma InvStep(s: System, e: Event)
    requires Inv(s) && Possible(s, e)
    ensures Inv(After(s, e))
  {
    if e.Control? && Checks(s.mgr, e.wantPoll) {
      var m := Prepared(s.mgr, e.env);
      var c, p := Pairs(m.current), Pairs(m.pending);
      if m.hasPending {
        assert Pairs(map[]) == {};
        if m.hasCurrent && !m.force {
          LossyPlan(e.tr, e.reqs, c - p, p - c);
        } else {
          LossyPlan(e.tr, e.reqs, c, p);
        }
      }
    }
  }

  /** In every reachable state the server holds no stream that the manager does
      not know of, and no pending state is left over. */
  lemma ServerWithinCurrent(events: seq<Event>, s: System)
    requires Reaches(events, s)
    ensures s.server <= Pairs(s.mgr.current) && !s.mgr.hasPending
    ensures !s.mgr.hasCurrent ==> s.server == {}
  {
    ReachesInv(events, s);
    assert Pairs(map[]) == {};
  }

  lemma {:induction false} ReachesInv(events: seq<Event>, s: System)
    requires Reaches(events, s)
    ensures Inv(s)
    decreases |events|
  {
    if events != [] {
      var s0 :| Reaches(Front(events), s0) && Possible(s0, Last(events)) && s == After(s0, Last(events));
      ReachesInv(Front(events), s0);
      InvStep(s0, Last(events));
    }
  }

  /** A forced connected cycle applies a state exactly when it has one: from an
      earlier cycle, or because the load succeeds. */
  lemma ForcedCycleAppliesIff(events: seq<Event>, s: System, wantPoll: bool, env: LoadEnv)
    requires Reaches(events, s) && s.mgr.connected && s.mgr.force
    ensures Prepared(s.mgr, env).hasPending <==>
            s.mgr.hasCurrent || (env.FileAt? && env.config.Some?)
    ensures Cycle(s.mgr, wantPoll, env).force <==> !Prepared(s.mgr, env).hasPending
  {
    ReachesInv(events, s);
  }

  /** Recovery: a forced cycle that applies a state, with every subscribe
      accepted, makes the server hold exactly the current state's streams,
      whatever was lost before. */
  lemma ForcedCycleRecovers(events: seq<Event>, s: System, e: Event)
    requires Reaches(events, s) && Possible(s, e) && e.Control?
    requires s.mgr.connected && s.mgr.force && Prepared(s.mgr, e.env).hasPending
    requires Trace(e.tr, e.reqs) && AllAccepted(e.tr, e.reqs)
    ensures var s' := After(s, e); s'.server == Pairs(s'.mgr.current)
  {
    ReachesInv(events, s);
    var m := Prepared(s.mgr, e.env);
    var current := if m.hasCurrent then m.current else map[];
    FullResubscribeHistory(e.tr, e.reqs, current, m.pending, 0);
  }

  /** An unforced cycle that applies a state repairs nothing: it ends in step
      with the server exactly if no stream that stays was missing before. */
  lemma UnforcedCycleConvergesIff(events: seq<Event>, s: System, e: Event)
    requires Reaches(events, s) && Possible(s, e) && e.Control?
    requires s.mgr.connected && e.wantPoll && !s.mgr.force && s.mgr.hasCurrent
    requires Prepared(s.mgr, e.env).hasPending
    requires Trace(e.tr, e.reqs) && AllAccepted(e.tr, e.reqs)
    ensures var s' := After(s, e);
            s'.server == Pairs(s'.mgr.current) <==>
            Pairs(s.mgr.current) * Pairs(s'.mgr.current) <= s.server
  {
    ReachesInv(events, s);
    var m := Prepared(s.mgr, e.env);
    DiffConvergesIff(e.tr, e.reqs, m.current, m.pending);
  }

  lemma OneRequest(r: Request)
    requires NoDup(r.subtypes)
    ensures Batch([r], r.subscribe, PairsOf(r))
  {
    assert Front([r]) == [] && Last([r]) == r;
    assert PairsOf(r) - PairsOf(r) == {};
  }

  function Spec(code: string): SecuritySpec { SecuritySpec(code, 1, [Basic]) }
  function Stream(code: string): Pair { (SecurityId(1, code), Basic) }
  function Want(code: string): Request { Request(true, SecurityId(1, code), [Basic]) }

  lemma WantPairs(code: string)
    ensures PairsOf(Want(code)) == {Stream(code)} && NoDup(Want(code).subtypes)
  {
    assert Basic in [Basic];
  }

  lemma OneSecurity(a: string)
    ensures Pairs(Canonical([Spec(a)])) == {Stream(a)}
  {
    var secs := [Spec(a)];
    CanonicalPairs(secs);
    assert Spec(a) in secs && Basic in Spec(a).subtypes;
    assert Stream(a) in AskedPairs(secs);
  }

  lemma TwoSecurities(a: string, b: string)
    ensures Pairs(Canonical([Spec(a), Spec(b)])) == {Stream(a), Stream(b)}
  {
    var secs := [Spec(a), Spec(b)];
    CanonicalPairs(secs);
    assert secs[0] in secs && secs[1] in secs && Basic in Spec(a).subtypes && Basic in Spec(b).subtypes;
    assert Stream(a) in AskedPairs(secs) && Stream(b) in AskedPairs(secs);
  }

  /** A run in which one stream is subscribed after a connection.  If that is
      lost, the manager knows a stream that the server does not have. */
  lemma FirstSubscribe(lost: bool) returns (events: seq<Event>, s: System)
    ensures Reaches(events, s) && s.server == (if lost then {} else {Stream("A")})
    ensures s.mgr.connected && !s.mgr.force && s.mgr.hasCurrent
    ensures s.mgr.current == Canonical([Spec("A")]) && s.mgr.lastMtime == 7
  {
    OneSecurity("A");
    WantPairs("A");
    OneRequest(Want("A"));
    var file := SubscribeConfig(1, [], [Spec("A")]);
    var e0 := Connected(0);
    var reqs := [Want("A")];
    var e1 := Control(true, FileAt(7, Some(file)), reqs, [{}, if lost then {} else {Stream("A")}]);
    var s0 := System(INIT_MGR, {});
    var s1 := After(s0, e0);
    assert Reaches([], s0);
    assert Front([e0]) == [] && Reaches([e0], s1);
    assert Pairs(map[]) == {} && reqs[..0] == [] && reqs[0..] == reqs;
    assert PlanAt(reqs, 0, Pairs(map[]), {Stream("A")});
    assert Possible(s1, e1);
    s := After(s1, e1);
    events := [e0, e1];
    assert Front(events) == [e0] && Reaches(events, s);
  }

  /** Everything may be lost at any moment: the same run with the subscribe
      accepted and the session lost afterwards. */
  lemma LostSessionExample() returns (events: seq<Event>, before: System, s: System)
    ensures Reaches(events, before) && before.server == Pairs(before.mgr.current) != {}
    ensures Reaches(events + [SessionLost], s) && s.server == {} && s.mgr == before.mgr
  {
    events, before := FirstSubscribe(false);
    OneSecurity("A");
    s := After(before, SessionLost);
    assert Front(events + [SessionLost]) == events;
  }

  /** A plain difference leaves it so: a second security is added to the file,
      everything is accepted, and the first one is still missing. */
  lemma LostSubscribeExample() returns (events: seq<Event>, s: System, e: Event)
    ensures Reaches(events, s) && Possible(s, e) && e.Control?
    ensures s.mgr.connected && e.wantPoll && !s.mgr.force && s.mgr.hasCurrent
    ensures Prepared(s.mgr, e.env).hasPending
    ensures Trace(e.tr, e.reqs) && AllAccepted(e.tr, e.reqs)
    ensures After(s, e).server != Pairs(After(s, e).mgr.current)
  {
    events, s := FirstSubscribe(true);
    OneSecurity("A");
    TwoSecurities("A", "B");
    WantPairs("B");
    OneRequest(Want("B"));
    assert Stream("A") != Stream("B") by { assert "A"[0] != "B"[0]; }
    var file := SubscribeConfig(1, [], [Spec("A"), Spec("B")]);
    var reqs := [Want("B")];
    e := Control(true, FileAt(8, Some(file)), reqs, [{}, {Stream("B")}]);
    var a, ab := {Stream("A")}, {Stream("A"), Stream("B")};
    assert ab - a == {Stream("B")} && a - ab == {} && reqs[..0] == [] && reqs[0..] == reqs;
    assert PlanAt(reqs, 0, a - ab, ab - a);
    assert Canonical(file.securities) != s.mgr.current by { assert Pairs(s.mgr.current) == a != ab; }
    assert Possible(s, e);
    assert Stream("A") !in After(s, e).server;
  }

  // ------------------------------------------------------------ the shortcuts

  /** Every file seen during the run has the contents `fs(mtime)`: different
      contents have different modification times. */
  ghost predicate ContentsByMtime(events: seq<Event>, fs: int -> SubscribeConfig) {
    forall e :: e in events && e.Control? && e.env.FileAt? && e.env.config.Some? ==>
      e.env.config.value == fs(e.env.mtime)
  }

  lemma {:induction false} CurrentIsLastLoaded(events: seq<Event>, s: System, fs: int -> SubscribeConfig)
    requires Reaches(events, s) && ContentsByMtime(events, fs)
    ensures s.mgr.hasCurrent ==> s.mgr.current == Canonical(fs(s.mgr.lastMtime).securities)
    decreases |events|
  {
    if events != [] {
      var e := Last(events);
      var s0 :| Reaches(Front(events), s0) && Possible(s0, e) && s == After(s0, e);
      ReachesInv(Front(events), s0);
      CurrentIsLastLoaded(Front(events), s0, fs);
      assert e in events;
      LastLoadedStep(s0, e, fs);
    }
  }

  ghost predicate IsFileAt(st: SubState, mtime: int, fs: int -> SubscribeConfig) {
    st == Canonical(fs(mtime).securities)
  }

  lemma PreparedIsLastLoaded(m: Mgr, env: LoadEnv, fs: int -> SubscribeConfig)
    requires !m.hasPending && (m.hasCurrent ==> IsFileAt(m.current, m.lastMtime, fs))
    requires env.FileAt? && env.config.Some? ==> env.config.value == fs(env.mtime)
    ensures var m1 := Prepared(m, env);
            if m1.hasPending then IsFileAt(m1.pending, m1.lastMtime, fs)
            else m1.hasCurrent ==> IsFileAt(m1.current, m1.lastMtime, fs)
  {
  }

  lemma LastLoadedStep(s: System, e: Event, fs: int -> SubscribeConfig)
    requires Inv(s) && Possible(s, e)
    requires e.Control? && e.env.FileAt? && e.env.config.Some? ==> e.env.config.value == fs(e.env.mtime)
    requires s.mgr.hasCurrent ==> IsFileAt(s.mgr.current, s.mgr.lastMtime, fs)
    ensures var m := After(s, e).mgr; m.hasCurrent ==> IsFileAt(m.current, m.lastMtime, fs)
  {
    if e.Control? && Checks(s.mgr, e.wantPoll) { PreparedIsLastLoaded(s.mgr, e.env, fs); }
  }

  /** A control cycle takes a connection and a reason: a request to resubscribe or
      a due poll.  Without them the turn changes nothing and sends nothing. */
  lemma NotDueDoesNothing(s: System, e: Event)
    requires Possible(s, e) && e.Control? && !(s.mgr.connected && (s.mgr.force || e.wantPoll))
    ensures After(s, e).mgr == s.mgr && e.reqs == [] && After(s, e).server == s.server
  {
  }

  /** When it is due, every poll of a file that changed is noticed: the cycle
      sends the plan that leads from the current state to the file's. */
  lemma DueSendsPlan(events: seq<Event>, s: System, e: Event)
    requires Reaches(events, s) && Possible(s, e) && e.Control?
    requires s.mgr.connected && (s.mgr.force || e.wantPoll)
    requires e.env.FileAt? && e.env.config.Some? && e.env.mtime != s.mgr.lastMtime
    ensures var target := Canonical(e.env.config.value.securities);
            && After(s, e).mgr.current == target
            && if s.mgr.force || !s.mgr.hasCurrent then FullPlan(e.reqs, s.mgr.current, target)
               else if target == s.mgr.current then e.reqs == []
               else DiffPlan(e.reqs, s.mgr.current, target)
  {
    ReachesInv(events, s);
  }

  /** A load fails exactly without a loader, without a readable time, or when a
      file that has to be read cannot be loaded. */
  lemma LoadFailsIff(m: Mgr, env: LoadEnv)
    ensures Load(m, env).1.Err? <==>
            match env
            case NoLoader => true
            case StatFails => true
            case FileAt(mtime, config) => config.None? && !(m.hasCurrent && mtime == m.lastMtime)
    ensures Load(m, env).1.Err? ==> Load(m, env).0 == m
  {
  }

  /** The modification-time and equality shortcuts change nothing: after any
      checking cycle whose load does not fail, the current state is what
      reloading and applying the file on every poll would give. */
  lemma ShortcutsRefineReload(events: seq<Event>, s: System, e: Event, fs: int -> SubscribeConfig)
    requires Reaches(events, s) && Possible(s, e) && e.Control? && ContentsByMtime(events + [e], fs)
    requires s.mgr.connected && (s.mgr.force || e.wantPoll) && e.env.FileAt? && e.env.config.Some?
    ensures var m := After(s, e).mgr;
            && m.hasCurrent && !m.hasPending && m.lastMtime == e.env.mtime
            && m.current == Canonical(e.env.config.value.securities)
  {
    ReachesInv(events, s);
    assert e in events + [e];
    forall x | x in events && x.Control? && x.env.FileAt? && x.env.config.Some?
      ensures x.env.config.value == fs(x.env.mtime)
    {
      assert x in events + [e];
    }
    CurrentIsLastLoaded(events, s, fs);
    DueCycleLoads(s, e, fs);
  }

  lemma DueCycleLoads(s: System, e: Event, fs: int -> SubscribeConfig)
    requires Inv(s) && Possible(s, e) && e.Control? && e.env.FileAt? && e.env.config == Some(fs(e.env.mtime))
    requires s.mgr.connected && (s.mgr.force || e.wantPoll)
    requires s.mgr.hasCurrent ==> IsFileAt(s.mgr.current, s.mgr.lastMtime, fs)
    ensures var m := After(s, e).mgr;
            && m.hasCurrent && !m.hasPending && m.lastMtime == e.env.mtime
            && IsFileAt(m.current, e.env.mtime, fs)
  {
    PreparedIsLastLoaded(s.mgr, e.env, fs);
  }

  /** Without that assumption on the file system: a checking cycle leaves the
      manager on an outdated state exactly when the file changed its meaning
      while keeping its modification time. */
  lemma StaleIff(events: seq<Event>, s: System, e: Event)
    requires Reaches(events, s) && Possible(s, e) && e.Control?
    requires s.mgr.connected && (s.mgr.force || e.wantPoll) && e.env.FileAt? && e.env.config.Some?
    ensures var fileState := Canonical(e.env.config.value.securities);
            After(s, e).mgr.current != fileState <==>
            s.mgr.hasCurrent && e.env.mtime == s.mgr.lastMtime && s.mgr.current != fileState
  {
    ReachesInv(events, s);
  }

  /** Such a run exists: a file without securities is loaded, then a security
      is added within the same modification time, and the poll misses it. */
  lemma StaleExample() returns (events: seq<Event>, s: System, e: Event)
    ensures Reaches(events, s) && Possible(s, e) && e.Control?
    ensures s.mgr.connected && (s.mgr.force || e.wantPoll) && e.env.FileAt? && e.env.config.Some?
    ensures After(s, e).mgr.current != Canonical(e.env.config.value.securities)
    ensures After(s, e).server != AskedPairs(e.env.config.value.securities)
  {
    var none := SubscribeConfig(1, [], []);
    var one := SubscribeConfig(1, [], [SecuritySpec("00700", 1, [Basic])]);
    var e0 := Connected(0);
    var e1 := Control(true, FileAt(7, Some(none)), [], [{}]);
    e := Control(true, FileAt(7, Some(one)), [], [{}]);
    var s0 := System(INIT_MGR, {});
    var s1 := After(s0, e0);
    assert Reaches([], s0);
    assert Front([e0]) == [] && Reaches([e0], s1);
    assert PlanAt([], 0, Pairs(map[]), Pairs(map[]));
    assert Canonical(none.securities) == map[];
    assert Possible(s1, e1);
    s := After(s1, e1);
    events := [e0, e1];
    assert Front(events) == [e0] && Reaches(events, s);
    CanonicalMeans(one.securities);
    assert one.securities[0] in one.securities;
    assert SecurityId(1, "00700") in Ids(one.securities);
    assert Basic in Asked(one.securities, SecurityId(1, "00700"));
    assert (SecurityId(1, "00700"), Basic) in AskedPairs(one.securities);
  }

  /** A failed load changes neither the remembered time nor the current state. */
  lemma LoadErrorKeeps(events: seq<Event>, s: System, e: Event)
    requires Reaches(events, s) && Possible(s, e) && e.Control? && Load(s.mgr, e.env).1.Err?
    ensures var m := After(s, e).mgr;
            m.lastMtime == s.mgr.lastMtime && m.current == s.mgr.current && m.hasCurrent == s.mgr.hasCurrent
  {
    ReachesInv(events, s);
  }

  /** Nothing that a control cycle or a failed connection would be. */
  predicate Quiet(e: Event) { e.SessionLost? || e.ForceResubscribe? || (e.Connected? && e.err == 0) }

  /** What asks for a full resubscribe: a connection, or a request while connected. */
  predicate Asks(s: System, e: Event) {
    (e.Connected? && e.err == 0) || (e.ForceResubscribe? && s.mgr.connected)
  }

  lemma AskedFor(s: System, e: Event)
    requires Asks(s, e)
    ensures After(s, e).mgr.connected && After(s, e).mgr.force && After(s, e).server == s.server
  {
  }

  /** After a connection the manager stays connected and asked to resubscribe
      until the next control cycle or failed connection, whatever else happens. */
  lemma {:induction false} ConnectionForces(before: seq<Event>, quiet: seq<Event>, s: System)
    requires forall e :: e in quiet ==> Quiet(e)
    requires Reaches(before + [Connected(0)] + quiet, s)
    ensures s.mgr.connected && s.mgr.force
    decreases |quiet|
  {
    var events := before + [Connected(0)] + quiet;
    var s0 :| Reaches(Front(events), s0) && Possible(s0, Last(events)) && s == After(s0, Last(events));
    if quiet == [] {
      assert Last(events) == Connected(0);
      AskedFor(s0, Connected(0));
    } else {
      assert Last(events) == Last(quiet) && Front(events) == before + [Connected(0)] + Front(quiet);
      assert forall e :: e in Front(quiet) ==> e in quiet;
      ConnectionForces(before, Front(quiet), s0);
      assert Quiet(Last(quiet));
    }
  }

  /** A failed connection stops the control cycles until the next successful one. */
  lemma FailedConnection(s: System, err: int, e: Event)
    requires err != 0 && e.Control? && Possible(After(s, Connected(err)), e)
    ensures !After(s, Connected(err)).mgr.connected
    ensures e.reqs == [] && After(After(s, Connected(err)), e).mgr == After(s, Connected(err)).mgr
  {
  }

  /** End to end: after a reconnect, whatever was lost before and is lost until
      then, the first control cycle, with a readable file and undisturbed, leaves
      the server with exactly the streams the file asks for. */
  lemma ReconnectConverges(before: seq<Event>, quiet: seq<Event>, s: System, e: Event, fs: int -> SubscribeConfig)
    requires forall x :: x in quiet ==> Quiet(x)
    requires var events := before + [Connected(0)] + quiet;
             Reaches(events, s) && Possible(s, e) && e.Control? && ContentsByMtime(events + [e], fs)
    requires e.env.FileAt? && e.env.config.Some?
    requires Trace(e.tr, e.reqs) && AllAccepted(e.tr, e.reqs)
    ensures After(s, e).server == AskedPairs(e.env.config.value.securities)
  {
    var events := before + [Connected(0)] + quiet;
    ConnectionForces(before, quiet, s);
    ForcedCycleAppliesIff(events, s, e.wantPoll, e.env);
    ForcedCycleRecovers(events, s, e);
    ShortcutsRefineReload(events, s, e, fs);
    CanonicalPairs(e.env.config.value.securities);
  }
}
