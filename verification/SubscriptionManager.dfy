/**
 The subscription control loop: load the file if it changed, and bring the
 server from the current state to the pending one, by a difference or, after a
 reconnect, by a full resubscribe.

 `Mgr` is the manager's control state as a value and `Cycle` the effect of one
 control cycle on it.  The class is proved to do exactly that, whatever order
 its hash maps are enumerated in.  Module ReconciliationRuns uses `Cycle`.
 */
module SubscriptionManager {
  import opened Seqs
  import opened Subscription
  import opened SubscriptionTools
  import opened SubscriptionServer

  /** What the file system and the loader answer during one cycle. */
  datatype LoadEnv =
    | NoLoader
    | StatFails
    | FileAt(mtime: int, config: Option<SubscribeConfig>)   // None: the loader reports an error

  datatype Mgr = Mgr(
    connected: bool, force: bool, lastMtime: int,
    current: SubState, pending: SubState, hasCurrent: bool, hasPending: bool)

  const INIT_MGR := Mgr(false, false, 0, map[], map[], false, false)

  /** `load_if_changed`: the new state, and whether a pending state was produced. */
  function Load(m: Mgr, env: LoadEnv): (Mgr, Result<bool, string>) {
    match env
    case NoLoader => (m, Err("no config loader set"))
    case StatFails => (m, Err("last_write_time failed"))
    case FileAt(mtime, config) =>
      if m.hasCurrent && mtime == m.lastMtime then (m, Ok(false))
      else if config.None? then (m, Err("load failed"))
      else
        var st := Canonical(config.value.securities);
        if m.hasCurrent && m.current == st then (m.(lastMtime := mtime), Ok(false))
        else (m.(pending := st, hasPending := true, lastMtime := mtime), Ok(true))
  }

  /** The state just before `apply_pending`. */
  function Prepared(m: Mgr, env: LoadEnv): Mgr {
    var (m1, changed) := Load(m, env);
    if changed != Ok(true) && m.force && m1.hasCurrent && !m1.hasPending
    then m1.(pending := m1.current, hasPending := true)
    else m1
  }

  function Applied(m: Mgr): Mgr {
    if m.hasPending
    then m.(force := false, current := m.pending, hasCurrent := true, hasPending := false)
    else m
  }

  function Checks(m: Mgr, wantPoll: bool): bool {
    m.connected && (m.force || wantPoll)
  }

  function Cycle(m: Mgr, wantPoll: bool, env: LoadEnv): Mgr {
    if !Checks(m, wantPoll) then m
    else
      var m1 := Applied(Prepared(m, env));
      if m.force && m1.hasCurrent then m1.(force := false) else m1
  }

  /** The requests that applying the pending state sends. */
  ghost predicate ApplyPlan(m: Mgr, reqs: seq<Request>) {
    if !m.hasPending then reqs == []
    else if m.hasCurrent && !m.force then DiffPlan(reqs, m.current, m.pending)
    else FullPlan(reqs, if m.hasCurrent then m.current else map[], m.pending)
  }

  ghost predicate CyclePlan(m: Mgr, wantPoll: bool, env: LoadEnv, reqs: seq<Request>) {
    if Checks(m, wantPoll) then ApplyPlan(Prepared(m, env), reqs) else reqs == []
  }

  // ------------------------------------------------------------ the class

  /** The session as the manager sees it: the requests handed to it, and the
      serial number it returns for each, 0 for a refused one. */
  class Session {
    var log: seq<Request>
    const serials: nat -> nat

    constructor (serials: nat -> nat)
      ensures log == [] && this.serials == serials
    {
      log := [];
      this.serials := serials;
    }

    method Sub(r: Request) returns (sn: nat)
      modifies this
      ensures log == old(log) + [r] && sn == serials(|old(log)|)
    {
      sn := serials(|log|);
      log := log + [r];
    }
  }

  class SubscriptionManager {
    var session: Session?
    var connected: bool
    var force: bool
    var lastMtime: int
    var current: SubState
    var pending: SubState
    var hasCurrent: bool
    var hasPending: bool

    ghost function View(): Mgr
      reads this
    {
      Mgr(connected, force, lastMtime, current, pending, hasCurrent, hasPending)
    }

    ghost function Remote(): set<object>
      reads this`session
    {
      if session == null then {} else {session}
    }

    constructor ()
      ensures View() == INIT_MGR && session == null
    {
      session := null;
      connected, force, lastMtime := false, false, 0;
      current, pending, hasCurrent, hasPending := map[], map[], false, false;
    }

    method BindSession(s: Session)
      modifies this`session
      ensures session == s
    {
      session := s;
    }

    method OnConnected(err: int)
      modifies this`connected, this`force
      ensures View() == old(View()).(connected := err == 0, force := err == 0 || old(force))
    {
      connected := err == 0;
      if err == 0 { force := true; }
    }

    method LoadIfChanged(env: LoadEnv) returns (r: Result<bool, string>)
      modifies this`pending, this`hasPending, this`lastMtime
      ensures (View(), r) == Load(old(View()), env)
    {
      if env.NoLoader? { return Err("no config loader set"); }
      if env.StatFails? { return Err("last_write_time failed"); }
      if hasCurrent && env.mtime == lastMtime { return Ok(false); }
      if env.config.None? { return Err("load failed"); }
      var st := Canonicalize(env.config.value);
      if hasCurrent {
        var same := StEqual(current, st);
        if same {
          lastMtime := env.mtime;
          return Ok(false);
        }
      }
      pending := st;
      hasPending := true;
      lastMtime := env.mtime;
      return Ok(true);
    }

    /** `call_subscribe` and `call_unsubscribe`. */
    method Call(id: SecurityId, mask: SubMask, subscribe: bool) returns (r: Result<(), string>)
      modifies Remote()
      ensures session == null ==> r == Err("session not bound")
      ensures session != null ==> (r.Err? <==> session.serials(|old(session.log)|) == 0)
      ensures session != null ==> exists subs ::
                && session.log == old(session.log) + [Request(subscribe, id, subs)]
                && SetOf(subs) == Subs(mask) && NoDup(subs)
    {
      if session == null { return Err("session not bound"); }
      var subs := MaskToVec(mask);
      var sn := session.Sub(Request(subscribe, id, subs));
      if sn == 0 { return Err("refused for " + id.code); }
      return Ok(());
    }

    /** Sends one request per item; an error is only logged. */
    method SendItems(items: seq<DiffItem>, subscribe: bool) returns (ghost sent: seq<Request>)
      requires forall i, j :: 0 <= i < j < |items| ==> items[i].id != items[j].id
      modifies Remote()
      ensures session != null ==>
                session.log == old(session.log) + sent && Batch(sent, subscribe, ItemPairs(items))
    {
      sent := [];
      for i := 0 to |items|
        invariant session != null ==>
                    session.log == old(session.log) + sent && Batch(sent, subscribe, ItemPairs(items[..i]))
      {
        ghost var before := if session == null then [] else session.log;
        var r := Call(items[i].id, items[i].mask, subscribe);
        if session != null {
          ghost var subs :| session.log == before + [Request(subscribe, items[i].id, subs)]
                            && SetOf(subs) == Subs(items[i].mask) && NoDup(subs);
          SendOne(items, i, sent, Request(subscribe, items[i].id, subs));
          sent := sent + [Request(subscribe, items[i].id, subs)];
        }
      }
      assert items[..|items|] == items;
    }

    /** Sends one request per entry of a state, in the order of a hash map. */
    method SendState(st: SubState, subscribe: bool) returns (ghost sent: seq<Request>)
      modifies Remote()
      ensures session != null ==>
                session.log == old(session.log) + sent && Batch(sent, subscribe, Pairs(st))
    {
      var items: seq<DiffItem> := [];
      var rest := st.Keys;
      while rest != {}
        invariant rest <= st.Keys
        invariant Enumerates(items, Only(st, st.Keys - rest))
        invariant session != null ==> session.log == old(session.log)
      {
        var id :| id in rest;
        items := PushItemIf(items, id, st[id], true, st, st.Keys - rest);
        assert st.Keys - rest + {id} == st.Keys - (rest - {id});
        rest := rest - {id};
      }
      assert Only(st, st.Keys - rest) == st;
      sent := SendItems(items, subscribe);
      EnumeratedPairs(items, st);
    }

    method DoFullResubscribe(target: SubState) returns (ghost sent: seq<Request>)
      modifies Remote()
      ensures session != null ==>
                && session.log == old(session.log) + sent
                && FullPlan(sent, if hasCurrent then current else map[], target)
    {
      ghost var first: seq<Request> := [];
      if hasCurrent { first := SendState(current, false); }
      ghost var second := SendState(target, true);
      sent := first + second;
      assert sent[..|first|] == first && sent[|first|..] == second;
      if session != null {
        assert Pairs(map[]) == {};
        assert PlanAt(sent, |first|, Pairs(if hasCurrent then current else map[]), Pairs(target));
      }
    }

    method ExecuteDiff(cur: SubState, pend: SubState) returns (ghost sent: seq<Request>)
      modifies Remote()
      ensures session != null ==>
                session.log == old(session.log) + sent && DiffPlan(sent, cur, pend)
    {
      var d := DiffState(cur, pend);
      ghost var s1 := SendItems(d.removeSecurity, false);
      ghost var s2 := SendItems(d.delSubtypes, false);
      ghost var s3 := SendItems(d.addSubtypes, true);
      ghost var s4 := SendItems(d.addSecurity, true);
      sent := s1 + s2 + (s3 + s4);
      if session != null {
        DiffRequests(d, cur, pend, s1, s2, s3, s4);
      }
    }

    method ApplyPending() returns (ghost sent: seq<Request>)
      modifies this`force, this`current, this`hasCurrent, this`hasPending, Remote()
      ensures View() == Applied(old(View()))
      ensures session != null ==>
                session.log == old(session.log) + sent && ApplyPlan(old(View()), sent)
    {
      sent := [];
      if !hasPending { return; }
      if force {
        force := false;
        sent := DoFullResubscribe(pending);
      } else if hasCurrent {
        sent := ExecuteDiff(current, pending);
      } else {
        sent := DoFullResubscribe(pending);
      }
      current := pending;
      hasCurrent := true;
      hasPending := false;
    }

    /** The control part of one turn of `run`; nothing happens without a session. */
    method ControlCycle(wantPoll: bool, env: LoadEnv) returns (ghost sent: seq<Request>)
      modifies this`force, this`current, this`pending, this`hasCurrent, this`hasPending, this`lastMtime
      modifies Remote()
      ensures session == null ==> View() == old(View()) && sent == []
      ensures session != null ==>
                && View() == Cycle(old(View()), wantPoll, env)
                && session.log == old(session.log) + sent && CyclePlan(old(View()), wantPoll, env, sent)
    {
      sent := [];
      var wantForce := force;
      if connected && session != null && (wantForce || wantPoll) {
        var changed := LoadIfChanged(env);
        var changedValue := changed.Ok? && changed.value;
        if !changedValue && wantForce && hasCurrent && !hasPending {
          pending := current;
          hasPending := true;
        }
        if hasPending {
          sent := ApplyPending();
        }
        if wantForce {
          if hasCurrent { force := false; }
        }
      }
    }
  }

  lemma SendOne(items: seq<DiffItem>, i: nat, sent: seq<Request>, r: Request)
    requires i < |items| && forall i, j :: 0 <= i < j < |items| ==> items[i].id != items[j].id
    requires r.id == items[i].id && SetOf(r.subtypes) == Subs(items[i].mask) && NoDup(r.subtypes)
    requires Batch(sent, r.subscribe, ItemPairs(items[..i]))
    ensures Batch(sent + [r], r.subscribe, ItemPairs(items[..i + 1]))
  {
    assert items[..i + 1] == items[..i] + [items[i]];
    assert PairsOf(r) == set s | s in SetOf(r.subtypes) :: (r.id, s);
    assert ItemPairs(items[..i + 1]) == ItemPairs(items[..i]) + PairsOf(r);
    BatchAppend(sent, r, ItemPairs(items[..i]));
  }

  /** The four groups of requests of a difference form its plan. */
  lemma DiffRequests(d: Diff, cur: SubState, pend: SubState,
                     s1: seq<Request>, s2: seq<Request>, s3: seq<Request>, s4: seq<Request>)
    requires IsDiff(d, cur, pend)
    requires Batch(s1, false, ItemPairs(d.removeSecurity)) && Batch(s2, false, ItemPairs(d.delSubtypes))
    requires Batch(s3, true, ItemPairs(d.addSubtypes)) && Batch(s4, true, ItemPairs(d.addSecurity))
    ensures DiffPlan(s1 + s2 + (s3 + s4), cur, pend)
  {
    EnumeratedPairs(d.removeSecurity, Removed(cur, pend));
    EnumeratedPairs(d.delSubtypes, Extra(cur, pend));
    EnumeratedPairs(d.addSubtypes, Extra(pend, cur));
    EnumeratedPairs(d.addSecurity, Removed(pend, cur));
    LostStreams(cur, pend);
    LostStreams(pend, cur);
    BatchConcat(s1, s2, false, ItemPairs(d.removeSecurity), ItemPairs(d.delSubtypes));
    BatchConcat(s3, s4, true, ItemPairs(d.addSubtypes), ItemPairs(d.addSecurity));
    var sent, k := s1 + s2 + (s3 + s4), |s1 + s2|;
    assert sent[..k] == s1 + s2 && sent[k..] == s3 + s4;
    assert ItemPairs(d.addSubtypes) + ItemPairs(d.addSecurity) == Pairs(pend) - Pairs(cur);
    assert PlanAt(sent, k, Pairs(cur) - Pairs(pend), Pairs(pend) - Pairs(cur));
  }
}
