/**
 The remote side of subscription reconciliation: the requests the manager
 sends, and what they do to the set of streams the server has turned on.
 Unsubscribe requests take effect; any part of a subscribe request may be lost.
 */
module SubscriptionServer {
  import opened Seqs
  import opened Subscription

  datatype Request = Request(subscribe: bool, id: SecurityId, subtypes: seq<SubType>)

  type Server = set<Pair>

  function PairsOf(r: Request): set<Pair> {
    set s | s in r.subtypes :: (r.id, s)
  }

  /** What the server may make of one request. */
  ghost predicate Answer(s: Server, r: Request, s': Server) {
    if r.subscribe then s <= s' <= s + PairsOf(r) else s' == s - PairsOf(r)
  }

  /** Any part of a subscribe request may be lost, none of an unsubscribe request. */
  lemma LossIsPartial(s: Server, r: Request, kept: set<Pair>)
    requires kept <= PairsOf(r)
    ensures r.subscribe ==> Answer(s, r, s + kept)
    ensures !r.subscribe ==> forall s' :: Answer(s, r, s') ==> s' !! PairsOf(r) && s' + PairsOf(r) == s + PairsOf(r)
  {
  }

  ghost predicate Accepts(s: Server, r: Request, s': Server) {
    r.subscribe ==> s' == s + PairsOf(r)
  }

  /** `tr` is a possible history of the server while it answers `reqs`. */
  ghost predicate Trace(tr: seq<Server>, reqs: seq<Request>) {
    && |tr| == |reqs| + 1
    && forall k :: 0 <= k < |reqs| ==> Answer(tr[k], reqs[k], tr[k + 1])
  }

  ghost predicate AllAccepted(tr: seq<Server>, reqs: seq<Request>)
    requires |tr| == |reqs| + 1
  {
    forall k :: 0 <= k < |reqs| ==> Accepts(tr[k], reqs[k], tr[k + 1])
  }

  // ------------------------------------------------------------ plans

  /** Requests of one kind that name every stream of `want` exactly once. */
  ghost predicate Batch(reqs: seq<Request>, subscribe: bool, want: set<Pair>)
    decreases |reqs|
  {
    if reqs == [] then want == {}
    else
      var r := Last(reqs);
      && r.subscribe == subscribe && NoDup(r.subtypes)
      && PairsOf(r) <= want && Batch(Front(reqs), subscribe, want - PairsOf(r))
  }

  /** First unsubscribe `dels`, then subscribe `adds`; the first `k` requests
      are the unsubscribe phase. */
  ghost predicate PlanAt(reqs: seq<Request>, k: nat, dels: set<Pair>, adds: set<Pair>) {
    k <= |reqs| && Batch(reqs[..k], false, dels) && Batch(reqs[k..], true, adds)
  }

  ghost predicate Plan(reqs: seq<Request>, dels: set<Pair>, adds: set<Pair>) {
    exists k: nat :: PlanAt(reqs, k, dels, adds)
  }

  lemma BatchAppend(reqs: seq<Request>, r: Request, want: set<Pair>)
    requires Batch(reqs, r.subscribe, want) && NoDup(r.subtypes) && PairsOf(r) !! want
    ensures Batch(reqs + [r], r.subscribe, want + PairsOf(r))
  {
    FrontAppend(reqs, r);
    assert want + PairsOf(r) - PairsOf(r) == want;
  }

  lemma {:induction false} BatchConcat(a: seq<Request>, b: seq<Request>, subscribe: bool, x: set<Pair>, y: set<Pair>)
    requires Batch(a, subscribe, x) && Batch(b, subscribe, y) && x !! y
    ensures Batch(a + b, subscribe, x + y)
    decreases |b|
  {
    if b == [] {
      assert a + b == a && x + y == x;
    } else {
      var r := Last(b);
      BatchConcat(a, Front(b), subscribe, x, y - PairsOf(r));
      BatchAppend(a + Front(b), r, x + (y - PairsOf(r)));
      assert a + Front(b) + [r] == a + b;
      assert x + (y - PairsOf(r)) + PairsOf(r) == x + y;
    }
  }

  // ------------------------------------------------------------ phases

  lemma TracePrefix(tr: seq<Server>, reqs: seq<Request>, k: nat)
    requires Trace(tr, reqs) && k <= |reqs|
    ensures Trace(tr[..k + 1], reqs[..k]) && Trace(tr[k..], reqs[k..])
  {
  }

  lemma {:induction false} UnsubscribePhase(tr: seq<Server>, reqs: seq<Request>, dels: set<Pair>)
    requires Trace(tr, reqs) && Batch(reqs, false, dels)
    ensures forall i :: 0 <= i < |tr| ==> tr[0] - dels <= tr[i] <= tr[0]
    ensures Last(tr) == tr[0] - dels
    decreases |reqs|
  {
    if reqs != [] {
      TracePrefix(tr, reqs, |reqs| - 1);
      UnsubscribePhase(Front(tr), Front(reqs), dels - PairsOf(Last(reqs)));
      forall i | 0 <= i < |tr| ensures tr[0] - dels <= tr[i] <= tr[0] {
        if i < |tr| - 1 { assert tr[i] == Front(tr)[i]; }
      }
    }
  }

  lemma {:induction false} SubscribePhase(tr: seq<Server>, reqs: seq<Request>, adds: set<Pair>)
    requires Trace(tr, reqs) && Batch(reqs, true, adds)
    ensures forall i :: 0 <= i < |tr| ==> tr[0] <= tr[i] <= tr[0] + adds
    ensures AllAccepted(tr, reqs) ==> Last(tr) == tr[0] + adds
    decreases |reqs|
  {
    if reqs != [] {
      TracePrefix(tr, reqs, |reqs| - 1);
      SubscribePhase(Front(tr), Front(reqs), adds - PairsOf(Last(reqs)));
      forall i | 0 <= i < |tr| ensures tr[0] <= tr[i] <= tr[0] + adds {
        if i < |tr| - 1 { assert tr[i] == Front(tr)[i]; }
      }
      if AllAccepted(tr, reqs) {
        assert AllAccepted(Front(tr), Front(reqs));
        assert Accepts(tr[|reqs| - 1], reqs[|reqs| - 1], tr[|reqs|]);
      }
    }
  }

  /** The whole history of a plan: shrinking to tr[0] - dels, then growing by
      at most `adds`; exactly by `adds` if nothing is lost. */
  lemma PlanHistory(tr: seq<Server>, reqs: seq<Request>, k: nat, dels: set<Pair>, adds: set<Pair>)
    requires Trace(tr, reqs) && PlanAt(reqs, k, dels, adds)
    ensures forall i :: 0 <= i <= k ==> tr[0] - dels <= tr[i] <= tr[0]
    ensures tr[k] == tr[0] - dels
    ensures forall i :: k <= i < |tr| ==> tr[0] - dels <= tr[i] <= tr[0] - dels + adds
    ensures AllAccepted(tr, reqs) ==> Last(tr) == tr[0] - dels + adds
  {
    TracePrefix(tr, reqs, k);
    UnsubscribePhase(tr[..k + 1], reqs[..k], dels);
    SubscribePhase(tr[k..], reqs[k..], adds);
    forall i | 0 <= i <= k ensures tr[0] - dels <= tr[i] <= tr[0] {
      assert tr[i] == tr[..k + 1][i];
    }
    forall i | k <= i < |tr| ensures tr[0] - dels <= tr[i] <= tr[0] - dels + adds {
      assert tr[i] == tr[k..][i - k];
    }
    if AllAccepted(tr, reqs) {
      forall j | 0 <= j < |reqs[k..]| ensures Accepts(tr[k..][j], reqs[k..][j], tr[k..][j + 1]) {
        assert Accepts(tr[k + j], reqs[k + j], tr[k + j + 1]);
      }
      assert AllAccepted(tr[k..], reqs[k..]);
    }
  }

  // ------------------------------------------------------------ differences

  /** The requests of `execute_diff`. */
  ghost predicate DiffPlan(reqs: seq<Request>, current: SubState, pending: SubState) {
    Plan(reqs, Pairs(current) - Pairs(pending), Pairs(pending) - Pairs(current))
  }

  /** The requests of `do_full_resubscribe`. */
  ghost predicate FullPlan(reqs: seq<Request>, current: SubState, target: SubState) {
    Plan(reqs, Pairs(current), Pairs(target))
  }

  /** A difference never interrupts a stream that both states contain, never
      shows one that neither contains, and never holds more streams than the
      larger of the two states, whatever is lost on the way. */
  lemma DiffContinuity(tr: seq<Server>, reqs: seq<Request>, current: SubState, pending: SubState, i: nat)
    requires Trace(tr, reqs) && DiffPlan(reqs, current, pending) && tr[0] <= Pairs(current) && i < |tr|
    ensures tr[0] * Pairs(pending) <= tr[i] <= Pairs(current) + Pairs(pending)
    ensures |tr[i]| <= |Pairs(current)| || |tr[i]| <= |Pairs(pending)|
    ensures Last(tr) <= Pairs(pending)
  {
    var c, p := Pairs(current), Pairs(pending);
    var k: nat :| PlanAt(reqs, k, c - p, p - c);
    PlanHistory(tr, reqs, k, c - p, p - c);
    if i <= k { SubsetSize(tr[i], c); } else { SubsetSize(tr[i], p); }
  }

  /** Before step `k` only unsubscribe requests, from then on only subscribe
      requests, and in between exactly the streams `common` are on. */
  ghost predicate MiddleAt(tr: seq<Server>, reqs: seq<Request>, k: nat, common: set<Pair>) {
    && k < |tr| && tr[k] == common
    && (forall i :: 0 <= i < |reqs| ==> (reqs[i].subscribe <==> k <= i))
  }

  /** Half way, after the unsubscribe phase, exactly the common streams are on. */
  lemma DiffMiddle(tr: seq<Server>, reqs: seq<Request>, current: SubState, pending: SubState)
    requires Trace(tr, reqs) && DiffPlan(reqs, current, pending) && tr[0] == Pairs(current)
    ensures exists k: nat :: MiddleAt(tr, reqs, k, Pairs(current) * Pairs(pending))
  {
    var c, p := Pairs(current), Pairs(pending);
    var k: nat :| PlanAt(reqs, k, c - p, p - c);
    PlanKinds(reqs, k, c - p, p - c);
    PlanHistory(tr, reqs, k, c - p, p - c);
    assert c - (c - p) == c * p;
    assert MiddleAt(tr, reqs, k, c * p);
  }

  lemma PlanKinds(reqs: seq<Request>, k: nat, dels: set<Pair>, adds: set<Pair>)
    requires PlanAt(reqs, k, dels, adds)
    ensures forall i :: 0 <= i < |reqs| ==> (reqs[i].subscribe <==> k <= i)
  {
    BatchKind(reqs[..k], false, dels);
    BatchKind(reqs[k..], true, adds);
    forall i | 0 <= i < |reqs| ensures reqs[i].subscribe <==> k <= i {
      if i < k { assert reqs[i] == reqs[..k][i]; } else { assert reqs[i] == reqs[k..][i - k]; }
    }
  }

  lemma {:induction false} BatchKind(reqs: seq<Request>, subscribe: bool, want: set<Pair>)
    requires Batch(reqs, subscribe, want)
    ensures forall i :: 0 <= i < |reqs| ==> reqs[i].subscribe == subscribe
    decreases |reqs|
  {
    if reqs != [] {
      BatchKind(Front(reqs), subscribe, want - PairsOf(Last(reqs)));
      assert forall i :: 0 <= i < |reqs| - 1 ==> reqs[i] == Front(reqs)[i];
    }
  }

  /** With everything accepted, a difference ends at the pending state exactly
      when no stream common to both states was missing at the start: an
      unforced difference does not repair streams lost earlier. */
  lemma DiffConvergesIff(tr: seq<Server>, reqs: seq<Request>, current: SubState, pending: SubState)
    requires Trace(tr, reqs) && DiffPlan(reqs, current, pending)
    requires tr[0] <= Pairs(current) && AllAccepted(tr, reqs)
    ensures Last(tr) == Pairs(pending) <==> Pairs(current) * Pairs(pending) <= tr[0]
  {
    var c, p, s := Pairs(current), Pairs(pending), tr[0];
    var k: nat :| PlanAt(reqs, k, c - p, p - c);
    PlanHistory(tr, reqs, k, c - p, p - c);
    if c * p <= s {
      assert s - (c - p) + (p - c) == p;
    }
    if Last(tr) == p {
      forall x | x in c * p ensures x in s { assert x in Last(tr); }
    }
  }

  /** A full resubscribe first empties the server, whatever part of the current
      state it held, and then shows only streams of the target. */
  lemma FullResubscribeHistory(tr: seq<Server>, reqs: seq<Request>, current: SubState, target: SubState, i: nat)
    requires Trace(tr, reqs) && FullPlan(reqs, current, target) && tr[0] <= Pairs(current) && i < |tr|
    ensures tr[i] <= Pairs(current) || tr[i] <= Pairs(target)
    ensures |tr[i]| <= |Pairs(current)| || |tr[i]| <= |Pairs(target)|
    ensures exists k :: 0 <= k < |tr| && tr[k] == {}
    ensures Last(tr) <= Pairs(target)
    ensures AllAccepted(tr, reqs) ==> Last(tr) == Pairs(target)
  {
    var c, p := Pairs(current), Pairs(target);
    var k: nat :| PlanAt(reqs, k, c, p);
    PlanHistory(tr, reqs, k, c, p);
    assert tr[0] - c == {};
    assert tr[k] == {};
    assert {} + p == p;
    if i <= k { SubsetSize(tr[i], c); } else { SubsetSize(tr[i], p); }
  }

  lemma SubsetSize<T>(a: set<T>, b: set<T>)
    requires a <= b
    ensures |a| <= |b|
  {
    assert b == a + (b - a);
  }

  // ------------------------------------------------------------ minimality

  function SymDiff<T>(a: set<T>, b: set<T>): set<T> { (a - b) + (b - a) }

  /** How many (security, subtype) items a sequence of requests carries. */
  function Items(reqs: seq<Request>): nat {
    if reqs == [] then 0 else Items(Front(reqs)) + |Last(reqs).subtypes|
  }

  lemma {:induction false} ItemsConcat(a: seq<Request>, b: seq<Request>)
    ensures Items(a + b) == Items(a) + Items(b)
    decreases |b|
  {
    if b == [] {
      assert a + b == a;
    } else {
      ItemsConcat(a, Front(b));
      var ab := a + b;
      assert ab != [] && Front(ab) == a + Front(b) && Last(ab) == Last(b);
    }
  }

  lemma {:induction false} BatchItems(reqs: seq<Request>, subscribe: bool, want: set<Pair>)
    requires Batch(reqs, subscribe, want)
    ensures Items(reqs) == |want|
    decreases |reqs|
  {
    if reqs != [] {
      var r := Last(reqs);
      BatchItems(Front(reqs), subscribe, want - PairsOf(r));
      assert want == (want - PairsOf(r)) + PairsOf(r);
      NoDupSize(r.subtypes);
      PairsOfSize(r.id, SetOf(r.subtypes));
      assert PairsOf(r) == set s | s in SetOf(r.subtypes) :: (r.id, s);
    }
  }

  lemma {:induction false} PairsOfSize(id: SecurityId, subs: set<SubType>)
    ensures |set s | s in subs :: (id, s)| == |subs|
  {
    var ps := set s | s in subs :: (id, s);
    if subs != {} {
      var x :| x in subs;
      PairsOfSize(id, subs - {x});
      assert ps == (set s | s in subs - {x} :: (id, s)) + {(id, x)};
    }
  }

  /** Any requests that take a server from `a` to `b` carry at least as many
      items as there are streams in which `a` and `b` differ. */
  lemma {:induction false} ItemsLowerBound(tr: seq<Server>, reqs: seq<Request>)
    requires Trace(tr, reqs)
    ensures |SymDiff(tr[0], Last(tr))| <= Items(reqs)
    decreases |reqs|
  {
    if reqs == [] {
      assert SymDiff(tr[0], tr[0]) == {};
    } else {
      var n := |reqs| - 1;
      TracePrefix(tr, reqs, n);
      ItemsLowerBound(Front(tr), Front(reqs));
      assert Answer(tr[n], reqs[n], tr[n + 1]);
      var a, b, c := tr[0], tr[n], tr[n + 1];
      SubsetSize(SymDiff(b, c), PairsOf(reqs[n]));
      assert PairsOf(reqs[n]) == set s | s in SetOf(reqs[n].subtypes) :: (reqs[n].id, s);
      PairsOfSize(reqs[n].id, SetOf(reqs[n].subtypes));
      SetNoLarger(reqs[n].subtypes);
      SubsetSize(SymDiff(a, c), SymDiff(a, b) + SymDiff(b, c));
      UnionSize(SymDiff(a, b), SymDiff(b, c));
    }
  }

  lemma {:induction false} SetNoLarger<T>(s: seq<T>)
    ensures |SetOf(s)| <= |s|
  {
    if s == [] {
      assert SetOf(s) == {};
    } else {
      SetNoLarger(Front(s));
      assert s == Front(s) + [Last(s)];
      assert SetOf(s) == SetOf(Front(s)) + {Last(s)};
    }
  }

  lemma UnionSize<T>(a: set<T>, b: set<T>)
    ensures |a + b| <= |a| + |b|
  {
    assert a + b == a + (b - a);
    SubsetSize(b - a, b);
  }

  /** A difference carries the fewest items of all request sequences that lead
      from the current streams to the pending ones. */
  lemma DiffIsMinimal(plan: seq<Request>, current: SubState, pending: SubState,
                      other: seq<Request>, tr: seq<Server>)
    requires DiffPlan(plan, current, pending)
    requires Trace(tr, other) && tr[0] == Pairs(current) && Last(tr) == Pairs(pending)
    ensures Items(plan) == |SymDiff(Pairs(current), Pairs(pending))| <= Items(other)
  {
    var c, p := Pairs(current), Pairs(pending);
    var k: nat :| PlanAt(plan, k, c - p, p - c);
    BatchItems(plan[..k], false, c - p);
    BatchItems(plan[k..], true, p - c);
    ItemsConcat(plan[..k], plan[k..]);
    assert plan == plan[..k] + plan[k..];
    assert |SymDiff(c, p)| == |c - p| + |p - c|;
    ItemsLowerBound(tr, other);
  }
}
