/**
 The Kafka decode pipeline under concurrency: the consumer thread, one decode
 worker per queue pair, and the draining q process, interleaved at every queue
 operation.  Both queues of a worker drop their oldest element on overflow, and
 the topic mapping may change at any time.
 */
module KfkpbPipeline {
  import opened Seqs
  import opened DropOldest
  import opened KfkpbClient

  // ------------------------------------------------------------ one worker

  /** A worker: its raw queue, the message it is decoding, its event queue. */
  datatype Lane = Lane(raw: Chan<RawMsg>, decoding: Option<RawMsg>, evt: Chan<Event>)

  function NewLane(rawRoom: nat, evtRoom: nat): Lane {
    Lane(NewChan(rawRoom), None, NewChan(evtRoom))
  }

  /** The worker's next step: finish pushing an event, or decode the message in
      hand and start pushing its event, or try to pop a message. */
  function WorkerStep(l: Lane, types: map<string, MsgType>, decode: Decoder): Lane {
    if !l.evt.pusher.Idle? then
      l.(evt := PusherStep(l.evt, l.evt.pusher.v))
    else if l.decoding.Some? then
      l.(evt := PusherStep(l.evt, EventFor(l.decoding.value, types, decode)), decoding := None)
    else if l.raw.q == [] then l
    else l.(raw := ConsumerStep(l.raw), decoding := Some(l.raw.q[0]))
  }

  function Opt<T>(o: Option<T>): seq<T> {
    if o.Some? then [o.value] else []
  }

  /** Event i reports message i. */
  ghost predicate Images(ms: seq<RawMsg>, es: seq<Event>, decode: Decoder) {
    |ms| == |es| && forall i :: 0 <= i < |ms| ==> Reports(ms[i], es[i], decode)
  }

  /** The messages taken from the raw queue are those whose events were
      submitted, one event each and in order, and then the one being decoded. */
  ghost predicate LaneOk(l: Lane, decode: Decoder) {
    && ChanOk(l.raw) && ChanOk(l.evt)
    && |l.raw.delivered| == |l.evt.submitted| + |Opt(l.decoding)|
    && Images(Decoded(l), l.evt.submitted, decode)
    && l.raw.delivered == Decoded(l) + Opt(l.decoding)
  }

  /** The messages whose events were submitted. */
  function Decoded(l: Lane): seq<RawMsg>
    requires |l.raw.delivered| >= |l.evt.submitted|
  {
    l.raw.delivered[..|l.evt.submitted|]
  }

  lemma WorkerStepOk(l: Lane, types: map<string, MsgType>, decode: Decoder)
    requires LaneOk(l, decode)
    ensures LaneOk(WorkerStep(l, types, decode), decode)
    ensures var l' := WorkerStep(l, types, decode);
            && l'.raw.submitted == l.raw.submitted && l'.evt.delivered == l.evt.delivered
            && l'.raw.pusher == l.raw.pusher
  {
    if !l.evt.pusher.Idle? {
      PusherStepOk(l.evt, l.evt.pusher.v);
    } else if l.decoding.Some? {
      var e := EventFor(l.decoding.value, types, decode);
      EventReports(l.decoding.value, types, decode);
      PusherStepOk(l.evt, e);
      var l' := WorkerStep(l, types, decode);
      assert l'.evt.submitted == l.evt.submitted + [e];
      assert Decoded(l') == Decoded(l) + [l.decoding.value];
    } else if l.raw.q != [] {
      ConsumerStepOk(l.raw);
      var l' := WorkerStep(l, types, decode);
      assert Decoded(l') == Decoded(l);
      assert l'.raw.delivered == l.raw.delivered + [l.raw.q[0]];
    }
  }

  lemma DrainStepOk(l: Lane, decode: Decoder)
    requires LaneOk(l, decode)
    ensures LaneOk(l.(evt := ConsumerStep(l.evt)), decode)
  {
    ConsumerStepOk(l.evt);
  }

  lemma ReceiveStepOk(l: Lane, m: RawMsg, decode: Decoder)
    requires LaneOk(l, decode)
    ensures LaneOk(l.(raw := PusherStep(l.raw, m)), decode)
  {
    PusherStepOk(l.raw, m);
  }

  // ------------------------------------------------------------ images

  lemma ImagesFront(ms: seq<RawMsg>, es: seq<Event>, decode: Decoder)
    requires Images(ms, es, decode) && es != []
    ensures ms != [] && Images(Front(ms), Front(es), decode) && Reports(Last(ms), Last(es), decode)
  {
  }

  lemma ImagesSnoc(ms: seq<RawMsg>, es: seq<Event>, m: RawMsg, e: Event, decode: Decoder)
    requires Images(ms, es, decode) && Reports(m, e, decode)
    ensures Images(ms + [m], es + [e], decode)
  {
  }

  lemma ImagesBack(ms: seq<RawMsg>, es: seq<Event>, m: RawMsg, decode: Decoder)
    requires es != [] && Images(ms, Front(es), decode) && Reports(m, Last(es), decode)
    ensures Images(ms + [m], es, decode)
  {
    ImagesSnoc(ms, Front(es), m, Last(es), decode);
    assert es == Front(es) + [Last(es)];
  }

  lemma MergeBack(a: seq<RawMsg>, b: seq<RawMsg>, c: seq<RawMsg>)
    requires c != []
    ensures Merge(a, b, Front(c)) ==> Merge(a + [Last(c)], b, c) && Merge(a, b + [Last(c)], c)
  {
    if Merge(a, b, Front(c)) {
      MergeLeft(a, b, Front(c), Last(c));
      MergeRight(a, b, Front(c), Last(c));
      assert c == Front(c) + [Last(c)];
    }
  }

  lemma {:induction false} ImagesMerge(ms: seq<RawMsg>, c: seq<Event>, a: seq<Event>, b: seq<Event>, decode: Decoder)
    returns (ma: seq<RawMsg>, mb: seq<RawMsg>)
    requires Images(ms, c, decode) && Merge(a, b, c)
    ensures Images(ma, a, decode) && Images(mb, b, decode) && Merge(ma, mb, ms)
    decreases |c|
  {
    if c == [] {
      ma, mb := [], [];
    } else {
      ImagesFront(ms, c, decode);
      var m := Last(ms);
      if a != [] && Last(a) == Last(c) && Merge(Front(a), b, Front(c)) {
        ma, mb := ImagesMerge(Front(ms), Front(c), Front(a), b, decode);
        MergeBack(ma, mb, ms);
        ImagesBack(ma, a, m, decode);
        ma := ma + [m];
      } else {
        ma, mb := ImagesMerge(Front(ms), Front(c), a, Front(b), decode);
        MergeBack(ma, mb, ms);
        ImagesBack(mb, b, m, decode);
        mb := mb + [m];
      }
    }
  }

  function MsgKey(k: string): RawMsg -> bool { (m: RawMsg) => m.key == k }
  function EventKey(k: string): Event -> bool { (e: Event) => e.key == k }

  lemma {:induction false} ImagesFilter(ms: seq<RawMsg>, es: seq<Event>, k: string, decode: Decoder)
    requires Images(ms, es, decode)
    ensures Images(Filter(ms, MsgKey(k)), Filter(es, EventKey(k)), decode)
    decreases |ms|
  {
    if ms != [] {
      ImagesFilter(Front(ms), Front(es), k, decode);
      assert Reports(Last(ms), Last(es), decode);
    }
  }

  lemma {:induction false} MergeLeftAll<T>(a: seq<T>, b: seq<T>, c: seq<T>, x: seq<T>)
    requires Merge(a, b, c)
    ensures Merge(a + x, b, c + x)
    decreases |x|
  {
    if x == [] {
      assert a + x == a && c + x == c;
    } else {
      MergeLeftAll(a, b, c, Front(x));
      MergeLeft(a + Front(x), b, c + Front(x), Last(x));
      assert a + x == (a + Front(x)) + [Last(x)] && c + x == (c + Front(x)) + [Last(x)];
    }
  }

  // ------------------------------------------------------------ lane history

  /** Messages received but whose event is not yet submitted. */
  function Waiting(l: Lane): seq<RawMsg> {
    Opt(l.decoding) + l.raw.q + InHand(l.raw)
  }

  /** Events submitted but not yet drained. */
  function Undrained(l: Lane): seq<Event> {
    l.evt.q + InHand(l.evt)
  }

  lemma CutAt<T>(s: seq<T>, k: nat)
    requires k <= |s|
    ensures s[..k] + s[k..] == s
  {
  }

  lemma Cut<T>(c: Chan<T>)
    requires ChanOk(c)
    ensures c.submitted == Gone(c) + (c.q + InHand(c))
  {
    Regroup(Gone(c), c.q, InHand(c));
  }

  /** Everything a worker was sent is, in order, a merge of what survived and
      what was lost; the survivors are the messages behind the drained and the
      undrained events followed by those still waiting; the lost ones are those
      dropped from the raw queue and those whose event was dropped. */
  lemma LaneHistory(l: Lane, decode: Decoder)
    returns (ms: seq<RawMsg>, lostEvents: seq<RawMsg>, lost: seq<RawMsg>)
    requires LaneOk(l, decode)
    ensures Images(ms, l.evt.delivered + Undrained(l), decode)
    ensures Images(lostEvents, l.evt.dropped, decode)
    ensures Merge(lostEvents, l.raw.dropped, lost)
    ensures Merge(ms + Waiting(l), lost, l.raw.submitted)
  {
    ms, lostEvents := EventHistory(l, decode);
    lost := RawHistory(l.raw, ms + Opt(l.decoding), lostEvents);
    Regroup(ms, Opt(l.decoding), l.raw.q + InHand(l.raw));
    Regroup(Opt(l.decoding), l.raw.q, InHand(l.raw));
  }

  /** The message side: what was delivered is itself part of what was submitted. */
  lemma RawHistory(c: Chan<RawMsg>, survivors: seq<RawMsg>, lostLater: seq<RawMsg>) returns (lost: seq<RawMsg>)
    requires ChanOk(c) && Merge(survivors, lostLater, c.delivered)
    ensures Merge(lostLater, c.dropped, lost)
    ensures Merge(survivors + (c.q + InHand(c)), lost, c.submitted)
  {
    lost := MergeTwice(survivors, lostLater, c.delivered, c.dropped, Gone(c));
    MergeLeftAll(survivors, lost, Gone(c), c.q + InHand(c));
    Cut(c);
  }

  /** The event side of a lane's history. */
  lemma EventHistory(l: Lane, decode: Decoder) returns (ms: seq<RawMsg>, lostEvents: seq<RawMsg>)
    requires LaneOk(l, decode)
    ensures Images(ms, l.evt.delivered + Undrained(l), decode)
    ensures Images(lostEvents, l.evt.dropped, decode)
    ensures Merge(ms + Opt(l.decoding), lostEvents, l.raw.delivered)
  {
    Cut(l.evt);
    var ma, mb, rest := SplitHistory(Decoded(l), l.evt, decode);
    ms, lostEvents := ma + rest, mb;
    ImagesConcat(ma, l.evt.delivered, rest, Undrained(l), decode);
    MergeLeftAll(ms, mb, Decoded(l), Opt(l.decoding));
  }

  /** Messages decoded so far: those whose event is gone, delivered or dropped,
      and the `rest`, whose event is not. */
  lemma SplitHistory(dec: seq<RawMsg>, c: Chan<Event>, decode: Decoder)
    returns (ma: seq<RawMsg>, mb: seq<RawMsg>, rest: seq<RawMsg>)
    requires ChanOk(c) && Images(dec, Gone(c) + (c.q + InHand(c)), decode)
    ensures Images(ma, c.delivered, decode) && Images(mb, c.dropped, decode)
    ensures Images(rest, c.q + InHand(c), decode)
    ensures Merge(ma + rest, mb, dec)
  {
    var gone, k := Gone(c), |Gone(c)|;
    ImagesSplit(dec, gone, c.q + InHand(c), decode);
    rest := dec[k..];
    ma, mb := ImagesMerge(dec[..k], gone, c.delivered, c.dropped, decode);
    MergeLeftAll(ma, mb, dec[..k], rest);
    CutAt(dec, k);
  }

  lemma ImagesSplit(ms: seq<RawMsg>, a: seq<Event>, b: seq<Event>, decode: Decoder)
    requires Images(ms, a + b, decode)
    ensures Images(ms[..|a|], a, decode) && Images(ms[|a|..], b, decode)
  {
    forall i | 0 <= i < |a| ensures Reports(ms[..|a|][i], a[i], decode) {
      assert Reports(ms[i], (a + b)[i], decode);
    }
    forall i | 0 <= i < |b| ensures Reports(ms[|a|..][i], b[i], decode) {
      assert Reports(ms[|a| + i], (a + b)[|a| + i], decode);
    }
  }

  lemma ImagesConcat(ms: seq<RawMsg>, a: seq<Event>, ns: seq<RawMsg>, b: seq<Event>, decode: Decoder)
    requires Images(ms, a, decode) && Images(ns, b, decode)
    ensures Images(ms + ns, a + b, decode)
  {
  }

  // ------------------------------------------------------------ the pipeline

  datatype Tagged<T> = Tagged(w: nat, x: T)

  /** All elements, and those of worker `w`, in order. */
  function All<T>(s: seq<Tagged<T>>): seq<T> {
    if s == [] then [] else All(Front(s)) + [Last(s).x]
  }

  function Of<T>(s: seq<Tagged<T>>, w: nat): seq<T> {
    if s == [] then []
    else Of(Front(s), w) + if Last(s).w == w then [Last(s).x] else []
  }

  lemma {:induction false} OneWorkerFilter<T>(s: seq<Tagged<T>>, w: nat, p: T -> bool)
    requires forall t :: t in s && p(t.x) ==> t.w == w
    ensures Filter(Of(s, w), p) == Filter(All(s), p)
    decreases |s|
  {
    if s != [] {
      var t := Last(s);
      assert t in s;
      OneWorkerFilter(Front(s), w, p);
      FilterAppend1(All(Front(s)), t.x, p);
      FilterAppend1(Of(Front(s), w), t.x, p);
      assert Of(Front(s), w) + [] == Of(Front(s), w);
      assert Filter(Of(Front(s), w), p) + [] == Filter(Of(Front(s), w), p);
    }
  }

  /** All workers; the worker the consumer is pushing to, if it is; everything
      consumed, with the worker it was routed to; everything drained, with the
      worker it came from; and the round-robin counter for keyless messages. */
  datatype Pipe = Pipe(
    lanes: seq<Lane>, pushing: Option<nat>,
    consumed: seq<Tagged<RawMsg>>, drained: seq<Tagged<Event>>, rr: nat)

  datatype Move =
    | ConsumerMoves(m: RawMsg)    // an idle consumer takes message m from the broker
    | WorkerMoves(w: nat, types: map<string, MsgType>)
    | DrainMoves(w: nat)          // one try_pop of drainTo

  function InitPipe(n: nat, rawRoom: nat, evtRoom: nat): Pipe {
    Pipe(seq(n, _ => NewLane(rawRoom, evtRoom)), None, [], [], 0)
  }

  function Receive(l: Lane, m: RawMsg): Lane {
    l.(raw := PusherStep(l.raw, m))
  }

  function Step(p: Pipe, mv: Move, hash: string -> nat, decode: Decoder): Pipe
    requires p.lanes != [] && (p.pushing.Some? ==> p.pushing.value < |p.lanes|)
  {
    match mv
    case ConsumerMoves(m) =>
      var idle := p.pushing.None?;
      var w := if idle then WorkerFor(m.key, p.rr, |p.lanes|, hash) else p.pushing.value;
      var l := Receive(p.lanes[w], m);
      var p' := p.(lanes := p.lanes[w := l], pushing := if l.raw.pusher.Idle? then None else Some(w));
      if idle
      then p'.(consumed := p.consumed + [Tagged(w, m)], rr := if m.key == "" then p.rr + 1 else p.rr)
      else p'
    case WorkerMoves(w, types) =>
      if w < |p.lanes| then p.(lanes := p.lanes[w := WorkerStep(p.lanes[w], types, decode)]) else p
    case DrainMoves(w) =>
      if w < |p.lanes| && p.lanes[w].evt.q != [] then
        var l := p.lanes[w];
        p.(lanes := p.lanes[w := l.(evt := ConsumerStep(l.evt))],
           drained := p.drained + [Tagged(w, l.evt.q[0])])
      else p
  }

  ghost predicate PipeOk(p: Pipe, hash: string -> nat, decode: Decoder) {
    && p.lanes != [] && (p.pushing.Some? ==> p.pushing.value < |p.lanes|)
    && (forall w :: 0 <= w < |p.lanes| ==>
          && LaneOk(p.lanes[w], decode)
          && p.lanes[w].raw.submitted == Of(p.consumed, w)
          && p.lanes[w].evt.delivered == Of(p.drained, w)
          && (p.pushing == Some(w) <==> !p.lanes[w].raw.pusher.Idle?))
    && (forall t :: t in p.consumed ==> t.w < |p.lanes| && (t.x.key != "" ==> t.w == hash(t.x.key) % |p.lanes|))
    && (forall t :: t in p.drained ==> t.w < |p.lanes|)
  }

  /** The system changes at one lane only. */
  lemma ReplaceLane(p: Pipe, p': Pipe, w: nat, hash: string -> nat, decode: Decoder)
    requires PipeOk(p, hash, decode) && w < |p.lanes| && |p'.lanes| == |p.lanes|
    requires p'.lanes == p.lanes[w := p'.lanes[w]] && LaneOk(p'.lanes[w], decode)
    requires p'.lanes[w].raw.submitted == Of(p'.consumed, w) && p'.lanes[w].evt.delivered == Of(p'.drained, w)
    requires forall v :: 0 <= v < |p.lanes| && v != w ==>
               Of(p'.consumed, v) == Of(p.consumed, v) && Of(p'.drained, v) == Of(p.drained, v)
    requires p'.pushing == Some(w) <==> !p'.lanes[w].raw.pusher.Idle?
    requires p'.pushing == p.pushing || p.pushing == Some(w) || p.pushing == None
    requires p'.pushing == p.pushing || p'.pushing == Some(w) || p'.pushing == None
    requires forall t :: t in p'.consumed ==>
               t in p.consumed || (t.w < |p.lanes| && (t.x.key != "" ==> t.w == hash(t.x.key) % |p.lanes|))
    requires forall t :: t in p'.drained ==> t in p.drained || t.w < |p.lanes|
    ensures PipeOk(p', hash, decode)
  {
    forall v | 0 <= v < |p'.lanes|
      ensures LaneOk(p'.lanes[v], decode)
      ensures p'.lanes[v].raw.submitted == Of(p'.consumed, v)
      ensures p'.lanes[v].evt.delivered == Of(p'.drained, v)
      ensures p'.pushing == Some(v) <==> !p'.lanes[v].raw.pusher.Idle?
    {
      if v != w { assert p'.lanes[v] == p.lanes[v]; }
    }
  }

  lemma OfAppend<T>(s: seq<Tagged<T>>, t: Tagged<T>, w: nat)
    ensures Of(s + [t], w) == Of(s, w) + (if t.w == w then [t.x] else [])
  {
    FrontAppend(s, t);
  }

  lemma ConsumerTakesOk(p: Pipe, m: RawMsg, hash: string -> nat, decode: Decoder)
    requires PipeOk(p, hash, decode) && p.pushing.None?
    ensures PipeOk(Step(p, ConsumerMoves(m), hash, decode), hash, decode)
  {
    var p' := Step(p, ConsumerMoves(m), hash, decode);
    var w := WorkerFor(m.key, p.rr, |p.lanes|, hash);
    ReceiveStepOk(p.lanes[w], m, decode);
    assert p'.consumed == p.consumed + [Tagged(w, m)];
    forall v | 0 <= v < |p.lanes|
      ensures Of(p'.consumed, v) == Of(p.consumed, v) + (if v == w then [m] else [])
    {
      OfAppend(p.consumed, Tagged(w, m), v);
    }
    var l := Receive(p.lanes[w], m);
    assert p'.lanes[w] == l && l.raw.submitted == p.lanes[w].raw.submitted + [m];
    ReplaceLane(p, p', w, hash, decode);
  }

  lemma ConsumerContinuesOk(p: Pipe, m: RawMsg, hash: string -> nat, decode: Decoder)
    requires PipeOk(p, hash, decode) && p.pushing.Some?
    ensures PipeOk(Step(p, ConsumerMoves(m), hash, decode), hash, decode)
  {
    var w := p.pushing.value;
    ReceiveStepOk(p.lanes[w], m, decode);
    ReplaceLane(p, Step(p, ConsumerMoves(m), hash, decode), w, hash, decode);
  }

  lemma DrainMoveOk(p: Pipe, w: nat, hash: string -> nat, decode: Decoder)
    requires PipeOk(p, hash, decode)
    ensures PipeOk(Step(p, DrainMoves(w), hash, decode), hash, decode)
  {
    if w < |p.lanes| && p.lanes[w].evt.q != [] {
      var p', l := Step(p, DrainMoves(w), hash, decode), p.lanes[w];
      DrainStepOk(l, decode);
      forall v | 0 <= v < |p.lanes|
        ensures Of(p'.drained, v) == Of(p.drained, v) + (if v == w then [l.evt.q[0]] else [])
      {
        OfAppend(p.drained, Tagged(w, l.evt.q[0]), v);
      }
      ReplaceLane(p, p', w, hash, decode);
    }
  }

  lemma StepOk(p: Pipe, mv: Move, hash: string -> nat, decode: Decoder)
    requires PipeOk(p, hash, decode)
    ensures PipeOk(Step(p, mv, hash, decode), hash, decode)
    ensures |Step(p, mv, hash, decode).lanes| == |p.lanes|
  {
    match mv
    case ConsumerMoves(m) =>
      if p.pushing.None? { ConsumerTakesOk(p, m, hash, decode); } else { ConsumerContinuesOk(p, m, hash, decode); }
    case DrainMoves(w) => DrainMoveOk(p, w, hash, decode);
    case WorkerMoves(w, types) =>
      if w < |p.lanes| {
        WorkerStepOk(p.lanes[w], types, decode);
        ReplaceLane(p, Step(p, mv, hash, decode), w, hash, decode);
      }
  }

  lemma InitOk(n: nat, rawRoom: nat, evtRoom: nat, hash: string -> nat, decode: Decoder)
    requires n > 0 && rawRoom > 0 && evtRoom > 0
    ensures PipeOk(InitPipe(n, rawRoom, evtRoom), hash, decode)
  {
    NewChanOk<RawMsg>(rawRoom);
    NewChanOk<Event>(evtRoom);
  }

  /** The system after `moves`, for any number of workers and any queue sizes. */
  ghost function Exec(n: nat, rawRoom: nat, evtRoom: nat, moves: seq<Move>,
                      hash: string -> nat, decode: Decoder): (p: Pipe)
    requires n > 0 && rawRoom > 0 && evtRoom > 0
    ensures PipeOk(p, hash, decode) && |p.lanes| == n
    decreases |moves|
  {
    if moves == [] then
      InitOk(n, rawRoom, evtRoom, hash, decode);
      InitPipe(n, rawRoom, evtRoom)
    else
      CheckedStep(Exec(n, rawRoom, evtRoom, Front(moves), hash, decode), Last(moves), hash, decode)
  }

  ghost function CheckedStep(p: Pipe, mv: Move, hash: string -> nat, decode: Decoder): (p': Pipe)
    requires PipeOk(p, hash, decode)
    ensures p' == Step(p, mv, hash, decode) && PipeOk(p', hash, decode) && |p'.lanes| == |p.lanes|
  {
    StepOk(p, mv, hash, decode);
    Step(p, mv, hash, decode)
  }

  // ------------------------------------------------------------ routing

  lemma {:induction false} OfMember<T>(s: seq<Tagged<T>>, t: Tagged<T>)
    requires t in s
    ensures t.x in Of(s, t.w)
    decreases |s|
  {
    if t != Last(s) {
      assert s == Front(s) + [Last(s)];
      OfMember(Front(s), t);
    }
  }

  lemma {:induction false} OfMemberBack<T>(s: seq<Tagged<T>>, w: nat, x: T)
    requires x in Of(s, w)
    ensures Tagged(w, x) in s
    decreases |s|
  {
    if s != [] {
      assert s == Front(s) + [Last(s)];
      if x in Of(Front(s), w) { OfMemberBack(Front(s), w, x); }
    }
  }

  lemma MergeMember<T>(a: seq<T>, b: seq<T>, c: seq<T>, x: T)
    requires Merge(a, b, c) && x in a
    ensures x in c
  {
    MergeCounts(a, b, c);
    assert x in multiset(a);
    assert x in multiset(c);
  }

  lemma DeliveredWasSubmitted<T>(c: Chan<T>, x: T)
    requires ChanOk(c) && x in c.delivered
    ensures x in c.submitted
  {
    MergeMember(c.delivered, c.dropped, Gone(c), x);
  }

  /** A drained event with a key comes from the worker that serves that key. */
  lemma DrainedFrom(p: Pipe, t: Tagged<Event>, hash: string -> nat, decode: Decoder)
    requires PipeOk(p, hash, decode) && t in p.drained && t.x.key != ""
    ensures t.w == hash(t.x.key) % |p.lanes|
  {
    var l := p.lanes[t.w];
    OfMember(p.drained, t);
    DeliveredWasSubmitted(l.evt, t.x);
    var i :| 0 <= i < |l.evt.submitted| && l.evt.submitted[i] == t.x;
    var m := Decoded(l)[i];
    assert Reports(m, t.x, decode);
    assert m in l.raw.delivered by { assert l.raw.delivered[i] == m; }
    DeliveredWasSubmitted(l.raw, m);
    OfMemberBack(p.consumed, t.w, m);
    assert Tagged(t.w, m) in p.consumed;
  }

  // ------------------------------------------------------------ main theorems

  /** The history of one key: of the messages consumed with key `k`, in order,
      some are `lost` and the others are first the messages `ms` reported by the
      drained and then the undrained events of that key, then those still
      waiting.  Lost is exactly what the one worker that serves the key dropped
      from its raw queue or after decoding. */
  ghost predicate KeyHistory(p: Pipe, k: string, ms: seq<RawMsg>, lost: seq<RawMsg>,
                             hash: string -> nat, decode: Decoder)
    requires p.lanes != []
  {
    var l := p.lanes[hash(k) % |p.lanes|];
    var msg, event := MsgKey(k), EventKey(k);
    && Images(ms, Filter(All(p.drained), event) + Filter(Undrained(l), event), decode)
    && Merge(ms + Filter(Waiting(l), msg), lost, Filter(All(p.consumed), msg))
    && |lost| == |Filter(l.raw.dropped, msg)| + |Filter(l.evt.dropped, event)|
  }

  // No drops as long as no more was routed to a worker than its queues hold.

  ghost predicate LaneSparse(l: Lane, rawRoom: nat, evtRoom: nat) {
    Sparse(l.raw) && Sparse(l.evt) && l.raw.room == rawRoom && l.evt.room == evtRoom
  }

  lemma WorkerStepSparse(l: Lane, types: map<string, MsgType>, decode: Decoder, rawRoom: nat, evtRoom: nat)
    requires LaneOk(l, decode) && LaneSparse(l, rawRoom, evtRoom)
    ensures LaneSparse(WorkerStep(l, types, decode), rawRoom, evtRoom)
  {
    if !l.evt.pusher.Idle? {
      PusherStepSparse(l.evt, l.evt.pusher.v);
    } else if l.decoding.Some? {
      PusherStepSparse(l.evt, EventFor(l.decoding.value, types, decode));
    } else if l.raw.q != [] {
      ConsumerStepSparse(l.raw);
    }
  }

  ghost predicate PipeSparse(p: Pipe, rawRoom: nat, evtRoom: nat) {
    forall w :: 0 <= w < |p.lanes| ==> LaneSparse(p.lanes[w], rawRoom, evtRoom)
  }

  lemma ReplaceSparse(p: Pipe, w: nat, l: Lane, rawRoom: nat, evtRoom: nat)
    requires PipeSparse(p, rawRoom, evtRoom) && w < |p.lanes| && LaneSparse(l, rawRoom, evtRoom)
    ensures PipeSparse(p.(lanes := p.lanes[w := l]), rawRoom, evtRoom)
  {
  }

  lemma StepSparse(p: Pipe, mv: Move, hash: string -> nat, decode: Decoder, rawRoom: nat, evtRoom: nat)
    requires PipeOk(p, hash, decode) && PipeSparse(p, rawRoom, evtRoom)
    ensures PipeSparse(Step(p, mv, hash, decode), rawRoom, evtRoom)
  {
    var w :=
      match mv
      case ConsumerMoves(m) => if p.pushing.None? then WorkerFor(m.key, p.rr, |p.lanes|, hash) else p.pushing.value
      case WorkerMoves(w, _) => w
      case DrainMoves(w) => w;
    if w < |p.lanes| {
      var l := p.lanes[w];
      assert LaneOk(l, decode) && LaneSparse(l, rawRoom, evtRoom);
      match mv
      case ConsumerMoves(m) =>
        PusherStepSparse(l.raw, m);
        ReplaceSparse(p, w, Receive(l, m), rawRoom, evtRoom);
      case WorkerMoves(_, types) =>
        WorkerStepSparse(l, types, decode, rawRoom, evtRoom);
        ReplaceSparse(p, w, WorkerStep(l, types, decode), rawRoom, evtRoom);
      case DrainMoves(_) =>
        ConsumerStepSparse(l.evt);
        ReplaceSparse(p, w, l.(evt := ConsumerStep(l.evt)), rawRoom, evtRoom);
    }
  }

  lemma {:induction false} ExecSparse(n: nat, rawRoom: nat, evtRoom: nat, moves: seq<Move>,
                                      hash: string -> nat, decode: Decoder)
    requires n > 0 && rawRoom > 0 && evtRoom > 0
    ensures PipeSparse(Exec(n, rawRoom, evtRoom, moves, hash, decode), rawRoom, evtRoom)
    decreases |moves|
  {
    if moves != [] {
      ExecSparse(n, rawRoom, evtRoom, Front(moves), hash, decode);
      StepSparse(Exec(n, rawRoom, evtRoom, Front(moves), hash, decode), Last(moves), hash, decode, rawRoom, evtRoom);
    }
  }

  lemma DeliveredAtMost<T>(c: Chan<T>)
    requires ChanOk(c)
    ensures |c.delivered| <= |c.submitted|
  {
    MergeCounts(c.delivered, c.dropped, Gone(c));
  }

  /** Whatever the schedule, a worker that was sent no more messages than each of
      its queues holds has dropped none of them and no event. */
  lemma FewMessagesNoDrops(n: nat, rawRoom: nat, evtRoom: nat, moves: seq<Move>,
                           hash: string -> nat, decode: Decoder, w: nat)
    requires n > 0 && rawRoom > 0 && evtRoom > 0 && w < n
    ensures var p := Exec(n, rawRoom, evtRoom, moves, hash, decode);
            && (|Of(p.consumed, w)| <= rawRoom ==> p.lanes[w].raw.dropped == [])
            && (|Of(p.consumed, w)| <= evtRoom ==> p.lanes[w].evt.dropped == [])
  {
    var p := Exec(n, rawRoom, evtRoom, moves, hash, decode);
    ExecSparse(n, rawRoom, evtRoom, moves, hash, decode);
    assert LaneOk(p.lanes[w], decode) && LaneSparse(p.lanes[w], rawRoom, evtRoom);
    DeliveredAtMost(p.lanes[w].raw);
  }

  /** Per-key order and conservation: for every schedule, every hash and decoder
      and every nonempty key, the drained events of that key report a
      subsequence of the messages consumed with it, in order; and without drops,
      for instance while the key's worker was sent no more messages than its
      queues hold, nothing is missing and nothing overtakes. */
  lemma PerKeyOrder(n: nat, rawRoom: nat, evtRoom: nat, moves: seq<Move>,
                    hash: string -> nat, decode: Decoder, k: string)
    returns (ms: seq<RawMsg>, lost: seq<RawMsg>)
    requires n > 0 && rawRoom > 0 && evtRoom > 0 && k != ""
    ensures var p := Exec(n, rawRoom, evtRoom, moves, hash, decode);
            var w := hash(k) % n;
            var l := p.lanes[w];
            && KeyHistory(p, k, ms, lost, hash, decode)
            && (|Of(p.consumed, w)| <= rawRoom && |Of(p.consumed, w)| <= evtRoom ==>
                  l.raw.dropped == [] && l.evt.dropped == [])
            && (l.raw.dropped == [] && l.evt.dropped == [] ==>
                  ms + Filter(Waiting(l), MsgKey(k)) == Filter(All(p.consumed), MsgKey(k)))
  {
    var p := Exec(n, rawRoom, evtRoom, moves, hash, decode);
    ms, lost := KeyHistoryExists(p, k, hash, decode);
    FewMessagesNoDrops(n, rawRoom, evtRoom, moves, hash, decode, hash(k) % n);
    NoDropsNoLoss(p, k, ms, lost, hash, decode);
  }

  lemma NoDropsNoLoss(p: Pipe, k: string, ms: seq<RawMsg>, lost: seq<RawMsg>,
                      hash: string -> nat, decode: Decoder)
    requires p.lanes != [] && KeyHistory(p, k, ms, lost, hash, decode)
    ensures var l := p.lanes[hash(k) % |p.lanes|];
            l.raw.dropped == [] && l.evt.dropped == [] ==>
              ms + Filter(Waiting(l), MsgKey(k)) == Filter(All(p.consumed), MsgKey(k))
  {
    var l := p.lanes[hash(k) % |p.lanes|];
    if l.raw.dropped == [] && l.evt.dropped == [] {
      assert lost == [];
      MergeNothing(ms + Filter(Waiting(l), MsgKey(k)), Filter(All(p.consumed), MsgKey(k)));
    }
  }

  lemma KeyHistoryExists(p: Pipe, k: string, hash: string -> nat, decode: Decoder)
    returns (ms: seq<RawMsg>, lost: seq<RawMsg>)
    requires PipeOk(p, hash, decode) && k != ""
    ensures KeyHistory(p, k, ms, lost, hash, decode)
  {
    var w := hash(k) % |p.lanes|;
    var l, msg, event := p.lanes[w], MsgKey(k), EventKey(k);
    var all, lostEvents, gone := LaneHistory(l, decode);
    ms, lost := Filter(all, msg), Filter(gone, msg);
    FilterMerge(all + Waiting(l), gone, l.raw.submitted, msg);
    FilterAppend(all, Waiting(l), msg);
    ImagesFilter(all, l.evt.delivered + Undrained(l), k, decode);
    FilterAppend(l.evt.delivered, Undrained(l), event);
    OneWorkerFilter(p.consumed, w, msg);
    forall t | t in p.drained && event(t.x) ensures t.w == w {
      DrainedFrom(p, t, hash, decode);
    }
    OneWorkerFilter(p.drained, w, event);
    ImagesFilter(lostEvents, l.evt.dropped, k, decode);
    FilterMerge(lostEvents, l.raw.dropped, gone, msg);
    MergeCounts(Filter(lostEvents, msg), Filter(l.raw.dropped, msg), lost);
  }

  /** Conservation, per worker and in every reachable state: everything sent to
      a worker is drained, undrained, waiting or dropped, and every message it
      took gave exactly one event. */
  lemma Conservation(n: nat, rawRoom: nat, evtRoom: nat, moves: seq<Move>,
                     hash: string -> nat, decode: Decoder, w: nat)
    requires n > 0 && rawRoom > 0 && evtRoom > 0 && w < n
    ensures var p := Exec(n, rawRoom, evtRoom, moves, hash, decode);
            var l := p.lanes[w];
            && |Of(p.consumed, w)| == |Of(p.drained, w)| + |Undrained(l)| + |Waiting(l)|
                                      + |l.raw.dropped| + |l.evt.dropped|
            && |l.raw.delivered| == |l.evt.submitted| + |Opt(l.decoding)|
            && l.raw.refused == [] && l.evt.refused == []
  {
    var p := Exec(n, rawRoom, evtRoom, moves, hash, decode);
    LaneConservation(p.lanes[w], decode);
  }

  lemma LaneConservation(l: Lane, decode: Decoder)
    requires LaneOk(l, decode)
    ensures |l.raw.submitted| == |l.evt.delivered| + |Undrained(l)| + |Waiting(l)|
                                 + |l.raw.dropped| + |l.evt.dropped|
  {
    var ms, lostEvents, lost := LaneHistory(l, decode);
    MergeCounts(lostEvents, l.raw.dropped, lost);
    MergeCounts(ms + Waiting(l), lost, l.raw.submitted);
  }
}
