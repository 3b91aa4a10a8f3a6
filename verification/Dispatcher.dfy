/**
 The dispatcher of the feed handler: every downstream has its own queue and its
 own worker thread that feeds its sink.  First the classes, then the threads:
 one dispatching thread and one worker per downstream, every queue operation
 being one atomic step.
 */
module Dispatcher {
  import opened Bits
  import opened Seqs
  import opened SpscQueue
  import opened DropOldest
  import opened Envelopes

  /** `shared_ptr<const Envelope>`: absent, or the envelope. */
  type EnvelopeRef = Option<Envelope>

  const QUEUE_SLOTS: nat := 8192

  lemma QueueSlotsOk()
    ensures CapacityOk(QUEUE_SLOTS)
  {
    assert Pow2(8) == 256;
    assert Pow2(5) == 32;
    Pow2Add(8, 5);
    assert IsPow2(QUEUE_SLOTS);
    CapacityOkIffPow2(QUEUE_SLOTS);
  }

  class QueuedDownstream {
    const q: SPSCQueue<EnvelopeRef>
    var running: bool
    var sink: seq<EnvelopeRef>      // what sink_->submit received

    ghost predicate Valid()
      reads this, q
    {
      q.Valid() && q.cap == QUEUE_SLOTS
    }

    ghost function Queue(): (s: seq<EnvelopeRef>)
      requires Valid()
      reads this, q, q.buf
      ensures |s| <= QUEUE_SLOTS - 1
    {
      q.Contents()
    }

    constructor ()
      ensures Valid() && fresh(q) && fresh(q.buf)
      ensures Queue() == [] && sink == [] && !running && q.Room() == 8191
    {
      QueueSlotsOk();
      q := new SPSCQueue<EnvelopeRef>(QUEUE_SLOTS);
      running, sink := false, [];
    }

    /** Never blocks and never fails: a full queue loses its oldest element. */
    method Submit(e: EnvelopeRef)
      requires Valid()
      modifies q`head, q`tail, q.buf
      ensures Valid() && Queue() == Push(old(Queue()), QUEUE_SLOTS - 1, e).0
    {
      var dropped := PushDropOldest(q, e);
    }

    /** One turn of the worker while it is running. */
    method Turn()
      requires Valid()
      modifies this`sink, q`tail
      ensures Valid()
      ensures old(Queue()) == [] ==> Queue() == [] && sink == old(sink)
      ensures old(Queue()) != [] ==>
                Queue() == old(Queue())[1..] && sink == old(sink) + [old(Queue())[0]]
    {
      var e := q.TryPop();
      if e.Some? { sink := sink + [e.value]; }
    }

    /** What the worker does once `running` is false: hand over everything left. */
    method DrainRemaining()
      requires Valid()
      modifies this`sink, q`tail
      ensures Valid()
      ensures Queue() == [] && sink == old(sink) + old(Queue())
    {
      PopKeeps(sink, Queue());
      var e := q.TryPop();
      while e.Some?
        invariant Valid()
        invariant e.None? ==> Queue() == []
        invariant sink + InHandOf(e) + Queue() == old(sink) + old(Queue())
        decreases |Queue()|, e.Some?
      {
        sink := sink + [e.value];
        PopKeeps(sink, Queue());
        e := q.TryPop();
      }
    }
  }

  /** The element just popped, until it is handed to the sink. */
  function InHandOf(e: Option<EnvelopeRef>): seq<EnvelopeRef> {
    if e.Some? then [e.value] else []
  }

  lemma PopKeeps(s: seq<EnvelopeRef>, q: seq<EnvelopeRef>)
    ensures var (q', e) := FifoPop(q); s + InHandOf(e) + q' == s + q && (e.None? ==> q' == [])
  {
  }

  /** The downstreams and everything they own are pairwise different objects. */
  ghost predicate Separate(ds: seq<QueuedDownstream>) {
    forall i, j :: 0 <= i < j < |ds| ==>
      ds[i] != ds[j] && ds[i].q != ds[j].q && ds[i].q.buf != ds[j].q.buf
  }

  /** Submitting to one downstream touches no other. */
  method SubmitTo(ds: seq<QueuedDownstream>, i: nat, e: EnvelopeRef)
    requires i < |ds| && Separate(ds) && forall k :: 0 <= k < |ds| ==> ds[k].Valid()
    modifies ds[i].q, ds[i].q.buf
    ensures forall k :: 0 <= k < |ds| ==> ds[k].Valid()
    ensures ds[i].Queue() == Push(old(ds[i].Queue()), QUEUE_SLOTS - 1, e).0
    ensures forall k :: 0 <= k < |ds| && k != i ==> ds[k].Queue() == old(ds[k].Queue())
  {
    forall k | 0 <= k < |ds| && k != i ensures ds[k].q != ds[i].q && ds[k].q.buf != ds[i].q.buf {
      if k < i {} else {}
    }
    ds[i].Submit(e);
  }

  /** `dispatch`: every downstream gets the envelope, and each queue changes as
      if it were the only one. */
  method Dispatch(ds: seq<QueuedDownstream>, e: EnvelopeRef)
    requires Separate(ds) && forall k :: 0 <= k < |ds| ==> ds[k].Valid()
    modifies set d | d in ds :: d.q
    modifies set d | d in ds :: d.q.buf
    ensures forall k :: 0 <= k < |ds| ==>
              ds[k].Valid() && ds[k].Queue() == Push(old(ds[k].Queue()), QUEUE_SLOTS - 1, e).0
  {
    for i := 0 to |ds|
      invariant forall k :: 0 <= k < |ds| ==> ds[k].Valid()
      invariant forall k :: 0 <= k < i ==> ds[k].Queue() == Push(old(ds[k].Queue()), QUEUE_SLOTS - 1, e).0
      invariant forall k :: i <= k < |ds| ==> ds[k].Queue() == old(ds[k].Queue())
    {
      SubmitTo(ds, i, e);
    }
  }

  // ------------------------------------------------------------ the threads

  /** Where a worker's loop stands: about to test `running_`, about to pop as a
      running worker, in the drain loop, or returned. */
  datatype Worker = AtTest | AtPop | Draining | Returned

  datatype Downstream = Downstream(chan: Chan<Envelope>, running: bool, worker: Worker)

  function WorkerStep(d: Downstream): Downstream {
    match d.worker
    case AtTest => d.(worker := if d.running then AtPop else Draining)
    case AtPop => d.(chan := ConsumerStep(d.chan), worker := AtTest)
    case Draining =>
      if d.chan.q == [] then d.(worker := Returned) else d.(chan := ConsumerStep(d.chan))
    case Returned => d
  }

  function WorkerSteps(d: Downstream, n: nat): Downstream
    decreases n
  {
    if n == 0 then d else WorkerSteps(WorkerStep(d), n - 1)
  }

  ghost predicate DownstreamOk(d: Downstream) {
    ChanOk(d.chan)
  }

  /** After `stop` and the last submission a worker returns after finitely many
      steps, whatever it was doing, with its queue empty; its sink has then
      received, in order, everything submitted except this downstream's drops. */
  lemma StopDelivers(d: Downstream, n: nat)
    requires DownstreamOk(d) && !d.running && d.chan.pusher.Idle? && d.worker != Returned
    requires n >= |d.chan.q| + 3
    ensures Delivered(d.chan, WorkerSteps(d, n))
  {
    match d.worker
    case Draining => DrainDelivers(d, n);
    case AtTest => TestDelivers(d, n);
    case AtPop => PopDelivers(d, n);
  }

  lemma PopDelivers(d: Downstream, n: nat)
    requires DownstreamOk(d) && !d.running && d.chan.pusher.Idle? && d.worker == AtPop && n >= |d.chan.q| + 3
    ensures Delivered(d.chan, WorkerSteps(d, n))
  {
    var d1 := WorkerStep(d);
    PopKeepsAccount(d.chan);
    TestDelivers(d1, n - 1);
    SameDelivery(d.chan, d1.chan, WorkerSteps(d1, n - 1));
  }

  lemma PopKeepsAccount(c: Chan<Envelope>)
    requires ChanOk(c)
    ensures var c1 := ConsumerStep(c);
            && ChanOk(c1) && |c1.q| <= |c.q| && c1.delivered + c1.q == c.delivered + c.q
            && c1.dropped == c.dropped && c1.submitted == c.submitted && c1.pusher == c.pusher
  {
    ConsumerStepOk(c);
  }

  lemma TestDelivers(d: Downstream, n: nat)
    requires DownstreamOk(d) && !d.running && d.chan.pusher.Idle? && d.worker == AtTest && n > |d.chan.q| + 1
    ensures Delivered(d.chan, WorkerSteps(d, n))
  {
    DrainDelivers(WorkerStep(d), n - 1);
  }

  /** The worker has returned and handed over all that `c` still held. */
  ghost predicate Delivered(c: Chan<Envelope>, d': Downstream) {
    && d'.worker == Returned && d'.chan.q == []
    && d'.chan.dropped == c.dropped && d'.chan.submitted == c.submitted
    && d'.chan.delivered == c.delivered + c.q
    && Merge(d'.chan.delivered, d'.chan.dropped, d'.chan.submitted)
  }

  lemma {:induction false} DrainDelivers(d: Downstream, n: nat)
    requires DownstreamOk(d) && d.worker == Draining && d.chan.pusher.Idle? && n > |d.chan.q|
    ensures Delivered(d.chan, WorkerSteps(d, n))
    decreases n
  {
    var d1 := WorkerStep(d);
    if d.chan.q == [] {
      ReturnedStays(d1, n - 1);
      EmptyIsDelivered(d);
    } else {
      DrainOne(d);
      DrainDelivers(d1, n - 1);
      SameDelivery(d.chan, d1.chan, WorkerSteps(d1, n - 1));
    }
  }

  lemma SameDelivery(c: Chan<Envelope>, c1: Chan<Envelope>, d': Downstream)
    requires Delivered(c1, d') && c1.delivered + c1.q == c.delivered + c.q
    requires c1.dropped == c.dropped && c1.submitted == c.submitted
    ensures Delivered(c, d')
  {
  }

  lemma EmptyIsDelivered(d: Downstream)
    requires DownstreamOk(d) && d.chan.pusher.Idle? && d.chan.q == []
    ensures Delivered(d.chan, d.(worker := Returned))
  {
    assert Gone(d.chan) == d.chan.submitted;
    assert d.chan.delivered + d.chan.q == d.chan.delivered;
  }

  lemma DrainOne(d: Downstream)
    requires DownstreamOk(d) && d.worker == Draining && d.chan.q != []
    ensures var d1 := WorkerStep(d);
            && DownstreamOk(d1) && d1.worker == Draining && d1.chan.pusher == d.chan.pusher
            && d1.chan.q == d.chan.q[1..]
            && d1.chan.delivered + d1.chan.q == d.chan.delivered + d.chan.q
            && d1.chan.dropped == d.chan.dropped && d1.chan.submitted == d.chan.submitted
  {
    ConsumerStepOk(d.chan);
  }

  lemma {:induction false} ReturnedStays(d: Downstream, n: nat)
    requires d.worker == Returned
    ensures WorkerSteps(d, n) == d
  {
    if n > 0 { ReturnedStays(d, n - 1); }
  }

  /** All downstreams and the dispatching thread: `busy` holds the envelope
      being handed out and the index of the downstream it is handed to. */
  datatype Fan = Fan(ds: seq<Downstream>, busy: Option<(Envelope, nat)>, dispatched: seq<Envelope>)

  datatype FanMove =
    | DispatcherMoves(e: Envelope)   // an idle dispatcher takes the envelope `e`
    | WorkerMoves(i: nat)
    | StopMoves(i: nat)

  function InitFan(n: nat): Fan {
    Fan(seq(n, i => Downstream(NewChan(QUEUE_SLOTS - 1), true, AtTest)), None, [])
  }

  /** One atomic step of the dispatching thread inside `submit` of downstream i. */
  function SubmitStep(d: Downstream, e: Envelope): Downstream {
    d.(chan := PusherStep(d.chan, e))
  }

  function FanStep(f: Fan, m: FanMove): Fan {
    match m
    case WorkerMoves(i) => if i < |f.ds| then f.(ds := f.ds[i := WorkerStep(f.ds[i])]) else f
    case StopMoves(i) => if i < |f.ds| then f.(ds := f.ds[i := f.ds[i].(running := false)]) else f
    case DispatcherMoves(e) =>
      match f.busy
      case None => f.(busy := Some((e, 0)), dispatched := f.dispatched + [e])
      case Some((e, i)) =>
        if i < |f.ds| then
          var d := SubmitStep(f.ds[i], e);
          f.(ds := f.ds[i := d], busy := if d.chan.pusher.Idle? then Some((e, i + 1)) else f.busy)
        else f.(busy := None)
  }

  function FanExec(n: nat, moves: seq<FanMove>): (f: Fan)
    ensures |f.ds| == n
  {
    if moves == [] then InitFan(n) else FanStep(FanExec(n, Front(moves)), Last(moves))
  }

  /** What downstream `i` has been given so far. */
  function GivenTo(f: Fan, i: nat): seq<Envelope>
    requires i < |f.ds| && (f.busy.Some? ==> f.dispatched != [])
  {
    match f.busy
    case None => f.dispatched
    case Some((e, j)) =>
      if i < j || (i == j && f.ds[i].chan.pusher != Idle) then f.dispatched else Front(f.dispatched)
  }

  ghost predicate FanOkAt(f: Fan, k: nat)
    requires k < |f.ds| && (f.busy.Some? ==> f.dispatched != [])
  {
    && DownstreamOk(f.ds[k])
    && (f.busy.None? || f.busy.value.1 != k ==> f.ds[k].chan.pusher == Idle)
    && f.ds[k].chan.submitted == GivenTo(f, k)
  }

  ghost predicate FanOk(f: Fan) {
    && (f.busy.Some? ==> f.dispatched != [] && Last(f.dispatched) == f.busy.value.0)
    && forall i :: 0 <= i < |f.ds| ==> FanOkAt(f, i)
  }

  /** Replacing one downstream by one with the same submissions and pusher. */
  lemma ReplaceOk(f: Fan, i: nat, d: Downstream)
    requires FanOk(f) && i < |f.ds| && DownstreamOk(d)
    requires d.chan.submitted == f.ds[i].chan.submitted && d.chan.pusher == f.ds[i].chan.pusher
    ensures FanOk(f.(ds := f.ds[i := d]))
  {
    var f' := f.(ds := f.ds[i := d]);
    forall k | 0 <= k < |f'.ds| ensures FanOkAt(f', k) {
      assert FanOkAt(f, k) && GivenTo(f', k) == GivenTo(f, k);
    }
  }

  lemma DispatcherStepOk(f: Fan, e0: Envelope)
    requires FanOk(f)
    ensures FanOk(FanStep(f, DispatcherMoves(e0)))
  {
    var f' := FanStep(f, DispatcherMoves(e0));
    if f.busy.Some? && f.busy.value.1 < |f.ds| {
      SubmitOwn(f, e0);
      SubmitOthers(f, e0);
      forall k | 0 <= k < |f'.ds| ensures FanOkAt(f', k) {
        if k == f.busy.value.1 {} else {}
      }
    } else {
      if f.busy.None? { FrontAppend(f.dispatched, e0); }
      forall k | 0 <= k < |f'.ds| ensures FanOkAt(f', k) {
        assert FanOkAt(f, k);
      }
    }
  }

  lemma SubmitOwn(f: Fan, e0: Envelope)
    requires FanOk(f) && f.busy.Some? && f.busy.value.1 < |f.ds|
    ensures FanOkAt(FanStep(f, DispatcherMoves(e0)), f.busy.value.1)
  {
    var (e, i) := f.busy.value;
    assert FanOkAt(f, i);
    PusherStepOk(f.ds[i].chan, e);
    assert f.dispatched == Front(f.dispatched) + [e];
  }

  lemma SubmitOthers(f: Fan, e0: Envelope)
    requires FanOk(f) && f.busy.Some? && f.busy.value.1 < |f.ds|
    ensures var f' := FanStep(f, DispatcherMoves(e0));
            forall k :: 0 <= k < |f.ds| && k != f.busy.value.1 ==> FanOkAt(f', k)
  {
    var f' := FanStep(f, DispatcherMoves(e0));
    forall k | 0 <= k < |f.ds| && k != f.busy.value.1 ensures FanOkAt(f', k) {
      assert FanOkAt(f, k) && f'.ds[k] == f.ds[k];
    }
  }

  lemma FanStepOk(f: Fan, m: FanMove)
    requires FanOk(f)
    ensures FanOk(FanStep(f, m))
  {
    match m
    case WorkerMoves(i) =>
      if i < |f.ds| {
        assert FanOkAt(f, i);
        WorkerStepKeeps(f.ds[i]);
        ReplaceOk(f, i, WorkerStep(f.ds[i]));
      }
    case StopMoves(i) =>
      if i < |f.ds| {
        assert FanOkAt(f, i);
        ReplaceOk(f, i, f.ds[i].(running := false));
      }
    case DispatcherMoves(e) =>
      DispatcherStepOk(f, e);
  }

  lemma WorkerStepKeeps(d: Downstream)
    requires DownstreamOk(d)
    ensures var d' := WorkerStep(d);
            && DownstreamOk(d') && d'.chan.submitted == d.chan.submitted
            && d'.chan.dropped == d.chan.dropped && d'.chan.pusher == d.chan.pusher
  {
    var c := WorkerStep(d).chan;
    if c != d.chan {
      assert c == ConsumerStep(d.chan);
      ConsumerStepOk(d.chan);
    }
  }

  lemma {:induction false} FanExecOk(n: nat, moves: seq<FanMove>)
    ensures FanOk(FanExec(n, moves))
  {
    if moves == [] {
      NewChanOk<Envelope>(QUEUE_SLOTS - 1);
    } else {
      FanExecOk(n, Front(moves));
      FanStepOk(FanExec(n, Front(moves)), Last(moves));
    }
  }

  /** Whatever the schedule and however slow the workers: whenever no dispatch
      is in progress, every downstream was given exactly the dispatched
      envelopes, and they are what its sink received merged in order with its
      own drops, followed by its own queue. */
  lemma EveryDownstreamGetsAll(n: nat, moves: seq<FanMove>, i: nat)
    requires i < n && FanExec(n, moves).busy.None?
    ensures var f := FanExec(n, moves);
            var c := f.ds[i].chan;
            && c.submitted == f.dispatched
            && exists gone :: f.dispatched == gone + c.q && Merge(c.delivered, c.dropped, gone)
  {
    FanExecOk(n, moves);
    var f := FanExec(n, moves);
    var c := f.ds[i].chan;
    assert FanOkAt(f, i);
    assert Gone(c) + c.q + InHand(c) == Gone(c) + c.q;
    assert f.dispatched == Gone(c) + c.q && Merge(c.delivered, c.dropped, Gone(c));
  }

  // Non-interference: what downstream i goes through is determined by the
  // moves addressed to it alone.

  datatype OwnMove = OwnSubmit(e: Envelope) | OwnWorker | OwnStop

  function OwnStep(d: Downstream, m: OwnMove): Downstream {
    match m
    case OwnSubmit(e) => SubmitStep(d, e)
    case OwnWorker => WorkerStep(d)
    case OwnStop => d.(running := false)
  }

  function OwnExec(moves: seq<OwnMove>): Downstream {
    if moves == [] then Downstream(NewChan(QUEUE_SLOTS - 1), true, AtTest)
    else OwnStep(OwnExec(Front(moves)), Last(moves))
  }

  /** The move that `m`, made in state `f`, is for downstream `i`, if any. */
  function Addressed(f: Fan, m: FanMove, i: nat): seq<OwnMove> {
    match m
    case WorkerMoves(j) => if i == j then [OwnWorker] else []
    case StopMoves(j) => if i == j then [OwnStop] else []
    case DispatcherMoves(_) =>
      if f.busy.Some? && f.busy.value.1 == i then [OwnSubmit(f.busy.value.0)] else []
  }

  function Projection(n: nat, moves: seq<FanMove>, i: nat): seq<OwnMove> {
    if moves == [] then []
    else Projection(n, Front(moves), i) + Addressed(FanExec(n, Front(moves)), Last(moves), i)
  }

  lemma FanStepIsOwn(f: Fan, m: FanMove, i: nat)
    requires i < |f.ds|
    ensures var a := Addressed(f, m, i);
            |a| <= 1 && FanStep(f, m).ds[i] == if a == [] then f.ds[i] else OwnStep(f.ds[i], a[0])
  {
  }

  lemma OwnExecPlus(own: seq<OwnMove>, a: seq<OwnMove>)
    requires |a| <= 1
    ensures OwnExec(own + a) == if a == [] then OwnExec(own) else OwnStep(OwnExec(own), a[0])
  {
    if a == [] {
      assert own + a == own;
    } else {
      assert a == [a[0]];
      FrontAppend(own, a[0]);
    }
  }

  lemma {:induction false} OthersDoNotInterfere(n: nat, moves: seq<FanMove>, i: nat)
    requires i < n
    ensures FanExec(n, moves).ds[i] == OwnExec(Projection(n, moves, i))
  {
    if moves != [] {
      OthersDoNotInterfere(n, Front(moves), i);
      var f := FanExec(n, Front(moves));
      FanStepIsOwn(f, Last(moves), i);
      OwnExecPlus(Projection(n, Front(moves), i), Addressed(f, Last(moves), i));
    }
  }

  // Stopping inside the fan: all other threads go on as they like.

  /** The moves for downstream `i` in `more`, made after `moves`. */
  function Later(n: nat, moves: seq<FanMove>, more: seq<FanMove>, i: nat): seq<OwnMove> {
    if more == [] then []
    else Later(n, moves, Front(more), i) + Addressed(FanExec(n, moves + Front(more)), Last(more), i)
  }

  lemma ProjectionSnoc(n: nat, moves: seq<FanMove>, m: FanMove, i: nat)
    ensures Projection(n, moves + [m], i) == Projection(n, moves, i) + Addressed(FanExec(n, moves), m, i)
  {
    FrontAppend(moves, m);
  }

  lemma {:induction false} ProjectionSplits(n: nat, moves: seq<FanMove>, more: seq<FanMove>, i: nat)
    ensures Projection(n, moves + more, i) == Projection(n, moves, i) + Later(n, moves, more, i)
    decreases |more|
  {
    if more == [] {
      assert moves + more == moves;
      assert Projection(n, moves, i) + [] == Projection(n, moves, i);
    } else {
      var f, m := Front(more), Last(more);
      ProjectionSplits(n, moves, f, i);
      FrontLast(more);
      Regroup(moves, f, [m]);
      ProjectionSnoc(n, moves + f, m, i);
      Regroup(Projection(n, moves, i), Later(n, moves, f, i), Addressed(FanExec(n, moves + f), m, i));
    }
  }

  /** No submission to downstream `i` is under way or made after `moves`. */
  predicate NoSubmissions(own: seq<OwnMove>) {
    forall m :: m in own ==> !m.OwnSubmit?
  }

  function WorkerTurns(own: seq<OwnMove>): nat {
    if own == [] then 0 else WorkerTurns(Front(own)) + if Last(own).OwnWorker? then 1 else 0
  }

  lemma {:induction false} OneMoreStep(d: Downstream, n: nat)
    ensures WorkerSteps(d, n + 1) == WorkerStep(WorkerSteps(d, n))
    decreases n
  {
    if n > 0 { OneMoreStep(WorkerStep(d), n - 1); }
  }

  lemma {:induction false} StaysStopped(d: Downstream, n: nat)
    requires !d.running
    ensures !WorkerSteps(d, n).running
    decreases n
  {
    if n > 0 { StaysStopped(WorkerStep(d), n - 1); }
  }

  /** A downstream after the moves `own`. */
  function OwnFrom(d: Downstream, own: seq<OwnMove>): Downstream {
    if own == [] then d else OwnStep(OwnFrom(d, Front(own)), Last(own))
  }

  lemma {:induction false} OwnExecSplits(before: seq<OwnMove>, own: seq<OwnMove>)
    ensures OwnExec(before + own) == OwnFrom(OwnExec(before), own)
    decreases |own|
  {
    if own == [] {
      assert before + own == before;
    } else {
      OwnExecSplits(before, Front(own));
      FrontLast(own);
      Regroup(before, Front(own), [Last(own)]);
      FrontAppend(before + Front(own), Last(own));
    }
  }

  /** Without submissions only the worker's own turns change a stopped downstream. */
  lemma {:induction false} OnlyTurnsCount(d: Downstream, own: seq<OwnMove>)
    requires NoSubmissions(own) && !d.running
    ensures OwnFrom(d, own) == WorkerSteps(d, WorkerTurns(own))
    decreases |own|
  {
    if own != [] {
      OnlyTurnsCount(d, Front(own));
      StoppedStep(d, WorkerTurns(Front(own)), Last(own));
    }
  }

  lemma StoppedStep(d: Downstream, n: nat, m: OwnMove)
    requires !d.running && !m.OwnSubmit?
    ensures OwnStep(WorkerSteps(d, n), m) == WorkerSteps(d, n + if m.OwnWorker? then 1 else 0)
  {
    OneMoreStep(d, n);
    StaysStopped(d, n);
  }

  lemma {:induction false} StopSticks(n: nat, moves: seq<FanMove>, i: nat)
    requires i < n && StopMoves(i) in moves
    ensures !FanExec(n, moves).ds[i].running
    decreases |moves|
  {
    if Last(moves) != StopMoves(i) {
      assert moves == Front(moves) + [Last(moves)];
      StopSticks(n, Front(moves), i);
    }
  }

  /** Main theorem on stopping: in every schedule in which downstream `i` has
      been stopped and its worker has not yet returned, every continuation that
      submits nothing more to it and gives its worker enough turns ends with its
      queue empty and its sink having received, in order, everything submitted
      to it but its own drops, whatever the dispatcher, the other workers and
      the other stops do in between. */
  lemma StopDeliversInFan(n: nat, moves: seq<FanMove>, more: seq<FanMove>, i: nat)
    requires i < n && StopMoves(i) in moves
    requires FanExec(n, moves).ds[i].chan.pusher.Idle? && FanExec(n, moves).ds[i].worker != Returned
    requires var own := Later(n, moves, more, i);
             NoSubmissions(own) && WorkerTurns(own) >= |FanExec(n, moves).ds[i].chan.q| + 3
    ensures Delivered(FanExec(n, moves).ds[i].chan, FanExec(n, moves + more).ds[i])
  {
    FanExecOk(n, moves);
    var d, own := FanExec(n, moves).ds[i], Later(n, moves, more, i);
    assert FanOkAt(FanExec(n, moves), i);
    StopSticks(n, moves, i);
    OthersDoNotInterfere(n, moves, i);
    OthersDoNotInterfere(n, moves + more, i);
    ProjectionSplits(n, moves, more, i);
    OwnExecSplits(Projection(n, moves, i), own);
    OnlyTurnsCount(d, own);
    StopDelivers(d, WorkerTurns(own));
  }

  // ------------------------------------------------------------ delivery while running

  function Min(a: nat, b: nat): nat { if a < b then a else b }

  /** `d` after its worker handed over the `k` oldest elements, or all of them. */
  ghost predicate HandedOver(d: Downstream, k: nat, d': Downstream) {
    var m := Min(k, |d.chan.q|);
    && d'.chan.delivered == d.chan.delivered + d.chan.q[..m] && d'.chan.q == d.chan.q[m..]
    && d'.chan.dropped == d.chan.dropped && d'.chan.submitted == d.chan.submitted
    && d'.running == d.running && d'.worker == AtTest
  }

  lemma TwoTurns(d: Downstream)
    requires d.running && d.worker == AtTest
    ensures HandedOver(d, 1, WorkerSteps(d, 2))
  {
    var d1 := WorkerStep(d);
    assert WorkerSteps(d, 2) == WorkerSteps(d1, 1) == WorkerSteps(WorkerStep(d1), 0);
    if d.chan.q != [] { assert d.chan.q[..1] == [d.chan.q[0]]; }
  }

  lemma {:induction false} MoreSteps(d: Downstream, a: nat, b: nat)
    ensures WorkerSteps(d, a + b) == WorkerSteps(WorkerSteps(d, a), b)
    decreases a
  {
    if a > 0 { MoreSteps(WorkerStep(d), a - 1, b); }
  }

  lemma TakeTwice<T>(q: seq<T>, m: nat)
    requires q != [] && m <= |q| - 1
    ensures q[..1] + q[1..][..m] == q[..m + 1] && q[1..][m..] == q[m + 1..]
  {
  }

  lemma HandedOverTwice(d: Downstream, k: nat, d1: Downstream, d2: Downstream)
    requires HandedOver(d, 1, d1) && HandedOver(d1, k, d2)
    ensures HandedOver(d, k + 1, d2)
  {
    var q := d.chan.q;
    if q != [] {
      var m := Min(k, |q| - 1);
      assert d1.chan.q == q[1..] && d1.chan.delivered == d.chan.delivered + q[..1];
      TakeTwice(q, m);
      Regroup(d.chan.delivered, q[..1], q[1..][..m]);
    } else {
      assert d.chan.delivered + [] == d.chan.delivered;
    }
  }

  /** A running worker takes two turns, a test and a pop, for each element. */
  lemma {:induction false} RunningDelivers(d: Downstream, k: nat)
    requires d.running && d.worker == AtTest
    ensures HandedOver(d, k, WorkerSteps(d, 2 * k))
    decreases k
  {
    if k > 0 {
      var d1 := WorkerSteps(d, 2);
      TwoTurns(d);
      RunningDelivers(d1, k - 1);
      MoreSteps(d, 2, 2 * (k - 1));
      HandedOverTwice(d, k - 1, d1, WorkerSteps(d1, 2 * (k - 1)));
    } else {
      assert d.chan.q[..0] == [];
    }
  }

  predicate OnlyTurns(own: seq<OwnMove>) {
    forall m :: m in own ==> m.OwnWorker?
  }

  lemma {:induction false} TurnsAreSteps(d: Downstream, own: seq<OwnMove>)
    requires OnlyTurns(own)
    ensures OwnFrom(d, own) == WorkerSteps(d, |own|)
    decreases |own|
  {
    if own != [] {
      assert Last(own).OwnWorker?;
      TurnsAreSteps(d, Front(own));
      OneMoreStep(d, |Front(own)|);
    }
  }

  /** Main theorem on running: in every schedule, a continuation that gives the
      worker of a running downstream 2k turns, starting at its test, and neither
      stops it nor submits to it, has handed over the k oldest elements of its
      queue, or all of them, in order, however all other threads move. */
  lemma RunningDeliversInFan(n: nat, moves: seq<FanMove>, more: seq<FanMove>, i: nat, k: nat)
    requires i < n && FanExec(n, moves).ds[i].running && FanExec(n, moves).ds[i].worker == AtTest
    requires var own := Later(n, moves, more, i); OnlyTurns(own) && |own| == 2 * k
    ensures HandedOver(FanExec(n, moves).ds[i], k, FanExec(n, moves + more).ds[i])
  {
    var d, own := FanExec(n, moves).ds[i], Later(n, moves, more, i);
    OthersDoNotInterfere(n, moves, i);
    OthersDoNotInterfere(n, moves + more, i);
    ProjectionSplits(n, moves, more, i);
    OwnExecSplits(Projection(n, moves, i), own);
    TurnsAreSteps(d, own);
    RunningDelivers(d, k);
  }

  // ------------------------------------------------------------ dispatching comes to an end

  /** How many turns the dispatching thread gets. */
  function DispatchTurns(moves: seq<FanMove>): nat {
    if moves == [] then 0 else DispatchTurns(Front(moves)) + if Last(moves).DispatcherMoves? then 1 else 0
  }

  /** The turns it still needs at most: three per remaining downstream. */
  function TurnsLeft(f: Fan): nat {
    match f.busy
    case None => 0
    case Some((_, i)) =>
      if i >= |f.ds| then 1
      else 3 * (|f.ds| - i) + 1 - (match f.ds[i].chan.pusher case Idle => 0 case SawFull(_) => 1 case Evicted(_) => 2)
  }

  lemma TurnBringsCloser(f: Fan, m: FanMove)
    requires f.busy.Some?
    ensures var f' := FanStep(f, m);
            && |f'.ds| == |f.ds| && f'.dispatched == f.dispatched
            && (f'.busy.None? || TurnsLeft(f') <= TurnsLeft(f) - if m.DispatcherMoves? then 1 else 0)
  {
    match m
    case DispatcherMoves(_) => DispatcherTurn(f, m);
    case WorkerMoves(j) => if j < |f.ds| { assert WorkerStep(f.ds[j]).chan.pusher == f.ds[j].chan.pusher; }
    case StopMoves(j) =>
  }

  lemma DispatcherTurn(f: Fan, m: FanMove)
    requires f.busy.Some? && m.DispatcherMoves?
    ensures var f' := FanStep(f, m);
            && |f'.ds| == |f.ds| && f'.dispatched == f.dispatched
            && (f'.busy.None? || TurnsLeft(f') <= TurnsLeft(f) - 1)
  {
    var (e, i) := f.busy.value;
    if i < |f.ds| {
      var d := SubmitStep(f.ds[i], e);
      var p, p' := f.ds[i].chan.pusher, d.chan.pusher;
      assert p.Idle? ==> p'.Idle? || p'.SawFull?;
      assert p.SawFull? ==> p'.Evicted?;
      assert p.Evicted? ==> p'.Idle?;
    }
  }

  /** In `moves + more` the dispatch under way after `moves` ends within `more[..k]`. */
  ghost predicate EndsAt(n: nat, moves: seq<FanMove>, more: seq<FanMove>, k: nat) {
    && k <= |more| && FanExec(n, moves + more[..k]).busy.None?
    && FanExec(n, moves + more[..k]).dispatched == FanExec(n, moves).dispatched
  }

  lemma FanExecSnoc(n: nat, moves: seq<FanMove>, m: FanMove)
    ensures FanExec(n, moves + [m]) == FanStep(FanExec(n, moves), m)
  {
    FrontAppend(moves, m);
  }

  lemma EndsAtStill(n: nat, moves: seq<FanMove>, more: seq<FanMove>, k: nat)
    requires more != [] && EndsAt(n, moves, Front(more), k)
    ensures EndsAt(n, moves, more, k)
  {
    assert Front(more)[..k] == more[..k];
  }

  lemma {:induction false} EndsOrProgresses(n: nat, moves: seq<FanMove>, more: seq<FanMove>) returns (k: nat)
    requires FanExec(n, moves).busy.Some?
    ensures var f, f' := FanExec(n, moves), FanExec(n, moves + more);
            || EndsAt(n, moves, more, k)
            || (f'.busy.Some? && f'.dispatched == f.dispatched && TurnsLeft(f') + DispatchTurns(more) <= TurnsLeft(f))
    decreases |more|
  {
    k := 0;
    if more == [] {
      assert moves + more == moves;
    } else {
      k := EndsOrProgresses(n, moves, Front(more));
      if EndsAt(n, moves, Front(more), k) {
        EndsAtStill(n, moves, more, k);
      } else {
        FrontLast(more);
        Regroup(moves, Front(more), [Last(more)]);
        FanExecSnoc(n, moves + Front(more), Last(more));
        TurnBringsCloser(FanExec(n, moves + Front(more)), Last(more));
        if FanExec(n, moves + more).busy.None? {
          k := |more|;
          assert more[..k] == more;
        }
      }
    }
  }

  /** Every dispatch is made and ends: the idle dispatching thread takes the
      envelope, and after at most three turns per downstream and one more it is
      idle again, with nothing else dispatched meanwhile, whatever the workers do;
      EveryDownstreamGetsAll then says that each downstream was given it. */
  lemma DispatchEnds(n: nat, moves: seq<FanMove>, e: Envelope, more: seq<FanMove>) returns (k: nat)
    requires FanExec(n, moves).busy.None? && DispatchTurns(more) >= 3 * n + 1
    ensures k <= |more|
    ensures var f := FanExec(n, moves + [DispatcherMoves(e)] + more[..k]);
            f.busy.None? && f.dispatched == FanExec(n, moves).dispatched + [e]
  {
    var start := moves + [DispatcherMoves(e)];
    FanExecSnoc(n, moves, DispatcherMoves(e));
    k := EndsOrProgresses(n, start, more);
    AtLeastOneTurnLeft(FanExec(n, start + more));
    assert EndsAt(n, start, more, k);
  }

  lemma AtLeastOneTurnLeft(f: Fan)
    ensures f.busy.Some? ==> TurnsLeft(f) >= 1
  {
  }

  // ------------------------------------------------------------ no drops while it fits

  ghost predicate DownstreamSparse(d: Downstream) { Sparse(d.chan) && d.chan.room == 8191 }

  lemma FanStepSparse(f: Fan, m: FanMove, i: nat)
    requires FanOk(f) && i < |f.ds| && DownstreamSparse(f.ds[i])
    ensures DownstreamSparse(FanStep(f, m).ds[i])
  {
    assert FanOkAt(f, i);
    var c := f.ds[i].chan;
    ConsumerStepSparse(c);
    if f.busy.Some? { PusherStepSparse(c, f.busy.value.0); }
    FanStepIsOwn(f, m, i);
  }

  lemma {:induction false} FanSparse(n: nat, moves: seq<FanMove>, i: nat)
    requires i < n
    ensures DownstreamSparse(FanExec(n, moves).ds[i])
  {
    if moves != [] {
      FanSparse(n, Front(moves), i);
      FanExecOk(n, Front(moves));
      FanStepSparse(FanExec(n, Front(moves)), Last(moves), i);
    }
  }

  /** As long as no more than 8191 envelopes were dispatched, no downstream has
      dropped any, in any schedule and even if its worker never ran. */
  lemma FewEnvelopesNoDrops(n: nat, moves: seq<FanMove>, i: nat)
    requires i < n && |FanExec(n, moves).dispatched| <= 8191
    ensures FanExec(n, moves).ds[i].chan.dropped == []
  {
    FanExecOk(n, moves);
    FanSparse(n, moves, i);
    var f := FanExec(n, moves);
    assert FanOkAt(f, i) && f.ds[i].chan.submitted == GivenTo(f, i);
  }
}
