/**
 Progress in the Kafka decode pipeline: messages without a key go to the workers
 in turn, and nothing stays where it is once the threads get their turns.
 */
module KfkpbProgress {
  import opened Seqs
  import DropOldest
  import opened KfkpbClient
  import opened KfkpbPipeline

  // ------------------------------------------------------------ routing of messages without a key

  function NoKey(): RawMsg -> bool { MsgKey("") }

  function Keyless(s: seq<Tagged<RawMsg>>): nat { |Filter(All(s), NoKey())| }

  lemma AllPrefix<T>(s: seq<Tagged<T>>, t: Tagged<T>)
    ensures All(s + [t]) == All(s) + [t.x]
  {
    FrontAppend(s, t);
  }

  ghost predicate RoundRobin(p: Pipe)
    requires p.lanes != []
  {
    && p.rr == Keyless(p.consumed)
    && forall i :: 0 <= i < |p.consumed| && p.consumed[i].x.key == "" ==>
         p.consumed[i].w == Keyless(p.consumed[..i]) % |p.lanes|
  }

  lemma TakeKeepsRoundRobin(p: Pipe, p': Pipe, t: Tagged<RawMsg>)
    requires p.lanes != [] && RoundRobin(p) && |p'.lanes| == |p.lanes| && p'.consumed == p.consumed + [t]
    requires t.x.key == "" ==> t.w == p.rr % |p.lanes|
    requires p'.rr == if t.x.key == "" then p.rr + 1 else p.rr
    ensures RoundRobin(p')
  {
    AllPrefix(p.consumed, t);
    FilterAppend1(All(p.consumed), t.x, NoKey());
    forall i | 0 <= i < |p'.consumed| && p'.consumed[i].x.key == ""
      ensures p'.consumed[i].w == Keyless(p'.consumed[..i]) % |p.lanes|
    {
      assert p'.consumed[..i] == p.consumed[..i];
      if i == |p.consumed| { assert p.consumed[..i] == p.consumed; }
    }
  }

  lemma StepKeepsRoundRobin(p: Pipe, mv: Move, hash: string -> nat, decode: Decoder)
    requires PipeOk(p, hash, decode) && RoundRobin(p)
    ensures RoundRobin(CheckedStep(p, mv, hash, decode))
  {
    var p' := CheckedStep(p, mv, hash, decode);
    if mv.ConsumerMoves? && p.pushing.None? {
      TakeKeepsRoundRobin(p, p', Tagged(WorkerFor(mv.m.key, p.rr, |p.lanes|, hash), mv.m));
    } else {
      assert p'.consumed == p.consumed && p'.rr == p.rr;
    }
  }

  /** Messages without a key go to the workers in turn: the i-th of them to worker
      i modulo the number of workers, counting from 0. */
  lemma {:induction false} KeylessInTurn(n: nat, rawRoom: nat, evtRoom: nat, moves: seq<Move>,
                                         hash: string -> nat, decode: Decoder)
    requires n > 0 && rawRoom > 0 && evtRoom > 0
    ensures RoundRobin(Exec(n, rawRoom, evtRoom, moves, hash, decode))
    decreases |moves|
  {
    if moves != [] {
      KeylessInTurn(n, rawRoom, evtRoom, Front(moves), hash, decode);
      StepKeepsRoundRobin(Exec(n, rawRoom, evtRoom, Front(moves), hash, decode), Last(moves), hash, decode);
    }
  }

  // ------------------------------------------------------------ progress

  // Nothing stays where it is: given turns, the consumer finishes its push, the
  // workers turn their raw queue into events and the drain takes them.

  /** The system after `more`, from `p`. */
  ghost function Continue(p: Pipe, more: seq<Move>, hash: string -> nat, decode: Decoder): (p': Pipe)
    requires PipeOk(p, hash, decode)
    ensures PipeOk(p', hash, decode) && |p'.lanes| == |p.lanes|
    decreases |more|
  {
    if more == [] then p else CheckedStep(Continue(p, Front(more), hash, decode), Last(more), hash, decode)
  }

  lemma {:induction false} ContinueIsExec(n: nat, rawRoom: nat, evtRoom: nat, moves: seq<Move>, more: seq<Move>,
                                          hash: string -> nat, decode: Decoder)
    requires n > 0 && rawRoom > 0 && evtRoom > 0
    ensures Exec(n, rawRoom, evtRoom, moves + more, hash, decode) ==
            Continue(Exec(n, rawRoom, evtRoom, moves, hash, decode), more, hash, decode)
    decreases |more|
  {
    if more == [] {
      assert moves + more == moves;
    } else {
      ContinueIsExec(n, rawRoom, evtRoom, moves, Front(more), hash, decode);
      FrontLast(more);
      Regroup(moves, Front(more), [Last(more)]);
      FrontAppend(moves + Front(more), Last(more));
    }
  }

  predicate NoConsumer(more: seq<Move>) { forall m :: m in more ==> !m.ConsumerMoves? }

  function WorkerTurns(more: seq<Move>, w: nat): nat {
    if more == [] then 0
    else WorkerTurns(Front(more), w) + if Last(more).WorkerMoves? && Last(more).w == w then 1 else 0
  }

  function DrainTurns(more: seq<Move>, w: nat): nat {
    if more == [] then 0
    else DrainTurns(Front(more), w) + if Last(more).DrainMoves? && Last(more).w == w then 1 else 0
  }

  /** The turns a worker needs at most until it has nothing left: four for each
      queued message, three for the one it is decoding, and those of an event it
      is still pushing. */
  function WorkLeft(l: Lane): nat {
    4 * |l.raw.q| + (if l.decoding.Some? then 3 else 0)
    + match l.evt.pusher case Idle => 0 case SawFull(_) => 2 case Evicted(_) => 1
  }

  lemma TurnDoesWork(l: Lane, types: map<string, MsgType>, decode: Decoder)
    ensures WorkLeft(l) > 0 ==> WorkLeft(WorkerStep(l, types, decode)) < WorkLeft(l)
    ensures WorkLeft(l) == 0 ==> WorkerStep(l, types, decode) == l
  {
    if l.evt.pusher.Idle? && l.decoding.None? && l.raw.q != [] {
      assert WorkerStep(l, types, decode).raw.q == l.raw.q[1..];
    }
  }

  /** Without consumer moves a lane only works and drains. */
  lemma QuietStep(p: Pipe, mv: Move, w: nat, hash: string -> nat, decode: Decoder)
    requires PipeOk(p, hash, decode) && w < |p.lanes| && !mv.ConsumerMoves?
    ensures var p' := Step(p, mv, hash, decode);
            && p'.consumed == p.consumed && p'.pushing == p.pushing
            && p'.lanes[w] ==
               if mv.WorkerMoves? && mv.w == w then WorkerStep(p.lanes[w], mv.types, decode)
               else if mv.DrainMoves? && mv.w == w then p.lanes[w].(evt := DropOldest.ConsumerStep(p.lanes[w].evt))
               else p.lanes[w]
  {
  }

  lemma DrainKeepsWork(l: Lane)
    ensures WorkLeft(l.(evt := DropOldest.ConsumerStep(l.evt))) == WorkLeft(l)
  {
  }

  lemma {:induction false} WorkGetsDone(p: Pipe, more: seq<Move>, w: nat, hash: string -> nat, decode: Decoder)
    requires PipeOk(p, hash, decode) && w < |p.lanes| && NoConsumer(more)
    ensures var p' := Continue(p, more, hash, decode);
            && p'.consumed == p.consumed && p'.pushing == p.pushing
            && (WorkLeft(p'.lanes[w]) == 0 || WorkLeft(p'.lanes[w]) + WorkerTurns(more, w) <= WorkLeft(p.lanes[w]))
    decreases |more|
  {
    if more != [] {
      assert NoConsumer(Front(more)) && !Last(more).ConsumerMoves?;
      WorkGetsDone(p, Front(more), w, hash, decode);
      var p1, mv := Continue(p, Front(more), hash, decode), Last(more);
      QuietStep(p1, mv, w, hash, decode);
      if mv.WorkerMoves? { TurnDoesWork(p1.lanes[w], mv.types, decode); }
      DrainKeepsWork(p1.lanes[w]);
    }
  }

  lemma {:induction false} DrainGetsDone(p: Pipe, more: seq<Move>, w: nat, hash: string -> nat, decode: Decoder)
    requires PipeOk(p, hash, decode) && w < |p.lanes| && NoConsumer(more) && WorkLeft(p.lanes[w]) == 0
    ensures var p' := Continue(p, more, hash, decode);
            && p'.consumed == p.consumed && p'.pushing == p.pushing && WorkLeft(p'.lanes[w]) == 0
            && (p'.lanes[w].evt.q == [] ||
                |p'.lanes[w].evt.q| + DrainTurns(more, w) <= |p.lanes[w].evt.q|)
    decreases |more|
  {
    if more != [] {
      assert NoConsumer(Front(more)) && !Last(more).ConsumerMoves?;
      DrainGetsDone(p, Front(more), w, hash, decode);
      var p1, mv := Continue(p, Front(more), hash, decode), Last(more);
      QuietStep(p1, mv, w, hash, decode);
      if mv.WorkerMoves? { TurnDoesWork(p1.lanes[w], mv.types, decode); }
      DrainKeepsWork(p1.lanes[w]);
    }
  }

  /** Nothing is stuck: from every reachable state in which the consumer is idle,
      enough turns of worker `w` and then enough pops of its event queue leave
      nothing of it waiting and nothing undrained, whatever the other workers
      do and wherever other pops fall. */
  lemma EverythingIsDrained(n: nat, rawRoom: nat, evtRoom: nat, moves: seq<Move>,
                            work: seq<Move>, drain: seq<Move>, w: nat, hash: string -> nat, decode: Decoder)
    requires n > 0 && rawRoom > 0 && evtRoom > 0 && w < n && NoConsumer(work) && NoConsumer(drain)
    requires var p := Exec(n, rawRoom, evtRoom, moves, hash, decode);
             p.pushing.None? && WorkerTurns(work, w) >= WorkLeft(p.lanes[w])
    requires DrainTurns(drain, w) >= |Exec(n, rawRoom, evtRoom, moves + work, hash, decode).lanes[w].evt.q|
    ensures var p, p' := Exec(n, rawRoom, evtRoom, moves, hash, decode),
                         Exec(n, rawRoom, evtRoom, moves + work + drain, hash, decode);
            p'.consumed == p.consumed && Waiting(p'.lanes[w]) == [] && Undrained(p'.lanes[w]) == []
  {
    var p := Exec(n, rawRoom, evtRoom, moves, hash, decode);
    ContinueIsExec(n, rawRoom, evtRoom, moves, work, hash, decode);
    WorkGetsDone(p, work, w, hash, decode);
    var p1 := Continue(p, work, hash, decode);
    ContinueIsExec(n, rawRoom, evtRoom, moves + work, drain, hash, decode);
    DrainGetsDone(p1, drain, w, hash, decode);
    IdleIsEmpty(Continue(p1, drain, hash, decode), w, hash, decode);
  }

  lemma IdleIsEmpty(p: Pipe, w: nat, hash: string -> nat, decode: Decoder)
    requires PipeOk(p, hash, decode) && w < |p.lanes| && p.pushing.None?
    requires WorkLeft(p.lanes[w]) == 0 && p.lanes[w].evt.q == []
    ensures Waiting(p.lanes[w]) == [] && Undrained(p.lanes[w]) == []
  {
    assert p.lanes[w].raw.pusher.Idle?;
    assert |p.lanes[w].raw.q| == 0;
  }

  /** So every message arrives: when that has happened and the key's worker was
      sent no more messages than its queues hold, the drained events of the key
      report exactly the messages consumed with it, one each and in order. */
  lemma KeyArrives(n: nat, rawRoom: nat, evtRoom: nat, moves: seq<Move>, work: seq<Move>, drain: seq<Move>,
                   hash: string -> nat, decode: Decoder, k: string)
    requires n > 0 && rawRoom > 0 && evtRoom > 0 && k != "" && NoConsumer(work) && NoConsumer(drain)
    requires var p, w := Exec(n, rawRoom, evtRoom, moves, hash, decode), hash(k) % n;
             && p.pushing.None? && WorkerTurns(work, w) >= WorkLeft(p.lanes[w])
             && |Of(p.consumed, w)| <= rawRoom && |Of(p.consumed, w)| <= evtRoom
    requires var w := hash(k) % n;
             DrainTurns(drain, w) >= |Exec(n, rawRoom, evtRoom, moves + work, hash, decode).lanes[w].evt.q|
    ensures var p, p' := Exec(n, rawRoom, evtRoom, moves, hash, decode),
                         Exec(n, rawRoom, evtRoom, moves + work + drain, hash, decode);
            Images(Filter(All(p.consumed), MsgKey(k)), Filter(All(p'.drained), EventKey(k)), decode)
  {
    var w := hash(k) % n;
    EverythingIsDrained(n, rawRoom, evtRoom, moves, work, drain, w, hash, decode);
    var ms, lost := PerKeyOrder(n, rawRoom, evtRoom, moves + work + drain, hash, decode, k);
    var p' := Exec(n, rawRoom, evtRoom, moves + work + drain, hash, decode);
    assert ms + Filter(Waiting(p'.lanes[w]), MsgKey(k)) == ms;
    assert Filter(All(p'.drained), EventKey(k)) + Filter(Undrained(p'.lanes[w]), EventKey(k)) ==
           Filter(All(p'.drained), EventKey(k));
  }

  // The consumer's side.

  function PushStage(p: Pipe): nat {
    if p.pushing.None? || p.pushing.value >= |p.lanes| then 0
    else match p.lanes[p.pushing.value].raw.pusher case Idle => 0 case SawFull(_) => 2 case Evicted(_) => 1
  }

  function ConsumerTurns(more: seq<Move>): nat {
    if more == [] then 0 else ConsumerTurns(Front(more)) + (if Last(more).ConsumerMoves? then 1 else 0)
  }

  lemma WorkerKeepsPusher(l: Lane, mv: Move, decode: Decoder)
    ensures mv.WorkerMoves? ==> WorkerStep(l, mv.types, decode).raw.pusher == l.raw.pusher
  {
  }

  lemma StageGoesDown(p: Pipe, mv: Move, hash: string -> nat, decode: Decoder)
    requires PipeOk(p, hash, decode) && p.pushing.Some?
    ensures var p' := Step(p, mv, hash, decode);
            && PushStage(p) >= 1 && p'.consumed == p.consumed
            && PushStage(p') == PushStage(p) - (if mv.ConsumerMoves? then 1 else 0)
            && (p'.pushing.None? <==> PushStage(p') == 0)
  {
    var w := p.pushing.value;
    assert !p.lanes[w].raw.pusher.Idle?;
    if !mv.ConsumerMoves? {
      QuietStep(p, mv, w, hash, decode);
      WorkerKeepsPusher(p.lanes[w], mv, decode);
    }
  }

  /** Within `more[..k]` the push under way has ended, and nothing else was consumed. */
  ghost predicate EndsAt(p: Pipe, more: seq<Move>, k: nat, hash: string -> nat, decode: Decoder)
    requires PipeOk(p, hash, decode)
  {
    && k <= |more| && Continue(p, more[..k], hash, decode).pushing.None?
    && Continue(p, more[..k], hash, decode).consumed == p.consumed
  }

  lemma EndsAtStill(p: Pipe, more: seq<Move>, k: nat, hash: string -> nat, decode: Decoder)
    requires PipeOk(p, hash, decode) && more != [] && EndsAt(p, Front(more), k, hash, decode)
    ensures EndsAt(p, more, k, hash, decode)
  {
    assert Front(more)[..k] == more[..k];
  }

  lemma {:induction false} EndsOrProgresses(p: Pipe, more: seq<Move>, hash: string -> nat, decode: Decoder)
    returns (k: nat)
    requires PipeOk(p, hash, decode) && p.pushing.Some?
    ensures var p' := Continue(p, more, hash, decode);
            || EndsAt(p, more, k, hash, decode)
            || (p'.pushing.Some? && p'.consumed == p.consumed
                && PushStage(p') + ConsumerTurns(more) == PushStage(p))
    decreases |more|
  {
    k := 0;
    if more != [] {
      k := EndsOrProgresses(p, Front(more), hash, decode);
      if EndsAt(p, Front(more), k, hash, decode) {
        EndsAtStill(p, more, k, hash, decode);
      } else {
        StageGoesDown(Continue(p, Front(more), hash, decode), Last(more), hash, decode);
        if Continue(p, more, hash, decode).pushing.None? {
          k := |more|;
          assert more[..k] == more;
        }
      }
    }
  }

  lemma TakenStage(p: Pipe, m: RawMsg, hash: string -> nat, decode: Decoder)
    requires PipeOk(p, hash, decode) && p.pushing.None?
    ensures PushStage(CheckedStep(p, ConsumerMoves(m), hash, decode)) <= 2
  {
  }

  /** An idle consumer takes the message, routed by its key or in turn, and is
      idle again once it got two more turns, wherever they fall among the moves of
      the other threads. */
  lemma ConsumerFinishes(p: Pipe, m: RawMsg, more: seq<Move>, hash: string -> nat, decode: Decoder) returns (k: nat)
    requires PipeOk(p, hash, decode) && p.pushing.None? && ConsumerTurns(more) >= 2
    ensures var p1 := CheckedStep(p, ConsumerMoves(m), hash, decode);
            && p1.consumed == p.consumed + [Tagged(WorkerFor(m.key, p.rr, |p.lanes|, hash), m)]
            && EndsAt(p1, more, k, hash, decode)
  {
    var p1 := CheckedStep(p, ConsumerMoves(m), hash, decode);
    k := 0;
    if p1.pushing.None? {
      assert more[..0] == [];
    } else {
      TakenStage(p, m, hash, decode);
      k := EndsOrProgresses(p1, more, hash, decode);
      if !EndsAt(p1, more, k, hash, decode) {
        StageGoesDown(Continue(p1, more, hash, decode), DrainMoves(0), hash, decode);
        assert false;
      }
    }
  }
}
