/**
 How a decode worker waits for raw messages: `popRaw` tries to pop, and when
 the queue is empty loads the worker's epoch and waits for it to change;
 `pushRaw` pushes (dropping the oldest message if need be), bumps the epoch and
 notifies.  One step per queue operation and per atomic operation, under
 sequential consistency.

 Messages are numbered in the order in which they enter the queue, so message
 i has been bumped exactly when the epoch exceeds i.
 */
module KfkpbWake {
  import opened Seqs

  datatype Producer =
    | PIdle
    | PSawFull       // first try_push failed
    | PEvicted       // try_pop done
    | PPushed        // message in the queue, epoch not yet bumped
    | PBumped        // epoch bumped, not yet notified

  datatype Worker =
    | WTry                    // about to try_pop
    | WFailed                 // try_pop found the queue empty
    | WLoaded(seen: nat)      // epoch loaded; atomic_wait is about to compare
    | WParked(seen: nat)      // blocked inside atomic_wait
    | WTook(i: nat)           // popRaw returned message i

  /** `entered` counts the messages that entered the queue; `emptyAt` is its
      value at the worker's last try_pop that found the queue empty. */
  datatype State = State(
    room: nat, q: seq<nat>, entered: nat, epoch: nat,
    producer: Producer, worker: Worker, emptyAt: nat)

  function Init(room: nat): State {
    State(room, [], 0, 0, PIdle, WTry, 0)
  }

  function ProducerStep(s: State): State {
    match s.producer
    case PIdle =>
      var (q, ok) := FifoPush(s.q, s.room, s.entered);
      if ok then s.(q := q, entered := s.entered + 1, producer := PPushed)
      else s.(producer := PSawFull)
    case PSawFull =>
      s.(q := FifoPop(s.q).0, producer := PEvicted)
    case PEvicted =>
      var (q, ok) := FifoPush(s.q, s.room, s.entered);
      if ok then s.(q := q, entered := s.entered + 1, producer := PPushed)
      else s.(producer := PPushed)
    case PPushed =>
      s.(epoch := s.epoch + 1, producer := PBumped)
    case PBumped =>
      s.(producer := PIdle, worker := if s.worker.WParked? then WLoaded(s.worker.seen) else s.worker)
  }

  function WorkerStep(s: State): State {
    match s.worker
    case WTry =>
      var (q, out) := FifoPop(s.q);
      if out.Some? then s.(q := q, worker := WTook(out.value))
      else s.(worker := WFailed, emptyAt := s.entered)
    case WFailed => s.(worker := WLoaded(s.epoch))
    case WLoaded(seen) =>
      if s.epoch != seen then s.(worker := WTry) else s.(worker := WParked(seen))
    case WParked(_) => s
    case WTook(_) => s.(worker := WTry)
  }

  datatype Move = P | W

  function Exec(room: nat, moves: seq<Move>): State {
    if moves == [] then Init(room)
    else
      var s := Exec(room, Front(moves));
      if Last(moves).P? then ProducerStep(s) else WorkerStep(s)
  }

  predicate Waiting(w: Worker) {
    w.WFailed? || w.WLoaded? || w.WParked?
  }

  ghost predicate Inv(s: State) {
    && s.room > 0 && |s.q| <= s.room && |s.q| <= s.entered
    && (s.producer.PEvicted? ==> |s.q| < s.room)
    && (forall j :: 0 <= j < |s.q| ==> s.q[j] == s.entered - |s.q| + j)
    && s.entered == s.epoch + (if s.producer.PPushed? then 1 else 0)
    && s.emptyAt <= s.entered
    && (s.worker.WLoaded? || s.worker.WParked? ==> s.worker.seen <= s.epoch)
    && (s.worker.WParked? ==> s.worker.seen == s.epoch || s.producer.PBumped?)
    && (Waiting(s.worker) ==>
          && |s.q| <= s.entered - s.emptyAt
          && (!s.producer.PEvicted? && s.q == [] ==> s.entered == s.emptyAt))
  }

  lemma ProducerKeepsInv(s: State)
    requires Inv(s)
    ensures Inv(ProducerStep(s))
  {
  }

  lemma WorkerKeepsInv(s: State)
    requires Inv(s)
    ensures Inv(WorkerStep(s))
  {
  }

  lemma {:induction false} ExecInv(room: nat, moves: seq<Move>)
    requires room > 0
    ensures Inv(Exec(room, moves)) && Exec(room, moves).room == room
  {
    if moves != [] {
      ExecInv(room, Front(moves));
      var s := Exec(room, Front(moves));
      ProducerKeepsInv(s);
      WorkerKeepsInv(s);
    }
  }

  /** Whatever the schedule, when a worker is parked on the current epoch every
      message in its queue entered after the worker last found the queue empty,
      and either its bump came before the worker loaded the epoch or it belongs
      to a `pushRaw` that has not bumped yet. */
  lemma ParkedMessages(room: nat, moves: seq<Move>, i: nat)
    requires room > 0
    requires var s := Exec(room, moves); s.worker.WParked? && s.worker.seen == s.epoch && i in s.q
    ensures var s := Exec(room, moves);
            s.emptyAt <= i && (i < s.worker.seen || (i == s.epoch && s.producer.PPushed?))
  {
    ExecInv(room, moves);
  }

  /** A worker parked while no `pushRaw` is running has left messages behind
      exactly when some `pushRaw` finished its bump between the worker's empty
      try_pop and its load of the epoch. */
  lemma ParkedWithMessagesIff(room: nat, moves: seq<Move>)
    requires room > 0
    requires var s := Exec(room, moves); s.worker.WParked? && s.producer.PIdle?
    ensures var s := Exec(room, moves);
            && s.worker.seen == s.epoch
            && (s.q != [] <==> s.emptyAt < s.worker.seen)
  {
    ExecInv(room, moves);
  }

  /** That happens: the worker finds the queue empty, a message is pushed,
      bumped and notified, and only then the worker loads the epoch. */
  lemma MessageLeftBehind()
    ensures var s := Exec(1, [W, P, P, P, W, W]);
            s.worker == WParked(1) && s.producer == PIdle && s.q == [0] && s.epoch == 1
  {
    var s0 := Init(1);
    assert Exec(1, []) == s0;
    assert Front([W]) == [] && Exec(1, [W]) == WorkerStep(s0);
    assert Front([W, P]) == [W] && Front([W, P, P]) == [W, P] && Front([W, P, P, P]) == [W, P, P];
    var s3 := ProducerStep(ProducerStep(ProducerStep(WorkerStep(s0))));
    assert Exec(1, [W, P, P, P]) == s3;
    assert Front([W, P, P, P, W]) == [W, P, P, P] && Front([W, P, P, P, W, W]) == [W, P, P, P, W];
    assert Exec(1, [W, P, P, P, W, W]) == WorkerStep(WorkerStep(s3));
  }

  function WorkerSteps(s: State, n: nat): State {
    if n == 0 then s else WorkerStep(WorkerSteps(s, n - 1))
  }

  /** A worker that is awake takes all messages in order, two steps each: it pops
      message `q[k]` with its (2k+1)st step and is then back for the next one;
      only when nothing is left it gets ready to wait. */
  lemma {:induction false} TakesInOrder(s: State, k: nat)
    requires s.worker == WTry && k <= |s.q|
    ensures var s' := WorkerSteps(s, 2 * k);
            && s' == s.(q := s.q[k..])
            && (k < |s.q| ==> WorkerSteps(s, 2 * k + 1).worker == WTook(s.q[k]))
            && (k == |s.q| ==> WorkerSteps(s, 2 * k + 1).worker == WFailed)
    decreases k
  {
    if k > 0 {
      TakesInOrder(s, k - 1);
      var s1 := WorkerSteps(s, 2 * k - 1);
      assert WorkerSteps(s, 2 * k) == WorkerStep(s1);
      assert s1 == WorkerStep(s.(q := s.q[k - 1..]));
      assert s.q[k - 1..][1..] == s.q[k..];
    }
    assert WorkerSteps(s, 2 * k + 1) == WorkerStep(WorkerSteps(s, 2 * k));
  }

  // What happens to a parked worker from then on.  `s0` is the moment at which
  // it is parked on the current epoch and no `pushRaw` is running.

  function Continue(s0: State, more: seq<Move>): State {
    if more == [] then s0
    else
      var s := Continue(s0, Front(more));
      if Last(more).P? then ProducerStep(s) else WorkerStep(s)
  }

  lemma {:induction false} ContinueIsExec(room: nat, moves: seq<Move>, more: seq<Move>)
    ensures Continue(Exec(room, moves), more) == Exec(room, moves + more)
    decreases |more|
  {
    if more == [] {
      assert moves + more == moves;
    } else {
      ContinueIsExec(room, moves, Front(more));
      assert moves + more == (moves + Front(more)) + [Last(more)];
      FrontAppend(moves + Front(more), Last(more));
    }
  }

  predicate Parked(s0: State) { s0.worker == WParked(s0.epoch) && s0.producer.PIdle? }

  /** A `pushRaw` has run to its end, notification included, since `s0`. */
  predicate PushedSince(s0: State, s: State) {
    s.epoch > s0.epoch && !(s.producer.PBumped? && s.epoch == s0.epoch + 1)
  }

  /** Until then the worker stays parked.  Afterwards it is no longer parked on
      the old epoch: it is about to compare and will leave the wait, or it has
      left it, and if it waits again it has found the queue empty of every
      message it was parked on. */
  ghost predicate Released(s0: State, s: State) {
    && s.epoch >= s0.epoch && s.entered >= s0.entered && (s.epoch == s0.epoch ==> !s.producer.PBumped?)
    && if !PushedSince(s0, s) then s.worker == WParked(s0.epoch)
       else
         && (s.worker.WLoaded? || s.worker.WParked? ==>
               s.worker == WLoaded(s0.epoch) || s.worker.seen > s0.epoch)
         && (Waiting(s.worker) && s.worker != WLoaded(s0.epoch) ==> s.emptyAt > s0.entered)
  }

  lemma ReleasedStep(s0: State, s: State, m: Move)
    requires Inv(s0) && Parked(s0) && Inv(s) && Released(s0, s)
    ensures Released(s0, if m.P? then ProducerStep(s) else WorkerStep(s))
  {
  }

  lemma {:induction false} ContinueReleased(s0: State, more: seq<Move>)
    requires Inv(s0) && Parked(s0)
    ensures Inv(Continue(s0, more)) && Released(s0, Continue(s0, more))
    decreases |more|
  {
    if more != [] {
      ContinueReleased(s0, Front(more));
      var s := Continue(s0, Front(more));
      ProducerKeepsInv(s);
      WorkerKeepsInv(s);
      ReleasedStep(s0, s, Last(more));
    }
  }

  /** How many steps of the producer a schedule has. */
  function Producing(more: seq<Move>): nat {
    if more == [] then 0 else Producing(Front(more)) + if Last(more).P? then 1 else 0
  }

  /** The producer's progress through its first push since `s0`: never more
      than five steps to the notification. */
  ghost predicate OnItsWay(s0: State, s: State, n: nat) {
    PushedSince(s0, s) ||
    match s.producer
    case PIdle => n == 0 && s.epoch == s0.epoch
    case PSawFull => n <= 1 && s.epoch == s0.epoch
    case PEvicted => n <= 2 && s.epoch == s0.epoch
    case PPushed => n <= 3 && s.epoch == s0.epoch
    case PBumped => n <= 4 && s.epoch == s0.epoch + 1
  }

  lemma {:induction false} FiveStepsPush(s0: State, more: seq<Move>)
    requires Inv(s0) && Parked(s0)
    ensures OnItsWay(s0, Continue(s0, more), Producing(more))
    ensures Producing(more) >= 5 ==> PushedSince(s0, Continue(s0, more))
    decreases |more|
  {
    if more != [] {
      FiveStepsPush(s0, Front(more));
      ContinueReleased(s0, Front(more));
    }
  }

  /** A later `pushRaw` is exactly what releases a parked worker, however the
      worker's own steps fall between those of the producer; five steps of the
      producer always contain one.  From then on the epoch differs from the one
      waited for.  If the worker has not yet left the wait its next step does,
      and the one after takes the oldest message; if it waits again, it has seen
      the queue empty of everything it was parked on. */
  lemma NextPushReleases(room: nat, moves: seq<Move>, more: seq<Move>)
    requires room > 0
    requires var s := Exec(room, moves); s.worker.WParked? && s.producer.PIdle?
    ensures var s, s' := Exec(room, moves), Exec(room, moves + more);
            && (s'.worker != WParked(s.worker.seen) <==> PushedSince(s, s'))
            && (Producing(more) >= 5 ==> PushedSince(s, s'))
            && (PushedSince(s, s') ==> s'.epoch > s.worker.seen)
            && (s'.worker == WLoaded(s.worker.seen) ==>
                  && WorkerStep(s').worker == WTry
                  && (!s'.producer.PEvicted? ==>
                        s'.q != [] && WorkerStep(WorkerStep(s')).worker == WTook(s'.q[0])))
            && (PushedSince(s, s') && Waiting(s'.worker) && s'.worker != WLoaded(s.worker.seen) ==>
                  s'.emptyAt > s.entered && forall i :: i in s'.q ==> i >= s'.emptyAt)
  {
    ExecInv(room, moves);
    var s := Exec(room, moves);
    ContinueIsExec(room, moves, more);
    ContinueReleased(s, more);
    FiveStepsPush(s, more);
    assert Parked(s);
    NonemptyWhenWoken(s, more);
  }

  /** From the push on, and until the worker pops, the queue is empty only in
      the middle of an eviction. */
  lemma {:induction false} NonemptyWhenWoken(s0: State, more: seq<Move>)
    requires Inv(s0) && Parked(s0)
    ensures var s := Continue(s0, more);
            && (s.worker == WParked(s0.epoch) || s.worker == WLoaded(s0.epoch))
            && s.entered > s0.entered && !s.producer.PEvicted?
            ==> s.q != []
    decreases |more|
  {
    if more != [] {
      NonemptyWhenWoken(s0, Front(more));
      ContinueReleased(s0, Front(more));
    }
  }
}
