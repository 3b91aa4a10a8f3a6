/**
 The drop-oldest overflow policy layered on the ring queue: push; if the queue
 is full, pop one element, throw it away and push again.  Four places use it:
 the feed inbox, every dispatcher downstream, and both queues of a decode worker.

 `PushDropOldest` is the code on the ring class.  `Chan` is the same code with
 a consumer running beside it, each `try_push` and `try_pop` being one atomic
 step.
 */
module DropOldest {
  import opened Seqs
  import opened SpscQueue

  /** The queue afterwards and the element thrown away, if any. */
  function Push<T>(q: seq<T>, room: nat, v: T): (seq<T>, Option<T>)
    requires |q| <= room && room > 0
  {
    if |q| < room then (q + [v], None) else (q[1..] + [v], Some(q[0]))
  }

  method PushDropOldest<T(0)>(q: SPSCQueue<T>, v: T) returns (dropped: Option<T>)
    requires q.Valid()
    modifies q`head, q`tail, q.buf
    ensures q.Valid()
    ensures |old(q.Contents())| <= q.Room() && q.Room() > 0
    ensures (q.Contents(), dropped) == Push(old(q.Contents()), q.Room(), v)
  {
    dropped := None;
    var ok := q.TryPush(v);
    if !ok {
      dropped := q.TryPop();
      ok := q.TryPush(v);
      assert ok;
    }
  }

  /** The last `n` elements of `s`, or all of them. */
  function LastN<T>(s: seq<T>, n: nat): seq<T> {
    if |s| <= n then s else s[|s| - n..]
  }

  /** The queue after pushing all of `vs`, oldest first. */
  function PushAll<T>(q: seq<T>, room: nat, vs: seq<T>): (r: seq<T>)
    requires |q| <= room && room > 0
    ensures |r| <= room
  {
    if vs == [] then q else Push(PushAll(q, room, Front(vs)), room, Last(vs)).0
  }

  lemma PushOneKeepsNewest<T>(s: seq<T>, room: nat, v: T)
    requires room > 0
    ensures Push(LastN(s, room), room, v).0 == LastN(s + [v], room)
  {
  }

  /** Without a consumer the queue keeps exactly the newest elements. */
  lemma {:induction false} PushAllKeepsNewest<T>(q: seq<T>, room: nat, vs: seq<T>)
    requires |q| <= room && room > 0
    ensures PushAll(q, room, vs) == LastN(q + vs, room)
  {
    if vs == [] {
      assert q + vs == q;
    } else {
      PushAllKeepsNewest(q, room, Front(vs));
      assert q + vs == (q + Front(vs)) + [Last(vs)];
      PushOneKeepsNewest(q + Front(vs), room, Last(vs));
    }
  }

  // ------------------------------------------------ with a consumer beside it

  /** Where the pushing thread stands with the element `v`. */
  datatype Pusher<T> =
    | Idle
    | SawFull(v: T)     // the first try_push failed
    | Evicted(v: T)     // try_pop done, the second try_push is next

  /** A queue, its pusher, and the history: everything submitted, delivered to
      the consumer, evicted by the pusher, and refused by the second push. */
  datatype Chan<T> = Chan(
    room: nat, q: seq<T>, pusher: Pusher<T>,
    submitted: seq<T>, delivered: seq<T>, dropped: seq<T>, refused: seq<T>)

  function NewChan<T>(room: nat): Chan<T> {
    Chan(room, [], Idle, [], [], [], [])
  }

  function InHand<T>(c: Chan<T>): seq<T> {
    if c.pusher.Idle? then [] else [c.pusher.v]
  }

  /** The next atomic step of the pushing thread; when idle it submits `v`. */
  function PusherStep<T>(c: Chan<T>, v: T): Chan<T> {
    match c.pusher
    case Idle =>
      var (q, ok) := FifoPush(c.q, c.room, v);
      c.(q := q, submitted := c.submitted + [v], pusher := if ok then Idle else SawFull(v))
    case SawFull(v) =>
      var (q, out) := FifoPop(c.q);
      c.(q := q, pusher := Evicted(v),
         dropped := if out.Some? then c.dropped + [out.value] else c.dropped)
    case Evicted(v) =>
      var (q, ok) := FifoPush(c.q, c.room, v);
      c.(q := q, pusher := Idle, refused := if ok then c.refused else c.refused + [v])
  }

  /** One `try_pop` of the consumer. */
  function ConsumerStep<T>(c: Chan<T>): Chan<T> {
    var (q, out) := FifoPop(c.q);
    c.(q := q, delivered := if out.Some? then c.delivered + [out.value] else c.delivered)
  }

  /** What left the queue so far, in the order in which it was submitted. */
  function Gone<T>(c: Chan<T>): seq<T>
    requires |c.submitted| >= |c.q| + |InHand(c)|
  {
    c.submitted[..|c.submitted| - |c.q| - |InHand(c)|]
  }

  ghost predicate ChanOk<T>(c: Chan<T>) {
    && c.room > 0 && |c.q| <= c.room
    && (c.pusher.Evicted? ==> |c.q| < c.room)
    && c.refused == []
    && |c.submitted| >= |c.q| + |InHand(c)|
    && c.submitted == Gone(c) + c.q + InHand(c)
    && Merge(c.delivered, c.dropped, Gone(c))
  }

  lemma NewChanOk<T>(room: nat)
    requires room > 0
    ensures ChanOk(NewChan<T>(room))
  {
  }

  /** Taking the oldest element moves it from the queue to `Gone`. */
  lemma SplitHead<T>(s: seq<T>, gone: seq<T>, q: seq<T>, hand: seq<T>)
    requires s == gone + q + hand && q != []
    ensures s == (gone + [q[0]]) + q[1..] + hand
  {
  }

  lemma GoneIs<T>(c: Chan<T>, gone: seq<T>)
    requires c.submitted == gone + c.q + InHand(c)
    ensures |c.submitted| >= |c.q| + |InHand(c)| && Gone(c) == gone
  {
  }

  /** Every step of the pushing thread keeps the channel's invariant: in
      particular the second push is never refused, because between the two the
      consumer can only have made more room. */
  lemma PusherStepOk<T>(c: Chan<T>, v: T)
    requires ChanOk(c)
    ensures ChanOk(PusherStep(c, v))
  {
    var c', gone := PusherStep(c, v), Gone(c);
    if c.pusher.SawFull? && c.q != [] {
      SplitHead(c.submitted, gone, c.q, InHand(c));
      GoneIs(c', gone + [c.q[0]]);
      MergeRight(c.delivered, c.dropped, gone, c.q[0]);
    } else {
      assert c'.submitted == gone + c'.q + InHand(c');
      GoneIs(c', gone);
    }
  }

  lemma ConsumerStepOk<T>(c: Chan<T>)
    requires ChanOk(c)
    ensures ChanOk(ConsumerStep(c))
  {
    if c.q != [] {
      var c', gone := ConsumerStep(c), Gone(c);
      SplitHead(c.submitted, gone, c.q, InHand(c));
      GoneIs(c', gone + [c.q[0]]);
      MergeLeft(c.delivered, c.dropped, gone, c.q[0]);
    }
  }

  /** Which thread moves next. */
  datatype Move<T> = Pusher(v: T) | Consumer

  function Exec<T>(room: nat, moves: seq<Move<T>>): Chan<T> {
    if moves == [] then NewChan(room)
    else
      var c := Exec(room, Front(moves));
      if Last(moves).Pusher? then PusherStep(c, Last(moves).v) else ConsumerStep(c)
  }

  /** Conservation over whole runs: no second push is refused, and everything
      submitted is, in order, what was delivered merged with what was dropped,
      then what is queued, then what the pusher still holds. */
  lemma NothingLost<T>(room: nat, moves: seq<Move<T>>)
    requires room > 0
    ensures var c := Exec(room, moves);
            && c.refused == []
            && |c.q| <= room
            && exists gone :: c.submitted == gone + c.q + InHand(c) && Merge(c.delivered, c.dropped, gone)
  {
    ExecOk(room, moves);
    var c := Exec(room, moves);
    assert c.submitted == Gone(c) + c.q + InHand(c) && Merge(c.delivered, c.dropped, Gone(c));
  }

  lemma {:induction false} ExecOk<T>(room: nat, moves: seq<Move<T>>)
    requires room > 0
    ensures ChanOk(Exec(room, moves)) && Exec(room, moves).room == room
  {
    if moves == [] {
      NewChanOk<T>(room);
    } else {
      ExecOk(room, Front(moves));
      var c := Exec(room, Front(moves));
      if Last(moves).Pusher? { PusherStepOk(c, Last(moves).v); } else { ConsumerStepOk(c); }
    }
  }

  /** Nothing is dropped as long as no more was submitted than fits. */
  ghost predicate Sparse<T>(c: Chan<T>) {
    |c.submitted| <= c.room ==> c.dropped == [] && c.pusher.Idle?
  }

  lemma PusherStepSparse<T>(c: Chan<T>, v: T)
    requires ChanOk(c) && Sparse(c)
    ensures Sparse(PusherStep(c, v)) && PusherStep(c, v).room == c.room
  {
    assert |c.submitted| >= |c.q| + |InHand(c)|;
  }

  lemma ConsumerStepSparse<T>(c: Chan<T>)
    requires Sparse(c)
    ensures Sparse(ConsumerStep(c)) && ConsumerStep(c).room == c.room
  {
  }

  /** The policy drops nothing until more was submitted than the queue holds. */
  lemma {:induction false} DropsOnlyOnOverflow<T>(room: nat, moves: seq<Move<T>>)
    requires room > 0
    ensures Sparse(Exec(room, moves)) && Exec(room, moves).room == room
  {
    if moves != [] {
      DropsOnlyOnOverflow(room, Front(moves));
      ExecOk(room, Front(moves));
      var c := Exec(room, Front(moves));
      if Last(moves).Pusher? { PusherStepSparse(c, Last(moves).v); } else { ConsumerStepSparse(c); }
    }
  }

  /** Undisturbed by the consumer, the steps of one submission are the
      specification of the method: drop the oldest and append. */
  lemma SubmissionAlone<T>(c: Chan<T>, v: T)
    requires ChanOk(c) && c.pusher.Idle?
    ensures var c1 := PusherStep(c, v);
            var c3 := if c1.pusher.Idle? then c1 else PusherStep(PusherStep(c1, v), v);
            && c3.pusher.Idle? && c3.q == Push(c.q, c.room, v).0
            && c3.dropped == c.dropped + (if |c.q| < c.room then [] else [c.q[0]])
            && c3.delivered == c.delivered && c3.submitted == c.submitted + [v]
  {
    assert c.dropped + [] == c.dropped;
  }

  /** The channel after `n` pops of the consumer. */
  function Consumed<T>(c: Chan<T>, n: nat): Chan<T> {
    if n == 0 then c else ConsumerStep(Consumed(c, n - 1))
  }

  lemma {:induction false} ConsumedIs<T>(c: Chan<T>, n: nat)
    ensures var c', k := Consumed(c, n), if n < |c.q| then n else |c.q|;
            && c'.q == c.q[k..] && c'.delivered == c.delivered + c.q[..k]
            && c' == c.(q := c'.q, delivered := c'.delivered)
  {
    if n > 0 {
      ConsumedIs(c, n - 1);
      var k := if n - 1 < |c.q| then n - 1 else |c.q|;
      if k < |c.q| {
        assert c.q[k..][1..] == c.q[k + 1..] && c.q[k..][0] == c.q[k];
        assert c.q[..k + 1] == c.q[..k] + [c.q[k]];
      }
    }
  }

  /** A submission with the consumer popping `a` and `b` times between its steps:
      it ends with its first step if the queue is not full then, and otherwise
      with its third; the value is then the last one in the queue, and at most
      the element that was oldest at the second step is dropped. */
  lemma SubmissionEnds<T>(c: Chan<T>, v: T, w: T, a: nat, b: nat)
    requires ChanOk(c) && c.pusher.Idle?
    ensures var c1 := PusherStep(c, v);
            var c2 := Consumed(c1, a);
            var c3 := Consumed(PusherStep(c2, w), b);
            var c4 := PusherStep(c3, w);
            if |c.q| < c.room then c1.pusher.Idle? && c1.q == c.q + [v] && c1.dropped == c.dropped
            else
              && !c1.pusher.Idle? && !c3.pusher.Idle? && c4.pusher.Idle? && c4.q == c3.q + [v]
              && c4.dropped == c.dropped + (if c2.q == [] then [] else [c2.q[0]])
              && c4.submitted == c.submitted + [v]
  {
    var c1 := PusherStep(c, v);
    PusherStepOk(c, v);
    if |c.q| == c.room {
      ConsumedIs(c1, a);
      var c2 := Consumed(c1, a);
      ConsumedIs(PusherStep(c2, w), b);
      assert c.dropped + [] == c.dropped;
    }
  }
}
