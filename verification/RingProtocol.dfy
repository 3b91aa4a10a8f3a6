/**
 The ring queue under concurrency: one producer running `try_push`, one
 consumer running `try_pop`, interleaved at every atomic load and store and at
 the plain access to the slot, under sequential consistency.

 A schedule is a sequence of choices of which thread moves.  `Exec` runs it and
 returns the state reached and the visible outcomes, one label per move.
 */
module RingProtocol {
  import opened Bits
  import opened Seqs
  import opened SpscQueue

  /** Where `try_push(v)` stands. */
  datatype Producer<T> =
    | PIdle
    | PLoaded(v: T, h: nat)     // head_ loaded
    | PChecked(v: T, h: nat)    // tail_ loaded, not full: about to write slot h
    | PWritten(v: T, h: nat)    // slot h written, head_ not yet stored

  /** Where `try_pop` stands. */
  datatype Consumer<T> =
    | CIdle
    | CLoaded(t: nat)           // tail_ loaded
    | CChecked(t: nat)          // head_ loaded, not empty: about to read slot t
    | CRead(t: nat, x: T)       // slot t read, tail_ not yet stored

  /** The shared ring, both threads, and the history of completed calls. */
  datatype State<T> = State(
    buf: seq<T>, head: nat, tail: nat,
    prod: Producer<T>, cons: Consumer<T>,
    pushed: seq<T>, popped: seq<T>)

  datatype Label<T> =
    | Internal
    | PushOk(v: T) | PushFull(v: T)
    | PopOk(x: T) | PopEmpty

  /** Which thread moves; an idle producer starts to push `v`. */
  datatype Choice<T> = Prod(v: T) | Cons

  /** The elements a consumer would see: the abstract queue. */
  function Queue<T>(s: State<T>): seq<T>
    requires s.head < |s.buf| && s.tail < |s.buf|
  {
    Window(s.buf, s.head, s.tail)
  }

  predicate Inv<T(==)>(s: State<T>) {
    && CapacityOk(|s.buf|)
    && s.head < |s.buf| && s.tail < |s.buf|
    && s.pushed == s.popped + Queue(s)
    && ProducerOk(s) && ConsumerOk(s)
  }

  predicate ProducerOk<T(==)>(s: State<T>)
    requires s.head < |s.buf| && s.tail < |s.buf|
  {
    match s.prod
    case PIdle => true
    case PLoaded(_, h) => h == s.head
    case PChecked(_, h) => h == s.head && |Queue(s)| < |s.buf| - 1
    case PWritten(v, h) => h == s.head && |Queue(s)| < |s.buf| - 1 && s.buf[h] == v
  }

  predicate ConsumerOk<T(==)>(s: State<T>)
    requires s.head < |s.buf| && s.tail < |s.buf|
  {
    match s.cons
    case CIdle => true
    case CLoaded(t) => t == s.tail
    case CChecked(t) => t == s.tail && Queue(s) != []
    case CRead(t, x) => t == s.tail && Queue(s) != [] && x == s.buf[t]
  }

  function Init<T>(buf: seq<T>): State<T> {
    State(buf, 0, 0, PIdle, CIdle, [], [])
  }

  function ProducerStep<T>(s: State<T>, v: T): (r: (State<T>, Label<T>))
    requires Inv(s)
  {
    var mask := |s.buf| - 1;
    match s.prod
    case PIdle =>
      (s.(prod := PLoaded(v, s.head)), Internal)
    case PLoaded(v, h) =>
      if And(h + 1, mask) == s.tail
      then (s.(prod := PIdle), PushFull(v))
      else (s.(prod := PChecked(v, h)), Internal)
    case PChecked(v, h) =>
      (s.(buf := s.buf[h := v], prod := PWritten(v, h)), Internal)
    case PWritten(v, h) =>
      (s.(head := And(h + 1, mask), prod := PIdle, pushed := s.pushed + [v]), PushOk(v))
  }

  function ConsumerStep<T>(s: State<T>): (r: (State<T>, Label<T>))
    requires Inv(s)
  {
    var mask := |s.buf| - 1;
    match s.cons
    case CIdle =>
      (s.(cons := CLoaded(s.tail)), Internal)
    case CLoaded(t) =>
      if t == s.head
      then (s.(cons := CIdle), PopEmpty)
      else (s.(cons := CChecked(t)), Internal)
    case CChecked(t) =>
      (s.(cons := CRead(t, s.buf[t])), Internal)
    case CRead(t, x) =>
      (s.(tail := And(t + 1, mask), cons := CIdle, popped := s.popped + [x]), PopOk(x))
  }

  function Step<T>(s: State<T>, c: Choice<T>): (r: (State<T>, Label<T>))
    requires Inv(s)
  {
    if c.Prod? then ProducerStep(s, c.v) else ConsumerStep(s)
  }

  // ------------------------------------------------------------ refinement

  /** What one visible outcome does to a FIFO with room for `room` elements;
      `None` when that outcome is not justified by the FIFO's contents. */
  function FifoStep<T(==)>(q: seq<T>, room: nat, l: Label<T>): Option<seq<T>> {
    match l
    case Internal => Some(q)
    case PushOk(v) => if |q| < room then Some(q + [v]) else None
    case PushFull(_) => if |q| == room then Some(q) else None
    case PopOk(x) => if q != [] && q[0] == x then Some(q[1..]) else None
    case PopEmpty => if q == [] then Some(q) else None
  }

  /** What a step must do: keep the invariant and follow the FIFO. */
  ghost predicate Refines<T>(s: State<T>, s': State<T>, l: Label<T>)
    requires Inv(s)
  {
    && Inv(s') && |s'.buf| == |s.buf|
    && FifoStep(Queue(s), |s.buf| - 1, l) == Some(Queue(s'))
  }

  /** Writing the slot at `head` is invisible to the consumer. */
  lemma WriteOutsideWindow<T>(buf: seq<T>, head: nat, tail: nat, v: T)
    requires head < |buf| && tail < |buf|
    ensures Window(buf[head := v], head, tail) == Window(buf, head, tail)
  {
  }

  lemma WindowGrows<T>(buf: seq<T>, head: nat, tail: nat, next: nat)
    requires head < |buf| && tail < |buf| && next == Slot(|buf|, head, 1)
    requires Count(|buf|, head, tail) < |buf| - 1
    ensures next < |buf| && Window(buf, next, tail) == Window(buf, head, tail) + [buf[head]]
  {
  }

  lemma WindowShrinks<T>(buf: seq<T>, head: nat, tail: nat, next: nat)
    requires head < |buf| && tail < |buf| && next == Slot(|buf|, tail, 1)
    requires Window(buf, head, tail) != []
    ensures Window(buf, head, tail)[0] == buf[tail]
    ensures next < |buf| && Window(buf, head, next) == Window(buf, head, tail)[1..]
  {
  }

  /** Every single step keeps the invariant and is, for an observer of call
      outcomes, a step of the bounded FIFO: successes change the queue at the
      index store, and a failure is reported only when the queue is full
      (empty) at the moment the other side's index is loaded. */
  lemma StepRefines<T>(s: State<T>, c: Choice<T>)
    requires Inv(s)
    ensures var (s', l) := Step(s, c); Refines(s, s', l)
  {
    if c.Prod? {
      ProducerStepRefines(s, c.v);
    } else {
      ConsumerStepRefines(s);
    }
  }

  lemma ProducerStepRefines<T>(s: State<T>, v0: T)
    requires Inv(s)
    ensures var (s', l) := ProducerStep(s, v0); Refines(s, s', l)
  {
    match s.prod
    case PIdle =>
    case PLoaded(v, h) => FullCheckRefines(s, v0);
    case PChecked(v, h) => WriteRefines(s, v0);
    case PWritten(v, h) => PublishRefines(s, v0);
  }

  /** `next == tail` holds exactly of a full ring. */
  lemma FullIff(cap: nat, head: nat, tail: nat)
    requires CapacityOk(cap) && head < cap && tail < cap
    ensures And(head + 1, cap - 1) == tail <==> Count(cap, head, tail) == cap - 1
  {
    MaskedSuccessor(cap, head);
  }

  lemma FullCheckRefines<T>(s: State<T>, v0: T)
    requires Inv(s) && s.prod.PLoaded?
    ensures var (s', l) := ProducerStep(s, v0); Refines(s, s', l)
  {
    FullIff(|s.buf|, s.head, s.tail);
  }

  lemma WriteRefines<T>(s: State<T>, v0: T)
    requires Inv(s) && s.prod.PChecked?
    ensures var (s', l) := ProducerStep(s, v0); Refines(s, s', l)
  {
    WriteOutsideWindow(s.buf, s.head, s.tail, s.prod.v);
    if s.cons.CRead? { assert s.buf[s.head := s.prod.v][s.tail] == s.buf[s.tail]; }
  }

  lemma Published<T>(s: State<T>, v0: T)
    requires Inv(s) && s.prod.PWritten?
    ensures var s' := ProducerStep(s, v0).0;
            s'.head < |s.buf| && Queue(s') == Queue(s) + [s.prod.v]
  {
    MaskedSuccessor(|s.buf|, s.head);
    WindowGrows(s.buf, s.head, s.tail, And(s.head + 1, |s.buf| - 1));
  }

  lemma PublishRefines<T>(s: State<T>, v0: T)
    requires Inv(s) && s.prod.PWritten?
    ensures var (s', l) := ProducerStep(s, v0); Refines(s, s', l)
  {
    Published(s, v0);
    AppendAssoc(s.popped, Queue(s), [s.prod.v]);
  }

  lemma AppendAssoc<T>(a: seq<T>, b: seq<T>, c: seq<T>)
    ensures a + b + c == a + (b + c)
  {
  }

  lemma ConsumerStepRefines<T>(s: State<T>)
    requires Inv(s)
    ensures var (s', l) := ConsumerStep(s); Refines(s, s', l)
  {
    match s.cons
    case CIdle =>
    case CLoaded(t) => EmptyCheckRefines(s);
    case CChecked(t) =>
    case CRead(t, x) => TakeRefines(s);
  }

  lemma EmptyCheckRefines<T>(s: State<T>)
    requires Inv(s) && s.cons.CLoaded?
    ensures var (s', l) := ConsumerStep(s); Refines(s, s', l)
  {
    assert s.tail == s.head <==> |Queue(s)| == 0;
  }

  lemma Taken<T>(s: State<T>)
    requires Inv(s) && s.cons.CRead?
    ensures var s' := ConsumerStep(s).0;
            s'.tail < |s.buf| && Queue(s) == [s.cons.x] + Queue(s')
  {
    MaskedSuccessor(|s.buf|, s.tail);
    WindowShrinks(s.buf, s.head, s.tail, And(s.tail + 1, |s.buf| - 1));
  }

  lemma TakeRefines<T>(s: State<T>)
    requires Inv(s) && s.cons.CRead?
    ensures var (s', l) := ConsumerStep(s); Refines(s, s', l)
  {
    Taken(s);
    AppendAssoc(s.popped, [s.cons.x], Queue(ConsumerStep(s).0));
  }

  // ------------------------------------------------------------ whole runs

  /** The state and the labels after the schedule `sched`. */
  function Exec<T>(buf: seq<T>, sched: seq<Choice<T>>): (r: (State<T>, seq<Label<T>>))
    requires CapacityOk(|buf|)
    ensures Inv(r.0) && |r.0.buf| == |buf| && |r.1| == |sched|
  {
    if sched == [] then (Init(buf), [])
    else
      var (s, ls) := Exec(buf, Front(sched));
      StepRefines(s, Last(sched));
      var (s', l) := Step(s, Last(sched));
      (s', ls + [l])
  }

  function FifoRun<T(==)>(room: nat, ls: seq<Label<T>>): Option<seq<T>> {
    if ls == [] then Some([])
    else
      var q := FifoRun(room, Front(ls));
      if q.None? then None else FifoStep(q.value, room, Last(ls))
  }

  /** Main theorem: whatever the schedule, the outcomes the two threads see are
      outcomes of one atomic bounded FIFO with cap - 1 places, and the ring's
      window is that FIFO's contents. */
  lemma {:induction false} RingIsFifo<T>(buf: seq<T>, sched: seq<Choice<T>>)
    requires CapacityOk(|buf|)
    ensures var (s, ls) := Exec(buf, sched);
            FifoRun(|buf| - 1, ls) == Some(Queue(s))
    decreases |sched|
  {
    if sched != [] {
      RingIsFifo(buf, Front(sched));
      var (s, ls) := Exec(buf, Front(sched));
      StepRefines(s, Last(sched));
      FrontAppend(ls, Step(s, Last(sched)).1);
    }
  }

  function Pushes<T>(ls: seq<Label<T>>): seq<T> {
    if ls == [] then []
    else Pushes(Front(ls)) + if Last(ls).PushOk? then [Last(ls).v] else []
  }

  function Pops<T>(ls: seq<Label<T>>): seq<T> {
    if ls == [] then []
    else Pops(Front(ls)) + if Last(ls).PopOk? then [Last(ls).x] else []
  }

  /** Whatever the schedule, what was popped is a prefix of what was pushed,
      and the rest is exactly the window between the two indices. */
  lemma PoppedIsPrefix<T>(buf: seq<T>, sched: seq<Choice<T>>)
    requires CapacityOk(|buf|)
    ensures var (s, ls) := Exec(buf, sched);
            Pushes(ls) == Pops(ls) + Queue(s) && |Queue(s)| <= |buf| - 1
  {
    HistoryIsLabels(buf, sched);
  }

  lemma {:induction false} HistoryIsLabels<T>(buf: seq<T>, sched: seq<Choice<T>>)
    requires CapacityOk(|buf|)
    ensures var (s, ls) := Exec(buf, sched);
            s.pushed == Pushes(ls) && s.popped == Pops(ls)
    decreases |sched|
  {
    if sched != [] {
      HistoryIsLabels(buf, Front(sched));
      var (s, ls) := Exec(buf, Front(sched));
      FrontAppend(ls, Step(s, Last(sched)).1);
    }
  }

  // ------------------------------------------------------------ progress

  // A call ends: whatever the other thread does between its steps, `try_push`
  // reports an outcome on its second or fourth step, and so does `try_pop`.

  /** The states of a run, and what each move reports. */
  ghost predicate IsRun<T>(buf: seq<T>, sched: seq<Choice<T>>, tr: seq<State<T>>, ls: seq<Label<T>>) {
    && |tr| == |sched| + 1 && |ls| == |sched| && tr[0] == Init(buf)
    && (forall k :: 0 <= k < |tr| ==> Inv(tr[k]) && |tr[k].buf| == |buf|)
    && (forall k :: 0 <= k < |sched| ==> Step(tr[k], sched[k]) == (tr[k + 1], ls[k]))
  }

  lemma MoveAt<T>(buf: seq<T>, sched: seq<Choice<T>>, tr: seq<State<T>>, ls: seq<Label<T>>, k: nat)
    requires IsRun(buf, sched, tr, ls) && k < |sched|
    ensures Inv(tr[k]) && |tr[k].buf| == |buf|
    ensures if sched[k].Prod? then ProducerStep(tr[k], sched[k].v) == (tr[k + 1], ls[k])
            else ConsumerStep(tr[k]) == (tr[k + 1], ls[k])
  {
    assert Step(tr[k], sched[k]) == (tr[k + 1], ls[k]);
  }

  /** The states of the run that `Exec` makes. */
  function States<T>(buf: seq<T>, sched: seq<Choice<T>>): (tr: seq<State<T>>)
    requires CapacityOk(|buf|)
    ensures |tr| == |sched| + 1 && Last(tr) == Exec(buf, sched).0
  {
    if sched == [] then [Init(buf)] else States(buf, Front(sched)) + [Exec(buf, sched).0]
  }

  lemma {:induction false} StatesAreRun<T>(buf: seq<T>, sched: seq<Choice<T>>)
    requires CapacityOk(|buf|)
    ensures IsRun(buf, sched, States(buf, sched), Exec(buf, sched).1)
    decreases |sched|
  {
    if sched == [] {
      assert Inv(Init(buf));
    } else {
      StatesAreRun(buf, Front(sched));
      var s := Exec(buf, Front(sched)).0;
      var (s', l) := Step(s, Last(sched));
      StepRefines(s, Last(sched));
      OneMoveMore(buf, Front(sched), Last(sched), States(buf, Front(sched)), Exec(buf, Front(sched)).1, s', l);
      FrontLast(sched);
    }
  }

  lemma OneMoveMore<T>(buf: seq<T>, sched: seq<Choice<T>>, c: Choice<T>, tr: seq<State<T>>, ls: seq<Label<T>>,
                       s': State<T>, l: Label<T>)
    requires IsRun(buf, sched, tr, ls) && Step(Last(tr), c) == (s', l) && Inv(s') && |s'.buf| == |buf|
    ensures IsRun(buf, sched + [c], tr + [s'], ls + [l])
  {
    var tr' := tr + [s'];
    forall k | 0 <= k < |sched| + 1 ensures Step(tr'[k], (sched + [c])[k]) == (tr'[k + 1], (ls + [l])[k]) {
      if k < |sched| { assert tr'[k] == tr[k] && tr'[k + 1] == tr[k + 1]; } else { assert tr'[k] == Last(tr); }
    }
  }

  /** `j` is the next move of the producer (of the consumer) after move `i`. */
  predicate NextProd<T>(sched: seq<Choice<T>>, i: nat, j: nat) {
    i < j < |sched| && sched[j].Prod? && forall m :: i < m < j ==> sched[m].Cons?
  }

  predicate NextCons<T>(sched: seq<Choice<T>>, i: nat, j: nat) {
    i < j < |sched| && sched[j].Cons? && forall m :: i < m < j ==> sched[m].Prod?
  }

  lemma ConsumerKeepsProducer<T>(s: State<T>)
    requires Inv(s)
    ensures ConsumerStep(s).0.prod == s.prod
  {
  }

  lemma ProducerKeepsConsumer<T>(s: State<T>, v: T)
    requires Inv(s)
    ensures ProducerStep(s, v).0.cons == s.cons
  {
  }

  lemma {:induction false} ProducerUntouched<T>(buf: seq<T>, sched: seq<Choice<T>>, tr: seq<State<T>>,
                                                ls: seq<Label<T>>, i: nat, j: nat)
    requires IsRun(buf, sched, tr, ls) && i <= j <= |sched| && forall m :: i <= m < j ==> sched[m].Cons?
    ensures tr[j].prod == tr[i].prod
    decreases j
  {
    if i < j {
      ProducerUntouched(buf, sched, tr, ls, i, j - 1);
      MoveAt(buf, sched, tr, ls, j - 1);
      ConsumerKeepsProducer(tr[j - 1]);
    }
  }

  lemma {:induction false} ConsumerUntouched<T>(buf: seq<T>, sched: seq<Choice<T>>, tr: seq<State<T>>,
                                                ls: seq<Label<T>>, i: nat, j: nat)
    requires IsRun(buf, sched, tr, ls) && i <= j <= |sched| && forall m :: i <= m < j ==> sched[m].Prod?
    ensures tr[j].cons == tr[i].cons
    decreases j
  {
    if i < j {
      ConsumerUntouched(buf, sched, tr, ls, i, j - 1);
      MoveAt(buf, sched, tr, ls, j - 1);
      ProducerKeepsConsumer(tr[j - 1], sched[j - 1].v);
    }
  }

  // What the four steps of a call do, state by state.

  lemma FullCheckDecides<T>(s: State<T>, w: T)
    requires Inv(s) && s.prod.PLoaded?
    ensures var (s', l) := ProducerStep(s, w);
            if |Queue(s)| == |s.buf| - 1 then l == PushFull(s.prod.v) && s'.prod.PIdle?
            else l == Internal && s'.prod == PChecked(s.prod.v, s.head)
  {
    FullIff(|s.buf|, s.head, s.tail);
  }

  lemma WriteProceeds<T>(s: State<T>, w: T)
    requires Inv(s) && s.prod.PChecked?
    ensures var (s', l) := ProducerStep(s, w); l == Internal && s'.prod == PWritten(s.prod.v, s.prod.h)
  {
  }

  lemma StoreEnds<T>(s: State<T>, w: T)
    requires Inv(s) && s.prod.PWritten?
    ensures var (s', l) := ProducerStep(s, w);
            l == PushOk(s.prod.v) && Inv(s') && Queue(s') == Queue(s) + [s.prod.v] && s'.prod.PIdle?
  {
    PublishRefines(s, w);
  }

  lemma EmptyCheckDecides<T>(s: State<T>)
    requires Inv(s) && s.cons.CLoaded?
    ensures var (s', l) := ConsumerStep(s);
            if Queue(s) == [] then l == PopEmpty && s'.cons.CIdle? else l == Internal && s'.cons.CChecked?
  {
    assert s.tail == s.head <==> |Queue(s)| == 0;
  }

  lemma ReadProceeds<T>(s: State<T>)
    requires Inv(s) && s.cons.CChecked?
    ensures var (s', l) := ConsumerStep(s); l == Internal && s'.cons.CRead?
  {
  }

  lemma TakeEnds<T>(s: State<T>)
    requires Inv(s) && s.cons.CRead?
    ensures var (s', l) := ConsumerStep(s);
            && Queue(s) != [] && l == PopOk(Queue(s)[0]) && Inv(s') && Queue(s') == Queue(s)[1..] && s'.cons.CIdle?
  {
    TakeRefines(s);
  }

  lemma FullCheckMove<T>(buf: seq<T>, sched: seq<Choice<T>>, tr: seq<State<T>>, ls: seq<Label<T>>, i: nat, j: nat)
    requires IsRun(buf, sched, tr, ls) && NextProd(sched, i, j) && sched[i].Prod? && tr[i].prod.PIdle?
    ensures var v := sched[i].v;
            && ls[i] == Internal
            && if |Queue(tr[j])| == |buf| - 1 then ls[j] == PushFull(v) && tr[j + 1].prod.PIdle?
               else ls[j] == Internal && tr[j + 1].prod.PChecked? && tr[j + 1].prod.v == v
  {
    MoveAt(buf, sched, tr, ls, i);
    assert tr[i + 1].prod == PLoaded(sched[i].v, tr[i].head);
    ProducerUntouched(buf, sched, tr, ls, i + 1, j);
    MoveAt(buf, sched, tr, ls, j);
    FullCheckDecides(tr[j], sched[j].v);
  }

  lemma WriteMove<T>(buf: seq<T>, sched: seq<Choice<T>>, tr: seq<State<T>>, ls: seq<Label<T>>, j: nat, k: nat)
    requires IsRun(buf, sched, tr, ls) && NextProd(sched, j, k) && tr[j + 1].prod.PChecked?
    ensures ls[k] == Internal && tr[k + 1].prod.PWritten? && tr[k + 1].prod.v == tr[j + 1].prod.v
  {
    ProducerUntouched(buf, sched, tr, ls, j + 1, k);
    MoveAt(buf, sched, tr, ls, k);
    WriteProceeds(tr[k], sched[k].v);
  }

  lemma StoreMove<T>(buf: seq<T>, sched: seq<Choice<T>>, tr: seq<State<T>>, ls: seq<Label<T>>, k: nat, l: nat)
    requires IsRun(buf, sched, tr, ls) && NextProd(sched, k, l) && tr[k + 1].prod.PWritten?
    ensures var v := tr[k + 1].prod.v;
            ls[l] == PushOk(v) && Queue(tr[l + 1]) == Queue(tr[l]) + [v] && tr[l + 1].prod.PIdle?
  {
    ProducerUntouched(buf, sched, tr, ls, k + 1, l);
    MoveAt(buf, sched, tr, ls, l);
    StoreEnds(tr[l], sched[l].v);
  }

  /** Every push ends, whatever the consumer does in between.  Let move `i` start
      a push of `v` and let `j`, `k`, `l` be the producer's next moves.  Move `j`
      reports full exactly when the queue is full at that moment; otherwise move
      `l` reports success and the queue gains `v`. */
  lemma PushEnds<T>(buf: seq<T>, sched: seq<Choice<T>>, i: nat, j: nat, k: nat, l: nat)
    requires CapacityOk(|buf|) && NextProd(sched, i, j) && sched[i].Prod?
    requires States(buf, sched)[i].prod.PIdle?
    ensures IsRun(buf, sched, States(buf, sched), Exec(buf, sched).1)
    ensures var v, tr, ls := sched[i].v, States(buf, sched), Exec(buf, sched).1;
            var full := |Queue(tr[j])| == |buf| - 1;
            && ls[i] == Internal && (ls[j] == PushFull(v) <==> full) && (full ==> tr[j + 1].prod.PIdle?)
            && (!full && NextProd(sched, j, k) && NextProd(sched, k, l) ==>
                  && ls[j] == Internal && ls[k] == Internal && ls[l] == PushOk(v)
                  && Queue(tr[l + 1]) == Queue(tr[l]) + [v] && tr[l + 1].prod.PIdle?)
  {
    var tr, ls := States(buf, sched), Exec(buf, sched).1;
    StatesAreRun(buf, sched);
    FullCheckMove(buf, sched, tr, ls, i, j);
    if |Queue(tr[j])| < |buf| - 1 && NextProd(sched, j, k) && NextProd(sched, k, l) {
      WriteMove(buf, sched, tr, ls, j, k);
      StoreMove(buf, sched, tr, ls, k, l);
    }
  }

  lemma EmptyCheckMove<T>(buf: seq<T>, sched: seq<Choice<T>>, tr: seq<State<T>>, ls: seq<Label<T>>, i: nat, j: nat)
    requires IsRun(buf, sched, tr, ls) && NextCons(sched, i, j) && sched[i].Cons? && tr[i].cons.CIdle?
    ensures ls[i] == Internal
    ensures if Queue(tr[j]) == [] then ls[j] == PopEmpty && tr[j + 1].cons.CIdle?
            else ls[j] == Internal && tr[j + 1].cons.CChecked?
  {
    MoveAt(buf, sched, tr, ls, i);
    assert tr[i + 1].cons == CLoaded(tr[i].tail);
    ConsumerUntouched(buf, sched, tr, ls, i + 1, j);
    MoveAt(buf, sched, tr, ls, j);
    EmptyCheckDecides(tr[j]);
  }

  lemma ReadMove<T>(buf: seq<T>, sched: seq<Choice<T>>, tr: seq<State<T>>, ls: seq<Label<T>>, j: nat, k: nat)
    requires IsRun(buf, sched, tr, ls) && NextCons(sched, j, k) && tr[j + 1].cons.CChecked?
    ensures ls[k] == Internal && tr[k + 1].cons.CRead?
  {
    ConsumerUntouched(buf, sched, tr, ls, j + 1, k);
    MoveAt(buf, sched, tr, ls, k);
    ReadProceeds(tr[k]);
  }

  lemma TakeMove<T>(buf: seq<T>, sched: seq<Choice<T>>, tr: seq<State<T>>, ls: seq<Label<T>>, k: nat, l: nat)
    requires IsRun(buf, sched, tr, ls) && NextCons(sched, k, l) && tr[k + 1].cons.CRead?
    ensures var q := Queue(tr[l]);
            q != [] && ls[l] == PopOk(q[0]) && Queue(tr[l + 1]) == q[1..] && tr[l + 1].cons.CIdle?
  {
    ConsumerUntouched(buf, sched, tr, ls, k + 1, l);
    MoveAt(buf, sched, tr, ls, l);
    TakeEnds(tr[l]);
  }

  /** Every pop ends, whatever the producer does in between: its second move
      reports empty exactly when the queue is empty at that moment; otherwise its
      fourth reports the oldest element, which leaves the queue. */
  lemma PopEnds<T>(buf: seq<T>, sched: seq<Choice<T>>, i: nat, j: nat, k: nat, l: nat)
    requires CapacityOk(|buf|) && NextCons(sched, i, j) && sched[i].Cons?
    requires States(buf, sched)[i].cons.CIdle?
    ensures IsRun(buf, sched, States(buf, sched), Exec(buf, sched).1)
    ensures var tr, ls := States(buf, sched), Exec(buf, sched).1;
            var empty := Queue(tr[j]) == [];
            && ls[i] == Internal && (ls[j] == PopEmpty <==> empty) && (empty ==> tr[j + 1].cons.CIdle?)
            && (!empty && NextCons(sched, j, k) && NextCons(sched, k, l) ==>
                  && var q := Queue(tr[l]);
                  && ls[j] == Internal && ls[k] == Internal
                  && q != [] && ls[l] == PopOk(q[0]) && Queue(tr[l + 1]) == q[1..] && tr[l + 1].cons.CIdle?)
  {
    var tr, ls := States(buf, sched), Exec(buf, sched).1;
    StatesAreRun(buf, sched);
    EmptyCheckMove(buf, sched, tr, ls, i, j);
    if Queue(tr[j]) != [] && NextCons(sched, j, k) && NextCons(sched, k, l) {
      ReadMove(buf, sched, tr, ls, j, k);
      TakeMove(buf, sched, tr, ls, k, l);
    }
  }

  /** No data race: in every reachable state the queue's elements lie in the
      slots counted from `tail`, and the slot the producer is about to write, or
      has written and not published, is none of them; in particular not the one
      the consumer is reading. */
  lemma NoRace<T>(buf: seq<T>, sched: seq<Choice<T>>, i: nat)
    requires CapacityOk(|buf|)
    ensures var s := Exec(buf, sched).0;
            var writing := s.prod.PChecked? || s.prod.PWritten?;
            && (i < |Queue(s)| ==>
                  && Slot(|buf|, s.tail, i) < |buf| && Queue(s)[i] == s.buf[Slot(|buf|, s.tail, i)]
                  && (writing ==> Slot(|buf|, s.tail, i) != s.prod.h))
            && (writing && (s.cons.CChecked? || s.cons.CRead?) ==> s.cons.t != s.prod.h)
  {
    var s := Exec(buf, sched).0;
    if i < |Queue(s)| { WindowAt(s.buf, s.head, s.tail, i); }
    if (s.prod.PChecked? || s.prod.PWritten?) && (s.cons.CChecked? || s.cons.CRead?) {
      WindowAt(s.buf, s.head, s.tail, 0);
    }
  }
}
