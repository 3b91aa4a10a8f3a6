/**
 The Kafka client: raw messages are hashed to a decode worker's queue, each
 worker turns a message into an event on its own event queue, and the q process
 drains the event queues round-robin.  The queues are the bounded FIFOs that the
 ring implements, with the drop-oldest policy.
 */
module KfkpbClient {
  import opened Bits
  import opened Seqs
  import DropOldest
  import opened SpscQueue

  datatype MsgType = BasicQuoteMsg | OrderBookMsg | TickerMsg | Kline1MMsg | UnknownMsg

  datatype RawMsg = RawMsg(topic: string, key: string, payload: string, tsNs: int, isError: bool, errMsg: string)

  datatype Kind = Data | Error

  datatype Event = Event(
    kind: Kind, topic: string, key: string, ingestNs: int, msgType: MsgType, data: string, errMsg: string)

  /** What a decoder does with one message. */
  datatype Decoded = Bytes(kbytes: string) | Failed(em: string) | Threw

  type Decoder = (MsgType, RawMsg) -> Decoded

  /** The body of the decode loop for one message. */
  function EventFor(m: RawMsg, types: map<string, MsgType>, decode: Decoder): Event {
    if m.isError then
      Event(Error, m.topic, m.key, m.tsNs, UnknownMsg, "", m.errMsg)
    else
      var mt := if m.topic in types then types[m.topic] else UnknownMsg;
      if mt == UnknownMsg then
        Event(Error, m.topic, m.key, m.tsNs, UnknownMsg, "", "unknown topic mapping")
      else
        match decode(mt, m)
        case Bytes(kbytes) => Event(Data, m.topic, m.key, m.tsNs, mt, kbytes, "")
        case Failed(em) =>
          Event(Error, m.topic, m.key, m.tsNs, mt, "", if em == "" then "decode failed" else em)
        case Threw =>
          Event(Error, m.topic, m.key, m.tsNs, mt, "", "decoder threw exception")
  }

  /** `e` reports message `m`: the same topic, key and time; if it is data, the
      decoder's bytes for that message; if not, with an error text. */
  predicate Reports(m: RawMsg, e: Event, decode: Decoder) {
    && e.topic == m.topic && e.key == m.key && e.ingestNs == m.tsNs
    && (e.kind == Data ==> !m.isError && decode(e.msgType, m) == Bytes(e.data))
    && (e.kind == Error ==> e.data == "" && (e.errMsg == "" ==> m.isError && m.errMsg == ""))
    && (m.isError ==> e.kind == Error && e.errMsg == m.errMsg)
  }

  lemma EventReports(m: RawMsg, types: map<string, MsgType>, decode: Decoder)
    ensures Reports(m, EventFor(m, types, decode), decode)
    ensures EventFor(m, types, decode).kind == Data <==>
            && !m.isError && m.topic in types && types[m.topic] != UnknownMsg
            && decode(types[m.topic], m).Bytes?
  {
  }

  /** What an event says about its message's type and failure. */
  lemma EventErrors(m: RawMsg, types: map<string, MsgType>, decode: Decoder)
    ensures var e := EventFor(m, types, decode);
            if m.isError then e.kind == Error && e.errMsg == m.errMsg
            else if m.topic !in types || types[m.topic] == UnknownMsg then
              e.kind == Error && e.msgType == UnknownMsg && e.errMsg == "unknown topic mapping"
            else
              && e.msgType == types[m.topic]
              && (match decode(types[m.topic], m)
                  case Bytes(k) => e.kind == Data && e.data == k
                  case Failed(em) => e.kind == Error && e.errMsg != "" && (em != "" ==> e.errMsg == em)
                  case Threw => e.kind == Error && e.errMsg == "decoder threw exception")
  {
  }

  /** The worker for a message: by key, or round-robin for messages without one. */
  function WorkerFor(key: string, rr: nat, n: nat, hash: string -> nat): nat
    requires n > 0
  {
    if key != "" then hash(key) % n else rr % n
  }

  /** `fetch_add(1)` on a 64-bit counter. */
  function Next(x: nat): nat { (x + 1) % WORD }

  class KfkpbClient {
    const hash: string -> nat
    const rawRoom: nat
    const evtRoom: nat
    var rawQs: seq<seq<RawMsg>>
    var evtQs: seq<seq<Event>>
    var rawEpochs: seq<nat>
    var drainRr: nat
    var fallbackRr: nat
    var topicTypes: map<string, MsgType>

    ghost predicate Valid()
      reads this
    {
      && rawRoom > 0 && evtRoom > 0
      && |rawQs| == |evtQs| == |rawEpochs|
      && (forall i :: 0 <= i < |rawQs| ==> |rawQs[i]| <= rawRoom)
      && (forall i :: 0 <= i < |evtQs| ==> |evtQs[i]| <= evtRoom)
    }

    /** The member initialization, given how many elements the rings can hold;
        `NewClient` sizes the rings. */
    constructor (threads: nat, rawRoom: nat, evtRoom: nat, h: string -> nat)
      requires rawRoom > 0 && evtRoom > 0
      ensures Valid() && |rawQs| == threads && this.rawRoom == rawRoom && this.evtRoom == evtRoom
      ensures forall i :: 0 <= i < threads ==> rawQs[i] == [] && evtQs[i] == [] && rawEpochs[i] == 0
      ensures hash == h && drainRr == fallbackRr == 0
    {
      this.rawRoom, this.evtRoom := rawRoom, evtRoom;
      hash := h;
      rawQs := seq(threads, _ => []);
      evtQs := seq(threads, _ => []);
      rawEpochs := seq(threads, _ => 0);
      drainRr, fallbackRr, topicTypes := 0, 0, map[];
    }

    method WorkerIndexFor(m: RawMsg) returns (w: nat)
      requires Valid()
      modifies this`fallbackRr
      ensures |rawQs| == 0 ==> w == 0
      ensures |rawQs| > 0 ==> w == WorkerFor(m.key, old(fallbackRr), |rawQs|, hash) && w < |rawQs|
      ensures fallbackRr == if |rawQs| > 0 && m.key == "" then Next(old(fallbackRr)) else old(fallbackRr)
    {
      if |rawQs| == 0 { return 0; }
      if m.key != "" { return hash(m.key) % |rawQs|; }
      w := fallbackRr % |rawQs|;
      fallbackRr := Next(fallbackRr);
    }

    method PushRaw(m: RawMsg) returns (w: nat)
      requires Valid() && |rawQs| > 0
      modifies this`fallbackRr, this`rawQs, this`rawEpochs
      ensures Valid() && w < |rawQs| == |old(rawQs)|
      ensures w == WorkerFor(m.key, old(fallbackRr), |rawQs|, hash)
      ensures rawQs == old(rawQs)[w := DropOldest.Push(old(rawQs)[w], rawRoom, m).0]
      ensures rawEpochs == old(rawEpochs)[w := Next(old(rawEpochs)[w])]
    {
      w := WorkerIndexFor(m);
      var (q, ok) := FifoPush(rawQs[w], rawRoom, m);
      if !ok {
        q := FifoPush(FifoPop(q).0, rawRoom, m).0;
      }
      rawQs := rawQs[w := q];
      rawEpochs := rawEpochs[w := Next(rawEpochs[w])];
    }

    method PushEvent(w: nat, e: Event)
      requires Valid() && w < |evtQs|
      modifies this`evtQs
      ensures Valid()
      ensures evtQs == old(evtQs)[w := DropOldest.Push(old(evtQs)[w], evtRoom, e).0]
    {
      var (q, ok) := FifoPush(evtQs[w], evtRoom, e);
      if !ok {
        q := FifoPush(FifoPop(q).0, evtRoom, e).0;
      }
      evtQs := evtQs[w := q];
    }

    /** One turn of a worker that finds a message: it leaves the raw queue and
        exactly one event that reports it is pushed. */
    method DecodeTurn(w: nat, decode: Decoder)
      requires Valid() && w < |rawQs| && rawQs[w] != []
      modifies this`rawQs, this`evtQs
      ensures Valid()
      ensures rawQs == old(rawQs)[w := old(rawQs)[w][1..]]
      ensures var e := EventFor(old(rawQs)[w][0], topicTypes, decode);
              && Reports(old(rawQs)[w][0], e, decode)
              && evtQs == old(evtQs)[w := DropOldest.Push(old(evtQs)[w], evtRoom, e).0]
    {
      var (q, out) := FifoPop(rawQs[w]);
      rawQs := rawQs[w := q];
      EventReports(out.value, topicTypes, decode);
      PushEvent(w, EventFor(out.value, topicTypes, decode));
    }

    /** `while (q.try_pop(ev)) out.push_back(*ev)` */
    method DrainQueue(idx: nat, acc: seq<Event>) returns (out: seq<Event>)
      requires Valid() && idx < |evtQs|
      modifies this`evtQs
      ensures Valid()
      ensures evtQs == old(evtQs)[idx := []] && out == acc + old(evtQs)[idx]
    {
      out := acc;
      ghost var k := 0;
      while evtQs[idx] != []
        invariant Valid() && |evtQs| == |old(evtQs)| && k <= |old(evtQs)[idx]|
        invariant evtQs == old(evtQs)[idx := old(evtQs)[idx][k..]]
        invariant out == acc + old(evtQs)[idx][..k]
        decreases |evtQs[idx]|
      {
        var (q, ev) := FifoPop(evtQs[idx]);
        evtQs := evtQs[idx := q];
        out := out + [ev.value];
        k := k + 1;
      }
    }

    /** Takes everything from every event queue, starting with queue drainRr
        modulo the number of queues; the queues come out one after the other in
        rotated order, and the fallback for an empty result adds nothing. */
    method DrainTo(acc: seq<Event>) returns (out: seq<Event>)
      requires Valid()
      modifies this`evtQs, this`drainRr
      ensures Valid() && |evtQs| == |old(evtQs)|
      ensures forall i :: 0 <= i < |evtQs| ==> evtQs[i] == []
      ensures |evtQs| == 0 ==> out == acc && drainRr == old(drainRr)
      ensures |evtQs| > 0 ==>
                && drainRr == Next(old(drainRr))
                && out == acc + Flatten(Rotate(old(evtQs), old(drainRr) % |evtQs|))
    {
      out := acc;
      if |evtQs| == 0 { return; }
      var start := drainRr % |evtQs|;
      drainRr := Next(drainRr);
      out := DrainFrom(start, acc);
      if |out| == |acc| {
        assert forall i :: 0 <= i < |evtQs| ==> Rotate(evtQs, start)[i] == [];
        out := TakeFirst(start, out);
      }
    }

    /** The first loop of `drainTo`. */
    method DrainFrom(start: nat, acc: seq<Event>) returns (out: seq<Event>)
      requires Valid() && start < |evtQs|
      modifies this`evtQs
      ensures Valid() && |evtQs| == |old(evtQs)|
      ensures forall i :: 0 <= i < |evtQs| ==> evtQs[i] == []
      ensures out == acc + Flatten(Rotate(old(evtQs), start))
    {
      out := acc;
      var qn := |evtQs|;
      ghost var rotated := Rotate(evtQs, start);
      for i := 0 to qn
        invariant Valid() && |evtQs| == qn
        invariant Rotate(evtQs, start) == Blank(rotated, i)
        invariant out == acc + Flatten(rotated[..i])
      {
        ghost var before := evtQs;
        RotatedAt(before, start, i);
        var idx := (start + i) % qn;
        out := DrainQueue(idx, out);
        RotateUpdate(before, start, i, []);
        BlankOneMore(rotated, i);
        FlattenSnoc(rotated, i);
      }
      assert rotated[..qn] == rotated;
      AllEmpty(evtQs, start);
    }

    /** The fallback of `drainTo`: one event from the first queue, in rotated
        order, that has one. */
    method TakeFirst(start: nat, acc: seq<Event>) returns (out: seq<Event>)
      requires Valid() && start < |evtQs|
      modifies this`evtQs
      ensures Valid() && |evtQs| == |old(evtQs)|
      ensures var before, after := Rotate(old(evtQs), start), Rotate(evtQs, start);
              || (out == acc && evtQs == old(evtQs) && EmptyUpTo(before, |before|))
              || (exists i :: 0 <= i < |before| && EmptyUpTo(before, i) && before[i] != []
                    && out == acc + [before[i][0]] && after == before[i := before[i][1..]])
    {
      out := acc;
      ghost var before := Rotate(evtQs, start);
      for i := 0 to |evtQs|
        invariant evtQs == old(evtQs) && out == acc && EmptyUpTo(before, i)
      {
        var idx := (start + i) % |evtQs|;
        RotatedAt(evtQs, start, i);
        if evtQs[idx] != [] {
          RotateUpdate(evtQs, start, i, evtQs[idx][1..]);
          out := out + [evtQs[idx][0]];
          evtQs := evtQs[idx := evtQs[idx][1..]];
          assert before[i] != [] && out == acc + [before[i][0]];
          break;
        }
      }
    }
  }

  /** The number of slots `next_pow2(max + 1)` of the ring for `max` elements on
      64-bit words: at the two ends the word is too short, from 2^63 on the
      rounded number wraps to zero, and at the largest word `max + 1` itself
      wraps. */
  ghost predicate SlotsFor(max: nat, cap: nat) {
    && (max < HALF_WORD ==> LeastPow2(max + 1, cap))
    && (HALF_WORD <= max < WORD - 1 ==> cap == 0)
    && (max == WORD - 1 ==> cap == 2)
  }

  /** The size test of the ring's constructor rejects exactly the bounds from
      2^63 on except the largest word, and of the accepted rings exactly that of
      the largest word is too small for its bound. */
  method RingFor(max: nat) returns (cap: nat)
    requires max < WORD
    ensures SlotsFor(max, cap)
    ensures CapacityOk(cap) <==> !(HALF_WORD <= max < WORD - 1)
    ensures CapacityOk(cap) ==> (cap - 1 >= max <==> max < HALF_WORD)
  {
    var wanted := Next(max);
    cap := NextPow2Smear(wanted);
    RingSize(max, wanted, cap);
  }

  /** A bound of 2^63 has no ring, and the largest one a ring for one element. */
  lemma HugeBoundExample(cap: nat)
    ensures SlotsFor(HALF_WORD, cap) ==> !CapacityOk(cap)
    ensures SlotsFor(WORD - 1, cap) ==> CapacityOk(cap) && cap - 1 == 1
  {
    LeastPow2Small(0);
    NextPow2FormsAgree(0, 2, 2);
  }

  lemma RingSize(max: nat, wanted: nat, c: nat)
    requires max < WORD && wanted == Next(max)
    requires wanted <= HALF_WORD ==> LeastPow2(wanted, c)
    requires wanted > HALF_WORD ==> c == 0
    ensures max < HALF_WORD ==> LeastPow2(max + 1, c) && CapacityOk(c) && c - 1 >= max
    ensures HALF_WORD <= max < WORD - 1 ==> c == 0
    ensures max == WORD - 1 ==> c == 2 && CapacityOk(c)
  {
    if max == WORD - 1 {
      LeastPow2Small(0);
      NextPow2FormsAgree(0, 2, c);
    } else {
      SmallMod(max + 1, WORD);
      if max < HALF_WORD {
        NextPow2FormsAgree(max + 1, c, c);
        QueueRoom(max, c);
      }
    }
  }

  /** Ring number `k` is allocated and passes the size test. */
  predicate Builds(alloc: (nat, nat) -> bool, k: nat, cap: nat) {
    alloc(k, cap) && CapacityOk(cap)
  }

  /** The constructor as a caller sees it.  The rings are built one after the
      other, a raw and an event ring per worker; `alloc(k, slots)` answers for
      the allocation of the k-th of them.  It fails exactly when some ring is not
      allocated or does not pass the size test. */
  method NewClient(threads: nat, maxRaw: nat, maxEvt: nat, h: string -> nat, alloc: (nat, nat) -> bool)
    returns (r: Result<KfkpbClient, QueueError>, rawCap: nat, evtCap: nat)
    requires maxRaw < WORD && maxEvt < WORD
    ensures SlotsFor(maxRaw, rawCap) && SlotsFor(maxEvt, evtCap)
    ensures r.Ok? <==>
            forall i: nat :: i < threads ==> Builds(alloc, 2 * i, rawCap) && Builds(alloc, 2 * i + 1, evtCap)
    ensures r.Ok? ==> fresh(r.value) && r.value.Valid() && |r.value.rawQs| == threads
    ensures r.Ok? && threads > 0 ==>
              && (r.value.rawRoom >= maxRaw <==> maxRaw < HALF_WORD)
              && (r.value.evtRoom >= maxEvt <==> maxEvt < HALF_WORD)
  {
    rawCap := RingFor(maxRaw);
    evtCap := RingFor(maxEvt);
    for i := 0 to threads
      invariant forall j: nat :: j < i ==> Builds(alloc, 2 * j, rawCap) && Builds(alloc, 2 * j + 1, evtCap)
    {
      var raw := BuildRing(alloc, 2 * i, rawCap);
      if raw.Err? { return Err(raw.error), rawCap, evtCap; }
      var evt := BuildRing(alloc, 2 * i + 1, evtCap);
      if evt.Err? { return Err(evt.error), rawCap, evtCap; }
    }
    if threads > 0 { assert Builds(alloc, 2 * 0, rawCap) && Builds(alloc, 2 * 0 + 1, evtCap); }
    var rawRoom := if threads > 0 then rawCap - 1 else 1;
    var evtRoom := if threads > 0 then evtCap - 1 else 1;
    var client := new KfkpbClient(threads, rawRoom, evtRoom, h);
    r := Ok(client);
  }

  /** The ring's constructor; the class keeps only how much the ring holds. */
  method BuildRing(alloc: (nat, nat) -> bool, k: nat, cap: nat) returns (r: Result<(), QueueError>)
    ensures r.Ok? <==> Builds(alloc, k, cap)
    ensures r.Err? ==> r.error == if alloc(k, cap) then NotPowerOfTwo else AllocationFails
  {
    if !alloc(k, cap) { return Err(AllocationFails); }
    if cap < 2 || And(cap, cap - 1) != 0 { return Err(NotPowerOfTwo); }
    r := Ok(());
  }

  ghost predicate EmptyUpTo<T>(ss: seq<seq<T>>, n: nat)
    requires n <= |ss|
  {
    forall k :: 0 <= k < n ==> ss[k] == []
  }

  /** The first `i` sequences replaced by empty ones. */
  ghost function Blank<T>(ss: seq<seq<T>>, i: nat): seq<seq<T>>
    requires i <= |ss|
  {
    seq(i, _ => []) + ss[i..]
  }

  lemma BlankOneMore<T>(ss: seq<seq<T>>, i: nat)
    requires i < |ss|
    ensures Blank(ss, i)[i] == ss[i] && Blank(ss, i)[i := []] == Blank(ss, i + 1)
  {
  }

  /** The counters advance by one and wrap at 2^64: the next call of `drainTo`
      starts at the next queue, cyclically, except at the wrap. */
  lemma NextRotates(x: nat, n: nat)
    requires n > 0
    ensures Next(WORD - 1) == 0
    ensures x < WORD - 1 ==> Next(x) == x + 1
    ensures x < WORD - 1 ==> Next(x) % n == if x % n + 1 == n then 0 else x % n + 1
  {
    if x < WORD - 1 {
      SmallMod(x + 1, WORD);
      ModSuccessor(x, n);
    }
  }

  lemma ModSuccessor(x: nat, n: nat)
    requires n > 0
    ensures (x + 1) % n == if x % n + 1 == n then 0 else x % n + 1
  {
    DivMod(x, n);
    DivMod(x + 1, n);
    var q, r := x / n, x % n;
    if r + 1 == n {
      MulStep(q, n);
      ModUnique(x + 1, q + 1, 0, n);
    } else {
      ModUnique(x + 1, q, r + 1, n);
    }
  }

  lemma MulStep(q: nat, n: nat)
    ensures (q + 1) * n == q * n + n
  {
  }

  lemma ModUnique(x: nat, q: nat, r: nat, n: nat)
    requires n > 0 && r < n && x == q * n + r
    ensures x % n == r
  {
    DivMod(x, n);
    var q', r' := x / n, x % n;
    if q' < q {
      MulMonotone(q' + 1, q, n);
      MulStep(q', n);
      assert false;
    } else if q < q' {
      MulMonotone(q + 1, q', n);
      MulStep(q, n);
      assert false;
    }
  }

  function Rotate<T>(s: seq<T>, k: nat): seq<T>
    requires k <= |s|
  {
    s[k..] + s[..k]
  }

  /** Queue (start + i) mod n is the i-th of the rotated order, so every queue
      is visited once. */
  lemma RotatedAt<T>(s: seq<T>, start: nat, i: nat)
    requires start < |s| && i < |s|
    ensures var idx := (start + i) % |s|;
            && idx == (if start + i < |s| then start + i else start + i - |s|)
            && Rotate(s, start)[i] == s[idx]
  {
    if start + i < |s| { ModOf(start + i, |s|, 0); } else { ModOf(start + i, |s|, 1); }
  }

  lemma RotateUpdate<T>(s: seq<T>, start: nat, i: nat, x: T)
    requires start < |s| && i < |s|
    ensures Rotate(s[(start + i) % |s| := x], start) == Rotate(s, start)[i := x]
  {
    RotatedAt(s, start, i);
    var idx := if start + i < |s| then start + i else start + i - |s|;
    assert Rotate(s[idx := x], start) == Rotate(s, start)[i := x];
  }

  lemma ModOf(x: nat, n: nat, q: nat)
    requires n > 0 && q <= 1 && q * n <= x < (q + 1) * n
    ensures x % n == x - q * n
  {
    if q == 0 { assert x < n; } else { assert n <= x < 2 * n; assert (x - n) % n == x - n; }
  }

  lemma AllEmpty<T>(qs: seq<seq<T>>, start: nat)
    requires start < |qs| && forall i :: 0 <= i < |qs| ==> Rotate(qs, start)[i] == []
    ensures forall i :: 0 <= i < |qs| ==> qs[i] == []
  {
    forall i | 0 <= i < |qs| ensures qs[i] == [] {
      var r := Rotate(qs, start);
      if start <= i { assert qs[i] == r[i - start]; } else { assert qs[i] == r[|qs| - start + i]; }
    }
  }

  lemma {:induction false} FlattenSnoc<T>(ss: seq<seq<T>>, i: nat)
    requires i < |ss|
    ensures Flatten(ss[..i + 1]) == Flatten(ss[..i]) + ss[i]
    decreases i
  {
    if i == 0 {
      assert ss[..1] == [ss[0]];
      assert Flatten(ss[..1]) == ss[0] + Flatten(ss[..1][1..]);
    } else {
      assert ss[..i + 1][1..] == ss[1..][..i] && ss[..i][1..] == ss[1..][..i - 1];
      FlattenSnoc(ss[1..], i - 1);
    }
  }
}
