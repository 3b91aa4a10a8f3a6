/**
 The four serializers of the schema library, row by row into column-major kdb+
 tables.  The builder appends to its buffer in place; every writer is proved to
 append exactly the encoding of module QCodec, and each table gives its rows
 back by transposition.
 */
module QIpc {
  import opened Bits
  import opened QCodec

  // ------------------------------------------------------------ the builder

  class Builder {
    var buf: seq<Byte>

    constructor ()
      ensures buf == []
    {
      buf := [];
    }

    method PutU8(v: Byte)
      modifies this
      ensures buf == old(buf) + [v]
    {
      buf := buf + [v];
    }

    method PutU32Le(v: nat)
      modifies this
      ensures buf == old(buf) + Le(v, 4)
    {
      PutU8(v % 256);
      PutU8(Shr(v, 8) % 256);
      PutU8(Shr(v, 16) % 256);
      PutU8(Shr(v, 24) % 256);
      FourBytes(v);
    }

    method PutU64Le(v: nat)
      modifies this
      ensures buf == old(buf) + Le(v, 8)
    {
      for i := 0 to 8
        invariant buf + Le(Shr(v, 8 * i), 8 - i) == old(buf) + Le(v, 8)
      {
        LeStep(v, i);
        PutU8(Shr(v, 8 * i) % 256);
      }
      assert Le(Shr(v, 64), 0) == [];
    }

    method PutI32Le(v: int)
      modifies this
      ensures buf == old(buf) + EncInt(v)
    {
      PutU32Le(ToU32(v));
    }

    method PutI64Le(v: int)
      modifies this
      ensures buf == old(buf) + EncLong(v)
    {
      PutU64Le(ToU64(v));
    }

    method PutF64Le(pattern: nat)
      modifies this
      ensures buf == old(buf) + EncFloat(pattern)
    {
      PutU64Le(pattern);
    }

    method PutCstr(s: string)
      modifies this
      ensures buf == old(buf) + EncSym(s)
    {
      buf := buf + StrBytes(s);
      buf := buf + [0];
    }

    method EmitTypedListHdr(t: Byte, n: nat)
      requires n < U32
      modifies this
      ensures buf == old(buf) + ListHdr(t, n)
    {
      PutU8(t);
      PutU8(0);
      PutU32Le(n);
    }

    method PutCstrs(syms: seq<string>)
      modifies this
      ensures buf == old(buf) + Cat(syms, EncSym)
    {
      for i := 0 to |syms|
        invariant buf == old(buf) + Cat(syms[..i], EncSym)
      {
        PutCstr(syms[i]);
        CatSnoc(syms[..i], syms[i], EncSym);
        assert syms[..i + 1] == syms[..i] + [syms[i]];
      }
      assert syms[..|syms|] == syms;
    }

    method EmitSymList(syms: seq<string>)
      modifies this
      ensures buf == old(buf) + EncColumn(Syms(syms))
    {
      EmitTypedListHdr(KS_LIST, |syms| % U32);
      PutCstrs(syms);
      ListHdrWraps(KS_LIST, |syms|);
      EncSymColumn(syms);
    }

    method BeginIpc()
      modifies this
      ensures buf == ZEROS
    {
      buf := ZEROS;
    }

    method BeginTable(names: seq<string>)
      modifies this
      ensures buf == old(buf) + EncTableHead(names, |names|)
    {
      PutU8(XT_TABLE);
      PutU8(0);
      PutU8(XD_DICT);
      EmitSymList(names);
      EmitTypedListHdr(KL_LIST, |names| % U32);
      ListHdrWraps(KL_LIST, |names|);
      EncHeadParts(old(buf), names);
    }

    /** Fills in the reserved header and hands the buffer over. */
    method FinishIpc(ghost body: seq<Byte>) returns (out: seq<Byte>)
      requires buf == ZEROS + body
      modifies this
      ensures out == Frame(body) && buf == []
    {
      var total := |buf| % U32;
      var hdr := [1, 0, 0, 0, total % 256, Shr(total, 8) % 256, Shr(total, 16) % 256, Shr(total, 24) % 256];
      HeaderIs(hdr, total);
      assert buf[8..] == body;
      buf := hdr + buf[8..];
      out := buf;
      buf := [];
    }
  }

  lemma HeaderIs(hdr: seq<Byte>, total: nat)
    requires hdr == [1, 0, 0, 0, total % 256, Shr(total, 8) % 256, Shr(total, 16) % 256, Shr(total, 24) % 256]
    ensures hdr == [1, 0, 0, 0] + Le(total, 4)
  {
    FourBytes(total);
  }

  lemma {:induction false} ShrAdd(v: nat, a: nat, b: nat)
    ensures Shr(v, a + b) == Shr(Shr(v, a), b)
    decreases a
  {
    if a > 0 { ShrAdd(v / 2, a - 1, b); }
  }

  lemma Shr8(v: nat)
    ensures Shr(v, 8) == v / 256
  {
    assert Shr(v, 4) == v / 16;
    ShrAdd(v, 4, 4);
    assert Shr(v / 16, 4) == v / 16 / 16;
  }

  lemma FourBytes(v: nat)
    ensures Le(v, 4) == [v % 256, Shr(v, 8) % 256, Shr(v, 16) % 256, Shr(v, 24) % 256]
  {
    Shr8(v);
    ShrAdd(v, 8, 8);
    Shr8(Shr(v, 8));
    ShrAdd(v, 16, 8);
    Shr8(Shr(v, 16));
    var a, b, c := Shr(v, 8), Shr(v, 16), Shr(v, 24);
    assert Le(v, 4) == [v % 256] + Le(a, 3);
    assert Le(a, 3) == [a % 256] + Le(b, 2);
    assert Le(b, 2) == [b % 256] + Le(c, 1);
    assert Le(c, 1) == [c % 256] + Le(c / 256, 0);
  }

  lemma LeStep(v: nat, i: nat)
    requires i < 8
    ensures Le(Shr(v, 8 * i), 8 - i) == [Shr(v, 8 * i) % 256] + Le(Shr(v, 8 * (i + 1)), 8 - (i + 1))
  {
    ShrAdd(v, 8 * i, 8);
    Shr8(Shr(v, 8 * i));
  }

  lemma EncSymColumn(syms: seq<string>)
    ensures EncColumn(Syms(syms)) == ListHdr(KS_LIST, |syms|) + Cat(syms, EncSym)
  {
  }

  lemma EncHeadParts(b: seq<Byte>, names: seq<string>)
    ensures b + [XT_TABLE] + [0] + [XD_DICT] + EncColumn(Syms(names)) + ListHdr(KL_LIST, |names|) ==
            b + EncTableHead(names, |names|)
  {
    assert b + [XT_TABLE] + [0] + [XD_DICT] == b + [XT_TABLE, 0, XD_DICT];
  }

  // ------------------------------------------------------------ columns of rows

  function Map<R, T>(rows: seq<R>, get: R -> T): (r: seq<T>)
    ensures |r| == |rows| && forall i :: 0 <= i < |rows| ==> r[i] == get(rows[i])
  {
    seq(|rows|, i requires 0 <= i < |rows| => get(rows[i]))
  }

  lemma MapSnoc<R, T>(rows: seq<R>, i: nat, get: R -> T)
    requires i < |rows|
    ensures Map(rows[..i + 1], get) == Map(rows[..i], get) + [get(rows[i])]
  {
  }

  /** A table being emitted: the columns `done` follow the fixed part `pre`. */
  ghost predicate Emitted(b: Builder, pre: seq<Byte>, done: seq<Column>)
    reads b
  {
    b.buf == pre + Cat(done, EncColumn)
  }

  /** A header and a body, appended one after the other, add one column. */
  lemma EmittedOneMore(pre: seq<Byte>, done: seq<Column>, c: Column, hdr: seq<Byte>, body: seq<Byte>)
    requires hdr == ListHdr(TypeOf(c), Size(c)) && body == EncBody(c)
    ensures pre + Cat(done, EncColumn) + hdr + body == pre + Cat(done + [c], EncColumn)
  {
    CatSnoc(done, c, EncColumn);
  }

  lemma ListHdrWraps(t: Byte, n: nat)
    ensures ListHdr(t, n % U32) == ListHdr(t, n)
  {
  }

  method PutSyms<R>(b: Builder, rows: seq<R>, get: R -> string)
    modifies b
    ensures b.buf == old(b.buf) + Cat(Map(rows, get), EncSym)
  {
    for i := 0 to |rows|
      invariant b.buf == old(b.buf) + Cat(Map(rows[..i], get), EncSym)
    {
      b.PutCstr(get(rows[i]));
      MapSnoc(rows, i, get);
      CatSnoc(Map(rows[..i], get), get(rows[i]), EncSym);
    }
    assert rows[..|rows|] == rows;
  }

  method PutLongs<R>(b: Builder, rows: seq<R>, get: R -> int)
    modifies b
    ensures b.buf == old(b.buf) + Cat(Map(rows, get), EncLong)
  {
    for i := 0 to |rows|
      invariant b.buf == old(b.buf) + Cat(Map(rows[..i], get), EncLong)
    {
      b.PutI64Le(get(rows[i]));
      MapSnoc(rows, i, get);
      CatSnoc(Map(rows[..i], get), get(rows[i]), EncLong);
    }
    assert rows[..|rows|] == rows;
  }

  method PutFloats<R>(b: Builder, rows: seq<R>, get: R -> nat)
    modifies b
    ensures b.buf == old(b.buf) + Cat(Map(rows, get), EncFloat)
  {
    for i := 0 to |rows|
      invariant b.buf == old(b.buf) + Cat(Map(rows[..i], get), EncFloat)
    {
      b.PutF64Le(get(rows[i]));
      MapSnoc(rows, i, get);
      CatSnoc(Map(rows[..i], get), get(rows[i]), EncFloat);
    }
    assert rows[..|rows|] == rows;
  }

  method PutInts<R>(b: Builder, rows: seq<R>, get: R -> int)
    modifies b
    ensures b.buf == old(b.buf) + Cat(Map(rows, get), EncInt)
  {
    for i := 0 to |rows|
      invariant b.buf == old(b.buf) + Cat(Map(rows[..i], get), EncInt)
    {
      b.PutI32Le(get(rows[i]));
      MapSnoc(rows, i, get);
      CatSnoc(Map(rows[..i], get), get(rows[i]), EncInt);
    }
    assert rows[..|rows|] == rows;
  }

  method EmitSymCol<R>(b: Builder, rows: seq<R>, get: R -> string, ghost pre: seq<Byte>, ghost done: seq<Column>)
    returns (ghost next: seq<Column>)
    requires Emitted(b, pre, done)
    modifies b
    ensures next == done + [Syms(Map(rows, get))] && Emitted(b, pre, next)
  {
    ghost var c := Syms(Map(rows, get));
    b.EmitTypedListHdr(KS_LIST, |rows| % U32);
    PutSyms(b, rows, get);
    ListHdrWraps(KS_LIST, |rows|);
    EmittedOneMore(pre, done, c, ListHdr(KS_LIST, |rows|), EncBody(c));
    next := done + [c];
  }

  /** Nanoseconds since 2000-01-01 of nanoseconds since 1970-01-01. */
  function ToKdb(unixNs: int): int { unixNs - EPOCH_SHIFT }

  const EPOCH_SHIFT: int := 946684800 * 1_000_000_000

  function Kdb<R>(get: R -> int): R -> int { (r: R) => ToKdb(get(r)) }

  method EmitTsCol<R>(b: Builder, rows: seq<R>, get: R -> int, ghost pre: seq<Byte>, ghost done: seq<Column>)
    returns (ghost next: seq<Column>)
    requires Emitted(b, pre, done)
    modifies b
    ensures next == done + [Timestamps(Map(rows, Kdb(get)))] && Emitted(b, pre, next)
  {
    ghost var c := Timestamps(Map(rows, Kdb(get)));
    b.EmitTypedListHdr(KP_TS, |rows| % U32);
    PutLongs(b, rows, Kdb(get));
    ListHdrWraps(KP_TS, |rows|);
    EmittedOneMore(pre, done, c, ListHdr(KP_TS, |rows|), EncBody(c));
    next := done + [c];
  }

  method EmitF64Col<R>(b: Builder, rows: seq<R>, get: R -> nat, ghost pre: seq<Byte>, ghost done: seq<Column>)
    returns (ghost next: seq<Column>)
    requires Emitted(b, pre, done)
    modifies b
    ensures next == done + [Floats(Map(rows, get))] && Emitted(b, pre, next)
  {
    ghost var c := Floats(Map(rows, get));
    b.EmitTypedListHdr(KF_LIST, |rows| % U32);
    PutFloats(b, rows, get);
    ListHdrWraps(KF_LIST, |rows|);
    EmittedOneMore(pre, done, c, ListHdr(KF_LIST, |rows|), EncBody(c));
    next := done + [c];
  }

  method EmitI64Col<R>(b: Builder, rows: seq<R>, get: R -> int, ghost pre: seq<Byte>, ghost done: seq<Column>)
    returns (ghost next: seq<Column>)
    requires Emitted(b, pre, done)
    modifies b
    ensures next == done + [Longs(Map(rows, get))] && Emitted(b, pre, next)
  {
    ghost var c := Longs(Map(rows, get));
    b.EmitTypedListHdr(KJ_LIST, |rows| % U32);
    PutLongs(b, rows, get);
    ListHdrWraps(KJ_LIST, |rows|);
    EmittedOneMore(pre, done, c, ListHdr(KJ_LIST, |rows|), EncBody(c));
    next := done + [c];
  }

  method EmitI32Col<R>(b: Builder, rows: seq<R>, get: R -> int, ghost pre: seq<Byte>, ghost done: seq<Column>)
    returns (ghost next: seq<Column>)
    requires Emitted(b, pre, done)
    modifies b
    ensures next == done + [Ints(Map(rows, get))] && Emitted(b, pre, next)
  {
    ghost var c := Ints(Map(rows, get));
    b.EmitTypedListHdr(KI_LIST, |rows| % U32);
    PutInts(b, rows, get);
    ListHdrWraps(KI_LIST, |rows|);
    EmittedOneMore(pre, done, c, ListHdr(KI_LIST, |rows|), EncBody(c));
    next := done + [c];
  }

  const ZEROS: seq<Byte> := [0, 0, 0, 0, 0, 0, 0, 0]

  /** A fresh builder holding the reserved header and the head of the table. */
  method BeginBatch(names: seq<string>) returns (b: Builder, ghost pre: seq<Byte>)
    ensures fresh(b) && Emitted(b, pre, []) && pre == ZEROS + EncTableHead(names, |names|)
  {
    b := new Builder();
    b.BeginIpc();
    b.BeginTable(names);
    pre := b.buf;
  }

  method FinishBatch(b: Builder, ghost pre: seq<Byte>, ghost t: Table) returns (out: seq<Byte>)
    requires |t.names| == |t.cols| && pre == ZEROS + EncTableHead(t.names, |t.names|)
    requires Emitted(b, pre, t.cols)
    modifies b
    ensures out == Message(t)
  {
    AllEmitted(pre, t);
    out := b.FinishIpc(EncTable(t));
  }

  lemma AllEmitted(pre: seq<Byte>, t: Table)
    requires pre == ZEROS + EncTableHead(t.names, |t.cols|)
    ensures pre + Cat(t.cols, EncColumn) == ZEROS + EncTable(t)
  {
  }

  // ------------------------------------------------------------ the four tables

  // Times are nanoseconds since 1970 and doubles are 64-bit patterns.  Each row
  // type declares the getters that its serializer passes to the column writers.

  datatype BasicQuoteRow = BasicQuoteRow(
    symbol: string, time: int, priceSpread: nat, highPrice: nat, openPrice: nat, lowPrice: nat,
    curPrice: nat, lastClosePrice: nat, volume: int, amount: nat, turnoverRate: nat, amplitude: nat,
    updateTime: int) {
    static function Symbol(r: BasicQuoteRow): string { r.symbol }
    static function Time(r: BasicQuoteRow): int { r.time }
    static function PriceSpread(r: BasicQuoteRow): nat { r.priceSpread }
    static function HighPrice(r: BasicQuoteRow): nat { r.highPrice }
    static function OpenPrice(r: BasicQuoteRow): nat { r.openPrice }
    static function LowPrice(r: BasicQuoteRow): nat { r.lowPrice }
    static function CurPrice(r: BasicQuoteRow): nat { r.curPrice }
    static function LastClosePrice(r: BasicQuoteRow): nat { r.lastClosePrice }
    static function Volume(r: BasicQuoteRow): int { r.volume }
    static function Amount(r: BasicQuoteRow): nat { r.amount }
    static function TurnoverRate(r: BasicQuoteRow): nat { r.turnoverRate }
    static function Amplitude(r: BasicQuoteRow): nat { r.amplitude }
    static function UpdateTime(r: BasicQuoteRow): int { r.updateTime }
  }

  const BASIC_QUOTE_NAMES: seq<string> := [
    "sym", "time", "spread", "high", "open", "low", "cur", "lastclose", "volume",
    "amount", "turnoverrate", "amplitude", "updtime"]

  function BasicQuoteHead(rows: seq<BasicQuoteRow>): seq<Column> {
    []
    + [Syms(Map(rows, BasicQuoteRow.Symbol))]
    + [Timestamps(Map(rows, Kdb(BasicQuoteRow.Time)))]
    + [Floats(Map(rows, BasicQuoteRow.PriceSpread))]
    + [Floats(Map(rows, BasicQuoteRow.HighPrice))]
    + [Floats(Map(rows, BasicQuoteRow.OpenPrice))]
    + [Floats(Map(rows, BasicQuoteRow.LowPrice))]
    + [Floats(Map(rows, BasicQuoteRow.CurPrice))]
  }

  function BasicQuoteTail(rows: seq<BasicQuoteRow>, head: seq<Column>): seq<Column> {
    head
    + [Floats(Map(rows, BasicQuoteRow.LastClosePrice))]
    + [Longs(Map(rows, BasicQuoteRow.Volume))]
    + [Floats(Map(rows, BasicQuoteRow.Amount))]
    + [Floats(Map(rows, BasicQuoteRow.TurnoverRate))]
    + [Floats(Map(rows, BasicQuoteRow.Amplitude))]
    + [Timestamps(Map(rows, Kdb(BasicQuoteRow.UpdateTime)))]
  }

  function BasicQuoteTable(rows: seq<BasicQuoteRow>): Table {
    Table(BASIC_QUOTE_NAMES, BasicQuoteTail(rows, BasicQuoteHead(rows)))
  }

  method EmitBasicQuoteHead(b: Builder, rows: seq<BasicQuoteRow>, ghost pre: seq<Byte>)
    returns (ghost next: seq<Column>)
    requires Emitted(b, pre, [])
    modifies b
    ensures next == BasicQuoteHead(rows) && Emitted(b, pre, next)
  {
    next := [];
    next := EmitSymCol(b, rows, BasicQuoteRow.Symbol, pre, next);
    next := EmitTsCol(b, rows, BasicQuoteRow.Time, pre, next);
    next := EmitF64Col(b, rows, BasicQuoteRow.PriceSpread, pre, next);
    next := EmitF64Col(b, rows, BasicQuoteRow.HighPrice, pre, next);
    next := EmitF64Col(b, rows, BasicQuoteRow.OpenPrice, pre, next);
    next := EmitF64Col(b, rows, BasicQuoteRow.LowPrice, pre, next);
    next := EmitF64Col(b, rows, BasicQuoteRow.CurPrice, pre, next);
  }

  method EmitBasicQuoteTail(b: Builder, rows: seq<BasicQuoteRow>, ghost pre: seq<Byte>, ghost head: seq<Column>)
    returns (ghost next: seq<Column>)
    requires Emitted(b, pre, head)
    modifies b
    ensures next == BasicQuoteTail(rows, head) && Emitted(b, pre, next)
  {
    next := head;
    next := EmitF64Col(b, rows, BasicQuoteRow.LastClosePrice, pre, next);
    next := EmitI64Col(b, rows, BasicQuoteRow.Volume, pre, next);
    next := EmitF64Col(b, rows, BasicQuoteRow.Amount, pre, next);
    next := EmitF64Col(b, rows, BasicQuoteRow.TurnoverRate, pre, next);
    next := EmitF64Col(b, rows, BasicQuoteRow.Amplitude, pre, next);
    next := EmitTsCol(b, rows, BasicQuoteRow.UpdateTime, pre, next);
  }

  method SerializeBasicQuote(rows: seq<BasicQuoteRow>) returns (out: seq<Byte>)
    ensures out == Message(BasicQuoteTable(rows))
  {
    var b, pre := BeginBatch(BASIC_QUOTE_NAMES);
    ghost var head := EmitBasicQuoteHead(b, rows, pre);
    ghost var all := EmitBasicQuoteTail(b, rows, pre, head);
    out := FinishBatch(b, pre, BasicQuoteTable(rows));
  }

  datatype OrderBookRow = OrderBookRow(
    symbol: string, time: int, side: string, rank: int, price: nat, volume: int, orderCount: int) {
    static function Symbol(r: OrderBookRow): string { r.symbol }
    static function Time(r: OrderBookRow): int { r.time }
    static function Side(r: OrderBookRow): string { r.side }
    static function Rank(r: OrderBookRow): int { r.rank }
    static function Price(r: OrderBookRow): nat { r.price }
    static function Volume(r: OrderBookRow): int { r.volume }
    static function OrderCount(r: OrderBookRow): int { r.orderCount }
  }

  const ORDER_BOOK_NAMES: seq<string> := [
    "sym", "time", "side", "level", "price", "volume", "ordercount"]

  function OrderBookTable(rows: seq<OrderBookRow>): Table {
    Table(ORDER_BOOK_NAMES,
          []
          + [Syms(Map(rows, OrderBookRow.Symbol))]
          + [Timestamps(Map(rows, Kdb(OrderBookRow.Time)))]
          + [Syms(Map(rows, OrderBookRow.Side))]
          + [Ints(Map(rows, OrderBookRow.Rank))]
          + [Floats(Map(rows, OrderBookRow.Price))]
          + [Longs(Map(rows, OrderBookRow.Volume))]
          + [Ints(Map(rows, OrderBookRow.OrderCount))])
  }

  method SerializeOrderBook(rows: seq<OrderBookRow>) returns (out: seq<Byte>)
    ensures out == Message(OrderBookTable(rows))
  {
    var b, pre := BeginBatch(ORDER_BOOK_NAMES);
    ghost var done: seq<Column> := [];
    done := EmitSymCol(b, rows, OrderBookRow.Symbol, pre, done);
    done := EmitTsCol(b, rows, OrderBookRow.Time, pre, done);
    done := EmitSymCol(b, rows, OrderBookRow.Side, pre, done);
    done := EmitI32Col(b, rows, OrderBookRow.Rank, pre, done);
    done := EmitF64Col(b, rows, OrderBookRow.Price, pre, done);
    done := EmitI64Col(b, rows, OrderBookRow.Volume, pre, done);
    done := EmitI32Col(b, rows, OrderBookRow.OrderCount, pre, done);
    out := FinishBatch(b, pre, OrderBookTable(rows));
  }

  datatype TickerRow = TickerRow(
    symbol: string, time: int, direction: int, price: nat, volume: int, amount: nat, msgTime: int,
    recvTime: int) {
    static function Symbol(r: TickerRow): string { r.symbol }
    static function Time(r: TickerRow): int { r.time }
    static function Direction(r: TickerRow): int { r.direction }
    static function Price(r: TickerRow): nat { r.price }
    static function Volume(r: TickerRow): int { r.volume }
    static function Amount(r: TickerRow): nat { r.amount }
    static function MsgTime(r: TickerRow): int { r.msgTime }
    static function RecvTime(r: TickerRow): int { r.recvTime }
  }

  const TICKER_NAMES: seq<string> := [
    "sym", "time", "direction", "price", "volume", "amount", "msgTime", "recvTime"]

  function TickerTable(rows: seq<TickerRow>): Table {
    Table(TICKER_NAMES,
          []
          + [Syms(Map(rows, TickerRow.Symbol))]
          + [Timestamps(Map(rows, Kdb(TickerRow.Time)))]
          + [Ints(Map(rows, TickerRow.Direction))]
          + [Floats(Map(rows, TickerRow.Price))]
          + [Longs(Map(rows, TickerRow.Volume))]
          + [Floats(Map(rows, TickerRow.Amount))]
          + [Timestamps(Map(rows, Kdb(TickerRow.MsgTime)))]
          + [Timestamps(Map(rows, Kdb(TickerRow.RecvTime)))])
  }

  method SerializeTicker(rows: seq<TickerRow>) returns (out: seq<Byte>)
    ensures out == Message(TickerTable(rows))
  {
    var b, pre := BeginBatch(TICKER_NAMES);
    ghost var done: seq<Column> := [];
    done := EmitSymCol(b, rows, TickerRow.Symbol, pre, done);
    done := EmitTsCol(b, rows, TickerRow.Time, pre, done);
    done := EmitI32Col(b, rows, TickerRow.Direction, pre, done);
    done := EmitF64Col(b, rows, TickerRow.Price, pre, done);
    done := EmitI64Col(b, rows, TickerRow.Volume, pre, done);
    done := EmitF64Col(b, rows, TickerRow.Amount, pre, done);
    done := EmitTsCol(b, rows, TickerRow.MsgTime, pre, done);
    done := EmitTsCol(b, rows, TickerRow.RecvTime, pre, done);
    out := FinishBatch(b, pre, TickerTable(rows));
  }

  datatype KL1MinRow = KL1MinRow(
    symbol: string, time: int, highPrice: nat, openPrice: nat, lowPrice: nat, closePrice: nat,
    lastClosePrice: nat, volume: int, amount: nat, turnoverRate: nat, pe: nat, changeRate: nat,
    recvTime: int, timestamp: int) {
    static function Symbol(r: KL1MinRow): string { r.symbol }
    static function Time(r: KL1MinRow): int { r.time }
    static function HighPrice(r: KL1MinRow): nat { r.highPrice }
    static function OpenPrice(r: KL1MinRow): nat { r.openPrice }
    static function LowPrice(r: KL1MinRow): nat { r.lowPrice }
    static function ClosePrice(r: KL1MinRow): nat { r.closePrice }
    static function LastClosePrice(r: KL1MinRow): nat { r.lastClosePrice }
    static function Volume(r: KL1MinRow): int { r.volume }
    static function Amount(r: KL1MinRow): nat { r.amount }
    static function TurnoverRate(r: KL1MinRow): nat { r.turnoverRate }
    static function Pe(r: KL1MinRow): nat { r.pe }
    static function ChangeRate(r: KL1MinRow): nat { r.changeRate }
    static function RecvTime(r: KL1MinRow): int { r.recvTime }
    static function Timestamp(r: KL1MinRow): int { r.timestamp }
  }

  const KL1MIN_NAMES: seq<string> := [
    "sym", "time", "high", "open", "low", "close", "lastclose", "volume", "amount",
    "turnoverrate", "pe", "changerate", "recvtime", "tstime"]

  function KL1MinHead(rows: seq<KL1MinRow>): seq<Column> {
    []
    + [Syms(Map(rows, KL1MinRow.Symbol))]
    + [Timestamps(Map(rows, Kdb(KL1MinRow.Time)))]
    + [Floats(Map(rows, KL1MinRow.HighPrice))]
    + [Floats(Map(rows, KL1MinRow.OpenPrice))]
    + [Floats(Map(rows, KL1MinRow.LowPrice))]
    + [Floats(Map(rows, KL1MinRow.ClosePrice))]
    + [Floats(Map(rows, KL1MinRow.LastClosePrice))]
  }

  function KL1MinTail(rows: seq<KL1MinRow>, head: seq<Column>): seq<Column> {
    head
    + [Longs(Map(rows, KL1MinRow.Volume))]
    + [Floats(Map(rows, KL1MinRow.Amount))]
    + [Floats(Map(rows, KL1MinRow.TurnoverRate))]
    + [Floats(Map(rows, KL1MinRow.Pe))]
    + [Floats(Map(rows, KL1MinRow.ChangeRate))]
    + [Timestamps(Map(rows, Kdb(KL1MinRow.RecvTime)))]
    + [Timestamps(Map(rows, Kdb(KL1MinRow.Timestamp)))]
  }

  function KL1MinTable(rows: seq<KL1MinRow>): Table {
    Table(KL1MIN_NAMES, KL1MinTail(rows, KL1MinHead(rows)))
  }

  method EmitKL1MinHead(b: Builder, rows: seq<KL1MinRow>, ghost pre: seq<Byte>)
    returns (ghost next: seq<Column>)
    requires Emitted(b, pre, [])
    modifies b
    ensures next == KL1MinHead(rows) && Emitted(b, pre, next)
  {
    next := [];
    next := EmitSymCol(b, rows, KL1MinRow.Symbol, pre, next);
    next := EmitTsCol(b, rows, KL1MinRow.Time, pre, next);
    next := EmitF64Col(b, rows, KL1MinRow.HighPrice, pre, next);
    next := EmitF64Col(b, rows, KL1MinRow.OpenPrice, pre, next);
    next := EmitF64Col(b, rows, KL1MinRow.LowPrice, pre, next);
    next := EmitF64Col(b, rows, KL1MinRow.ClosePrice, pre, next);
    next := EmitF64Col(b, rows, KL1MinRow.LastClosePrice, pre, next);
  }

  method EmitKL1MinTail(b: Builder, rows: seq<KL1MinRow>, ghost pre: seq<Byte>, ghost head: seq<Column>)
    returns (ghost next: seq<Column>)
    requires Emitted(b, pre, head)
    modifies b
    ensures next == KL1MinTail(rows, head) && Emitted(b, pre, next)
  {
    next := head;
    next := EmitI64Col(b, rows, KL1MinRow.Volume, pre, next);
    next := EmitF64Col(b, rows, KL1MinRow.Amount, pre, next);
    next := EmitF64Col(b, rows, KL1MinRow.TurnoverRate, pre, next);
    next := EmitF64Col(b, rows, KL1MinRow.Pe, pre, next);
    next := EmitF64Col(b, rows, KL1MinRow.ChangeRate, pre, next);
    next := EmitTsCol(b, rows, KL1MinRow.RecvTime, pre, next);
    next := EmitTsCol(b, rows, KL1MinRow.Timestamp, pre, next);
  }

  method SerializeKL1Min(rows: seq<KL1MinRow>) returns (out: seq<Byte>)
    ensures out == Message(KL1MinTable(rows))
  {
    var b, pre := BeginBatch(KL1MIN_NAMES);
    ghost var head := EmitKL1MinHead(b, rows, pre);
    ghost var all := EmitKL1MinTail(b, rows, pre, head);
    out := FinishBatch(b, pre, KL1MinTable(rows));
  }
}
