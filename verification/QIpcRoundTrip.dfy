/**
 What the receiver of a serialized batch gets: the table back, and by
 transposition the rows.
 */
module QIpcRoundTrip {
  import opened Bits
  import opened Calendar
  import opened Seqs
  import opened QCodec
  import opened QIpc

  // The receiver addresses columns by name, as q code does.

  /** The first position of `name` from `k` on, or the number of names. */
  function Position(names: seq<string>, name: string, k: nat): nat
    decreases |names| - k
  {
    if k >= |names| || names[k] == name then k else Position(names, name, k + 1)
  }

  // Element i of the column called `name`; a default if there is none.

  function SymNamed(t: Table, name: string, i: nat): string {
    var c := Position(t.names, name, 0);
    if c < |t.cols| && t.cols[c].Syms? && i < |t.cols[c].syms| then t.cols[c].syms[i] else ""
  }

  function TimeNamed(t: Table, name: string, i: nat): int {
    var c := Position(t.names, name, 0);
    if c < |t.cols| && t.cols[c].Timestamps? && i < |t.cols[c].times| then t.cols[c].times[i] + KdbEpoch() else 0
  }

  function FloatNamed(t: Table, name: string, i: nat): nat {
    var c := Position(t.names, name, 0);
    if c < |t.cols| && t.cols[c].Floats? && i < |t.cols[c].patterns| then t.cols[c].patterns[i] else 0
  }

  function LongNamed(t: Table, name: string, i: nat): int {
    var c := Position(t.names, name, 0);
    if c < |t.cols| && t.cols[c].Longs? && i < |t.cols[c].longs| then t.cols[c].longs[i] else 0
  }

  function IntNamed(t: Table, name: string, i: nat): int {
    var c := Position(t.names, name, 0);
    if c < |t.cols| && t.cols[c].Ints? && i < |t.cols[c].ints| then t.cols[c].ints[i] else 0
  }

  predicate Distinct(names: seq<string>) {
    forall i, j :: 0 <= i < j < |names| ==> names[i] != names[j]
  }

  lemma {:induction false} PositionIs(names: seq<string>, from: nat, k: nat)
    requires from <= k < |names| && Distinct(names)
    ensures Position(names, names[k], from) == k
    decreases k - from
  {
    if from < k {
      assert names[from] != names[k];
      PositionIs(names, from + 1, k);
    }
  }

  // A named column that was built from rows holds the getter's values.

  ghost predicate ColumnAt(t: Table, k: nat, name: string, c: Column) {
    k < |t.names| && k < |t.cols| && Distinct(t.names) && t.names[k] == name && t.cols[k] == c
  }

  lemma SymColumn<R>(t: Table, k: nat, name: string, rows: seq<R>, get: R -> string, i: nat)
    requires ColumnAt(t, k, name, Syms(Map(rows, get))) && i < |rows|
    ensures SymNamed(t, name, i) == get(rows[i])
  {
    PositionIs(t.names, 0, k);
  }

  lemma TimeColumn<R>(t: Table, k: nat, name: string, rows: seq<R>, get: R -> int, i: nat)
    requires ColumnAt(t, k, name, Timestamps(Map(rows, Kdb(get)))) && i < |rows|
    ensures TimeNamed(t, name, i) == get(rows[i])
  {
    PositionIs(t.names, 0, k);
    KdbTimes(rows, get, i);
    KdbEpochSeconds();
  }

  lemma FloatColumn<R>(t: Table, k: nat, name: string, rows: seq<R>, get: R -> nat, i: nat)
    requires ColumnAt(t, k, name, Floats(Map(rows, get))) && i < |rows|
    ensures FloatNamed(t, name, i) == get(rows[i])
  {
    PositionIs(t.names, 0, k);
  }

  lemma LongColumn<R>(t: Table, k: nat, name: string, rows: seq<R>, get: R -> int, i: nat)
    requires ColumnAt(t, k, name, Longs(Map(rows, get))) && i < |rows|
    ensures LongNamed(t, name, i) == get(rows[i])
  {
    PositionIs(t.names, 0, k);
  }

  lemma IntColumn<R>(t: Table, k: nat, name: string, rows: seq<R>, get: R -> int, i: nat)
    requires ColumnAt(t, k, name, Ints(Map(rows, get))) && i < |rows|
    ensures IntNamed(t, name, i) == get(rows[i])
  {
    PositionIs(t.names, 0, k);
  }

  /** All columns have `n` elements. */
  ghost predicate OneLength(cols: seq<Column>, n: nat) {
    forall c :: c in cols ==> Size(c) == n
  }

  predicate IsTime(unixNs: int) { IsInt64(ToKdb(unixNs)) }

  lemma KdbTimes<R>(rows: seq<R>, get: R -> int, i: nat)
    requires i < |rows|
    ensures Map(rows, Kdb(get))[i] == ToKdb(get(rows[i]))
  {
    assert Kdb(get)(rows[i]) == ToKdb(get(rows[i]));
  }

  // A column built from rows is representable exactly when every row's value is.

  ghost predicate AllOk(cols: seq<Column>) {
    forall c :: c in cols ==> ColumnOk(c)
  }

  lemma WithSyms<R>(cols: seq<Column>, rows: seq<R>, get: R -> string) returns (next: seq<Column>)
    ensures next == cols + [Syms(Map(rows, get))]
    ensures OneLength(next, |rows|) <==> OneLength(cols, |rows|)
    ensures AllOk(next) <==> AllOk(cols) && |rows| < U32 && forall r :: r in rows ==> Plain(get(r))
  {
    var m := Map(rows, get);
    next := cols + [Syms(m)];
    OneMoreOk(cols, Syms(m));
    forall r | r in rows ensures get(r) in m { var i :| 0 <= i < |rows| && rows[i] == r; assert m[i] == get(r); }
  }

  lemma WithTimes<R>(cols: seq<Column>, rows: seq<R>, get: R -> int) returns (next: seq<Column>)
    ensures next == cols + [Timestamps(Map(rows, Kdb(get)))]
    ensures OneLength(next, |rows|) <==> OneLength(cols, |rows|)
    ensures AllOk(next) <==> AllOk(cols) && |rows| < U32 && forall r :: r in rows ==> IsTime(get(r))
  {
    var m := Map(rows, Kdb(get));
    next := cols + [Timestamps(m)];
    OneMoreOk(cols, Timestamps(m));
    forall i | 0 <= i < |rows| ensures m[i] == ToKdb(get(rows[i])) { KdbTimes(rows, get, i); }
    forall r | r in rows ensures ToKdb(get(r)) in m { var i :| 0 <= i < |rows| && rows[i] == r; assert m[i] in m; }
  }

  lemma WithFloats<R>(cols: seq<Column>, rows: seq<R>, get: R -> nat) returns (next: seq<Column>)
    ensures next == cols + [Floats(Map(rows, get))]
    ensures OneLength(next, |rows|) <==> OneLength(cols, |rows|)
    ensures AllOk(next) <==> AllOk(cols) && |rows| < U32 && forall r :: r in rows ==> get(r) < WORD
  {
    var m := Map(rows, get);
    next := cols + [Floats(m)];
    OneMoreOk(cols, Floats(m));
    forall r | r in rows ensures get(r) in m { var i :| 0 <= i < |rows| && rows[i] == r; assert m[i] == get(r); }
  }

  lemma WithLongs<R>(cols: seq<Column>, rows: seq<R>, get: R -> int) returns (next: seq<Column>)
    ensures next == cols + [Longs(Map(rows, get))]
    ensures OneLength(next, |rows|) <==> OneLength(cols, |rows|)
    ensures AllOk(next) <==> AllOk(cols) && |rows| < U32 && forall r :: r in rows ==> IsInt64(get(r))
  {
    var m := Map(rows, get);
    next := cols + [Longs(m)];
    OneMoreOk(cols, Longs(m));
    forall r | r in rows ensures get(r) in m { var i :| 0 <= i < |rows| && rows[i] == r; assert m[i] == get(r); }
  }

  lemma WithInts<R>(cols: seq<Column>, rows: seq<R>, get: R -> int) returns (next: seq<Column>)
    ensures next == cols + [Ints(Map(rows, get))]
    ensures OneLength(next, |rows|) <==> OneLength(cols, |rows|)
    ensures AllOk(next) <==> AllOk(cols) && |rows| < U32 && forall r :: r in rows ==> IsInt32(get(r))
  {
    var m := Map(rows, get);
    next := cols + [Ints(m)];
    OneMoreOk(cols, Ints(m));
    forall r | r in rows ensures get(r) in m { var i :| 0 <= i < |rows| && rows[i] == r; assert m[i] == get(r); }
  }

  lemma NamesOk()
    ensures ColumnOk(Syms(BASIC_QUOTE_NAMES)) && ColumnOk(Syms(ORDER_BOOK_NAMES))
    ensures ColumnOk(Syms(TICKER_NAMES)) && ColumnOk(Syms(KL1MIN_NAMES))
  {
    AllPlain(BASIC_QUOTE_NAMES);
    AllPlain(ORDER_BOOK_NAMES);
    AllPlain(TICKER_NAMES);
    AllPlain(KL1MIN_NAMES);
  }

  lemma AllPlain(names: seq<string>)
    requires forall i :: 0 <= i < |names| ==> Plain(names[i])
    ensures forall x :: x in names ==> Plain(x)
  {
  }

  lemma OneMoreOk(cols: seq<Column>, c: Column)
    ensures AllOk(cols + [c]) <==> AllOk(cols) && ColumnOk(c)
    ensures forall n :: OneLength(cols + [c], n) <==> OneLength(cols, n) && Size(c) == n
  {
    assert c in cols + [c];
    assert forall x :: x in cols ==> x in cols + [c];
  }

  /** Length and first letter already tell the names of a table apart. */
  lemma Apart(a: string, b: string)
    requires |a| != |b| || (a != "" && a[0] != b[0])
    ensures a != b
  {
  }

  // ---- BasicQuote

  predicate BasicQuoteOk(r: BasicQuoteRow) {
    && Plain(r.symbol) && IsTime(r.time) && r.priceSpread < WORD && r.highPrice < WORD
    && r.openPrice < WORD && r.lowPrice < WORD && r.curPrice < WORD && r.lastClosePrice < WORD
    && IsInt64(r.volume) && r.amount < WORD && r.turnoverRate < WORD && r.amplitude < WORD
    && IsTime(r.updateTime)
  }

  function BasicQuoteAt(t: Table, i: nat): BasicQuoteRow {
    BasicQuoteRow(
      SymNamed(t, "sym", i), TimeNamed(t, "time", i), FloatNamed(t, "spread", i), FloatNamed(t, "high", i),
      FloatNamed(t, "open", i), FloatNamed(t, "low", i), FloatNamed(t, "cur", i), FloatNamed(t, "lastclose", i),
      LongNamed(t, "volume", i), FloatNamed(t, "amount", i),
      FloatNamed(t, "turnoverrate", i), FloatNamed(t, "amplitude", i),
      TimeNamed(t, "updtime", i))
  }

  /** The rows of a table of this kind. */
  function BasicQuoteRows(t: Table): seq<BasicQuoteRow> {
    if t.cols == [] then [] else seq(Size(t.cols[0]), i requires 0 <= i => BasicQuoteAt(t, i))
  }

  lemma BasicQuoteNamesDistinct()
    ensures Distinct(BASIC_QUOTE_NAMES)
  {
    var names := BASIC_QUOTE_NAMES;
    forall i, j | 0 <= i < j < |names| ensures names[i] != names[j] {
      Apart(names[i], names[j]);
    }
  }

  // Which column of which name holds which field.

  ghost predicate BasicQuoteHeadColumns(t: Table, rows: seq<BasicQuoteRow>) {
    && ColumnAt(t, 0, "sym", Syms(Map(rows, BasicQuoteRow.Symbol)))
    && ColumnAt(t, 1, "time", Timestamps(Map(rows, Kdb(BasicQuoteRow.Time))))
    && ColumnAt(t, 2, "spread", Floats(Map(rows, BasicQuoteRow.PriceSpread)))
    && ColumnAt(t, 3, "high", Floats(Map(rows, BasicQuoteRow.HighPrice)))
    && ColumnAt(t, 4, "open", Floats(Map(rows, BasicQuoteRow.OpenPrice)))
    && ColumnAt(t, 5, "low", Floats(Map(rows, BasicQuoteRow.LowPrice)))
    && ColumnAt(t, 6, "cur", Floats(Map(rows, BasicQuoteRow.CurPrice)))
  }

  ghost predicate BasicQuoteTailColumns(t: Table, rows: seq<BasicQuoteRow>) {
    && ColumnAt(t, 7, "lastclose", Floats(Map(rows, BasicQuoteRow.LastClosePrice)))
    && ColumnAt(t, 8, "volume", Longs(Map(rows, BasicQuoteRow.Volume)))
    && ColumnAt(t, 9, "amount", Floats(Map(rows, BasicQuoteRow.Amount)))
    && ColumnAt(t, 10, "turnoverrate", Floats(Map(rows, BasicQuoteRow.TurnoverRate)))
    && ColumnAt(t, 11, "amplitude", Floats(Map(rows, BasicQuoteRow.Amplitude)))
    && ColumnAt(t, 12, "updtime", Timestamps(Map(rows, Kdb(BasicQuoteRow.UpdateTime))))
  }

  lemma BasicQuoteHasHeadColumns(rows: seq<BasicQuoteRow>)
    ensures BasicQuoteHeadColumns(BasicQuoteTable(rows), rows)
  {
    BasicQuoteNamesDistinct();
  }

  lemma BasicQuoteHasTailColumns(rows: seq<BasicQuoteRow>)
    ensures BasicQuoteTailColumns(BasicQuoteTable(rows), rows)
  {
    BasicQuoteNamesDistinct();
  }

  lemma BasicQuoteRowIs(t: Table, rows: seq<BasicQuoteRow>, i: nat)
    requires BasicQuoteHeadColumns(t, rows) && BasicQuoteTailColumns(t, rows) && i < |rows|
    ensures BasicQuoteAt(t, i) == rows[i]
  {
    SymColumn(t, 0, "sym", rows, BasicQuoteRow.Symbol, i);
    TimeColumn(t, 1, "time", rows, BasicQuoteRow.Time, i);
    FloatColumn(t, 2, "spread", rows, BasicQuoteRow.PriceSpread, i);
    FloatColumn(t, 3, "high", rows, BasicQuoteRow.HighPrice, i);
    FloatColumn(t, 4, "open", rows, BasicQuoteRow.OpenPrice, i);
    FloatColumn(t, 5, "low", rows, BasicQuoteRow.LowPrice, i);
    FloatColumn(t, 6, "cur", rows, BasicQuoteRow.CurPrice, i);
    FloatColumn(t, 7, "lastclose", rows, BasicQuoteRow.LastClosePrice, i);
    LongColumn(t, 8, "volume", rows, BasicQuoteRow.Volume, i);
    FloatColumn(t, 9, "amount", rows, BasicQuoteRow.Amount, i);
    FloatColumn(t, 10, "turnoverrate", rows, BasicQuoteRow.TurnoverRate, i);
    FloatColumn(t, 11, "amplitude", rows, BasicQuoteRow.Amplitude, i);
    TimeColumn(t, 12, "updtime", rows, BasicQuoteRow.UpdateTime, i);
  }

  /** Reading row by row, each field from the column of its name, gives the rows. */
  lemma BasicQuoteTranspose(rows: seq<BasicQuoteRow>)
    ensures BasicQuoteRows(BasicQuoteTable(rows)) == rows
  {
    BasicQuoteHasHeadColumns(rows);
    BasicQuoteHasTailColumns(rows);
    forall i | 0 <= i < |rows| ensures BasicQuoteAt(BasicQuoteTable(rows), i) == rows[i] {
      BasicQuoteRowIs(BasicQuoteTable(rows), rows, i);
    }
  }

  lemma BasicQuoteTableOk(rows: seq<BasicQuoteRow>)
    ensures TableOk(BasicQuoteTable(rows)) <==> |rows| < U32 && forall r :: r in rows ==> BasicQuoteOk(r)
    ensures OneLength(BasicQuoteTable(rows).cols, |rows|)
  {
    NamesOk();
    var cols: seq<Column> := [];
    cols := WithSyms(cols, rows, BasicQuoteRow.Symbol);
    cols := WithTimes(cols, rows, BasicQuoteRow.Time);
    cols := WithFloats(cols, rows, BasicQuoteRow.PriceSpread);
    cols := WithFloats(cols, rows, BasicQuoteRow.HighPrice);
    cols := WithFloats(cols, rows, BasicQuoteRow.OpenPrice);
    cols := WithFloats(cols, rows, BasicQuoteRow.LowPrice);
    cols := WithFloats(cols, rows, BasicQuoteRow.CurPrice);
    cols := WithFloats(cols, rows, BasicQuoteRow.LastClosePrice);
    cols := WithLongs(cols, rows, BasicQuoteRow.Volume);
    cols := WithFloats(cols, rows, BasicQuoteRow.Amount);
    cols := WithFloats(cols, rows, BasicQuoteRow.TurnoverRate);
    cols := WithFloats(cols, rows, BasicQuoteRow.Amplitude);
    cols := WithTimes(cols, rows, BasicQuoteRow.UpdateTime);
    assert cols == BasicQuoteTable(rows).cols;
  }

  /** The receiver gets the table of a batch, hence its rows, and nothing of what
      follows, exactly when every row is representable and both the number of
      rows and the length fit 32 bits. */
  lemma BasicQuoteRoundTripIff(rows: seq<BasicQuoteRow>, rest: seq<Byte>)
    ensures var t := BasicQuoteTable(rows);
            && BasicQuoteRows(t) == rows && OneLength(t.cols, |rows|)
            && (ParseMessage(Message(t) + rest) == Some((t, rest)) <==>
                  |rows| < U32 && |Message(t)| < U32 && forall r :: r in rows ==> BasicQuoteOk(r))
  {
    BasicQuoteTranspose(rows);
    BasicQuoteTableOk(rows);
    MessageRoundTripIff(BasicQuoteTable(rows), rest);
  }

  // ---- OrderBook

  predicate OrderBookOk(r: OrderBookRow) {
    && Plain(r.symbol) && IsTime(r.time) && Plain(r.side) && IsInt32(r.rank) && r.price < WORD
    && IsInt64(r.volume) && IsInt32(r.orderCount)
  }

  function OrderBookAt(t: Table, i: nat): OrderBookRow {
    OrderBookRow(
      SymNamed(t, "sym", i), TimeNamed(t, "time", i), SymNamed(t, "side", i), IntNamed(t, "level", i),
      FloatNamed(t, "price", i), LongNamed(t, "volume", i), IntNamed(t, "ordercount", i))
  }

  /** The rows of a table of this kind. */
  function OrderBookRows(t: Table): seq<OrderBookRow> {
    if t.cols == [] then [] else seq(Size(t.cols[0]), i requires 0 <= i => OrderBookAt(t, i))
  }

  lemma OrderBookNamesDistinct()
    ensures Distinct(ORDER_BOOK_NAMES)
  {
    var names := ORDER_BOOK_NAMES;
    forall i, j | 0 <= i < j < |names| ensures names[i] != names[j] {
      Apart(names[i], names[j]);
    }
  }

  /** Which column of which name holds which field. */
  ghost predicate OrderBookColumns(t: Table, rows: seq<OrderBookRow>) {
    && ColumnAt(t, 0, "sym", Syms(Map(rows, OrderBookRow.Symbol)))
    && ColumnAt(t, 1, "time", Timestamps(Map(rows, Kdb(OrderBookRow.Time))))
    && ColumnAt(t, 2, "side", Syms(Map(rows, OrderBookRow.Side)))
    && ColumnAt(t, 3, "level", Ints(Map(rows, OrderBookRow.Rank)))
    && ColumnAt(t, 4, "price", Floats(Map(rows, OrderBookRow.Price)))
    && ColumnAt(t, 5, "volume", Longs(Map(rows, OrderBookRow.Volume)))
    && ColumnAt(t, 6, "ordercount", Ints(Map(rows, OrderBookRow.OrderCount)))
  }

  lemma OrderBookHasColumns(rows: seq<OrderBookRow>)
    ensures OrderBookColumns(OrderBookTable(rows), rows)
  {
    OrderBookNamesDistinct();
  }

  lemma OrderBookRowIs(t: Table, rows: seq<OrderBookRow>, i: nat)
    requires OrderBookColumns(t, rows) && i < |rows|
    ensures OrderBookAt(t, i) == rows[i]
  {
    SymColumn(t, 0, "sym", rows, OrderBookRow.Symbol, i);
    TimeColumn(t, 1, "time", rows, OrderBookRow.Time, i);
    SymColumn(t, 2, "side", rows, OrderBookRow.Side, i);
    IntColumn(t, 3, "level", rows, OrderBookRow.Rank, i);
    FloatColumn(t, 4, "price", rows, OrderBookRow.Price, i);
    LongColumn(t, 5, "volume", rows, OrderBookRow.Volume, i);
    IntColumn(t, 6, "ordercount", rows, OrderBookRow.OrderCount, i);
  }

  /** Reading row by row, each field from the column of its name, gives the rows. */
  lemma OrderBookTranspose(rows: seq<OrderBookRow>)
    ensures OrderBookRows(OrderBookTable(rows)) == rows
  {
    OrderBookHasColumns(rows);
    forall i | 0 <= i < |rows| ensures OrderBookAt(OrderBookTable(rows), i) == rows[i] {
      OrderBookRowIs(OrderBookTable(rows), rows, i);
    }
  }

  lemma OrderBookTableOk(rows: seq<OrderBookRow>)
    ensures TableOk(OrderBookTable(rows)) <==> |rows| < U32 && forall r :: r in rows ==> OrderBookOk(r)
    ensures OneLength(OrderBookTable(rows).cols, |rows|)
  {
    NamesOk();
    var cols: seq<Column> := [];
    cols := WithSyms(cols, rows, OrderBookRow.Symbol);
    cols := WithTimes(cols, rows, OrderBookRow.Time);
    cols := WithSyms(cols, rows, OrderBookRow.Side);
    cols := WithInts(cols, rows, OrderBookRow.Rank);
    cols := WithFloats(cols, rows, OrderBookRow.Price);
    cols := WithLongs(cols, rows, OrderBookRow.Volume);
    cols := WithInts(cols, rows, OrderBookRow.OrderCount);
    assert cols == OrderBookTable(rows).cols;
  }

  /** The receiver gets the table of a batch, hence its rows, and nothing of what
      follows, exactly when every row is representable and both the number of
      rows and the length fit 32 bits. */
  lemma OrderBookRoundTripIff(rows: seq<OrderBookRow>, rest: seq<Byte>)
    ensures var t := OrderBookTable(rows);
            && OrderBookRows(t) == rows && OneLength(t.cols, |rows|)
            && (ParseMessage(Message(t) + rest) == Some((t, rest)) <==>
                  |rows| < U32 && |Message(t)| < U32 && forall r :: r in rows ==> OrderBookOk(r))
  {
    OrderBookTranspose(rows);
    OrderBookTableOk(rows);
    MessageRoundTripIff(OrderBookTable(rows), rest);
  }

  // ---- Ticker

  predicate TickerOk(r: TickerRow) {
    && Plain(r.symbol) && IsTime(r.time) && IsInt32(r.direction) && r.price < WORD
    && IsInt64(r.volume) && r.amount < WORD && IsTime(r.msgTime) && IsTime(r.recvTime)
  }

  function TickerAt(t: Table, i: nat): TickerRow {
    TickerRow(
      SymNamed(t, "sym", i), TimeNamed(t, "time", i), IntNamed(t, "direction", i), FloatNamed(t, "price", i),
      LongNamed(t, "volume", i), FloatNamed(t, "amount", i), TimeNamed(t, "msgTime", i), TimeNamed(t, "recvTime", i))
  }

  /** The rows of a table of this kind. */
  function TickerRows(t: Table): seq<TickerRow> {
    if t.cols == [] then [] else seq(Size(t.cols[0]), i requires 0 <= i => TickerAt(t, i))
  }

  lemma TickerNamesDistinct()
    ensures Distinct(TICKER_NAMES)
  {
    var names := TICKER_NAMES;
    forall i, j | 0 <= i < j < |names| ensures names[i] != names[j] {
      Apart(names[i], names[j]);
    }
  }

  /** Which column of which name holds which field. */
  ghost predicate TickerColumns(t: Table, rows: seq<TickerRow>) {
    && ColumnAt(t, 0, "sym", Syms(Map(rows, TickerRow.Symbol)))
    && ColumnAt(t, 1, "time", Timestamps(Map(rows, Kdb(TickerRow.Time))))
    && ColumnAt(t, 2, "direction", Ints(Map(rows, TickerRow.Direction)))
    && ColumnAt(t, 3, "price", Floats(Map(rows, TickerRow.Price)))
    && ColumnAt(t, 4, "volume", Longs(Map(rows, TickerRow.Volume)))
    && ColumnAt(t, 5, "amount", Floats(Map(rows, TickerRow.Amount)))
    && ColumnAt(t, 6, "msgTime", Timestamps(Map(rows, Kdb(TickerRow.MsgTime))))
    && ColumnAt(t, 7, "recvTime", Timestamps(Map(rows, Kdb(TickerRow.RecvTime))))
  }

  lemma TickerHasColumns(rows: seq<TickerRow>)
    ensures TickerColumns(TickerTable(rows), rows)
  {
    TickerNamesDistinct();
  }

  lemma TickerRowIs(t: Table, rows: seq<TickerRow>, i: nat)
    requires TickerColumns(t, rows) && i < |rows|
    ensures TickerAt(t, i) == rows[i]
  {
    SymColumn(t, 0, "sym", rows, TickerRow.Symbol, i);
    TimeColumn(t, 1, "time", rows, TickerRow.Time, i);
    IntColumn(t, 2, "direction", rows, TickerRow.Direction, i);
    FloatColumn(t, 3, "price", rows, TickerRow.Price, i);
    LongColumn(t, 4, "volume", rows, TickerRow.Volume, i);
    FloatColumn(t, 5, "amount", rows, TickerRow.Amount, i);
    TimeColumn(t, 6, "msgTime", rows, TickerRow.MsgTime, i);
    TimeColumn(t, 7, "recvTime", rows, TickerRow.RecvTime, i);
  }

  /** Reading row by row, each field from the column of its name, gives the rows. */
  lemma TickerTranspose(rows: seq<TickerRow>)
    ensures TickerRows(TickerTable(rows)) == rows
  {
    TickerHasColumns(rows);
    forall i | 0 <= i < |rows| ensures TickerAt(TickerTable(rows), i) == rows[i] {
      TickerRowIs(TickerTable(rows), rows, i);
    }
  }

  lemma TickerTableOk(rows: seq<TickerRow>)
    ensures TableOk(TickerTable(rows)) <==> |rows| < U32 && forall r :: r in rows ==> TickerOk(r)
    ensures OneLength(TickerTable(rows).cols, |rows|)
  {
    NamesOk();
    var cols: seq<Column> := [];
    cols := WithSyms(cols, rows, TickerRow.Symbol);
    cols := WithTimes(cols, rows, TickerRow.Time);
    cols := WithInts(cols, rows, TickerRow.Direction);
    cols := WithFloats(cols, rows, TickerRow.Price);
    cols := WithLongs(cols, rows, TickerRow.Volume);
    cols := WithFloats(cols, rows, TickerRow.Amount);
    cols := WithTimes(cols, rows, TickerRow.MsgTime);
    cols := WithTimes(cols, rows, TickerRow.RecvTime);
    assert cols == TickerTable(rows).cols;
  }

  /** The receiver gets the table of a batch, hence its rows, and nothing of what
      follows, exactly when every row is representable and both the number of
      rows and the length fit 32 bits. */
  lemma TickerRoundTripIff(rows: seq<TickerRow>, rest: seq<Byte>)
    ensures var t := TickerTable(rows);
            && TickerRows(t) == rows && OneLength(t.cols, |rows|)
            && (ParseMessage(Message(t) + rest) == Some((t, rest)) <==>
                  |rows| < U32 && |Message(t)| < U32 && forall r :: r in rows ==> TickerOk(r))
  {
    TickerTranspose(rows);
    TickerTableOk(rows);
    MessageRoundTripIff(TickerTable(rows), rest);
  }

  // ---- KL1Min

  predicate KL1MinOk(r: KL1MinRow) {
    && Plain(r.symbol) && IsTime(r.time) && r.highPrice < WORD && r.openPrice < WORD
    && r.lowPrice < WORD && r.closePrice < WORD && r.lastClosePrice < WORD && IsInt64(r.volume)
    && r.amount < WORD && r.turnoverRate < WORD && r.pe < WORD && r.changeRate < WORD
    && IsTime(r.recvTime) && IsTime(r.timestamp)
  }

  function KL1MinAt(t: Table, i: nat): KL1MinRow {
    KL1MinRow(
      SymNamed(t, "sym", i), TimeNamed(t, "time", i), FloatNamed(t, "high", i), FloatNamed(t, "open", i),
      FloatNamed(t, "low", i), FloatNamed(t, "close", i), FloatNamed(t, "lastclose", i), LongNamed(t, "volume", i),
      FloatNamed(t, "amount", i), FloatNamed(t, "turnoverrate", i),
      FloatNamed(t, "pe", i), FloatNamed(t, "changerate", i),
      TimeNamed(t, "recvtime", i), TimeNamed(t, "tstime", i))
  }

  /** The rows of a table of this kind. */
  function KL1MinRows(t: Table): seq<KL1MinRow> {
    if t.cols == [] then [] else seq(Size(t.cols[0]), i requires 0 <= i => KL1MinAt(t, i))
  }

  lemma KL1MinNamesDistinct()
    ensures Distinct(KL1MIN_NAMES)
  {
    var names := KL1MIN_NAMES;
    forall i, j | 0 <= i < j < |names| ensures names[i] != names[j] {
      Apart(names[i], names[j]);
    }
  }

  // Which column of which name holds which field.

  ghost predicate KL1MinHeadColumns(t: Table, rows: seq<KL1MinRow>) {
    && ColumnAt(t, 0, "sym", Syms(Map(rows, KL1MinRow.Symbol)))
    && ColumnAt(t, 1, "time", Timestamps(Map(rows, Kdb(KL1MinRow.Time))))
    && ColumnAt(t, 2, "high", Floats(Map(rows, KL1MinRow.HighPrice)))
    && ColumnAt(t, 3, "open", Floats(Map(rows, KL1MinRow.OpenPrice)))
    && ColumnAt(t, 4, "low", Floats(Map(rows, KL1MinRow.LowPrice)))
    && ColumnAt(t, 5, "close", Floats(Map(rows, KL1MinRow.ClosePrice)))
    && ColumnAt(t, 6, "lastclose", Floats(Map(rows, KL1MinRow.LastClosePrice)))
  }

  ghost predicate KL1MinTailColumns(t: Table, rows: seq<KL1MinRow>) {
    && ColumnAt(t, 7, "volume", Longs(Map(rows, KL1MinRow.Volume)))
    && ColumnAt(t, 8, "amount", Floats(Map(rows, KL1MinRow.Amount)))
    && ColumnAt(t, 9, "turnoverrate", Floats(Map(rows, KL1MinRow.TurnoverRate)))
    && ColumnAt(t, 10, "pe", Floats(Map(rows, KL1MinRow.Pe)))
    && ColumnAt(t, 11, "changerate", Floats(Map(rows, KL1MinRow.ChangeRate)))
    && ColumnAt(t, 12, "recvtime", Timestamps(Map(rows, Kdb(KL1MinRow.RecvTime))))
    && ColumnAt(t, 13, "tstime", Timestamps(Map(rows, Kdb(KL1MinRow.Timestamp))))
  }

  lemma KL1MinHasHeadColumns(rows: seq<KL1MinRow>)
    ensures KL1MinHeadColumns(KL1MinTable(rows), rows)
  {
    KL1MinNamesDistinct();
  }

  lemma KL1MinHasTailColumns(rows: seq<KL1MinRow>)
    ensures KL1MinTailColumns(KL1MinTable(rows), rows)
  {
    KL1MinNamesDistinct();
  }

  lemma KL1MinRowIs(t: Table, rows: seq<KL1MinRow>, i: nat)
    requires KL1MinHeadColumns(t, rows) && KL1MinTailColumns(t, rows) && i < |rows|
    ensures KL1MinAt(t, i) == rows[i]
  {
    SymColumn(t, 0, "sym", rows, KL1MinRow.Symbol, i);
    TimeColumn(t, 1, "time", rows, KL1MinRow.Time, i);
    FloatColumn(t, 2, "high", rows, KL1MinRow.HighPrice, i);
    FloatColumn(t, 3, "open", rows, KL1MinRow.OpenPrice, i);
    FloatColumn(t, 4, "low", rows, KL1MinRow.LowPrice, i);
    FloatColumn(t, 5, "close", rows, KL1MinRow.ClosePrice, i);
    FloatColumn(t, 6, "lastclose", rows, KL1MinRow.LastClosePrice, i);
    LongColumn(t, 7, "volume", rows, KL1MinRow.Volume, i);
    FloatColumn(t, 8, "amount", rows, KL1MinRow.Amount, i);
    FloatColumn(t, 9, "turnoverrate", rows, KL1MinRow.TurnoverRate, i);
    FloatColumn(t, 10, "pe", rows, KL1MinRow.Pe, i);
    FloatColumn(t, 11, "changerate", rows, KL1MinRow.ChangeRate, i);
    TimeColumn(t, 12, "recvtime", rows, KL1MinRow.RecvTime, i);
    TimeColumn(t, 13, "tstime", rows, KL1MinRow.Timestamp, i);
  }

  /** Reading row by row, each field from the column of its name, gives the rows. */
  lemma KL1MinTranspose(rows: seq<KL1MinRow>)
    ensures KL1MinRows(KL1MinTable(rows)) == rows
  {
    KL1MinHasHeadColumns(rows);
    KL1MinHasTailColumns(rows);
    forall i | 0 <= i < |rows| ensures KL1MinAt(KL1MinTable(rows), i) == rows[i] {
      KL1MinRowIs(KL1MinTable(rows), rows, i);
    }
  }

  lemma KL1MinTableOk(rows: seq<KL1MinRow>)
    ensures TableOk(KL1MinTable(rows)) <==> |rows| < U32 && forall r :: r in rows ==> KL1MinOk(r)
    ensures OneLength(KL1MinTable(rows).cols, |rows|)
  {
    NamesOk();
    var cols: seq<Column> := [];
    cols := WithSyms(cols, rows, KL1MinRow.Symbol);
    cols := WithTimes(cols, rows, KL1MinRow.Time);
    cols := WithFloats(cols, rows, KL1MinRow.HighPrice);
    cols := WithFloats(cols, rows, KL1MinRow.OpenPrice);
    cols := WithFloats(cols, rows, KL1MinRow.LowPrice);
    cols := WithFloats(cols, rows, KL1MinRow.ClosePrice);
    cols := WithFloats(cols, rows, KL1MinRow.LastClosePrice);
    cols := WithLongs(cols, rows, KL1MinRow.Volume);
    cols := WithFloats(cols, rows, KL1MinRow.Amount);
    cols := WithFloats(cols, rows, KL1MinRow.TurnoverRate);
    cols := WithFloats(cols, rows, KL1MinRow.Pe);
    cols := WithFloats(cols, rows, KL1MinRow.ChangeRate);
    cols := WithTimes(cols, rows, KL1MinRow.RecvTime);
    cols := WithTimes(cols, rows, KL1MinRow.Timestamp);
    assert cols == KL1MinTable(rows).cols;
  }

  /** The receiver gets the table of a batch, hence its rows, and nothing of what
      follows, exactly when every row is representable and both the number of
      rows and the length fit 32 bits. */
  lemma KL1MinRoundTripIff(rows: seq<KL1MinRow>, rest: seq<Byte>)
    ensures var t := KL1MinTable(rows);
            && KL1MinRows(t) == rows && OneLength(t.cols, |rows|)
            && (ParseMessage(Message(t) + rest) == Some((t, rest)) <==>
                  |rows| < U32 && |Message(t)| < U32 && forall r :: r in rows ==> KL1MinOk(r))
  {
    KL1MinTranspose(rows);
    KL1MinTableOk(rows);
    MessageRoundTripIff(KL1MinTable(rows), rest);
  }

  // ---- the epoch

  /** The first instant of 2000 is written as timestamp 0. */
  lemma EpochIsZero(rows: seq<BasicQuoteRow>, i: nat)
    requires i < |rows| && rows[i].time == KdbEpoch()
    ensures |BasicQuoteTable(rows).cols| == 13 && BasicQuoteTable(rows).names[1] == "time"
    ensures var c := BasicQuoteTable(rows).cols[1]; c.Timestamps? && i < |c.times| && c.times[i] == 0
  {
    KdbEpochSeconds();
    BasicQuoteHasHeadColumns(rows);
    KdbTimes(rows, BasicQuoteRow.Time, i);
  }

  // ---- sizes and an example

  const SMALL: nat := 106

  ghost predicate AllSmall(cols: seq<Column>) {
    forall i :: 0 <= i < |cols| ==> ColumnSize(cols[i]) <= SMALL
  }

  lemma {:induction false} SizesBound(cols: seq<Column>)
    requires AllSmall(cols)
    ensures ColumnSizes(cols) <= SMALL * |cols|
    decreases |cols|
  {
    if cols != [] {
      var rest := cols[1..];
      assert forall i :: 0 <= i < |rest| ==> rest[i] == cols[i + 1];
      SizesBound(rest);
      assert ColumnSize(cols[0]) <= SMALL && ColumnSizes(cols) == ColumnSize(cols[0]) + ColumnSizes(rest);
    }
  }

  lemma {:induction false} SymBytesBound(s: seq<string>, k: nat)
    requires forall i :: 0 <= i < |s| ==> |s[i]| < k
    ensures SymBytes(s) <= k * |s|
    decreases |s|
  {
    if s != [] {
      SymBytesBound(s[1..], k);
      assert k * |s| == k + k * |s[1..]|;
    }
  }

  lemma OneRowColumns(t: Table, r: BasicQuoteRow)
    requires BasicQuoteHeadColumns(t, [r]) && BasicQuoteTailColumns(t, [r]) && |t.cols| == 13 && |r.symbol| < 100
    ensures AllSmall(t.cols)
  {
    SymBytesBound(Map([r], BasicQuoteRow.Symbol), 100);
  }

  lemma SmallMessage(t: Table)
    requires AllSmall(t.cols) && |t.cols| == |t.names| == 13
    requires forall i :: 0 <= i < |t.names| ==> |t.names[i]| < 20
    ensures |Message(t)| < U32
  {
    MessageLength(t);
    SizesBound(t.cols);
    SymBytesBound(t.names, 20);
  }

  /** A single quote always fits a message. */
  lemma OneRowFits(r: BasicQuoteRow)
    requires |r.symbol| < 100
    ensures |Message(BasicQuoteTable([r]))| < U32
  {
    BasicQuoteHasHeadColumns([r]);
    BasicQuoteHasTailColumns([r]);
    OneRowColumns(BasicQuoteTable([r]), r);
    SmallMessage(BasicQuoteTable([r]));
  }

  /** The receiver does not get a quote back whose symbol contains a NUL byte. */
  lemma NulSymbolExample(rest: seq<Byte>) returns (rows: seq<BasicQuoteRow>)
    ensures |rows| == 1 && |Message(BasicQuoteTable(rows))| < U32
    ensures ParseMessage(Message(BasicQuoteTable(rows)) + rest) != Some((BasicQuoteTable(rows), rest))
  {
    var r := BasicQuoteRow([0 as char], 0, 0, 0, 0, 0, 0, 0, 0, 0, 0, 0, 0);
    rows := [r];
    OneRowFits(r);
    BasicQuoteRoundTripIff(rows, rest);
    assert r in rows && !Plain(r.symbol);
  }
}
