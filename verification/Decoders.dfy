/**
 From the feed's push callbacks to decoded tables: `on_push_basicqot` splits a
 response into one envelope per quote, and the basic-quote and order-book
 decoders turn a response into a serialized table.  The protobuf runtime, the
 market names and the time parser are parameters; `None` from the time parser
 stands for the exception it throws.
 */
module Decoders {
  import opened Envelopes
  import opened Seqs
  import opened QCodec
  import opened QIpc
  import opened QIpcRoundTrip

  // ------------------------------------------------------------ messages

  datatype Security = Security(market: Option<int>, code: Option<string>)

  datatype BasicQot = BasicQot(
    security: Option<Security>, priceSpread: Option<nat>, highPrice: Option<nat>,
    openPrice: Option<nat>, lowPrice: Option<nat>, curPrice: Option<nat>,
    lastClosePrice: Option<nat>, volume: Option<int>, turnover: Option<nat>,
    turnoverRate: Option<nat>, amplitude: Option<nat>, updateTime: Option<string>)

  datatype QotResponse = QotResponse(
    retType: Option<int>, errCode: Option<int>, retMsg: Option<string>, s2c: Option<seq<BasicQot>>)

  datatype Level = Level(price: Option<nat>, volume: Option<int>, orderCount: Option<int>)

  datatype BookS2C = BookS2C(security: Option<Security>, asks: seq<Level>, bids: seq<Level>)

  datatype BookResponse = BookResponse(
    retType: Option<int>, errCode: Option<int>, retMsg: Option<string>, s2c: Option<BookS2C>)

  /** The foreign code. */
  datatype Runtime = Runtime(
    serialize: QotResponse -> Option<string>,
    parse: string -> Option<QotResponse>,
    marketName: int -> string,
    parseTime: string -> Option<int>,
    defaultRetType: int)

  function OrElse<T>(o: Option<T>, default: T): T {
    if o.Some? then o.value else default
  }

  // ------------------------------------------------------------ symbols

  const PREFIX := "QotMarket_"
  const SUFFIX := "_Security"

  predicate StartsWith(s: string, p: string) { p <= s }
  predicate EndsWith(s: string, p: string) { |p| <= |s| && s[|s| - |p|..] == p }

  /** `market_prefix`.  When prefix and suffix overlap the length computation
      wraps, and `substr` takes the rest of the name. */
  function MarketPrefix(name: string): string {
    if !StartsWith(name, PREFIX) || !EndsWith(name, SUFFIX) then name
    else
      var fixed := |PREFIX| + |SUFFIX|;
      if |name| == fixed then name
      else if |name| > fixed then name[|PREFIX|..|name| - |SUFFIX|]
      else name[|PREFIX|..]
  }

  /** A name that is prefix, something, suffix gives what is in between.  Any
      other name is kept as it is, except the one in which prefix and suffix
      share their underscore. */
  lemma MarketPrefixMeans(name: string, x: string)
    ensures x != "" && name == PREFIX + x + SUFFIX ==> MarketPrefix(name) == x
    ensures || MarketPrefix(name) == name
            || name == PREFIX + MarketPrefix(name) + SUFFIX
            || (name == "QotMarket_Security" && MarketPrefix(name) == "Security")
  {
    if name == PREFIX + x + SUFFIX && x != "" {
      assert name[|name| - |SUFFIX|..] == SUFFIX;
      assert name[|PREFIX|..|name| - |SUFFIX|] == x;
    }
    if StartsWith(name, PREFIX) && EndsWith(name, SUFFIX) {
      if |name| > |PREFIX| + |SUFFIX| {
        assert name == name[..|PREFIX|] + name[|PREFIX|..|name| - |SUFFIX|] + name[|name| - |SUFFIX|..];
      } else if |name| < |PREFIX| + |SUFFIX| {
        OverlapIsOneName(name);
      }
    }
  }

  /** Overlapping, they share exactly one character: of the suffix only the
      first is the prefix's last. */
  lemma SharedUnderscore(name: string)
    requires StartsWith(name, PREFIX) && EndsWith(name, SUFFIX) && |name| < |PREFIX| + |SUFFIX|
    ensures |name| == |PREFIX| + |SUFFIX| - 1
  {
    var tail := name[|name| - |SUFFIX|..];
    var j := |PREFIX| - 1 - (|name| - |SUFFIX|);
    assert tail[j] == name[|PREFIX| - 1] == '_';
    assert j == 0;
  }

  lemma OverlapIsOneName(name: string)
    requires StartsWith(name, PREFIX) && EndsWith(name, SUFFIX) && |name| < |PREFIX| + |SUFFIX|
    ensures name == "QotMarket_Security"
  {
    SharedUnderscore(name);
    assert name == name[..9] + name[9..];
    assert name[..9] == PREFIX[..9] by { assert name[..10] == PREFIX; }
  }

  /** `make_key`, with the defaults protobuf returns for absent fields. */
  function MakeKey(sec: Option<Security>, rt: Runtime): string {
    var s := OrElse(sec, Security(None, None));
    MarketPrefix(rt.marketName(OrElse(s.market, 0))) + "." + OrElse(s.code, "")
  }

  /** `build_symbol_from_security`, and the empty symbol without a security. */
  function Symbol(sec: Option<Security>, rt: Runtime): string {
    if sec.None? then ""
    else
      var code := OrElse(sec.value.code, "");
      if code == "" then ""
      else if sec.value.market.Some? then MarketPrefix(rt.marketName(sec.value.market.value)) + "." + code
      else code
  }

  /** The key the feed gives a quote is the symbol the decoder gives it exactly
      when the quote names a market and a nonempty code. */
  lemma KeyIsSymbolIff(sec: Option<Security>, rt: Runtime)
    ensures MakeKey(sec, rt) == Symbol(sec, rt) <==>
            sec.Some? && sec.value.market.Some? && OrElse(sec.value.code, "") != ""
  {
    assert |MakeKey(sec, rt)| > |OrElse(OrElse(sec, Security(None, None)).code, "")|;
  }

  /** They differ, whatever the market is called, for a quote with an empty code. */
  lemma EmptyCodeExample(rt: Runtime) returns (sec: Security)
    ensures sec.market.Some? && sec.code.Some? && MakeKey(Some(sec), rt) != Symbol(Some(sec), rt)
  {
    sec := Security(Some(1), Some(""));
    KeyIsSymbolIff(Some(sec), rt);
  }

  // ------------------------------------------------------------ basic quotes

  datatype DecodeError =
    | ParseError
    | RetTypeError(retType: int, errCode: Option<int>, retMsg: Option<string>)
    | MissingS2C
    | EmptyList

  datatype Outcome = Kbytes(bytes: seq<Byte>) | Failed(error: DecodeError) | Threw

  /** One row; `None` when the update time does not parse. */
  function RowOf(t: BasicQot, tsNs: int, rt: Runtime): Option<BasicQuoteRow> {
    var time := if t.updateTime.Some? then rt.parseTime(t.updateTime.value) else Some(0);
    if time.None? then None
    else Some(BasicQuoteRow(
      Symbol(t.security, rt), tsNs, OrElse(t.priceSpread, 0), OrElse(t.highPrice, 0), OrElse(t.openPrice, 0),
      OrElse(t.lowPrice, 0), OrElse(t.curPrice, 0), OrElse(t.lastClosePrice, 0), OrElse(t.volume, 0),
      OrElse(t.turnover, 0), OrElse(t.turnoverRate, 0), OrElse(t.amplitude, 0), time.value))
  }

  /** The rows of the items whose time parses, in order. */
  function GoodRows(items: seq<BasicQot>, tsNs: int, rt: Runtime): seq<BasicQuoteRow> {
    if items == [] then []
    else GoodRows(Front(items), tsNs, rt) + match RowOf(Last(items), tsNs, rt)
                                            case Some(row) => [row]
                                            case None => []
  }

  predicate AllParse(items: seq<BasicQot>, tsNs: int, rt: Runtime) {
    forall i :: 0 <= i < |items| ==> RowOf(items[i], tsNs, rt).Some?
  }

  function ResponseError(retType: Option<int>, errCode: Option<int>, retMsg: Option<string>): Option<DecodeError> {
    if retType.Some? && retType.value != 0 then Some(RetTypeError(retType.value, errCode, retMsg)) else None
  }

  /** What decoding a parsed response gives: everything or nothing. */
  function BasicQuoteOutcome(rsp: Option<QotResponse>, tsNs: int, rt: Runtime): Outcome {
    if rsp.None? then Failed(ParseError)
    else
      var r := rsp.value;
      var err := ResponseError(r.retType, r.errCode, r.retMsg);
      if err.Some? then Failed(err.value)
      else if r.s2c.None? then Failed(MissingS2C)
      else if r.s2c.value == [] then Failed(EmptyList)
      else if !AllParse(r.s2c.value, tsNs, rt) then Threw
      else Kbytes(Message(BasicQuoteTable(GoodRows(r.s2c.value, tsNs, rt))))
  }

  method DecodeBasicQuote(payload: string, tsNs: int, rt: Runtime) returns (out: Outcome)
    ensures out == BasicQuoteOutcome(rt.parse(payload), tsNs, rt)
  {
    var parsed := rt.parse(payload);
    if parsed.None? { return Failed(ParseError); }
    var rsp := parsed.value;
    if rsp.retType.Some? && rsp.retType.value != 0 {
      return Failed(RetTypeError(rsp.retType.value, rsp.errCode, rsp.retMsg));
    }
    if rsp.s2c.None? { return Failed(MissingS2C); }
    var items := rsp.s2c.value;
    if |items| == 0 { return Failed(EmptyList); }
    var rows: seq<BasicQuoteRow> := [];
    for i := 0 to |items|
      invariant rows == GoodRows(items[..i], tsNs, rt)
      invariant AllParse(items[..i], tsNs, rt)
    {
      var row := RowOf(items[i], tsNs, rt);
      if row.None? { return Threw; }
      rows := rows + [row.value];
      assert items[..i + 1] == items[..i] + [items[i]];
    }
    assert items[..|items|] == items;
    var bytes := SerializeBasicQuote(rows);
    out := Kbytes(bytes);
  }

  // ------------------------------------------------------------ splitting

  /** The response that `on_push_basicqot` builds for one item. */
  function Single(rsp: QotResponse, item: BasicQot, rt: Runtime): QotResponse {
    QotResponse(Some(OrElse(rsp.retType, rt.defaultRetType)), None, Some(OrElse(rsp.retMsg, "")), Some([item]))
  }

  function Items(rsp: QotResponse): seq<BasicQot> { OrElse(rsp.s2c, []) }

  /** The envelopes of the items in order; an item whose response does not
      serialize is skipped. */
  function Pushed(rsp: QotResponse, items: seq<BasicQot>, now: int -> int, rt: Runtime): seq<Envelope> {
    if items == [] then []
    else Pushed(rsp, Front(items), now, rt) + PushedItem(rsp, Last(items), now(|items| - 1), rt)
  }

  function PushedItem(rsp: QotResponse, item: BasicQot, tsNs: int, rt: Runtime): seq<Envelope> {
    match rt.serialize(Single(rsp, item, rt))
    case Some(payload) => [BasicQotEnvelope(MakeKey(item.security, rt), payload, tsNs)]
    case None => []
  }

  function BasicQotEnvelope(key: string, payload: string, tsNs: int): Envelope {
    Envelope("futu.basicqot.pb", key, payload, tsNs)
  }

  lemma PushedSnoc(rsp: QotResponse, items: seq<BasicQot>, item: BasicQot, now: int -> int, rt: Runtime)
    ensures Pushed(rsp, items + [item], now, rt) ==
            Pushed(rsp, items, now, rt) + PushedItem(rsp, item, now(|items|), rt)
  {
    FrontAppend(items, item);
  }

  /** `on_push_basicqot`; `now(i)` is the clock at item `i`. */
  method OnPushBasicQot(rsp: QotResponse, now: int -> int, rt: Runtime) returns (out: seq<Envelope>)
    ensures out == Pushed(rsp, Items(rsp), now, rt)
  {
    out := [];
    var items := Items(rsp);
    for i := 0 to |items|
      invariant out == Pushed(rsp, items[..i], now, rt)
    {
      var item := items[i];
      assert items[..i + 1] == items[..i] + [item];
      PushedSnoc(rsp, items[..i], item, now, rt);
      var payload := rt.serialize(Single(rsp, item, rt));
      if payload.None? { continue; }
      out := out + [BasicQotEnvelope(MakeKey(item.security, rt), payload.value, now(i))];
    }
    assert items[..|items|] == items;
  }

  /** Protobuf carries the single-item responses faithfully. */
  ghost predicate Lossless(rsp: QotResponse, items: seq<BasicQot>, rt: Runtime) {
    forall item :: item in items ==>
      var single := Single(rsp, item, rt);
      rt.serialize(single).Some? && rt.parse(rt.serialize(single).value) == Some(single)
  }

  predicate FullySpecified(sec: Option<Security>) {
    sec.Some? && sec.value.market.Some? && OrElse(sec.value.code, "") != ""
  }

  /** The envelope carries the item, on the topic of basic quotes and stamped
      with the clock; its key is the symbol of the decoded row exactly when the
      quote names a market and a nonempty code. */
  ghost predicate Carries(e: Envelope, rsp: QotResponse, item: BasicQot, clock: int, tsNs: int, rt: Runtime) {
    && e.topic == "futu.basicqot.pb" && e.tsNs == clock
    && rt.parse(e.payload) == Some(Single(rsp, item, rt))
    && (RowOf(item, tsNs, rt).Some? ==>
          (e.key == RowOf(item, tsNs, rt).value.symbol <==> FullySpecified(item.security)))
  }

  lemma PushedItemCarries(rsp: QotResponse, item: BasicQot, clock: int, tsNs: int, rt: Runtime)
    requires Lossless(rsp, [item], rt)
    ensures var p := PushedItem(rsp, item, clock, rt); |p| == 1 && Carries(p[0], rsp, item, clock, tsNs, rt)
  {
    assert item in [item];
    KeyIsSymbolIff(item.security, rt);
  }

  ghost predicate AllCarry(out: seq<Envelope>, rsp: QotResponse, items: seq<BasicQot>, now: int -> int, tsNs: int,
                           rt: Runtime) {
    |out| == |items| && forall i :: 0 <= i < |out| ==> Carries(out[i], rsp, items[i], now(i), tsNs, rt)
  }

  lemma OneMoreCarries(out: seq<Envelope>, e: Envelope, rsp: QotResponse, items: seq<BasicQot>, item: BasicQot,
                       now: int -> int, tsNs: int, rt: Runtime)
    requires AllCarry(out, rsp, items, now, tsNs, rt) && Carries(e, rsp, item, now(|items|), tsNs, rt)
    ensures AllCarry(out + [e], rsp, items + [item], now, tsNs, rt)
  {
    forall i | 0 <= i < |out| + 1 ensures Carries((out + [e])[i], rsp, (items + [item])[i], now(i), tsNs, rt) {
      if i < |out| { assert Carries(out[i], rsp, items[i], now(i), tsNs, rt); }
    }
  }

  /** One envelope per item, in order. */
  lemma {:induction false} OneEnvelopePerItem(rsp: QotResponse, items: seq<BasicQot>, now: int -> int, tsNs: int,
                                              rt: Runtime)
    requires Lossless(rsp, items, rt)
    ensures AllCarry(Pushed(rsp, items, now, rt), rsp, items, now, tsNs, rt)
    decreases |items|
  {
    if items != [] {
      var front, item := Front(items), Last(items);
      var p := PushedItem(rsp, item, now(|items| - 1), rt);
      FrontLast(items);
      OneEnvelopePerItem(rsp, front, now, tsNs, rt);
      PushedItemCarries(rsp, item, now(|items| - 1), tsNs, rt);
      OneMoreCarries(Pushed(rsp, front, now, rt), p[0], rsp, front, item, now, tsNs, rt);
      assert p == [p[0]];
    }
  }

  /** The rows the receiver reads from a decoder's outcome. */
  function ReceivedRows(o: Outcome): seq<BasicQuoteRow> {
    if o.Kbytes? && ParseMessage(o.bytes).Some? then BasicQuoteRows(ParseMessage(o.bytes).value.0) else []
  }

  /** The rows received from the envelopes, each decoded on its own. */
  function EnvelopeRows(envs: seq<Envelope>, tsNs: int, rt: Runtime): seq<BasicQuoteRow> {
    if envs == [] then []
    else EnvelopeRows(Front(envs), tsNs, rt) + ReceivedRows(BasicQuoteOutcome(rt.parse(Last(envs).payload), tsNs, rt))
  }

  /** Rows and whole batch fit the wire format. */
  ghost predicate Representable(rows: seq<BasicQuoteRow>) {
    && |rows| < U32 && |Message(BasicQuoteTable(rows))| < U32
    && forall r :: r in rows ==> RowFits(r)
  }

  ghost predicate RowFits(r: BasicQuoteRow) {
    BasicQuoteOk(r) && |Message(BasicQuoteTable([r]))| < U32
  }

  lemma NothingBehind(m: seq<Byte>)
    ensures m + [] == m
  {
  }

  lemma ParsedRows(m: seq<Byte>, t: Table)
    requires ParseMessage(m) == Some((t, []))
    ensures ReceivedRows(Kbytes(m)) == BasicQuoteRows(t)
  {
  }

  lemma Received(rows: seq<BasicQuoteRow>)
    requires |rows| < U32 && |Message(BasicQuoteTable(rows))| < U32 && forall r :: r in rows ==> BasicQuoteOk(r)
    ensures ReceivedRows(Kbytes(Message(BasicQuoteTable(rows)))) == rows
  {
    var t := BasicQuoteTable(rows);
    BasicQuoteRoundTripIff(rows, []);
    NothingBehind(Message(t));
    ParsedRows(Message(t), t);
  }

  function OneRow(item: BasicQot, tsNs: int, rt: Runtime): seq<BasicQuoteRow> {
    match RowOf(item, tsNs, rt) case Some(row) => [row] case None => []
  }

  /** The return type that the single-item responses carry: an absent one
      becomes protobuf's default. */
  predicate Carried(rsp: QotResponse, rt: Runtime) { OrElse(rsp.retType, rt.defaultRetType) == 0 }

  predicate Succeeds(rsp: QotResponse) { ResponseError(rsp.retType, rsp.errCode, rsp.retMsg).None? }

  lemma SingleOutcome(rsp: QotResponse, item: BasicQot, tsNs: int, rt: Runtime)
    ensures BasicQuoteOutcome(Some(Single(rsp, item, rt)), tsNs, rt) ==
            if !Carried(rsp, rt) then
              Failed(RetTypeError(OrElse(rsp.retType, rt.defaultRetType), None, Some(OrElse(rsp.retMsg, ""))))
            else if RowOf(item, tsNs, rt).None? then Threw
            else Kbytes(Message(BasicQuoteTable(OneRow(item, tsNs, rt))))
  {
    assert Front([item]) == [] && Last([item]) == item;
    assert AllParse([item], tsNs, rt) <==> RowOf(item, tsNs, rt).Some? by { assert [item][0] == item; }
    assert GoodRows([item], tsNs, rt) == OneRow(item, tsNs, rt);
  }

  lemma ReceivedOne(r: BasicQuoteRow)
    requires RowFits(r)
    ensures ReceivedRows(Kbytes(Message(BasicQuoteTable([r])))) == [r]
  {
    Received([r]);
  }

  lemma OneItem(rsp: QotResponse, item: BasicQot, tsNs: int, rt: Runtime)
    requires RowOf(item, tsNs, rt).Some? ==> RowFits(RowOf(item, tsNs, rt).value)
    ensures ReceivedRows(BasicQuoteOutcome(Some(Single(rsp, item, rt)), tsNs, rt)) ==
            if Carried(rsp, rt) then OneRow(item, tsNs, rt) else []
  {
    SingleOutcome(rsp, item, tsNs, rt);
    if RowOf(item, tsNs, rt).Some? { ReceivedOne(RowOf(item, tsNs, rt).value); }
  }

  lemma EnvelopeRowsSnoc(envs: seq<Envelope>, e: Envelope, tsNs: int, rt: Runtime)
    ensures EnvelopeRows(envs + [e], tsNs, rt) ==
            EnvelopeRows(envs, tsNs, rt) + ReceivedRows(BasicQuoteOutcome(rt.parse(e.payload), tsNs, rt))
  {
    FrontAppend(envs, e);
  }

  lemma {:induction false} EnvelopeRowsAreGood(rsp: QotResponse, items: seq<BasicQot>, now: int -> int, tsNs: int,
                                               rt: Runtime)
    requires Lossless(rsp, items, rt)
    requires forall r :: r in GoodRows(items, tsNs, rt) ==> RowFits(r)
    ensures EnvelopeRows(Pushed(rsp, items, now, rt), tsNs, rt) ==
            if Carried(rsp, rt) then GoodRows(items, tsNs, rt) else []
    decreases |items|
  {
    if items != [] {
      var item := Last(items);
      var p := PushedItem(rsp, item, now(|items| - 1), rt);
      EnvelopeRowsAreGood(rsp, Front(items), now, tsNs, rt);
      assert GoodRows(items, tsNs, rt) == GoodRows(Front(items), tsNs, rt) + OneRow(item, tsNs, rt);
      OneItem(rsp, item, tsNs, rt);
      PushedItemCarries(rsp, item, now(|items| - 1), tsNs, rt);
      assert p == [p[0]];
      EnvelopeRowsSnoc(Pushed(rsp, Front(items), now, rt), p[0], tsNs, rt);
    }
  }

  predicate NoneParse(items: seq<BasicQot>, tsNs: int, rt: Runtime) {
    forall i :: 0 <= i < |items| ==> RowOf(items[i], tsNs, rt).None?
  }

  lemma {:induction false} GoodRowsCount(items: seq<BasicQot>, tsNs: int, rt: Runtime)
    ensures |GoodRows(items, tsNs, rt)| == 0 <==> NoneParse(items, tsNs, rt)
    decreases |items|
  {
    if items != [] {
      GoodRowsCount(Front(items), tsNs, rt);
      assert forall i :: 0 <= i < |items| - 1 ==> items[i] == Front(items)[i];
    }
  }

  lemma WholeOutcome(rsp: QotResponse, tsNs: int, rt: Runtime)
    requires Succeeds(rsp) && Items(rsp) != []
    ensures BasicQuoteOutcome(Some(rsp), tsNs, rt) ==
            if AllParse(Items(rsp), tsNs, rt) then Kbytes(Message(BasicQuoteTable(GoodRows(Items(rsp), tsNs, rt))))
            else Threw
  {
  }

  lemma WholeRows(rsp: QotResponse, tsNs: int, rt: Runtime)
    requires Succeeds(rsp) && Items(rsp) != []
    requires Representable(GoodRows(Items(rsp), tsNs, rt))
    ensures ReceivedRows(BasicQuoteOutcome(Some(rsp), tsNs, rt)) ==
            if AllParse(Items(rsp), tsNs, rt) then GoodRows(Items(rsp), tsNs, rt) else []
  {
    WholeOutcome(rsp, tsNs, rt);
    if AllParse(Items(rsp), tsNs, rt) {
      Received(GoodRows(Items(rsp), tsNs, rt));
    }
  }

  /** Splitting and decoding commute, for every response that reports success.
      If its envelopes carry the success, the rows received from them one after
      the other are the rows of the items whose update time parses, and decoding
      the response as a whole gives the same rows exactly when every time parses
      or none does, because one bad time loses the whole response.  If they do
      not, which takes a response without a return type, nothing is received
      from them, and the whole response agrees exactly when it has a bad time. */
  lemma SplitCommutesIff(rsp: QotResponse, now: int -> int, tsNs: int, rt: Runtime)
    requires Succeeds(rsp) && Items(rsp) != [] && Lossless(rsp, Items(rsp), rt)
    requires Representable(GoodRows(Items(rsp), tsNs, rt))
    ensures var items := Items(rsp);
            var split := EnvelopeRows(Pushed(rsp, items, now, rt), tsNs, rt);
            && split == (if Carried(rsp, rt) then GoodRows(items, tsNs, rt) else [])
            && (ReceivedRows(BasicQuoteOutcome(Some(rsp), tsNs, rt)) == split <==>
                  if Carried(rsp, rt) then AllParse(items, tsNs, rt) || NoneParse(items, tsNs, rt)
                  else !AllParse(items, tsNs, rt))
  {
    var items := Items(rsp);
    EnvelopeRowsAreGood(rsp, items, now, tsNs, rt);
    GoodRowsCount(items, tsNs, rt);
    assert AllParse(items, tsNs, rt) ==> RowOf(items[0], tsNs, rt).Some?;
    WholeRows(rsp, tsNs, rt);
  }

  lemma OneRepresentable(r: BasicQuoteRow)
    requires BasicQuoteOk(r) && |r.symbol| < 100
    ensures Representable([r])
  {
    OneRowFits(r);
  }

  lemma BadTimeBringsNothing(rsp: QotResponse, tsNs: int, rt: Runtime)
    requires Succeeds(rsp) && Items(rsp) != [] && !AllParse(Items(rsp), tsNs, rt)
    ensures ReceivedRows(BasicQuoteOutcome(Some(rsp), tsNs, rt)) == []
  {
    WholeOutcome(rsp, tsNs, rt);
  }

  /** Both failures happen.  With one good and one bad time the envelopes bring
      a row and the whole response brings none; without a return type, under a
      default that is an error, it is the other way round. */
  lemma BadTimeExample() returns (rsp: QotResponse, now: int -> int, rt: Runtime)
    ensures Succeeds(rsp) && Items(rsp) != [] && Lossless(rsp, Items(rsp), rt)
    ensures Representable(GoodRows(Items(rsp), 0, rt)) && Carried(rsp, rt)
    ensures |EnvelopeRows(Pushed(rsp, Items(rsp), now, rt), 0, rt)| == 1
    ensures ReceivedRows(BasicQuoteOutcome(Some(rsp), 0, rt)) == []
  {
    var good, bad := TimedQuote(None), TimedQuote(Some(""));
    var items := [good, bad];
    rsp := QotResponse(Some(0), None, None, Some(items));
    now := _ => 0;
    rt := TwoItemRuntime(rsp, good, bad, 0);
    LosslessPair(rsp, good, bad, 0);
    GoodThenBad(good, bad, rt);
    OneRepresentable(RowOf(good, 0, rt).value);
    EnvelopeRowsAreGood(rsp, items, now, 0, rt);
    assert RowOf(items[1], 0, rt).None?;
    BadTimeBringsNothing(rsp, 0, rt);
  }

  lemma MissingRetTypeExample() returns (rsp: QotResponse, now: int -> int, rt: Runtime)
    ensures Succeeds(rsp) && Items(rsp) != [] && Lossless(rsp, Items(rsp), rt)
    ensures Representable(GoodRows(Items(rsp), 0, rt)) && AllParse(Items(rsp), 0, rt)
    ensures EnvelopeRows(Pushed(rsp, Items(rsp), now, rt), 0, rt) == []
    ensures |ReceivedRows(BasicQuoteOutcome(Some(rsp), 0, rt))| == 1
  {
    var good, bad := TimedQuote(None), TimedQuote(Some(""));
    rsp := QotResponse(None, None, None, Some([good]));
    now := _ => 0;
    rt := TwoItemRuntime(rsp, good, bad, -400);
    LosslessPair(rsp, good, bad, -400);
    JustGood(good, rt);
    OneRepresentable(RowOf(good, 0, rt).value);
    EnvelopeRowsAreGood(rsp, [good], now, 0, rt);
    WholeRows(rsp, 0, rt);
  }

  function TimedQuote(time: Option<string>): BasicQot {
    BasicQot(None, None, None, None, None, None, None, None, None, None, None, time)
  }

  function SingleOf(rsp: QotResponse, item: BasicQot, defaultRetType: int): QotResponse {
    QotResponse(Some(OrElse(rsp.retType, defaultRetType)), None, Some(OrElse(rsp.retMsg, "")), Some([item]))
  }

  /** A protobuf that knows two messages, and a parser that fails on every time. */
  function TwoItemRuntime(rsp: QotResponse, a: BasicQot, b: BasicQot, defaultRetType: int): Runtime {
    var ra, rb := SingleOf(rsp, a, defaultRetType), SingleOf(rsp, b, defaultRetType);
    Runtime((r: QotResponse) => if r == ra then Some("a") else if r == rb then Some("b") else None,
            (s: string) => if s == "a" then Some(ra) else if s == "b" then Some(rb) else None,
            (m: int) => "", (s: string) => None, defaultRetType)
  }

  lemma LosslessPair(rsp: QotResponse, a: BasicQot, b: BasicQot, defaultRetType: int)
    requires a != b
    ensures Lossless(rsp, [a, b], TwoItemRuntime(rsp, a, b, defaultRetType))
    ensures Lossless(rsp, [a], TwoItemRuntime(rsp, a, b, defaultRetType))
  {
    var rt := TwoItemRuntime(rsp, a, b, defaultRetType);
    var ra, rb := SingleOf(rsp, a, defaultRetType), SingleOf(rsp, b, defaultRetType);
    assert ra != rb by { assert ra.s2c.value[0] != rb.s2c.value[0]; }
    assert rt.serialize(ra) == Some("a") && rt.serialize(rb) == Some("b");
    assert "a"[0] != "b"[0];
    assert rt.parse("a") == Some(ra) && rt.parse("b") == Some(rb);
  }

  lemma JustGood(good: BasicQot, rt: Runtime)
    requires good == TimedQuote(None)
    ensures RowOf(good, 0, rt).Some? && RowOf(good, 0, rt).value.symbol == "" && BasicQuoteOk(RowOf(good, 0, rt).value)
    ensures AllParse([good], 0, rt) && GoodRows([good], 0, rt) == [RowOf(good, 0, rt).value]
  {
    assert Front([good]) == [] && Last([good]) == good;
  }

  lemma GoodThenBad(good: BasicQot, bad: BasicQot, rt: Runtime)
    requires good == TimedQuote(None) && bad == TimedQuote(Some("")) && rt.parseTime("").None?
    ensures RowOf(good, 0, rt).Some? && RowOf(bad, 0, rt).None?
    ensures RowOf(good, 0, rt).value.symbol == "" && BasicQuoteOk(RowOf(good, 0, rt).value)
    ensures GoodRows([good, bad], 0, rt) == [RowOf(good, 0, rt).value]
  {
    JustGood(good, rt);
    assert Front([good, bad]) == [good] && Last([good, bad]) == bad;
  }

  // What a row says about a quote: each field, or zero if it is absent.

  predicate Shows(v: int, o: Option<int>) {
    (o.Some? ==> v == o.value) && (o.None? ==> v == 0)
  }

  /** `r` says about `t` all that a row can say. */
  predicate Faithful(r: BasicQuoteRow, t: BasicQot, tsNs: int, rt: Runtime) {
    && r.symbol == Symbol(t.security, rt) && r.time == tsNs
    && Shows(r.priceSpread, t.priceSpread) && Shows(r.highPrice, t.highPrice) && Shows(r.openPrice, t.openPrice)
    && Shows(r.lowPrice, t.lowPrice) && Shows(r.curPrice, t.curPrice) && Shows(r.lastClosePrice, t.lastClosePrice)
    && Shows(r.volume, t.volume) && Shows(r.amount, t.turnover) && Shows(r.turnoverRate, t.turnoverRate)
    && Shows(r.amplitude, t.amplitude)
    && (if t.updateTime.None? then r.updateTime == 0
        else rt.parseTime(t.updateTime.value) == Some(r.updateTime))
  }

  /** The row of a quote says all of it, and there is none exactly when the quote
      has an update time that does not parse. */
  lemma RowIsFaithful(t: BasicQot, tsNs: int, rt: Runtime)
    ensures RowOf(t, tsNs, rt).None? <==> t.updateTime.Some? && rt.parseTime(t.updateTime.value).None?
    ensures RowOf(t, tsNs, rt).Some? ==> Faithful(RowOf(t, tsNs, rt).value, t, tsNs, rt)
  {
  }

  lemma {:induction false} GoodRowsAreAll(items: seq<BasicQot>, tsNs: int, rt: Runtime)
    requires AllParse(items, tsNs, rt)
    ensures |GoodRows(items, tsNs, rt)| == |items|
    ensures forall i :: 0 <= i < |items| ==> GoodRows(items, tsNs, rt)[i] == RowOf(items[i], tsNs, rt).value
    decreases |items|
  {
    if items != [] {
      assert forall i :: 0 <= i < |items| - 1 ==> Front(items)[i] == items[i];
      GoodRowsAreAll(Front(items), tsNs, rt);
    }
  }

  /** End to end: from the bytes of a response whose times parse the receiver
      recovers every quote, in order and field by field. */
  lemma QuotesRecovered(rsp: QotResponse, tsNs: int, rt: Runtime)
    requires Succeeds(rsp) && Items(rsp) != [] && AllParse(Items(rsp), tsNs, rt)
    requires Representable(GoodRows(Items(rsp), tsNs, rt))
    ensures var rows := ReceivedRows(BasicQuoteOutcome(Some(rsp), tsNs, rt));
            && |rows| == |Items(rsp)|
            && forall i :: 0 <= i < |rows| ==> Faithful(rows[i], Items(rsp)[i], tsNs, rt)
  {
    var items := Items(rsp);
    WholeRows(rsp, tsNs, rt);
    GoodRowsAreAll(items, tsNs, rt);
    forall i | 0 <= i < |items| ensures Faithful(GoodRows(items, tsNs, rt)[i], items[i], tsNs, rt) {
      RowIsFaithful(items[i], tsNs, rt);
    }
  }

  /** Every response has one outcome, and which one it is: it does not parse; it
      reports an error; it lacks its payload or its list is empty; a time does not
      parse, which throws; or it is decoded. */
  lemma OutcomeIff(rsp: Option<QotResponse>, tsNs: int, rt: Runtime)
    ensures var o := BasicQuoteOutcome(rsp, tsNs, rt);
            && (o == Failed(ParseError) <==> rsp.None?)
            && (o.Failed? && o.error.RetTypeError? <==>
                  rsp.Some? && rsp.value.retType.Some? && rsp.value.retType.value != 0)
            && (o.Failed? && o.error.RetTypeError? ==>
                  && Some(o.error.retType) == rsp.value.retType
                  && o.error.errCode == rsp.value.errCode && o.error.retMsg == rsp.value.retMsg)
            && (o == Failed(MissingS2C) <==> rsp.Some? && Accepted(rsp.value.retType) && rsp.value.s2c.None?)
            && (o == Failed(EmptyList) <==> rsp.Some? && Accepted(rsp.value.retType) && rsp.value.s2c == Some([]))
            && (o == Threw <==>
                  && rsp.Some? && Accepted(rsp.value.retType) && rsp.value.s2c.Some?
                  && exists t :: t in rsp.value.s2c.value && RowOf(t, tsNs, rt).None?)
  {
    if rsp.Some? && rsp.value.s2c.Some? {
      var items := rsp.value.s2c.value;
      if !AllParse(items, tsNs, rt) {
        var i :| 0 <= i < |items| && RowOf(items[i], tsNs, rt).None?;
        assert items[i] in items;
      }
    }
  }

  predicate Accepted(retType: Option<int>) { retType.None? || retType.value == 0 }

  // ------------------------------------------------------------ order books

  function BookRow(symbol: string, tsNs: int, side: string, rank: nat, l: Level): OrderBookRow {
    OrderBookRow(symbol, tsNs, side, rank, OrElse(l.price, 0), OrElse(l.volume, 0), OrElse(l.orderCount, 0))
  }

  function Ladder(symbol: string, tsNs: int, side: string, levels: seq<Level>): (r: seq<OrderBookRow>)
    ensures |r| == |levels|
    ensures forall i :: 0 <= i < |r| ==> r[i] == BookRow(symbol, tsNs, side, i, levels[i])
  {
    seq(|levels|, i requires 0 <= i < |levels| => BookRow(symbol, tsNs, side, i, levels[i]))
  }

  function BookRows(s: BookS2C, tsNs: int, rt: Runtime): seq<OrderBookRow> {
    var symbol := Symbol(s.security, rt);
    Ladder(symbol, tsNs, "ask", s.asks) + Ladder(symbol, tsNs, "bid", s.bids)
  }

  function OrderBookOutcome(rsp: Option<BookResponse>, tsNs: int, rt: Runtime): Outcome {
    if rsp.None? then Failed(ParseError)
    else
      var r := rsp.value;
      var err := ResponseError(r.retType, r.errCode, r.retMsg);
      if err.Some? then Failed(err.value)
      else if r.s2c.None? then Failed(MissingS2C)
      else if r.s2c.value.asks == [] && r.s2c.value.bids == [] then Failed(EmptyList)
      else Kbytes(Message(OrderBookTable(BookRows(r.s2c.value, tsNs, rt))))
  }

  method AppendLadder(rows: seq<OrderBookRow>, symbol: string, tsNs: int, side: string, levels: seq<Level>)
    returns (out: seq<OrderBookRow>)
    ensures out == rows + Ladder(symbol, tsNs, side, levels)
  {
    out := rows;
    for i := 0 to |levels|
      invariant out == rows + Ladder(symbol, tsNs, side, levels)[..i]
    {
      out := out + [BookRow(symbol, tsNs, side, i, levels[i])];
    }
  }

  method FillBook(s: BookS2C, tsNs: int, rt: Runtime) returns (rows: seq<OrderBookRow>)
    ensures rows == BookRows(s, tsNs, rt)
  {
    var symbol := Symbol(s.security, rt);
    rows := AppendLadder([], symbol, tsNs, "ask", s.asks);
    rows := AppendLadder(rows, symbol, tsNs, "bid", s.bids);
  }

  method DecodeOrderBook(parsed: Option<BookResponse>, tsNs: int, rt: Runtime) returns (out: Outcome)
    ensures out == OrderBookOutcome(parsed, tsNs, rt)
  {
    if parsed.None? { return Failed(ParseError); }
    var rsp := parsed.value;
    if rsp.retType.Some? && rsp.retType.value != 0 {
      return Failed(RetTypeError(rsp.retType.value, rsp.errCode, rsp.retMsg));
    }
    if rsp.s2c.None? { return Failed(MissingS2C); }
    var s := rsp.s2c.value;
    if |s.asks| == 0 && |s.bids| == 0 { return Failed(EmptyList); }
    var rows := FillBook(s, tsNs, rt);
    var bytes := SerializeOrderBook(rows);
    out := Kbytes(bytes);
  }

  function SideIs(side: string): OrderBookRow -> bool { (r: OrderBookRow) => r.side == side }

  lemma {:induction false} FilterAll<T>(s: seq<T>, p: T -> bool, yes: bool)
    requires forall i :: 0 <= i < |s| ==> p(s[i]) == yes
    ensures Filter(s, p) == if yes then s else []
    decreases |s|
  {
    if s != [] {
      FilterAll(Front(s), p, yes);
      assert s == Front(s) + [Last(s)];
      assert p(Last(s)) == yes;
    }
  }

  /** A row of a ladder says its level's fields, or zero where they are absent,
      its rank, side, symbol and time. */
  lemma LevelsRecovered(symbol: string, tsNs: int, side: string, levels: seq<Level>, i: nat)
    requires i < |levels|
    ensures var r, l := Ladder(symbol, tsNs, side, levels)[i], levels[i];
            && Shows(r.price, l.price) && Shows(r.volume, l.volume) && Shows(r.orderCount, l.orderCount)
            && r.rank == i && r.side == side && r.symbol == symbol && r.time == tsNs
  {
  }

  /** Which outcome an order-book response has. */
  lemma BookOutcomeIff(rsp: Option<BookResponse>, tsNs: int, rt: Runtime)
    ensures var o := OrderBookOutcome(rsp, tsNs, rt);
            && (o == Failed(ParseError) <==> rsp.None?)
            && (o.Failed? && o.error.RetTypeError? <==>
                  rsp.Some? && rsp.value.retType.Some? && rsp.value.retType.value != 0)
            && (o.Failed? && o.error.RetTypeError? ==>
                  && Some(o.error.retType) == rsp.value.retType
                  && o.error.errCode == rsp.value.errCode && o.error.retMsg == rsp.value.retMsg)
            && (o == Failed(MissingS2C) <==> rsp.Some? && Accepted(rsp.value.retType) && rsp.value.s2c.None?)
            && (o == Failed(EmptyList) <==>
                  && rsp.Some? && Accepted(rsp.value.retType) && rsp.value.s2c.Some?
                  && rsp.value.s2c.value.asks == [] && rsp.value.s2c.value.bids == [])
            && o != Threw
  {
  }

  /** The receiver of an order book gets both ladders back, best level first:
      selecting a side of the received rows gives that side's levels in order. */
  lemma LaddersRecovered(rsp: BookResponse, tsNs: int, rt: Runtime)
    requires ResponseError(rsp.retType, rsp.errCode, rsp.retMsg).None? && rsp.s2c.Some?
    requires var s := rsp.s2c.value; s.asks != [] || s.bids != []
    requires var rows := BookRows(rsp.s2c.value, tsNs, rt);
             && |rows| < U32 && |Message(OrderBookTable(rows))| < U32
             && forall r :: r in rows ==> OrderBookOk(r)
    ensures var s, symbol := rsp.s2c.value, Symbol(rsp.s2c.value.security, rt);
            var o := OrderBookOutcome(Some(rsp), tsNs, rt);
            && o.Kbytes? && ParseMessage(o.bytes).Some?
            && var rows := OrderBookRows(ParseMessage(o.bytes).value.0);
            && Filter(rows, SideIs("ask")) == Ladder(symbol, tsNs, "ask", s.asks)
            && Filter(rows, SideIs("bid")) == Ladder(symbol, tsNs, "bid", s.bids)
  {
    var s, symbol := rsp.s2c.value, Symbol(rsp.s2c.value.security, rt);
    var rows := BookRows(s, tsNs, rt);
    var m := Message(OrderBookTable(rows));
    OrderBookRoundTripIff(rows, []);
    assert m + [] == m;
    var asks, bids := Ladder(symbol, tsNs, "ask", s.asks), Ladder(symbol, tsNs, "bid", s.bids);
    SelectSide(asks, bids, "ask", "bid");
  }

  lemma SelectSide(a: seq<OrderBookRow>, b: seq<OrderBookRow>, sideA: string, sideB: string)
    requires sideA != sideB
    requires forall i :: 0 <= i < |a| ==> a[i].side == sideA
    requires forall i :: 0 <= i < |b| ==> b[i].side == sideB
    ensures Filter(a + b, SideIs(sideA)) == a && Filter(a + b, SideIs(sideB)) == b
  {
    FilterAppend(a, b, SideIs(sideA));
    FilterAppend(a, b, SideIs(sideB));
    FilterAll(a, SideIs(sideA), true);
    FilterAll(b, SideIs(sideA), false);
    FilterAll(a, SideIs(sideB), false);
    FilterAll(b, SideIs(sideB), true);
    assert a + [] == a && [] + b == b;
  }
}
