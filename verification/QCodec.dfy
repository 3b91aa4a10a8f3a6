/**
 The kdb+ IPC encoding used by the schema library: little-endian writers, list
 headers and the message builder, proved against an encoding of tables, and a
 parser for that encoding.  Doubles are 64-bit patterns.
 */
module QCodec {
  import opened Bits
  import opened Seqs

  type Byte = b: nat | b < 256

  // ------------------------------------------------------------ integers

  /** The `n` low bytes of `v`, least significant first. */
  function Le(v: nat, n: nat): (r: seq<Byte>)
    ensures |r| == n
    decreases n, v
  {
    if n == 0 then [] else [v % 256] + Le(v / 256, n - 1)
  }

  function LeValue(b: seq<Byte>): nat {
    if b == [] then 0 else b[0] + 256 * LeValue(b[1..])
  }

  function Pow256(n: nat): (p: nat)
    ensures p > 0
  {
    if n == 0 then 1 else 256 * Pow256(n - 1)
  }

  lemma {:induction false} LeRoundTrip(v: nat, n: nat)
    requires v < Pow256(n)
    ensures LeValue(Le(v, n)) == v
    decreases n
  {
    if n > 0 {
      LeRoundTrip(v / 256, n - 1);
      assert Le(v, n)[1..] == Le(v / 256, n - 1);
    }
  }

  lemma {:induction false} LeValueBound(b: seq<Byte>)
    ensures LeValue(b) < Pow256(|b|)
  {
    if b != [] { LeValueBound(b[1..]); }
  }

  lemma Pow256Values()
    ensures Pow256(4) == U32 && Pow256(8) == WORD
  {
    assert Pow256(4) == 0x1_0000_0000;
    assert Pow256(8) == 256 * (256 * (256 * (256 * Pow256(4))));
  }

  const U32: nat := 0x1_0000_0000

  /** Two's complement of width 64 and 32. */
  function ToU64(v: int): nat { v % WORD }
  function FromU64(u: nat): int { if u < HALF_WORD then u else u - WORD }
  function ToU32(v: int): nat { v % U32 }
  function FromU32(u: nat): int { if u < 0x8000_0000 then u else u - U32 }

  predicate IsInt64(v: int) { -(HALF_WORD as int) <= v < HALF_WORD }
  predicate IsInt32(v: int) { -0x8000_0000 <= v < 0x8000_0000 }

  // ------------------------------------------------------------ tables

  /** One column; timestamps are kdb nanoseconds, floats are bit patterns. */
  datatype Column =
    | Syms(syms: seq<string>)
    | Timestamps(times: seq<int>)
    | Floats(patterns: seq<nat>)
    | Longs(longs: seq<int>)
    | Ints(ints: seq<int>)

  datatype Table = Table(names: seq<string>, cols: seq<Column>)

  const XT_TABLE: Byte := 98
  const XD_DICT: Byte := 99
  const KL_LIST: Byte := 0
  const KS_LIST: Byte := 11
  const KP_TS: Byte := 12
  const KF_LIST: Byte := 9
  const KJ_LIST: Byte := 7
  const KI_LIST: Byte := 6

  /** The encodings of the elements of `s`, one after the other. */
  function Cat<T>(s: seq<T>, enc: T -> seq<Byte>): seq<Byte> {
    if s == [] then [] else enc(s[0]) + Cat(s[1..], enc)
  }

  lemma {:induction false} CatSnoc<T>(s: seq<T>, x: T, enc: T -> seq<Byte>)
    ensures Cat(s + [x], enc) == Cat(s, enc) + enc(x)
  {
    if s == [] {
      assert (s + [x])[1..] == [];
    } else {
      CatSnoc(s[1..], x, enc);
      assert (s + [x])[1..] == s[1..] + [x];
    }
  }

  /** The bytes of a string, of which only the low eight bits of each char count. */
  function StrBytes(s: string): (r: seq<Byte>)
    ensures |r| == |s|
  {
    seq(|s|, i requires 0 <= i < |s| => (s[i] as int) % 256)
  }

  function EncSym(s: string): seq<Byte> { StrBytes(s) + [0] }
  function EncLong(v: int): seq<Byte> { Le(ToU64(v), 8) }
  function EncFloat(u: nat): seq<Byte> { Le(u, 8) }
  function EncInt(v: int): seq<Byte> { Le(ToU32(v), 4) }

  function ListHdr(t: Byte, n: nat): seq<Byte> { [t, 0] + Le(n % U32, 4) }

  function TypeOf(c: Column): Byte {
    match c
    case Syms(_) => KS_LIST
    case Timestamps(_) => KP_TS
    case Floats(_) => KF_LIST
    case Longs(_) => KJ_LIST
    case Ints(_) => KI_LIST
  }

  function Size(c: Column): nat {
    match c
    case Syms(s) => |s|
    case Timestamps(s) => |s|
    case Floats(s) => |s|
    case Longs(s) => |s|
    case Ints(s) => |s|
  }

  function EncBody(c: Column): seq<Byte> {
    match c
    case Syms(s) => Cat(s, EncSym)
    case Timestamps(s) => Cat(s, EncLong)
    case Floats(s) => Cat(s, EncFloat)
    case Longs(s) => Cat(s, EncLong)
    case Ints(s) => Cat(s, EncInt)
  }

  function EncColumn(c: Column): seq<Byte> {
    ListHdr(TypeOf(c), Size(c)) + EncBody(c)
  }

  function EncTableHead(names: seq<string>, ncols: nat): seq<Byte> {
    [XT_TABLE, 0, XD_DICT] + EncColumn(Syms(names)) + ListHdr(KL_LIST, ncols)
  }

  function EncTable(t: Table): seq<Byte> {
    EncTableHead(t.names, |t.cols|) + Cat(t.cols, EncColumn)
  }

  /** A message: the header with the total length, then the table. */
  function Message(t: Table): seq<Byte> {
    Frame(EncTable(t))
  }

  function Frame(body: seq<Byte>): seq<Byte> {
    [1, 0, 0, 0] + Le((8 + |body|) % U32, 4) + body
  }

  // ------------------------------------------------------------ the parser

  // The receiver knows the format by its numbers: 98 is a table and 99 the
  // dictionary in it, 0 a mixed list, 11 symbols, 12 timestamps, 9 floats,
  // 7 longs and 6 ints.

  type Parsed<T> = Option<(T, seq<Byte>)>

  /** Bytes up to the first NUL. */
  function ParseSym(b: seq<Byte>): Parsed<string> {
    if b == [] then None
    else if b[0] == 0 then Some(("", b[1..]))
    else
      var r := ParseSym(b[1..]);
      if r.None? then None else Some(([b[0] as char] + r.value.0, r.value.1))
  }

  function ParseFixed(b: seq<Byte>, n: nat): Parsed<nat> {
    if |b| < n then None else Some((LeValue(b[..n]), b[n..]))
  }

  function ParseLong(b: seq<Byte>): Parsed<int> {
    var r := ParseFixed(b, 8);
    if r.None? then None else Some((FromU64(r.value.0), r.value.1))
  }

  function ParseFloat(b: seq<Byte>): Parsed<nat> { ParseFixed(b, 8) }

  function ParseInt(b: seq<Byte>): Parsed<int> {
    var r := ParseFixed(b, 4);
    if r.None? then None else Some((FromU32(r.value.0), r.value.1))
  }

  function ParseMany<T>(b: seq<Byte>, n: nat, p: seq<Byte> -> Parsed<T>): Parsed<seq<T>>
    decreases n
  {
    if n == 0 then Some(([], b))
    else
      var r := p(b);
      if r.None? then None
      else
        var rest := ParseMany(r.value.1, n - 1, p);
        if rest.None? then None else Some(([r.value.0] + rest.value.0, rest.value.1))
  }

  /** Type byte and element count of a list without attributes. */
  function ParseHdr(b: seq<Byte>): Parsed<(Byte, nat)> {
    if |b| < 6 || b[1] != 0 then None else Some(((b[0], LeValue(b[2..6])), b[6..]))
  }

  function ParseColumn(b: seq<Byte>): Parsed<Column> {
    var h := ParseHdr(b);
    if h.None? then None else ParseBody(h.value.0.0, h.value.0.1, h.value.1)
  }

  /** The elements of a list of type `t`. */
  function ParseBody(t: Byte, n: nat, body: seq<Byte>): Parsed<Column> {
    if t == 11 then Wrap(ParseMany(body, n, ParseSym), s => Syms(s))
    else if t == 12 then Wrap(ParseMany(body, n, ParseLong), s => Timestamps(s))
    else if t == 9 then Wrap(ParseMany(body, n, ParseFloat), s => Floats(s))
    else if t == 7 then Wrap(ParseMany(body, n, ParseLong), s => Longs(s))
    else if t == 6 then Wrap(ParseMany(body, n, ParseInt), s => Ints(s))
    else None
  }

  function Wrap<S, T>(p: Parsed<S>, f: S -> T): Parsed<T> {
    if p.None? then None else Some((f(p.value.0), p.value.1))
  }

  function ParseTable(b: seq<Byte>): Parsed<Table> {
    if |b| < 3 || b[0] != 98 || b[1] != 0 || b[2] != 99 then None
    else
      var names := ParseColumn(b[3..]);
      if names.None? || !names.value.0.Syms? then None
      else
        var h := ParseHdr(names.value.1);
        if h.None? || h.value.0.0 != 0 then None
        else
          var cols := ParseMany(h.value.1, h.value.0.1, ParseColumn);
          if cols.None? then None
          else Some((Table(names.value.0.syms, cols.value.0), cols.value.1))
  }

  /** A little-endian uncompressed message: the header's length says where it
      ends, and its body must be one table and nothing else. */
  function ParseMessage(b: seq<Byte>): Parsed<Table> {
    if |b| < 8 || b[..4] != [1, 0, 0, 0] then None
    else
      var total := LeValue(b[4..8]);
      if total < 8 || |b| < total then None
      else
        var r := ParseTable(b[8..total]);
        if r.None? || r.value.1 != [] then None else Some((r.value.0, b[total..]))
  }

  // ------------------------------------------------------------ round trips

  /** Symbols are NUL-terminated on the wire and made of bytes. */
  predicate Plain(s: string) {
    forall i :: 0 <= i < |s| ==> 0 < s[i] as int < 256
  }

  predicate ColumnOk(c: Column) {
    match c
    case Syms(s) => |s| < U32 && forall x :: x in s ==> Plain(x)
    case Timestamps(s) => |s| < U32 && forall x :: x in s ==> IsInt64(x)
    case Floats(s) => |s| < U32 && forall x :: x in s ==> x < WORD
    case Longs(s) => |s| < U32 && forall x :: x in s ==> IsInt64(x)
    case Ints(s) => |s| < U32 && forall x :: x in s ==> IsInt32(x)
  }

  predicate TableOk(t: Table) {
    ColumnOk(Syms(t.names)) && |t.cols| < U32 && forall c :: c in t.cols ==> ColumnOk(c)
  }

  lemma EncSymCons(s: string)
    requires Plain(s) && s != ""
    ensures EncSym(s) == [s[0] as int] + EncSym(s[1..]) && Plain(s[1..])
  {
    assert StrBytes(s) == [s[0] as int] + StrBytes(s[1..]);
  }

  lemma {:induction false} SymRoundTrip(s: string, rest: seq<Byte>)
    requires Plain(s)
    ensures ParseSym(EncSym(s) + rest) == Some((s, rest))
  {
    var b := EncSym(s) + rest;
    if s == "" {
      assert b == [0] + rest;
    } else {
      EncSymCons(s);
      SymRoundTrip(s[1..], rest);
      assert b == [s[0] as int] + (EncSym(s[1..]) + rest);
      assert [s[0]] + s[1..] == s;
    }
  }

  lemma FixedRoundTrip(v: nat, n: nat, rest: seq<Byte>)
    requires v < Pow256(n)
    ensures ParseFixed(Le(v, n) + rest, n) == Some((v, rest))
  {
    LeRoundTrip(v, n);
    assert (Le(v, n) + rest)[..n] == Le(v, n) && (Le(v, n) + rest)[n..] == rest;
  }

  lemma LongRoundTrip(v: int, rest: seq<Byte>)
    requires IsInt64(v)
    ensures ParseLong(EncLong(v) + rest) == Some((v, rest))
  {
    Pow256Values();
    FixedRoundTrip(ToU64(v), 8, rest);
  }

  lemma FloatRoundTrip(v: nat, rest: seq<Byte>)
    requires v < WORD
    ensures ParseFloat(EncFloat(v) + rest) == Some((v, rest))
  {
    Pow256Values();
    FixedRoundTrip(v, 8, rest);
  }

  lemma IntRoundTrip(v: int, rest: seq<Byte>)
    requires IsInt32(v)
    ensures ParseInt(EncInt(v) + rest) == Some((v, rest))
  {
    Pow256Values();
    FixedRoundTrip(ToU32(v), 4, rest);
  }

  lemma {:induction false} ManyRoundTrip<T>(s: seq<T>, enc: T -> seq<Byte>, p: seq<Byte> -> Parsed<T>, rest: seq<Byte>)
    requires forall x, r :: x in s ==> p(enc(x) + r) == Some((x, r))
    ensures ParseMany(Cat(s, enc) + rest, |s|, p) == Some((s, rest))
  {
    if s == [] {
      assert Cat(s, enc) + rest == rest;
    } else {
      ManyRoundTrip(s[1..], enc, p, rest);
      assert Cat(s, enc) + rest == enc(s[0]) + (Cat(s[1..], enc) + rest);
      assert [s[0]] + s[1..] == s;
    }
  }

  lemma HdrRoundTrip(t: Byte, n: nat, rest: seq<Byte>)
    requires n < U32
    ensures ParseHdr(ListHdr(t, n) + rest) == Some(((t, n), rest))
  {
    Pow256Values();
    LeRoundTrip(n, 4);
    var b := ListHdr(t, n) + rest;
    assert b[2..6] == Le(n, 4) && b[6..] == rest;
  }

  lemma BodyRoundTrip(c: Column, rest: seq<Byte>)
    requires ColumnOk(c)
    ensures ParseBody(TypeOf(c), Size(c), EncBody(c) + rest) == Some((c, rest))
  {
    match c
    case Syms(s) =>
      forall x, r | x in s ensures ParseSym(EncSym(x) + r) == Some((x, r)) { SymRoundTrip(x, r); }
      ManyRoundTrip(s, EncSym, ParseSym, rest);
    case Timestamps(s) => LongsRoundTrip(s, rest);
    case Floats(s) =>
      forall x, r | x in s ensures ParseFloat(EncFloat(x) + r) == Some((x, r)) { FloatRoundTrip(x, r); }
      ManyRoundTrip(s, EncFloat, ParseFloat, rest);
    case Longs(s) => LongsRoundTrip(s, rest);
    case Ints(s) =>
      forall x, r | x in s ensures ParseInt(EncInt(x) + r) == Some((x, r)) { IntRoundTrip(x, r); }
      ManyRoundTrip(s, EncInt, ParseInt, rest);
  }

  lemma LongsRoundTrip(s: seq<int>, rest: seq<Byte>)
    requires forall x :: x in s ==> IsInt64(x)
    ensures ParseMany(Cat(s, EncLong) + rest, |s|, ParseLong) == Some((s, rest))
  {
    forall x, r | x in s ensures ParseLong(EncLong(x) + r) == Some((x, r)) { LongRoundTrip(x, r); }
    ManyRoundTrip(s, EncLong, ParseLong, rest);
  }

  lemma ColumnRoundTrip(c: Column, rest: seq<Byte>)
    requires ColumnOk(c)
    ensures ParseColumn(EncColumn(c) + rest) == Some((c, rest))
  {
    var hdr, body := ListHdr(TypeOf(c), Size(c)), EncBody(c);
    HdrRoundTrip(TypeOf(c), Size(c), body + rest);
    assert hdr + body + rest == hdr + (body + rest);
    BodyRoundTrip(c, rest);
  }

  lemma ColumnsRoundTrip(cols: seq<Column>, rest: seq<Byte>)
    requires forall c :: c in cols ==> ColumnOk(c)
    ensures ParseMany(Cat(cols, EncColumn) + rest, |cols|, ParseColumn) == Some((cols, rest))
  {
    forall c, r | c in cols ensures ParseColumn(EncColumn(c) + r) == Some((c, r)) {
      ColumnRoundTrip(c, r);
    }
    ManyRoundTrip(cols, EncColumn, ParseColumn, rest);
  }

  lemma Regroup(h: seq<Byte>, names: seq<Byte>, hdr: seq<Byte>, cols: seq<Byte>, rest: seq<Byte>)
    requires |h| == 3
    ensures var b := h + names + hdr + cols + rest;
            |b| >= 3 && b[..3] == h && b[3..] == names + (hdr + (cols + rest))
  {
  }

  lemma ParseTableParts(b: seq<Byte>, t: Table, afterNames: seq<Byte>, afterHdr: seq<Byte>, rest: seq<Byte>)
    requires |b| >= 3 && b[..3] == [XT_TABLE, 0, XD_DICT]
    requires ParseColumn(b[3..]) == Some((Syms(t.names), afterNames))
    requires ParseHdr(afterNames) == Some(((KL_LIST, |t.cols|), afterHdr))
    requires ParseMany(afterHdr, |t.cols|, ParseColumn) == Some((t.cols, rest))
    ensures ParseTable(b) == Some((t, rest))
  {
    assert b[0] == b[..3][0] && b[1] == b[..3][1] && b[2] == b[..3][2];
  }

  lemma TableRoundTrip(t: Table, rest: seq<Byte>)
    requires TableOk(t)
    ensures ParseTable(EncTable(t) + rest) == Some((t, rest))
  {
    var h, names := [XT_TABLE, 0, XD_DICT], EncColumn(Syms(t.names));
    var hdr, cols := ListHdr(KL_LIST, |t.cols|), Cat(t.cols, EncColumn);
    var body := cols + rest;
    Regroup(h, names, hdr, cols, rest);
    ColumnRoundTrip(Syms(t.names), hdr + body);
    HdrRoundTrip(KL_LIST, |t.cols|, body);
    ColumnsRoundTrip(t.cols, rest);
    ParseTableParts(h + names + hdr + cols + rest, t, hdr + body, body, rest);
  }

  /** Parsing a serialized table returns the table and leaves whatever follows
      untouched, if and only if the table is representable: list lengths fit 32
      bits, integers and timestamps their width, and symbols have no NUL. */
  lemma TableRoundTripIff(t: Table, rest: seq<Byte>)
    ensures ParseTable(EncTable(t) + rest) == Some((t, rest)) <==> TableOk(t)
  {
    if TableOk(t) {
      TableRoundTrip(t, rest);
    } else {
      ParsedTableOk(EncTable(t) + rest);
    }
  }

  lemma {:induction false} ParsedSymPlain(b: seq<Byte>)
    ensures var r := ParseSym(b); r.Some? ==> Plain(r.value.0)
  {
    if b != [] && b[0] != 0 {
      ParsedSymPlain(b[1..]);
    }
  }

  lemma {:induction false} ParsedMany<T>(b: seq<Byte>, n: nat, p: seq<Byte> -> Parsed<T>, ok: T -> bool)
    requires forall c :: p(c).Some? ==> ok(p(c).value.0)
    ensures var r := ParseMany(b, n, p);
            r.Some? ==> |r.value.0| == n && forall x :: x in r.value.0 ==> ok(x)
    decreases n
  {
    if n > 0 && p(b).Some? { ParsedMany(p(b).value.1, n - 1, p, ok); }
  }

  lemma ParsedFixedBound(b: seq<Byte>, n: nat)
    ensures var r := ParseFixed(b, n); r.Some? ==> r.value.0 < Pow256(n)
  {
    if |b| >= n { LeValueBound(b[..n]); }
  }

  lemma ParsedLongs(body: seq<Byte>, n: nat)
    ensures var r := ParseMany(body, n, ParseLong);
            r.Some? ==> |r.value.0| == n && forall x :: x in r.value.0 ==> IsInt64(x)
  {
    Pow256Values();
    forall c ensures ParseLong(c).Some? ==> IsInt64(ParseLong(c).value.0) { ParsedFixedBound(c, 8); }
    ParsedMany(body, n, ParseLong, IsInt64);
  }

  lemma ParsedBodyOk(t: Byte, n: nat, body: seq<Byte>)
    requires n < U32
    ensures var r := ParseBody(t, n, body); r.Some? ==> ColumnOk(r.value.0)
  {
    Pow256Values();
    if t == KS_LIST {
      forall c ensures ParseSym(c).Some? ==> Plain(ParseSym(c).value.0) { ParsedSymPlain(c); }
      ParsedMany(body, n, ParseSym, Plain);
    } else if t == KP_TS || t == KJ_LIST {
      ParsedLongs(body, n);
    } else if t == KF_LIST {
      var ok := (v: nat) => v < WORD;
      forall c ensures ParseFloat(c).Some? ==> ok(ParseFloat(c).value.0) { ParsedFixedBound(c, 8); }
      ParsedMany(body, n, ParseFloat, ok);
    } else if t == KI_LIST {
      forall c ensures ParseInt(c).Some? ==> IsInt32(ParseInt(c).value.0) { ParsedFixedBound(c, 4); }
      ParsedMany(body, n, ParseInt, IsInt32);
    }
  }

  lemma ParsedHdrBound(b: seq<Byte>)
    ensures var h := ParseHdr(b); h.Some? ==> h.value.0.1 < U32
  {
    Pow256Values();
    if |b| >= 6 { LeValueBound(b[2..6]); }
  }

  lemma ParsedColumnOk(b: seq<Byte>)
    ensures var r := ParseColumn(b); r.Some? ==> ColumnOk(r.value.0)
  {
    ParsedHdrBound(b);
    var h := ParseHdr(b);
    if h.Some? { ParsedBodyOk(h.value.0.0, h.value.0.1, h.value.1); }
  }

  lemma ParsedTableOk(b: seq<Byte>)
    ensures var r := ParseTable(b); r.Some? ==> TableOk(r.value.0)
  {
    if ParseTable(b).Some? {
      ParsedColumnOk(b[3..]);
      var names := ParseColumn(b[3..]);
      ParsedHdrBound(names.value.1);
      var h := ParseHdr(names.value.1);
      forall c ensures ParseColumn(c).Some? ==> ColumnOk(ParseColumn(c).value.0) { ParsedColumnOk(c); }
      ParsedMany(h.value.1, h.value.0.1, ParseColumn, ColumnOk);
    }
  }

  /** A whole message, with anything after it. */
  lemma MessageRoundTrip(t: Table, rest: seq<Byte>)
    requires TableOk(t) && |Message(t)| < U32
    ensures ParseMessage(Message(t) + rest) == Some((t, rest))
    ensures LeValue(Message(t)[4..8]) == |Message(t)|
  {
    var len := MessageShape(t);
    var m, body := Message(t), EncTable(t);
    TableRoundTrip(t, []);
    assert body + [] == body;
    ParseMessageParts(m, len, body, t, rest);
  }

  lemma MessageShape(t: Table) returns (len: seq<Byte>)
    requires |Message(t)| < U32
    ensures |len| == 4 && Message(t) == [1, 0, 0, 0] + len + EncTable(t) && LeValue(len) == |Message(t)|
  {
    var n := 8 + |EncTable(t)|;
    len := LengthBytes(n);
    assert |Message(t)| == n;
  }

  lemma LengthBytes(n: nat) returns (len: seq<Byte>)
    requires n < U32
    ensures len == Le(n % U32, 4) && LeValue(len) == n
  {
    Pow256Values();
    LeRoundTrip(n, 4);
    len := Le(n, 4);
  }

  lemma ParseMessageParts(m: seq<Byte>, len: seq<Byte>, body: seq<Byte>, t: Table, rest: seq<Byte>)
    requires |len| == 4 && m == [1, 0, 0, 0] + len + body && LeValue(len) == |m|
    requires ParseTable(body) == Some((t, []))
    ensures m[4..8] == len
    ensures ParseMessage(m + rest) == Some((t, rest))
  {
    var b := m + rest;
    assert m[4..8] == len && b[4..8] == len && b[..4] == [1, 0, 0, 0];
    assert b[8..|m|] == body && b[|m|..] == rest;
  }

  /** The receiver gets the table back, and the bytes that follow untouched, if
      and only if the table is representable and the message's length fits the
      32-bit length field. */
  lemma MessageRoundTripIff(t: Table, rest: seq<Byte>)
    ensures ParseMessage(Message(t) + rest) == Some((t, rest)) <==> TableOk(t) && |Message(t)| < U32
  {
    if TableOk(t) && |Message(t)| < U32 {
      MessageRoundTrip(t, rest);
    } else {
      var b := Message(t) + rest;
      if ParseMessage(b) == Some((t, rest)) {
        ParsedLength(b, t, rest);
        assert false;
      }
    }
  }

  lemma ParsedLength(b: seq<Byte>, t: Table, rest: seq<Byte>)
    requires ParseMessage(b) == Some((t, rest))
    ensures |b| - |rest| < U32 && TableOk(t)
  {
    var total := LeValue(b[4..8]);
    Pow256Values();
    LeValueBound(b[4..8]);
    assert |b[total..]| == |b| - total;
    ParsedTableOk(b[8..total]);
  }

  /** Unique decodability: two streams of representable messages that agree on
      their bytes start with the same table and continue with the same bytes. */
  lemma UniquelyDecodable(a: Table, b: Table, restA: seq<Byte>, restB: seq<Byte>)
    requires TableOk(a) && |Message(a)| < U32 && TableOk(b) && |Message(b)| < U32
    requires Message(a) + restA == Message(b) + restB
    ensures a == b && restA == restB
  {
    MessageRoundTrip(a, restA);
    MessageRoundTrip(b, restB);
  }

  // ------------------------------------------------------------ lengths

  function SymBytes(s: seq<string>): nat {
    if s == [] then 0 else |s[0]| + 1 + SymBytes(s[1..])
  }

  function ColumnSize(c: Column): nat {
    match c
    case Syms(s) => 6 + SymBytes(s)
    case Timestamps(s) => 6 + 8 * |s|
    case Floats(s) => 6 + 8 * |s|
    case Longs(s) => 6 + 8 * |s|
    case Ints(s) => 6 + 4 * |s|
  }

  function ColumnSizes(cols: seq<Column>): nat {
    if cols == [] then 0 else ColumnSize(cols[0]) + ColumnSizes(cols[1..])
  }

  lemma {:induction false} SymsLength(s: seq<string>)
    ensures |Cat(s, EncSym)| == SymBytes(s)
  {
    if s != [] { SymsLength(s[1..]); }
  }

  lemma {:induction false} FixedLength<T>(s: seq<T>, enc: T -> seq<Byte>, w: nat)
    requires forall x :: |enc(x)| == w
    ensures |Cat(s, enc)| == w * |s|
  {
    if s != [] { FixedLength(s[1..], enc, w); }
  }

  lemma ColumnLength(c: Column)
    ensures |EncColumn(c)| == ColumnSize(c)
  {
    match c
    case Syms(s) => SymsLength(s);
    case Timestamps(s) => FixedLength(s, EncLong, 8);
    case Floats(s) => FixedLength(s, EncFloat, 8);
    case Longs(s) => FixedLength(s, EncLong, 8);
    case Ints(s) => FixedLength(s, EncInt, 4);
  }

  lemma {:induction false} ColumnsLength(cols: seq<Column>)
    ensures |Cat(cols, EncColumn)| == ColumnSizes(cols)
  {
    if cols != [] {
      ColumnLength(cols[0]);
      ColumnsLength(cols[1..]);
    }
  }

  /** The closed form of a message's length. */
  lemma MessageLength(t: Table)
    ensures |Message(t)| == 23 + SymBytes(t.names) + ColumnSizes(t.cols)
  {
    ColumnLength(Syms(t.names));
    ColumnsLength(t.cols);
  }

  /** A table that is not parsed back: its only symbol contains a NUL byte. */
  lemma NulMessageExample(rest: seq<Byte>) returns (t: Table)
    ensures |t.names| == |t.cols| == 1 && ParseMessage(Message(t) + rest) != Some((t, rest))
  {
    var nul: string := [0 as char];
    t := Table(["a"], [Syms([nul])]);
    assert !Plain(nul) by { assert nul[0] == 0 as char; }
    assert nul in [nul] && t.cols[0] in t.cols;
    assert !ColumnOk(t.cols[0]);
    MessageRoundTripIff(t, rest);
  }
}
