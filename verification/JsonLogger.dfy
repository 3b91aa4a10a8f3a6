/**
 The JSON-lines logger.  A record is assembled byte by byte into a buffer; the
 reader is written from RFC 8259 (section 7 for strings) and reads the compact
 form, without whitespace between tokens.  A character stands for a byte; the
 statements hold for every string, so no range is assumed.
 */
module JsonLogger {
  import opened Seqs

  // ------------------------------------------------------------ escaping

  function Hex(d: nat): char
    requires d < 16
  {
    "0123456789abcdef"[d]
  }

  /** `{:04x}` of a number below 2^16. */
  function Hex4(n: nat): string
    requires n < 0x1_0000
  {
    [Hex(n / 0x1000), Hex(n / 0x100 % 16), Hex(n / 0x10 % 16), Hex(n % 16)]
  }

  function EscapeChar(c: char): string {
    if c == '\"' then "\\\""
    else if c == '\\' then "\\\\"
    else if c == 8 as char then "\\b"
    else if c == 12 as char then "\\f"
    else if c == '\n' then "\\n"
    else if c == '\r' then "\\r"
    else if c == '\t' then "\\t"
    else if c < ' ' then "\\u" + Hex4(c as nat)
    else [c]
  }

  function Escaped(s: string): string {
    if s == "" then "" else EscapeChar(s[0]) + Escaped(s[1..])
  }

  function Quoted(s: string): string { "\"" + Escaped(s) + "\"" }

  lemma {:induction false} EscapedSnoc(s: string, c: char)
    ensures Escaped(s + [c]) == Escaped(s) + EscapeChar(c)
    decreases |s|
  {
    if s == "" {
      assert s + [c] == [c] && [c][1..] == "";
      NoPrefix(EscapeChar(c));
    } else {
      EscapedSnoc(s[1..], c);
      assert (s + [c])[0] == s[0] && (s + [c])[1..] == s[1..] + [c];
      Assoc(EscapeChar(s[0]), Escaped(s[1..]), EscapeChar(c));
    }
  }

  lemma NoPrefix(a: string)
    ensures "" + a == a && a + "" == a
  {
  }

  lemma Assoc(a: string, b: string, c: string)
    ensures a + b + c == a + (b + c)
  {
  }

  predicate Plain(c: char) { c >= ' ' && c != '\"' && c != '\\' }

  lemma {:induction false} PlainEscaped(s: string)
    requires forall i :: 0 <= i < |s| ==> Plain(s[i])
    ensures Escaped(s) == s
    decreases |s|
  {
    if s != "" {
      PlainEscaped(s[1..]);
      assert EscapeChar(s[0]) == [s[0]];
      assert s == [s[0]] + s[1..];
    }
  }

  // ------------------------------------------------------------ reading strings

  function HexValue(c: char): Option<nat> {
    if '0' <= c <= '9' then Some(c as nat - '0' as nat)
    else if 'a' <= c <= 'f' then Some(c as nat - 'a' as nat + 10)
    else if 'A' <= c <= 'F' then Some(c as nat - 'A' as nat + 10)
    else None
  }

  /** The character that four hexadecimal digits denote.  Surrogates, which the
      logger never writes, are refused. */
  function ReadHex4(s: string): Option<char>
    requires |s| == 4
  {
    var a, b, c, d := HexValue(s[0]), HexValue(s[1]), HexValue(s[2]), HexValue(s[3]);
    if a.None? || b.None? || c.None? || d.None? then None
    else
      var n := a.value * 0x1000 + b.value * 0x100 + c.value * 0x10 + d.value;
      if n < 0xD800 || 0xE000 <= n < 0x1_0000 then Some(n as char) else None
  }

  /** The two-character escapes of section 7. */
  function ReadEscape(c: char): Option<char> {
    if c == '\"' || c == '\\' || c == '/' then Some(c)
    else if c == 'b' then Some(8 as char)
    else if c == 'f' then Some(12 as char)
    else if c == 'n' then Some('\n')
    else if c == 'r' then Some('\r')
    else if c == 't' then Some('\t')
    else None
  }

  /** One character of a string and what follows it. */
  function ReadChar(s: string): (r: Option<(char, string)>)
    ensures r.Some? ==> |r.value.1| < |s|
  {
    if s == "" || s[0] < ' ' || s[0] == '\"' then None
    else if s[0] != '\\' then Some((s[0], s[1..]))
    else if |s| < 2 then None
    else if s[1] == 'u' then
      if |s| < 6 || ReadHex4(s[2..6]).None? then None
      else Some((ReadHex4(s[2..6]).value, s[6..]))
    else if ReadEscape(s[1]).None? then None
    else Some((ReadEscape(s[1]).value, s[2..]))
  }

  /** The rest of a string after its opening quote, up to its closing quote. */
  function ReadRest(s: string): (r: Option<(string, string)>)
    ensures r.Some? ==> |r.value.1| < |s|
    decreases |s|
  {
    if s != "" && s[0] == '\"' then Some(("", s[1..]))
    else
      var c := ReadChar(s);
      if c.None? then None
      else
        var r := ReadRest(c.value.1);
        if r.None? then None else Some(([c.value.0] + r.value.0, r.value.1))
  }

  function ReadString(s: string): (r: Option<(string, string)>)
    ensures r.Some? ==> |r.value.1| < |s|
  {
    if s == "" || s[0] != '\"' then None else ReadRest(s[1..])
  }

  lemma HexReads(d: nat)
    requires d < 16
    ensures HexValue(Hex(d)) == Some(d)
  {
  }

  lemma Hex4Reads(c: char)
    requires c < ' '
    ensures ReadHex4(Hex4(c as nat)) == Some(c)
  {
    var n := c as nat;
    HexReads(0);
    HexReads(n / 16 % 16);
    HexReads(n % 16);
    assert n / 0x1000 == 0 && n / 0x100 % 16 == 0 && n / 16 % 16 == n / 16;
  }

  lemma PlainReads(c: char, rest: string)
    requires Plain(c)
    ensures ReadChar([c] + rest) == Some((c, rest))
  {
    assert ([c] + rest)[1..] == rest;
  }

  lemma ShortEscapeReads(code: char, c: char, rest: string)
    requires code != 'u' && ReadEscape(code) == Some(c)
    ensures ReadChar(['\\', code] + rest) == Some((c, rest))
  {
    assert (['\\', code] + rest)[2..] == rest;
  }

  lemma LongEscapeReads(hex: string, c: char, rest: string)
    requires |hex| == 4 && ReadHex4(hex) == Some(c)
    ensures ReadChar(['\\', 'u'] + hex + rest) == Some((c, rest))
  {
    var s := ['\\', 'u'] + hex + rest;
    assert s[2..6] == hex && s[6..] == rest;
  }

  /** The characters with an escape of their own. */
  predicate HasShortEscape(c: char) {
    c == '\"' || c == '\\' || c == 8 as char || c == 12 as char || c == '\n' || c == '\r' || c == '\t'
  }

  lemma ShortEscape(c: char) returns (code: char)
    requires HasShortEscape(c)
    ensures EscapeChar(c) == ['\\', code] && code != 'u' && ReadEscape(code) == Some(c)
  {
    code := EscapeChar(c)[1];
  }

  lemma OtherEscape(c: char)
    requires !HasShortEscape(c)
    ensures EscapeChar(c) == if Plain(c) then [c] else ['\\', 'u'] + Hex4(c as nat)
  {
  }

  /** Every escape is read back as the character it was written for. */
  lemma EscapeCharReads(c: char, rest: string)
    ensures ReadChar(EscapeChar(c) + rest) == Some((c, rest))
    ensures EscapeChar(c) != "" && EscapeChar(c)[0] != '\"'
  {
    if HasShortEscape(c) {
      var code := ShortEscape(c);
      ShortEscapeReads(code, c, rest);
    } else {
      OtherEscape(c);
      if Plain(c) {
        PlainReads(c, rest);
      } else {
        Hex4Reads(c);
        LongEscapeReads(Hex4(c as nat), c, rest);
      }
    }
  }

  lemma {:induction false} EscapedReadsTo(s: string, tail: string)
    requires tail != "" && tail[0] == '\"'
    ensures ReadRest(Escaped(s) + tail) == Some((s, tail[1..]))
    decreases |s|
  {
    if s == "" {
      NoPrefix(tail);
    } else {
      EscapedReadsTo(s[1..], tail);
      EscapedReadsStep(s[0], s[1..], tail);
      assert s == [s[0]] + s[1..];
    }
  }

  lemma EscapedReadsStep(c: char, s: string, tail: string)
    requires ReadRest(Escaped(s) + tail).Some?
    ensures var r := ReadRest(Escaped(s) + tail).value;
            ReadRest((EscapeChar(c) + Escaped(s)) + tail) == Some(([c] + r.0, r.1))
  {
    var x := Escaped(s) + tail;
    EscapeCharReads(c, x);
    Assoc(EscapeChar(c), Escaped(s), tail);
    ReadRestStep(EscapeChar(c), c, x);
  }

  lemma ReadRestStep(e: string, c: char, x: string)
    requires e != "" && e[0] != '\"' && ReadChar(e + x) == Some((c, x)) && ReadRest(x).Some?
    ensures ReadRest(e + x) == Some(([c] + ReadRest(x).value.0, ReadRest(x).value.1))
  {
    assert (e + x)[0] == e[0];
  }

  /** Unescaping undoes escaping, for every string and whatever follows: the
      reader stops exactly at the quote that closes the literal. */
  lemma QuotedReads(s: string, rest: string)
    ensures ReadString(Quoted(s) + rest) == Some((s, rest))
  {
    var q := "\"";
    EscapedReadsTo(s, q + rest);
    Enclosed(q, Escaped(s), rest);
    Behind(q, rest);
    Behind(q, Escaped(s) + (q + rest));
  }

  lemma Enclosed(q: string, e: string, rest: string)
    ensures (q + e + q) + rest == q + (e + (q + rest))
  {
  }

  lemma Behind(q: string, rest: string)
    requires |q| == 1
    ensures (q + rest)[0] == q[0] && (q + rest)[1..] == rest
  {
  }

  predicate NoControl(s: string) { forall i :: 0 <= i < |s| ==> s[i] >= ' ' }

  lemma {:induction false} EscapedHasNoControl(s: string)
    ensures NoControl(Escaped(s))
    decreases |s|
  {
    if s != "" {
      EscapedHasNoControl(s[1..]);
      EscapeCharHasNoControl(s[0]);
    }
  }

  lemma EscapeCharHasNoControl(c: char)
    ensures NoControl(EscapeChar(c))
  {
    if c < ' ' {
      var n := c as nat;
      assert Hex(n / 0x1000) >= ' ' && Hex(n / 0x100 % 16) >= ' ';
      assert Hex(n / 0x10 % 16) >= ' ' && Hex(n % 16) >= ' ';
    }
  }

  // ------------------------------------------------------------ reading values

  /** How far into a value a reader is: outside or inside a string literal, or
      just after a backslash, inside the brackets and braces of `open`, innermost
      last; or past a bracket that closes nothing or one of the other kind. */
  datatype Scan = Out(open: string) | In(open: string) | Esc(open: string) | Mismatch

  predicate Ends(st: Scan, c: char) {
    st == Out("") && (c == ',' || c == '}' || c == ']')
  }

  function Advance(st: Scan, c: char): Scan {
    match st
    case Mismatch => Mismatch
    case Esc(o) => In(o)
    case In(o) => if c == '\"' then Out(o) else if c == '\\' then Esc(o) else st
    case Out(o) =>
      if c == '\"' then In(o)
      else if c == '{' || c == '[' then Out(o + [c])
      else if c == '}' || c == ']' then
        if o != "" && Last(o) == (if c == '}' then '{' else '[') then Out(Front(o)) else Mismatch
      else st
  }

  /** The text of a value up to the separator that ends it, and the rest. */
  function ReadToken(s: string, st: Scan): (r: Option<(string, string)>)
    ensures r.Some? ==> r.value.0 + r.value.1 == s
    decreases |s|
  {
    if s == "" then None
    else if Ends(st, s[0]) then Some(("", s))
    else
      var r := ReadToken(s[1..], Advance(st, s[0]));
      if r.None? then None else Some(([s[0]] + r.value.0, r.value.1))
  }

  /** Where the scan stands after `f`; `None` if a separator ended it earlier. */
  function Run(st: Scan, f: string): Option<Scan>
    decreases |f|
  {
    if f == "" then Some(st)
    else if Ends(st, f[0]) then None
    else Run(Advance(st, f[0]), f[1..])
  }

  /** A self-contained value: its quotes are closed, its brackets and braces
      match, and no separator stands outside them. */
  predicate Closed(f: string) { f != "" && Run(Out(""), f) == Some(Out("")) }

  lemma {:induction false} RunAppend(st: Scan, a: string, b: string)
    ensures Run(st, a + b) == if Run(st, a).None? then None else Run(Run(st, a).value, b)
    decreases |a|
  {
    if a == "" {
      assert a + b == b;
    } else {
      assert (a + b)[1..] == a[1..] + b;
      if !Ends(st, a[0]) { RunAppend(Advance(st, a[0]), a[1..], b); }
    }
  }

  lemma {:induction false} TokenIff(st: Scan, f: string, rest: string)
    requires rest != "" && Ends(Out(""), rest[0])
    ensures ReadToken(f + rest, st) == Some((f, rest)) <==> Run(st, f) == Some(Out(""))
    decreases |f|
  {
    if f == "" {
      assert f + rest == rest;
    } else {
      var s := f + rest;
      assert s[0] == f[0] && s[1..] == f[1..] + rest;
      if !Ends(st, f[0]) {
        TokenIff(Advance(st, f[0]), f[1..], rest);
        var r := ReadToken(s[1..], Advance(st, f[0]));
        assert f == [f[0]] + f[1..];
        if r.Some? && [f[0]] + r.value.0 == f {
          assert r.value.0 == ([f[0]] + r.value.0)[1..] == f[1..];
        }
      }
    }
  }

  lemma {:induction false} RunEscaped(d: string, s: string)
    ensures Run(In(d), Escaped(s)) == Some(In(d))
    decreases |s|
  {
    if s != "" {
      RunEscaped(d, s[1..]);
      RunEscapeChar(d, s[0]);
      RunAppend(In(d), EscapeChar(s[0]), Escaped(s[1..]));
    }
  }

  lemma {:induction false} RunInside(d: string, f: string)
    requires forall i :: 0 <= i < |f| ==> f[i] != '\"' && f[i] != '\\'
    ensures Run(In(d), f) == Some(In(d))
    decreases |f|
  {
    if f != "" { RunInside(d, f[1..]); }
  }

  lemma HexIsPlain(d: nat)
    requires d < 16
    ensures Plain(Hex(d))
  {
  }

  lemma RunEscapeChar(d: string, c: char)
    ensures Run(In(d), EscapeChar(c)) == Some(In(d))
  {
    var e := EscapeChar(c);
    if e[0] == '\\' {
      assert Run(In(d), e) == Run(Esc(d), e[1..]) == Run(In(d), e[1..][1..]);
      assert e[1..][1..] == e[2..];
      if |e| == 6 {
        var n := c as nat;
        HexIsPlain(n / 0x1000);
        HexIsPlain(n / 0x100 % 16);
        HexIsPlain(n / 0x10 % 16);
        HexIsPlain(n % 16);
      }
    }
    RunInside(d, if e[0] == '\\' then e[2..] else e);
  }

  lemma QuotedIsClosed(s: string)
    ensures Closed(Quoted(s))
  {
    RunEscaped("", s);
    RunAppend(In(""), Escaped(s), "\"");
    assert Quoted(s)[1..] == Escaped(s) + "\"";
    assert Run(In(""), "\"") == Some(Out(""));
  }

  /** Neither structural nor a separator. */
  predicate Loose(c: char) {
    c != ',' && c != '}' && c != ']' && c != '{' && c != '[' && c != '\"'
  }

  lemma {:induction false} LooseRuns(f: string)
    requires forall i :: 0 <= i < |f| ==> Loose(f[i])
    ensures Run(Out(""), f) == Some(Out(""))
    decreases |f|
  {
    if f != "" { LooseRuns(f[1..]); }
  }

  // ------------------------------------------------------------ numbers

  function Digit(d: nat): char
    requires d < 10
  {
    "0123456789"[d]
  }

  /** `{}` of an integer. */
  function Decimal(n: int): (r: string)
    ensures r != ""
    decreases if n < 0 then 1 - n else n
  {
    if n < 0 then "-" + Decimal(-n)
    else if n < 10 then [Digit(n)]
    else Decimal(n / 10) + [Digit(n % 10)]
  }

  function ReadNat(s: string): int {
    if s == "" then 0
    else
      var c := Last(s);
      10 * ReadNat(Front(s)) + if '0' <= c <= '9' then c as nat - '0' as nat else 0
  }

  function ReadInt(s: string): int {
    if s != "" && s[0] == '-' then -ReadNat(s[1..]) else ReadNat(s)
  }

  lemma DigitReads(d: nat)
    requires d < 10
    ensures '0' <= Digit(d) <= '9' && Digit(d) as nat - '0' as nat == d
  {
  }

  lemma {:induction false} NatReads(n: nat)
    ensures ReadNat(Decimal(n)) == n
    ensures forall i :: 0 <= i < |Decimal(n)| ==> '0' <= Decimal(n)[i] <= '9'
    decreases n
  {
    DigitReads(n % 10);
    if n < 10 {
      assert Front([Digit(n)]) == "" && Last([Digit(n)]) == Digit(n);
    } else {
      NatReads(n / 10);
      FrontAppend(Decimal(n / 10), Digit(n % 10));
    }
  }

  lemma DecimalNegative(n: int)
    requires n < 0
    ensures Decimal(n)[0] == '-' && Decimal(n)[1..] == Decimal(-n)
  {
    assert Decimal(n) == "-" + Decimal(-n);
  }

  lemma DecimalReads(n: int)
    ensures ReadInt(Decimal(n)) == n
  {
    if n < 0 {
      DecimalNegative(n);
      NatReads(-n);
    } else {
      NatReads(n);
    }
  }

  lemma DecimalChars(n: int, i: nat)
    requires i < |Decimal(n)|
    ensures Decimal(n)[i] == '-' || '0' <= Decimal(n)[i] <= '9'
  {
    if n < 0 {
      DecimalNegative(n);
      NatReads(-n);
      if i > 0 { assert Decimal(n)[i] == Decimal(-n)[i - 1]; }
    } else {
      NatReads(n);
    }
  }

  lemma DecimalIsClosed(n: int)
    ensures Closed(Decimal(n)) && NoControl(Decimal(n))
  {
    var s := Decimal(n);
    forall i | 0 <= i < |s| ensures Loose(s[i]) && s[i] >= ' ' { DecimalChars(n, i); }
    LooseRuns(s);
  }

  // ------------------------------------------------------------ records

  datatype Level = Debug | Info | Warn | Error

  function LevelStr(lv: Level): string {
    match lv
    case Debug => "debug"
    case Info => "info"
    case Warn => "warn"
    case Error => "error"
  }

  /** The order of spdlog's levels, to which the logger's levels are mapped. */
  function Severity(lv: Level): nat {
    match lv
    case Debug => 1
    case Info => 2
    case Warn => 3
    case Error => 4
  }

  /** Which records a threshold lets pass. */
  predicate Passes(lv: Level, threshold: Level) {
    match threshold
    case Debug => true
    case Info => lv != Debug
    case Warn => lv == Warn || lv == Error
    case Error => lv == Error
  }

  datatype Field = StringField(key: string, value: string) | RawField(key: string, value: string)

  datatype Entry = Entry(tsMs: int, level: Level, component: string, event: string, fields: seq<Field>)

  /** A member of the object: its key, and the text of its value. */
  datatype Member = Member(key: string, token: string)

  function MemberText(m: Member): string { Quoted(m.key) + ":" + m.token }

  function Comma(m: Member): string { "," + MemberText(m) }

  /** Further members, each after a comma. */
  function TailText(ms: seq<Member>): string {
    if ms == [] then "" else TailText(Front(ms)) + Comma(Last(ms))
  }

  function Token(f: Field): string { if f.StringField? then Quoted(f.value) else f.value }

  function FieldMembers(fs: seq<Field>): (r: seq<Member>)
    ensures |r| == |fs|
    ensures forall i :: 0 <= i < |fs| ==> r[i] == Member(fs[i].key, Token(fs[i]))
  {
    seq(|fs|, i requires 0 <= i < |fs| => Member(fs[i].key, Token(fs[i])))
  }

  function TsMember(e: Entry): Member { Member("ts_ms", Decimal(e.tsMs)) }
  function LevelMember(e: Entry): Member { Member("level", Quoted(LevelStr(e.level))) }
  function ComponentMember(e: Entry): Member { Member("component", Quoted(e.component)) }
  function EventMember(e: Entry): Member { Member("event", Quoted(e.event)) }

  function HeadMembers(e: Entry): seq<Member> {
    [] + [LevelMember(e)] + [ComponentMember(e)] + [EventMember(e)]
  }

  /** The members after the time stamp. */
  function MoreMembers(e: Entry): seq<Member> { HeadMembers(e) + FieldMembers(e.fields) }

  /** What a reader should find in the record of `e`. */
  function Members(e: Entry): seq<Member> { [TsMember(e)] + MoreMembers(e) }

  /** The compact JSON object with these members. */
  function Record(e: Entry): string {
    "{" + MemberText(TsMember(e)) + TailText(MoreMembers(e)) + "}"
  }

  lemma TailSnoc(ms: seq<Member>, m: Member)
    ensures TailText(ms + [m]) == TailText(ms) + Comma(m)
  {
    FrontAppend(ms, m);
  }

  lemma OpenPieces(a: string, b: string, c: string, d: string)
    ensures a + b + c + d == a + (b + (c + d))
  {
  }

  lemma {:induction false} TailAppend(a: seq<Member>, b: seq<Member>)
    ensures TailText(a + b) == TailText(a) + TailText(b)
    decreases |b|
  {
    if b == [] {
      assert a + b == a;
      assert TailText(a) + "" == TailText(a);
    } else {
      var f, m := Front(b), Last(b);
      TailAppend(a, f);
      assert b == f + [m];
      assert a + b == (a + f) + [m];
      TailSnoc(a + f, m);
      TailSnoc(f, m);
      Assoc(TailText(a), TailText(f), Comma(m));
    }
  }

  // The literal prefixes that `log` writes are the quoted keys.

  lemma PlainQuoted(k: string)
    requires forall i :: 0 <= i < |k| ==> Plain(k[i])
    ensures Quoted(k) == "\"" + k + "\""
  {
    PlainEscaped(k);
  }

  lemma TsPrefix()
    ensures "\"ts_ms\":" == Quoted("ts_ms") + ":"
  {
    PlainQuoted("ts_ms");
  }

  lemma KeyPrefix(pre: string, k: string)
    requires forall i :: 0 <= i < |k| ==> Plain(k[i])
    requires pre == ",\"" + k + "\":\""
    ensures IsPrefix(pre, k)
  {
    PlainQuoted(k);
    assert ",\"" == "," + "\"" && "\":\"" == "\"" + ":" + "\"";
    Glue(",", "\"", k, ":");
  }

  /** `pre` opens a further member with key `k` and a string value. */
  predicate IsPrefix(pre: string, k: string) { pre == "," + (Quoted(k) + ":") + "\"" }

  lemma Glue(c: string, q: string, k: string, colon: string)
    ensures (c + q) + k + (q + colon + q) == c + ((q + k + q) + colon) + q
  {
  }

  lemma LevelIsPlain(lv: Level)
    ensures Quoted(LevelStr(lv)) == "\"" + LevelStr(lv) + "\""
  {
    match lv
    case Debug => PlainQuoted("debug");
    case Info => PlainQuoted("info");
    case Warn => PlainQuoted("warn");
    case Error => PlainQuoted("error");
  }

  /** A comma, a key, a colon and a quoted value, piece by piece. */
  lemma Pieces(o: string, pre: string, k: string, v: string)
    requires IsPrefix(pre, k)
    ensures o + pre + Escaped(v) + ['\"'] == o + Comma(Member(k, Quoted(v)))
  {
    var q := Quoted(k) + ":";
    assert MemberText(Member(k, Quoted(v))) == q + ("\"" + Escaped(v) + "\"");
    Reassociate(o, ",", q, "\"", Escaped(v), ['\"']);
  }

  lemma Reassociate(o: string, c: string, q: string, open: string, v: string, close: string)
    ensures o + (c + q + open) + v + close == o + (c + (q + (open + v + close)))
  {
  }

  /** The formatting buffer. */
  class MemoryBuffer {
    var out: string

    constructor ()
      ensures out == ""
    {
      out := "";
    }

    method Clear()
      modifies this
      ensures out == ""
    {
      out := "";
    }

    method FormatTo(text: string)
      modifies this
      ensures out == old(out) + text
    {
      out := out + text;
    }

    method PushBack(c: char)
      modifies this
      ensures out == old(out) + [c]
    {
      out := out + [c];
    }

    method AppendJsonEscaped(s: string)
      modifies this
      ensures out == old(out) + Escaped(s)
    {
      for i := 0 to |s|
        invariant out == old(out) + Escaped(s[..i])
      {
        EscapedSnoc(s[..i], s[i]);
        assert s[..i + 1] == s[..i] + [s[i]];
        Assoc(old(out), Escaped(s[..i]), EscapeChar(s[i]));
        AppendChar(s[i]);
      }
      assert s[..|s|] == s;
    }

    method AppendChar(c: char)
      modifies this
      ensures out == old(out) + EscapeChar(c)
    {
      if c == '\"' {
        FormatTo("\\\"");
      } else if c == '\\' {
        FormatTo("\\\\");
      } else if c == 8 as char {
        FormatTo("\\b");
      } else if c == 12 as char {
        FormatTo("\\f");
      } else if c == '\n' {
        FormatTo("\\n");
      } else if c == '\r' {
        FormatTo("\\r");
      } else if c == '\t' {
        FormatTo("\\t");
      } else if c < ' ' {
        FormatTo("\\u" + Hex4(c as nat));
      } else {
        PushBack(c);
      }
    }

    method AppendKvString(k: string, v: string)
      modifies this
      ensures out == old(out) + MemberText(Member(k, Quoted(v)))
    {
      PushBack('\"');
      AppendJsonEscaped(k);
      FormatTo("\":\"");
      AppendJsonEscaped(v);
      PushBack('\"');
      KvPieces(old(out), Escaped(k), Escaped(v));
    }

    method AppendKvRaw(k: string, rawJson: string)
      modifies this
      ensures out == old(out) + MemberText(Member(k, rawJson))
    {
      PushBack('\"');
      AppendJsonEscaped(k);
      FormatTo("\":");
      FormatTo(rawJson);
      RawPieces(old(out), Escaped(k), rawJson);
    }

    method AppendFields(fields: seq<Field>)
      modifies this
      ensures out == old(out) + TailText(FieldMembers(fields))
    {
      for i := 0 to |fields|
        invariant out == old(out) + TailText(FieldMembers(fields)[..i])
      {
        var f := fields[i];
        var m := Member(f.key, Token(f));
        TailSnoc(FieldMembers(fields)[..i], m);
        assert FieldMembers(fields)[..i + 1] == FieldMembers(fields)[..i] + [m];
        CommaPieces(old(out), TailText(FieldMembers(fields)[..i]), m);
        PushBack(',');
        if f.StringField? { AppendKvString(f.key, f.value); } else { AppendKvRaw(f.key, f.value); }
      }
      assert FieldMembers(fields)[..|fields|] == FieldMembers(fields);
    }

    method AppendStringMember(pre: string, v: string, ghost k: string)
      requires IsPrefix(pre, k)
      modifies this
      ensures out == old(out) + Comma(Member(k, Quoted(v)))
    {
      FormatTo(pre);
      AppendJsonEscaped(v);
      PushBack('\"');
      Pieces(old(out), pre, k, v);
    }

    method AppendTs(e: Entry)
      modifies this
      ensures out == old(out) + MemberText(TsMember(e))
    {
      TsPrefix();
      FormatTo("\"ts_ms\":" + Decimal(e.tsMs));
    }

    method AppendLevel(e: Entry)
      modifies this
      ensures out == old(out) + Comma(LevelMember(e))
    {
      KeyPrefix(",\"level\":\"", "level");
      FormatTo(",\"level\":\"" + LevelStr(e.level) + "\"");
      LevelPieces(old(out), ",\"level\":\"", "level", LevelStr(e.level));
      LevelIsPlain(e.level);
    }

    method AppendComponent(e: Entry)
      modifies this
      ensures out == old(out) + Comma(ComponentMember(e))
    {
      KeyPrefix(",\"component\":\"", "component");
      AppendStringMember(",\"component\":\"", e.component, "component");
    }

    method AppendEvent(e: Entry)
      modifies this
      ensures out == old(out) + Comma(EventMember(e))
    {
      KeyPrefix(",\"event\":\"", "event");
      AppendStringMember(",\"event\":\"", e.event, "event");
    }

    /** The four fixed members. */
    method AppendHead(e: Entry)
      modifies this
      ensures out == old(out) + MemberText(TsMember(e)) + TailText(HeadMembers(e))
    {
      AppendTs(e);
      AppendLevel(e);
      AppendComponent(e);
      AppendEvent(e);
      HeadPieces(old(out) + MemberText(TsMember(e)), e);
    }

    method Assemble(e: Entry)
      modifies this
      ensures out == Record(e)
    {
      Clear();
      PushBack('{');
      AppendHead(e);
      AppendFields(e.fields);
      PushBack('}');
      RecordPieces(e);
    }
  }

  lemma HeadPieces(o: string, e: Entry)
    ensures o + Comma(LevelMember(e)) + Comma(ComponentMember(e)) + Comma(EventMember(e)) ==
            o + TailText(HeadMembers(e))
  {
    var l, c, v := LevelMember(e), ComponentMember(e), EventMember(e);
    TailSnoc([] + [l] + [c], v);
    TailSnoc([] + [l], c);
    TailSnoc([], l);
    FourPieces(o, Comma(l), Comma(c), Comma(v));
  }

  lemma RecordPieces(e: Entry)
    ensures "" + ['{'] + MemberText(TsMember(e)) + TailText(HeadMembers(e)) + TailText(FieldMembers(e.fields)) + ['}']
            == Record(e)
  {
    TailAppend(HeadMembers(e), FieldMembers(e.fields));
    FivePieces(['{'], MemberText(TsMember(e)), TailText(HeadMembers(e)), TailText(FieldMembers(e.fields)), ['}']);
  }

  lemma FivePieces(a: string, b: string, c: string, d: string, z: string)
    ensures "" + a + b + c + d + z == a + b + (c + d) + z
  {
  }

  lemma FourPieces(o: string, a: string, b: string, c: string)
    ensures o + a + b + c == o + ("" + a + b + c)
  {
  }

  lemma KvPieces(o: string, k: string, v: string)
    ensures o + ['\"'] + k + "\":\"" + v + ['\"'] == o + ("\"" + k + "\"" + ":" + ("\"" + v + "\""))
  {
    assert "\":\"" == "\"" + ":" + "\"";
  }

  lemma RawPieces(o: string, k: string, raw: string)
    ensures o + ['\"'] + k + "\":" + raw == o + ("\"" + k + "\"" + ":" + raw)
  {
    assert "\":" == "\"" + ":";
  }

  lemma CommaPieces(o: string, t: string, m: Member)
    ensures o + t + [','] + MemberText(m) == o + (t + Comma(m))
  {
  }

  lemma LevelPieces(o: string, pre: string, k: string, v: string)
    requires IsPrefix(pre, k)
    ensures o + (pre + v + "\"") == o + ("," + (Quoted(k) + ":" + ("\"" + v + "\"")))
  {
    Reassociate(o, ",", Quoted(k) + ":", "\"", v, "\"");
    assert o + (pre + v + "\"") == o + pre + v + "\"";
  }

  /** The logger: its threshold, its scratch buffer, and the lines handed on. */
  class Logger {
    var initialized: bool
    var threshold: Level
    const buf: MemoryBuffer
    var lines: seq<string>

    constructor ()
      ensures !initialized && lines == [] && fresh(buf)
    {
      initialized, threshold, lines := false, Info, [];
      buf := new MemoryBuffer();
    }

    /** One line per record, and none below the threshold or before `init`. */
    method Log(e: Entry)
      modifies this`lines, buf
      ensures lines == if initialized && Passes(e.level, threshold)
                       then old(lines) + [Record(e)] else old(lines)
    {
      if !initialized { return; }
      if Severity(e.level) < Severity(threshold) { return; }
      buf.Assemble(e);
      lines := lines + [buf.out];
    }
  }

  // ------------------------------------------------------------ reading records

  function ReadMember(s: string): (r: Option<(Member, string)>)
    ensures r.Some? ==> |r.value.1| < |s|
  {
    var k := ReadString(s);
    if k.None? then None
    else
      var (key, rest) := k.value;
      if rest == "" || rest[0] != ':' then None
      else
        var t := ReadToken(rest[1..], Out(""));
        if t.None? || t.value.0 == "" then None else Some((Member(key, t.value.0), t.value.1))
  }

  function ReadMembers(s: string): Option<seq<Member>>
    decreases |s|
  {
    var m := ReadMember(s);
    if m.None? then None
    else
      var (member, rest) := m.value;
      if rest == "}" then Some([member])
      else if rest == "" || rest[0] != ',' then None
      else
        var ms := ReadMembers(rest[1..]);
        if ms.None? then None else Some([member] + ms.value)
  }

  function ReadObject(s: string): Option<seq<Member>> {
    if s == "{}" then Some([])
    else if s == "" || s[0] != '{' then None
    else ReadMembers(s[1..])
  }

  predicate AllTokens(ms: seq<Member>, p: string -> bool) {
    forall i :: 0 <= i < |ms| ==> p(ms[i].token)
  }

  lemma AllTokensAppend(a: seq<Member>, b: seq<Member>, p: string -> bool)
    ensures AllTokens(a + b, p) <==> AllTokens(a, p) && AllTokens(b, p)
  {
    forall i | 0 <= i < |a| ensures a[i] == (a + b)[i] {}
    forall i | 0 <= i < |b| ensures b[i] == (a + b)[|a| + i] {}
  }

  lemma OneToken(m: Member, p: string -> bool)
    ensures AllTokens([m], p) <==> p(m.token)
  {
    assert [m][0] == m;
  }

  lemma KeyReads(m: Member, rest: string)
    ensures ReadString(MemberText(m) + rest) == Some((m.key, ":" + (m.token + rest)))
  {
    QuotedReads(m.key, ":" + (m.token + rest));
    OpenPieces(Quoted(m.key), ":", m.token, rest);
  }

  lemma MemberReadsIff(m: Member, rest: string)
    requires rest != "" && Ends(Out(""), rest[0])
    ensures ReadMember(MemberText(m) + rest) == Some((m, rest)) <==> Closed(m.token)
    ensures var r := ReadMember(MemberText(m) + rest); r.Some? && r.value.0 == m ==> r.value.1 == rest
  {
    KeyReads(m, rest);
    assert (":" + (m.token + rest))[1..] == m.token + rest;
    TokenIff(Out(""), m.token, rest);
    RestIsRest(m.token, rest, ReadToken(m.token + rest, Out("")));
  }

  lemma RestIsRest(f: string, rest: string, t: Option<(string, string)>)
    requires t.Some? ==> t.value.0 + t.value.1 == f + rest
    ensures t.Some? && t.value.0 == f ==> t.value.1 == rest
  {
    if t.Some? && t.value.0 == f {
      assert t.value.1 == (t.value.0 + t.value.1)[|f|..] == rest;
    }
  }

  /** A member followed by the closing brace. */
  lemma LastMemberIff(m: Member)
    ensures ReadMembers(MemberText(m) + "}") == Some([m]) <==> Closed(m.token)
  {
    MemberReadsIff(m, "}");
    FirstMember(MemberText(m) + "}", m, []);
  }

  /** A member followed by a comma and `inner`. */
  lemma FirstMemberIff(m: Member, inner: string, ms: seq<Member>)
    requires ms != []
    ensures ReadMembers(MemberText(m) + ("," + inner)) == Some([m] + ms) <==>
            Closed(m.token) && ReadMembers(inner) == Some(ms)
  {
    var rest := "," + inner;
    assert rest[0] == ',' && rest[1..] == inner;
    MemberReadsIff(m, rest);
    FirstMember(MemberText(m) + rest, m, ms);
    Cons(m, ms, ReadMembers(inner));
  }

  lemma FirstMember(s: string, m: Member, ms: seq<Member>)
    ensures ReadMembers(s) == Some([m] + ms) ==> ReadMember(s).Some? && ReadMember(s).value.0 == m
  {
    assert ([m] + ms)[0] == m;
  }

  lemma Cons(m: Member, ms: seq<Member>, r: Option<seq<Member>>)
    ensures (if r.None? then None else Some([m] + r.value)) == Some([m] + ms) <==> r == Some(ms)
  {
    if r.Some? && [m] + r.value == [m] + ms {
      assert ([m] + r.value)[1..] == r.value && ([m] + ms)[1..] == ms;
    }
  }

  /** The object is read back as its members exactly when every value is closed. */
  lemma {:induction false} MembersReadIff(m: Member, ms: seq<Member>)
    ensures ReadMembers(MemberText(m) + (TailText(ms) + "}")) == Some([m] + ms) <==>
            Closed(m.token) && AllTokens(ms, Closed)
    decreases |ms|
  {
    if ms == [] {
      LastMemberIff(m);
      assert TailText(ms) + "}" == "}" && [m] + ms == [m];
    } else {
      MembersReadIff(ms[0], ms[1..]);
      MembersStep(m, ms[0], ms[1..]);
      assert ms == [ms[0]] + ms[1..];
    }
  }

  lemma MembersStep(m: Member, next: Member, ms: seq<Member>)
    requires ReadMembers(MemberText(next) + (TailText(ms) + "}")) == Some([next] + ms) <==>
             Closed(next.token) && AllTokens(ms, Closed)
    ensures ReadMembers(MemberText(m) + (TailText([next] + ms) + "}")) == Some([m] + ([next] + ms)) <==>
            Closed(m.token) && AllTokens([next] + ms, Closed)
  {
    var inner := MemberText(next) + (TailText(ms) + "}");
    TailCons(next, ms);
    InnerPieces(next, TailText(ms));
    FirstMemberIff(m, inner, [next] + ms);
    AllTokensAppend([next], ms, Closed);
    OneToken(next, Closed);
  }

  lemma InnerPieces(m: Member, t: string)
    ensures Comma(m) + t + "}" == "," + (MemberText(m) + (t + "}"))
  {
  }

  lemma TailCons(m: Member, ms: seq<Member>)
    ensures TailText([m] + ms) == Comma(m) + TailText(ms)
  {
    TailAppend([m], ms);
    TailSnoc([], m);
    assert [] + [m] == [m];
    assert "" + Comma(m) == Comma(m);
  }

  /** What the caller of `raw` promises. */
  predicate RawAre(fs: seq<Field>, p: string -> bool) {
    forall i :: 0 <= i < |fs| && fs[i].RawField? ==> p(fs[i].value)
  }

  /** The values of a record have a property of the quoted strings and of the
      numbers exactly when the raw fragments have it. */
  lemma TokensAre(e: Entry, p: string -> bool)
    requires forall s: string :: p(Quoted(s))
    requires p(Decimal(e.tsMs))
    ensures p(TsMember(e).token) && (AllTokens(MoreMembers(e), p) <==> RawAre(e.fields, p))
  {
    var ms := FieldMembers(e.fields);
    assert AllTokens(HeadMembers(e), p);
    AllTokensAppend(HeadMembers(e), ms, p);
    forall i | 0 <= i < |e.fields| ensures p(ms[i].token) <==> (e.fields[i].RawField? ==> p(e.fields[i].value)) {
      assert ms[i] == Member(e.fields[i].key, Token(e.fields[i]));
    }
  }

  /** Main theorem: a reader finds in a record exactly the time, level,
      component, event and fields that were logged, in order and nothing else,
      if and only if every raw fragment is self-contained. */
  lemma RecordReadsBackIff(e: Entry)
    ensures ReadObject(Record(e)) == Some(Members(e)) <==> RawAre(e.fields, Closed)
  {
    var inner := MemberText(TsMember(e)) + (TailText(MoreMembers(e)) + "}");
    RecordOpens(e, inner);
    MembersReadIff(TsMember(e), MoreMembers(e));
    DecimalIsClosed(e.tsMs);
    forall s: string ensures Closed(Quoted(s)) { QuotedIsClosed(s); }
    TokensAre(e, Closed);
  }

  lemma RecordOpens(e: Entry, inner: string)
    requires inner == MemberText(TsMember(e)) + (TailText(MoreMembers(e)) + "}")
    ensures ReadObject(Record(e)) == ReadMembers(inner)
  {
    OpenPieces("{", MemberText(TsMember(e)), TailText(MoreMembers(e)), "}");
    var s := Record(e);
    assert s == "{" + inner;
    assert s[0] == '{' && s[1..] == inner;
    assert |inner| > 1 by { assert |MemberText(TsMember(e))| > 0; }
  }

  lemma MembersAt(e: Entry)
    ensures var ms := Members(e);
            && |ms| >= 4 && ms[0] == TsMember(e) && ms[1] == LevelMember(e)
            && ms[2] == ComponentMember(e) && ms[3] == EventMember(e) && ms[4..] == FieldMembers(e.fields)
  {
    var head := HeadMembers(e);
    assert head == [LevelMember(e), ComponentMember(e), EventMember(e)];
    var ms := Members(e);
    FromFourth(TsMember(e), head, FieldMembers(e.fields));
    assert ms[1] == head[0] && ms[2] == head[1] && ms[3] == head[2];
  }

  lemma FromFourth(m: Member, head: seq<Member>, fields: seq<Member>)
    requires |head| == 3
    ensures ([m] + (head + fields))[4..] == fields
  {
  }

  /** A record starts with these four members, whatever the fields are. */
  lemma HeadMembersAre(e: Entry)
    ensures var ms := Members(e);
            && |ms| == 4 + |e.fields|
            && ms[0] == Member("ts_ms", Decimal(e.tsMs))
            && ms[1].key == "level"
            && ms[1].token == (match e.level
                               case Debug => "\"debug\""
                               case Info => "\"info\""
                               case Warn => "\"warn\""
                               case Error => "\"error\"")
            && ms[2] == Member("component", Quoted(e.component))
            && ms[3] == Member("event", Quoted(e.event))
  {
    MembersAt(e);
    LevelIsPlain(e.level);
  }

  /** And then come the fields: a key and a quoted string or a raw fragment. */
  lemma FieldMembersAre(e: Entry, i: nat)
    requires i < |e.fields|
    ensures |Members(e)| == 4 + |e.fields| && Members(e)[4 + i].key == e.fields[i].key
    ensures Members(e)[4 + i].token ==
            match e.fields[i] case StringField(_, v) => Quoted(v) case RawField(_, v) => v
  {
    MembersAt(e);
    assert Members(e)[4..][i] == Members(e)[4 + i];
  }

  lemma HeadDetermined(e1: Entry, e2: Entry)
    requires TsMember(e1) == TsMember(e2) && LevelMember(e1) == LevelMember(e2)
    requires ComponentMember(e1) == ComponentMember(e2) && EventMember(e1) == EventMember(e2)
    ensures e1.(fields := []) == e2.(fields := [])
  {
    DecimalReads(e1.tsMs);
    DecimalReads(e2.tsMs);
    QuotedInjective(LevelStr(e1.level), LevelStr(e2.level));
    LevelsDiffer(e1.level, e2.level);
    QuotedInjective(e1.component, e2.component);
    QuotedInjective(e1.event, e2.event);
  }

  /** With string fields only, different entries never share a line. */
  lemma RecordDetermines(e1: Entry, e2: Entry)
    requires StringsOnly(e1.fields) && StringsOnly(e2.fields) && Record(e1) == Record(e2)
    ensures e1 == e2
  {
    RecordReadsBackIff(e1);
    RecordReadsBackIff(e2);
    MembersAt(e1);
    MembersAt(e2);
    HeadDetermined(e1, e2);
    FieldsDetermined(e1.fields, e2.fields);
  }

  predicate StringsOnly(fs: seq<Field>) { forall i :: 0 <= i < |fs| ==> fs[i].StringField? }

  lemma QuotedInjective(a: string, b: string)
    ensures Quoted(a) == Quoted(b) ==> a == b
  {
    QuotedReads(a, "");
    QuotedReads(b, "");
  }

  lemma LevelsDiffer(a: Level, b: Level)
    requires LevelStr(a) == LevelStr(b)
    ensures a == b
  {
    assert LevelStr(a)[0] == LevelStr(b)[0];
  }

  lemma FieldsDetermined(a: seq<Field>, b: seq<Field>)
    requires StringsOnly(a) && StringsOnly(b) && FieldMembers(a) == FieldMembers(b)
    ensures a == b
  {
    assert |a| == |FieldMembers(a)| == |b|;
    forall i | 0 <= i < |a| ensures a[i] == b[i] {
      assert FieldMembers(a)[i] == FieldMembers(b)[i];
      QuotedInjective(a[i].value, b[i].value);
    }
  }

  // ------------------------------------------------------------ one line

  lemma NoControlAppend(a: string, b: string)
    ensures NoControl(a + b) <==> NoControl(a) && NoControl(b)
  {
    forall i | 0 <= i < |a| ensures a[i] == (a + b)[i] {}
    forall i | 0 <= i < |b| ensures b[i] == (a + b)[|a| + i] {}
  }

  lemma QuotedHasNoControl(s: string)
    ensures NoControl(Quoted(s))
  {
    EscapedHasNoControl(s);
  }

  lemma MemberNoControl(m: Member)
    ensures NoControl(MemberText(m)) <==> NoControl(m.token)
  {
    QuotedHasNoControl(m.key);
    NoControlAppend(Quoted(m.key), ":");
    NoControlAppend(Quoted(m.key) + ":", m.token);
  }

  lemma CommaNoControl(m: Member)
    ensures NoControl(Comma(m)) <==> NoControl(m.token)
  {
    MemberNoControl(m);
    NoControlAppend(",", MemberText(m));
  }

  lemma TailNoControlStep(ms: seq<Member>, m: Member)
    requires NoControl(TailText(ms)) <==> AllTokens(ms, NoControl)
    ensures NoControl(TailText(ms + [m])) <==> AllTokens(ms + [m], NoControl)
  {
    TailSnoc(ms, m);
    NoControlAppend(TailText(ms), Comma(m));
    CommaNoControl(m);
    AllTokensAppend(ms, [m], NoControl);
    OneToken(m, NoControl);
  }

  lemma {:induction false} TailNoControl(ms: seq<Member>)
    ensures NoControl(TailText(ms)) <==> AllTokens(ms, NoControl)
    decreases |ms|
  {
    if ms != [] {
      TailNoControl(Front(ms));
      TailNoControlStep(Front(ms), Last(ms));
      FrontLast(ms);
    }
  }

  /** A record is free of control bytes, newlines among them, exactly when its
      raw fragments are: with string fields it is always one line. */
  lemma RecordIsOneLineIff(e: Entry)
    ensures NoControl(Record(e)) <==> RawAre(e.fields, NoControl)
  {
    var first, more := MemberText(TsMember(e)), TailText(MoreMembers(e));
    DecimalIsClosed(e.tsMs);
    forall s: string ensures NoControl(Quoted(s)) { QuotedHasNoControl(s); }
    TokensAre(e, NoControl);
    MemberNoControl(TsMember(e));
    TailNoControl(MoreMembers(e));
    NoControlAppend("{", first);
    NoControlAppend("{" + first, more);
    NoControlAppend("{" + first + more, "}");
  }

  // ------------------------------------------------------------ examples

  function RawEntry(fragment: string): Entry { Entry(0, Info, "", "", [RawField("k", fragment)]) }

  /** A raw fragment with a comma of its own spoils the record. */
  lemma OpenFragmentExample()
    ensures var e := RawEntry("1,2"); ReadObject(Record(e)) != Some(Members(e))
  {
    var e := RawEntry("1,2");
    var st := Out("");
    assert Advance(st, '1') == st && "1,2"[0] == '1' && "1,2"[1..] == ",2";
    assert Run(st, "1,2") == Run(st, ",2") == None;
    assert !RawAre(e.fields, Closed) by { assert e.fields[0].RawField? && !Closed(e.fields[0].value); }
    RecordReadsBackIff(e);
  }

  /** So does one that closes a bracket of the other kind. */
  lemma MismatchExample()
    ensures var e := RawEntry("[}"); ReadObject(Record(e)) != Some(Members(e))
  {
    var e := RawEntry("[}");
    var st := Out("");
    assert "[}"[0] == '[' && "[}"[1..] == "}" && "}"[1..] == "";
    assert Advance(st, '[') == Out("" + ['[']) && Advance(Out("" + ['[']), '}') == Mismatch;
    assert Run(st, "[}") == Run(Out("" + ['[']), "}") == Run(Mismatch, "") == Some(Mismatch);
    assert !RawAre(e.fields, Closed) by { assert e.fields[0].RawField? && !Closed(e.fields[0].value); }
    RecordReadsBackIff(e);
  }

  /** A raw fragment with a newline breaks the record into two lines. */
  lemma NewlineExample()
    ensures !NoControl(Record(RawEntry("\n")))
  {
    var e := RawEntry("\n");
    assert !NoControl("\n") by { assert "\n"[0] < ' '; }
    assert !RawAre(e.fields, NoControl) by { assert e.fields[0].RawField? && !NoControl(e.fields[0].value); }
    RecordIsOneLineIff(e);
  }
}
