/**
 Subscription states: the configuration as a user writes it, the canonical
 form (a bit mask per security), and the conversions between them.
 */
module Subscription {
  import opened Bits

  /** The six subtypes that have a bit, and every other enum value. */
  datatype SubType = Basic | OrderBook | Ticker | KL1Min | RT | Broker | Unmapped(code: int)

  datatype SecurityId = SecurityId(market: int, code: string)

  datatype SecuritySpec = SecuritySpec(code: string, market: int, subtypes: seq<SubType>)

  datatype SubscribeConfig = SubscribeConfig(
    version: int, defaultSubtypes: seq<SubType>, securities: seq<SecuritySpec>)

  /** A 64-bit mask; only `|`, `&` and `& ~` are applied to it, none of which wraps. */
  type SubMask = nat
  type SubState = map<SecurityId, SubMask>

  /** One data stream: what a subscription turns on and off. */
  type Pair = (SecurityId, SubType)

  const KNOWN: set<SubType> := {Basic, OrderBook, Ticker, KL1Min, RT, Broker}

  /** The bit number of a mapped subtype. */
  function Index(st: SubType): (k: nat)
    requires st in KNOWN
    ensures k < 6
  {
    match st
    case Basic => 0
    case OrderBook => 1
    case Ticker => 2
    case KL1Min => 3
    case RT => 4
    case Broker => 5
  }

  function SubtypeBit(st: SubType): SubMask {
    if st in KNOWN then Pow2(Index(st)) else 0
  }

  /** The stable numbering, bit by bit. */
  lemma SubtypeBits()
    ensures SubtypeBit(Basic) == 1 && SubtypeBit(OrderBook) == 2 && SubtypeBit(Ticker) == 4
    ensures SubtypeBit(KL1Min) == 8 && SubtypeBit(RT) == 16 && SubtypeBit(Broker) == 32
    ensures forall code :: SubtypeBit(Unmapped(code)) == 0
  {
  }

  /** The subtypes a mask stands for. */
  function Subs(m: SubMask): set<SubType> {
    set st | st in KNOWN && Bit(m, Index(st))
  }

  lemma SubsOr(a: SubMask, b: SubMask)
    ensures Subs(Or(a, b)) == Subs(a) + Subs(b)
  {
    forall st | st in KNOWN { BitOfOr(a, b, Index(st)); }
  }

  lemma SubsAndNot(a: SubMask, b: SubMask)
    ensures Subs(AndNot(a, b)) == Subs(a) - Subs(b)
  {
    forall st | st in KNOWN { BitOfAndNot(a, b, Index(st)); }
  }

  lemma SubsZero()
    ensures Subs(0) == {}
  {
    forall st | st in KNOWN { BitOfZero(Index(st)); }
  }

  lemma SubsOfBit(st: SubType)
    ensures Subs(SubtypeBit(st)) == {st} * KNOWN
  {
    SubsZero();
    if st in KNOWN {
      forall x | x in KNOWN ensures Bit(SubtypeBit(st), Index(x)) <==> x == st {
        BitOfPow2(Index(st), Index(x));
      }
    }
  }

  /** A mask without unmapped bits is determined by its subtypes. */
  lemma SubsInjective(a: SubMask, b: SubMask)
    requires a < 64 && b < 64 && Subs(a) == Subs(b)
    ensures a == b
  {
    assert Pow2(6) == 64;
    forall k: nat | k < 6 ensures Bit(a, k) <==> Bit(b, k) {
      var st := [Basic, OrderBook, Ticker, KL1Min, RT, Broker][k];
      assert Index(st) == k && (st in Subs(a) <==> st in Subs(b));
    }
    SameBits(a, b, 6);
  }

  // ------------------------------------------------------------ mask <-> list

  function SetOf<T>(s: seq<T>): set<T> { set x | x in s }

  /** OR-ing the bits of a list, as `canonicalize` does. */
  function OrAll(subs: seq<SubType>): SubMask {
    if subs == [] then 0 else Or(OrAll(subs[..|subs| - 1]), SubtypeBit(subs[|subs| - 1]))
  }

  lemma {:induction false} SubsOfOrAll(subs: seq<SubType>)
    ensures Subs(OrAll(subs)) == SetOf(subs) * KNOWN && OrAll(subs) < 64
  {
    if subs == [] {
      SubsZero();
    } else {
      var front, st := subs[..|subs| - 1], subs[|subs| - 1];
      SubsOfOrAll(front);
      SubsOr(OrAll(front), SubtypeBit(st));
      SubsOfBit(st);
      assert SetOf(subs) == SetOf(front) + {st} by { assert subs == front + [st]; }
      BitBelow64(st);
      OrBelow64(OrAll(front), SubtypeBit(st));
    }
  }

  lemma BitBelow64(st: SubType)
    ensures SubtypeBit(st) < 64
  {
    assert Pow2(6) == 64;
    if st in KNOWN { Pow2Monotone(Index(st), 6); }
  }

  lemma OrBelow64(a: SubMask, b: SubMask)
    requires a < 64 && b < 64
    ensures Or(a, b) < 64
  {
    assert Pow2(6) == 64;
    OrBelow(a, b, 6);
  }

  ghost predicate NoDup<T>(s: seq<T>) {
    forall i, j :: 0 <= i < j < |s| ==> s[i] != s[j]
  }

  /** Mapped subtypes in the order of their bits. */
  ghost predicate Ascending(s: seq<SubType>) {
    && (forall x :: x in s ==> x in KNOWN)
    && forall i, j :: 0 <= i < j < |s| ==> Index(s[i]) < Index(s[j])
  }

  /** `s` lists the subtypes of the mask among the first `k` bits. */
  ghost predicate UpTo(s: seq<SubType>, m: SubMask, k: nat) {
    Ascending(s) && forall x :: x in s <==> x in Subs(m) && Index(x) < k
  }

  method PushIf(out: seq<SubType>, m: SubMask, st: SubType) returns (r: seq<SubType>)
    requires st in KNOWN && UpTo(out, m, Index(st))
    ensures UpTo(r, m, Index(st) + 1)
  {
    AndPow2(m, Index(st));
    IndexInjective(st);
    if And(m, SubtypeBit(st)) != 0 { r := out + [st]; } else { r := out; }
  }

  lemma IndexInjective(st: SubType)
    requires st in KNOWN
    ensures forall x :: x in KNOWN && Index(x) == Index(st) ==> x == st
  {
  }

  /** `mask_to_vec`: lists every subtype of the mask once, lowest bit first.
      OR-ing the bits of the list gives the mask back, if it has mapped bits only. */
  method MaskToVec(m: SubMask) returns (out: seq<SubType>)
    ensures SetOf(out) == Subs(m) && NoDup(out) && Ascending(out)
    ensures m < 64 ==> OrAll(out) == m
  {
    out := [];
    out := PushIf(out, m, Basic);
    out := PushIf(out, m, OrderBook);
    out := PushIf(out, m, Ticker);
    out := PushIf(out, m, KL1Min);
    out := PushIf(out, m, RT);
    out := PushIf(out, m, Broker);
    AllListed(out, m);
  }

  lemma AllListed(s: seq<SubType>, m: SubMask)
    requires UpTo(s, m, 6)
    ensures SetOf(s) == Subs(m) && NoDup(s) && (m < 64 ==> OrAll(s) == m)
  {
    AscendingNoDup(s);
    SubsOfOrAll(s);
    assert Subs(m) * KNOWN == Subs(m);
    if m < 64 { SubsInjective(OrAll(s), m); }
  }

  lemma AscendingNoDup(s: seq<SubType>)
    requires Ascending(s)
    ensures NoDup(s)
  {
    forall i, j | 0 <= i < j < |s| ensures s[i] != s[j] { assert Index(s[i]) < Index(s[j]); }
  }

  lemma {:induction false} NoDupSize<T>(s: seq<T>)
    requires NoDup(s)
    ensures |SetOf(s)| == |s|
  {
    if s != [] {
      var n := |s| - 1;
      NoDupSize(s[..n]);
      assert s == s[..n] + [s[n]];
      assert SetOf(s) == SetOf(s[..n]) + {s[n]} && s[n] !in SetOf(s[..n]);
    } else {
      assert SetOf(s) == {};
    }
  }

  // ------------------------------------------------------------ canonical form

  function IdOf(s: SecuritySpec): SecurityId { SecurityId(s.market, s.code) }

  /** The securities a configuration mentions. */
  function Ids(secs: seq<SecuritySpec>): set<SecurityId> {
    set s | s in secs :: IdOf(s)
  }

  /** The mapped subtypes it asks for, over all entries of one security. */
  function Asked(secs: seq<SecuritySpec>, id: SecurityId): set<SubType> {
    set st | st in KNOWN && exists s :: s in secs && IdOf(s) == id && st in s.subtypes
  }

  /** `st[id] |= m`, where an absent entry counts as 0. */
  function MergeEntry(st: SubState, id: SecurityId, m: SubMask): SubState {
    st[id := Or(if id in st then st[id] else 0, m)]
  }

  function Canonical(secs: seq<SecuritySpec>): SubState {
    if secs == [] then map[]
    else
      var s := secs[|secs| - 1];
      MergeEntry(Canonical(secs[..|secs| - 1]), IdOf(s), OrAll(s.subtypes))
  }

  /** What the canonical state means: an entry for every security mentioned,
      whose mask has only mapped bits and stands for everything asked for. */
  lemma {:induction false} CanonicalMeans(secs: seq<SecuritySpec>)
    ensures Canonical(secs).Keys == Ids(secs)
    ensures forall id :: id in Ids(secs) ==>
              Canonical(secs)[id] < 64 && Subs(Canonical(secs)[id]) == Asked(secs, id)
  {
    if secs == [] {
      assert Canonical(secs).Keys == {};
    } else {
      var front, s := secs[..|secs| - 1], secs[|secs| - 1];
      assert secs == front + [s];
      CanonicalMeans(front);
      SubsOfOrAll(s.subtypes);
      var st, id0, m := Canonical(front), IdOf(s), OrAll(s.subtypes);
      assert Ids(secs) == Ids(front) + {id0};
      forall id | id in Ids(secs)
        ensures Canonical(secs)[id] < 64 && Subs(Canonical(secs)[id]) == Asked(secs, id)
      {
        AskedSnoc(front, s, id);
        if id !in st { AskedNothing(front, id); }
        if id == id0 { MergedMask(if id in st then st[id] else 0, m); }
      }
    }
  }

  lemma MergedMask(before: SubMask, m: SubMask)
    requires before < 64 && m < 64
    ensures Or(before, m) < 64 && Subs(Or(before, m)) == Subs(before) + Subs(m) && Subs(0) == {}
  {
    SubsOr(before, m);
    OrBelow64(before, m);
    SubsZero();
  }

  lemma AskedSnoc(front: seq<SecuritySpec>, s: SecuritySpec, id: SecurityId)
    ensures Asked(front + [s], id) ==
            Asked(front, id) + (if IdOf(s) == id then SetOf(s.subtypes) * KNOWN else {})
  {
    forall st | st in KNOWN
      ensures st in Asked(front + [s], id) <==>
              st in Asked(front, id) || (IdOf(s) == id && st in s.subtypes)
    {
      if IdOf(s) == id && st in s.subtypes { assert s in front + [s]; }
      if st in Asked(front, id) {
        var x :| x in front && IdOf(x) == id && st in x.subtypes;
        assert x in front + [s];
      }
    }
  }

  lemma AskedNothing(secs: seq<SecuritySpec>, id: SecurityId)
    requires id !in Ids(secs)
    ensures Asked(secs, id) == {}
  {
  }

  method Canonicalize(cfg: SubscribeConfig) returns (st: SubState)
    ensures st == Canonical(cfg.securities)
  {
    st := map[];
    for i := 0 to |cfg.securities|
      invariant st == Canonical(cfg.securities[..i])
    {
      var s := cfg.securities[i];
      var m: SubMask := 0;
      for j := 0 to |s.subtypes|
        invariant m == OrAll(s.subtypes[..j])
      {
        m := Or(m, SubtypeBit(s.subtypes[j]));
        assert s.subtypes[..j + 1][..j] == s.subtypes[..j];
      }
      assert s.subtypes[..|s.subtypes|] == s.subtypes;
      st := MergeEntry(st, IdOf(s), m);
      assert cfg.securities[..i + 1][..i] == cfg.securities[..i];
    }
    assert cfg.securities[..|cfg.securities|] == cfg.securities;
  }

  /** Two configurations have the same canonical state exactly when they
      mention the same securities and ask the same subtypes for each. */
  lemma CanonicalDecides(a: seq<SecuritySpec>, b: seq<SecuritySpec>)
    ensures Canonical(a) == Canonical(b) <==>
            Ids(a) == Ids(b) && forall id :: id in Ids(a) ==> Asked(a, id) == Asked(b, id)
  {
    CanonicalMeans(a);
    CanonicalMeans(b);
    if Ids(a) == Ids(b) && forall id :: id in Ids(a) ==> Asked(a, id) == Asked(b, id) {
      forall id | id in Ids(a) ensures Canonical(a)[id] == Canonical(b)[id] {
        SubsInjective(Canonical(a)[id], Canonical(b)[id]);
      }
    }
  }

  /** Every entry of `a` is in `b`, up to order and repetition of its subtypes. */
  ghost predicate CoveredBy(a: seq<SecuritySpec>, b: seq<SecuritySpec>) {
    forall s :: s in a ==> exists t :: t in b && IdOf(t) == IdOf(s) && SetOf(t.subtypes) == SetOf(s.subtypes)
  }

  /** Order and repetition of entries do not matter, nor do order and
      repetition of the subtypes inside an entry. */
  lemma CanonicalIgnoresOrder(a: seq<SecuritySpec>, b: seq<SecuritySpec>)
    requires CoveredBy(a, b) && CoveredBy(b, a)
    ensures Canonical(a) == Canonical(b)
  {
    CoveredIds(a, b);
    CoveredIds(b, a);
    forall id ensures Asked(a, id) == Asked(b, id) {
      CoveredAsked(a, b, id);
      CoveredAsked(b, a, id);
    }
    CanonicalDecides(a, b);
  }

  lemma CoveredIds(a: seq<SecuritySpec>, b: seq<SecuritySpec>)
    requires CoveredBy(a, b)
    ensures Ids(a) <= Ids(b)
  {
  }

  lemma CoveredAsked(a: seq<SecuritySpec>, b: seq<SecuritySpec>, id: SecurityId)
    requires CoveredBy(a, b)
    ensures Asked(a, id) <= Asked(b, id)
  {
    forall st | st in Asked(a, id) ensures st in Asked(b, id) {
      var s :| s in a && IdOf(s) == id && st in s.subtypes;
      var t :| t in b && IdOf(t) == IdOf(s) && SetOf(t.subtypes) == SetOf(s.subtypes);
      assert st in SetOf(t.subtypes);
    }
  }

  /** Splitting one entry's subtypes over two entries does not matter. */
  lemma CanonicalIgnoresSplit(front: seq<SecuritySpec>, back: seq<SecuritySpec>, code: string, market: int,
                              x: seq<SubType>, y: seq<SubType>)
    ensures Canonical(front + [SecuritySpec(code, market, x + y)] + back) ==
            Canonical(front + [SecuritySpec(code, market, x), SecuritySpec(code, market, y)] + back)
  {
    var one, two := SecuritySpec(code, market, x), SecuritySpec(code, market, y);
    var both := SecuritySpec(code, market, x + y);
    var a, b := front + [both] + back, front + [one, two] + back;
    assert Ids(a) == Ids(b) by {
      assert both in a && one in b && two in b;
      assert forall s :: s in a ==> s in b || s == both;
      assert forall s :: s in b ==> s in a || s == one || s == two;
    }
    forall id ensures Asked(a, id) == Asked(b, id) {
      forall st | st in KNOWN ensures st in Asked(a, id) <==> st in Asked(b, id) {
        assert both in a && one in b && two in b;
        if st in Asked(a, id) {
          var s :| s in a && IdOf(s) == id && st in s.subtypes;
          if s != both { assert s in b; }
        }
        if st in Asked(b, id) {
          var s :| s in b && IdOf(s) == id && st in s.subtypes;
          if s != one && s != two { assert s in a; }
        }
      }
    }
    CanonicalDecides(a, b);
  }

  /** The streams a state stands for. */
  function Pairs(st: SubState): set<Pair> {
    set id, s | id in st && s in Subs(st[id]) :: (id, s)
  }

  /** The streams a configuration asks for. */
  function AskedPairs(secs: seq<SecuritySpec>): set<Pair> {
    set id, s | id in Ids(secs) && s in Asked(secs, id) :: (id, s)
  }

  lemma CanonicalPairs(secs: seq<SecuritySpec>)
    ensures Pairs(Canonical(secs)) == AskedPairs(secs)
  {
    CanonicalMeans(secs);
  }

  /** `st_equal`: decides equality of states, whatever order the hash table
      enumerates its entries in. */
  method StEqual(a: SubState, b: SubState) returns (r: bool)
    ensures r <==> a == b
  {
    if |a| != |b| {
      return false;
    }
    var rest := a.Keys;
    while rest != {}
      invariant rest <= a.Keys
      invariant forall id :: id in a.Keys - rest ==> id in b && b[id] == a[id]
    {
      var id :| id in rest;
      if id !in b || b[id] != a[id] {
        return false;
      }
      rest := rest - {id};
    }
    assert a.Keys <= b.Keys;
    SameSize(a.Keys, b.Keys);
    r := true;
  }

  lemma SameSize<T>(a: set<T>, b: set<T>)
    requires a <= b && |a| == |b|
    ensures a == b
  {
    assert b == a + (b - a) && |b| == |a| + |b - a|;
  }
}
