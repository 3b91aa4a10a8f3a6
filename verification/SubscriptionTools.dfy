/**
 The difference of two subscription states, as four lists of items.  The
 enumeration order of the hash maps is left open: every loop picks an arbitrary
 remaining key.
 */
module SubscriptionTools {
  import opened Bits
  import opened Subscription

  datatype DiffItem = DiffItem(id: SecurityId, mask: SubMask)

  datatype Diff = Diff(
    addSecurity: seq<DiffItem>, removeSecurity: seq<DiffItem>,
    addSubtypes: seq<DiffItem>, delSubtypes: seq<DiffItem>)

  /** `items` lists every entry of `m` exactly once, in some order. */
  ghost predicate Enumerates(items: seq<DiffItem>, m: SubState) {
    && (forall i, j :: 0 <= i < j < |items| ==> items[i].id != items[j].id)
    && (forall it :: it in items ==> it.id in m && m[it.id] == it.mask)
    && (forall id :: id in m ==> DiffItem(id, m[id]) in items)
  }

  lemma EnumeratesOneMore(items: seq<DiffItem>, m: SubState, id: SecurityId, mask: SubMask)
    requires Enumerates(items, m) && id !in m
    ensures Enumerates(items + [DiffItem(id, mask)], m[id := mask])
  {
  }

  function Removed(oldS: SubState, newS: SubState): SubState {
    map id | id in oldS && id !in newS :: oldS[id]
  }

  /** Bits of `a` that are not in `b`, for the securities in both. */
  function Extra(a: SubState, b: SubState): SubState {
    map id | id in a && id in b && AndNot(a[id], b[id]) != 0 :: AndNot(a[id], b[id])
  }

  ghost function Only(m: SubState, ids: set<SecurityId>): SubState {
    map id | id in m && id in ids :: m[id]
  }

  /** The four lists are, each in some order, the securities to add and to
      remove and the bits to add to and to delete from those that stay. */
  ghost predicate IsDiff(d: Diff, oldS: SubState, newS: SubState) {
    && Enumerates(d.removeSecurity, Removed(oldS, newS))
    && Enumerates(d.delSubtypes, Extra(oldS, newS))
    && Enumerates(d.addSubtypes, Extra(newS, oldS))
    && Enumerates(d.addSecurity, Removed(newS, oldS))
  }

  /** `if (yes) items.push_back({id, mask})`, while `id` joins the processed keys. */
  method PushItemIf(items: seq<DiffItem>, id: SecurityId, mask: SubMask, yes: bool,
                ghost m: SubState, ghost done: set<SecurityId>)
    returns (r: seq<DiffItem>)
    requires Enumerates(items, Only(m, done)) && id !in done
    requires yes <==> id in m
    requires yes ==> m[id] == mask
    ensures Enumerates(r, Only(m, done + {id}))
  {
    if yes {
      EnumeratesOneMore(items, Only(m, done), id, mask);
      assert Only(m, done + {id}) == Only(m, done)[id := mask];
      r := items + [DiffItem(id, mask)];
    } else {
      assert Only(m, done + {id}) == Only(m, done);
      r := items;
    }
  }

  method DiffState(oldS: SubState, newS: SubState) returns (d: Diff)
    ensures IsDiff(d, oldS, newS)
  {
    var removeSecurity, addSubtypes, delSubtypes := [], [], [];
    var rest := oldS.Keys;
    ghost var done: set<SecurityId> := {};
    while rest != {}
      invariant rest == oldS.Keys - done && done <= oldS.Keys
      invariant Enumerates(removeSecurity, Only(Removed(oldS, newS), done))
      invariant Enumerates(addSubtypes, Only(Extra(newS, oldS), done))
      invariant Enumerates(delSubtypes, Only(Extra(oldS, newS), done))
    {
      var id :| id in rest;
      var oldMask := oldS[id];
      var kept := id in newS;
      var newMask := if kept then newS[id] else 0;
      var add, del := AndNot(newMask, oldMask), AndNot(oldMask, newMask);
      removeSecurity := PushItemIf(removeSecurity, id, oldMask, !kept, Removed(oldS, newS), done);
      addSubtypes := PushItemIf(addSubtypes, id, add, kept && add != 0, Extra(newS, oldS), done);
      delSubtypes := PushItemIf(delSubtypes, id, del, kept && del != 0, Extra(oldS, newS), done);
      rest, done := rest - {id}, done + {id};
    }
    assert done == oldS.Keys;
    assert Only(Removed(oldS, newS), done) == Removed(oldS, newS);
    assert Only(Extra(newS, oldS), done) == Extra(newS, oldS);
    assert Only(Extra(oldS, newS), done) == Extra(oldS, newS);
    var addSecurity := AddedSecurities(oldS, newS);
    d := Diff(addSecurity, removeSecurity, addSubtypes, delSubtypes);
  }

  /** The second loop: securities only the new state has. */
  method AddedSecurities(oldS: SubState, newS: SubState) returns (items: seq<DiffItem>)
    ensures Enumerates(items, Removed(newS, oldS))
  {
    items := [];
    var rest := newS.Keys;
    ghost var done: set<SecurityId> := {};
    while rest != {}
      invariant rest == newS.Keys - done && done <= newS.Keys
      invariant Enumerates(items, Only(Removed(newS, oldS), done))
    {
      var id :| id in rest;
      items := PushItemIf(items, id, newS[id], id !in oldS, Removed(newS, oldS), done);
      rest, done := rest - {id}, done + {id};
    }
    assert Only(Removed(newS, oldS), done) == Removed(newS, oldS);
  }

  // ------------------------------------------------------------ as streams

  /** What a list of items toggles. */
  function ItemPairs(items: seq<DiffItem>): set<Pair> {
    set it, s | it in items && s in Subs(it.mask) :: (it.id, s)
  }

  lemma EnumeratedPairs(items: seq<DiffItem>, m: SubState)
    requires Enumerates(items, m)
    ensures ItemPairs(items) == Pairs(m)
  {
    forall p | p in Pairs(m) ensures p in ItemPairs(items) {
      assert DiffItem(p.0, m[p.0]) in items;
    }
  }

  /** The unsubscribe items are exactly the streams of the old state that the
      new one lacks, split into two disjoint groups. */
  lemma LostStreams(oldS: SubState, newS: SubState)
    ensures Pairs(Removed(oldS, newS)) + Pairs(Extra(oldS, newS)) == Pairs(oldS) - Pairs(newS)
    ensures Pairs(Removed(oldS, newS)) !! Pairs(Extra(oldS, newS))
  {
    forall id | id in oldS && id in newS {
      SubsAndNot(oldS[id], newS[id]);
    }
    SubsZero();
    forall p | p in Pairs(oldS) - Pairs(newS)
      ensures p in Pairs(Removed(oldS, newS)) + Pairs(Extra(oldS, newS))
    {
      var (id, s) := p;
      if id in newS { assert s in Subs(AndNot(oldS[id], newS[id])); }
    }
  }
}
