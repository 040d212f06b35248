/** What the age repair does to the rows themselves: which age each bottling of the start ends with, and what the
    bottlings a split creates are made of. */
module AgeRows {
  import opened Facts
  import opened Tables
  import opened LiveCatalogue
  import opened MatchKey
  import opened AgeRun
  import opened AgeTheorems

  // ----- new bottlings -----

  /** A bottling of its own key and age, the age read from a name, and of everything else that describes the mixed
      row's whisky; the shop's brand text and the flavour stamps are left empty. */
  ghost predicate BornOf(row: Product, source: Product, key: string, age: Age) {
    && row.matchKey == Some(key) && row.age.value == Some(age) && row.age.source == Some(Name)
    && row.name == source.name && row.volumeMl == source.volumeMl && row.abv == source.abv
    && row.typeId == source.typeId && row.countryId == source.countryId && row.maker == source.maker
    && row.brandOrig.None? && row.lastLlmFlavorAt.None? && row.flavorsCuratedAt.None?
  }

  /** The row is the child of a group's mixed row at the age one of its offers states and its key does not. */
  ghost predicate ChildOf(db: Db, group: Group, row: Product, o: OfferId)
    requires group.id in db.products
  {
    && o in group.offers && o in db.offers && db.offers[o].stated.Some? && db.offers[o].stated.value != group.keyAge
    && BornOf(row, db.products[group.id], Rekey(group.matchKey, db.offers[o].stated.value), db.offers[o].stated.value)
  }

  lemma SplitOfferChild(db: Db, group: Group, o: OfferId, p: Id)
    requires Sound(db) && Fits(db, group) && o in group.offers
    requires p in SplitOffer(db, group, o).products && p !in db.products
    ensures ChildOf(db, group, SplitOffer(db, group, o).products[p], o)
  {
    EnsuredGrows(db, group.id, Rekey(group.matchKey, db.offers[o].stated.value), db.offers[o].stated.value);
  }

  /** The start and a later state agree on the group's row and on what its offers state. */
  ghost predicate SameGroup(db: Db, now: Db, group: Group) {
    && group.id in db.products && group.id in now.products && now.products[group.id] == db.products[group.id]
    && forall o :: o in group.offers ==>
         o in db.offers && o in now.offers && now.offers[o].stated == db.offers[o].stated
  }

  lemma {:induction false} SplitOffersSameGroup(db: Db, group: Group, n: nat)
    requires Sound(db) && Fits(db, group) && n <= |group.offers|
    ensures SameGroup(db, SplitOffers(db, group, n), group)
  {
    SplitOffersGrow(db, group, n);
  }

  lemma ChildThen(db: Db, now: Db, group: Group, row: Product, o: OfferId)
    requires SameGroup(db, now, group) && ChildOf(now, group, row, o)
    ensures ChildOf(db, group, row, o)
  {
  }

  /** One more split keeps the children made so far and makes at most one. */
  lemma OneMoreChild(before: Db, group: Group, o: OfferId, p: Id)
    requires Sound(before) && Fits(before, group) && o in group.offers && p in SplitOffer(before, group, o).products
    ensures p in before.products ==> SplitOffer(before, group, o).products[p] == before.products[p]
    ensures p !in before.products ==> ChildOf(before, group, SplitOffer(before, group, o).products[p], o)
  {
    SplitOfferGrows(before, group, o);
    if p !in before.products {
      SplitOfferChild(before, group, o, p);
    }
  }

  lemma LastSplitChild(db: Db, group: Group, n: nat, p: Id)
    requires Sound(db) && Fits(db, group) && n < |group.offers| && p in SplitOffers(db, group, n + 1).products
    ensures var before, next := SplitOffers(db, group, n).products, SplitOffers(db, group, n + 1).products;
      if p in before then next[p] == before[p] else ChildOf(db, group, next[p], group.offers[n])
  {
    SplitBefore(db, group, n);
    SplitOffersSameGroup(db, group, n);
    var before := SplitOffers(db, group, n);
    OneMoreChild(before, group, group.offers[n], p);
    if p !in before.products {
      ChildThen(db, before, group, SplitOffers(db, group, n + 1).products[p], group.offers[n]);
    }
  }

  lemma {:induction false} SplitOffersChild(db: Db, group: Group, n: nat, p: Id) returns (o: OfferId)
    requires Sound(db) && Fits(db, group) && n <= |group.offers|
    requires p in SplitOffers(db, group, n).products && p !in db.products
    ensures ChildOf(db, group, SplitOffers(db, group, n).products[p], o)
    decreases n
  {
    LastSplitChild(db, group, n - 1, p);
    if p in SplitOffers(db, group, n - 1).products {
      o := SplitOffersChild(db, group, n - 1, p);
    } else {
      o := group.offers[n - 1];
    }
  }

  /** Every bottling a split adds is such a child. */
  lemma SplitChild(db: Db, group: Group, p: Id) returns (o: OfferId)
    requires Sound(db) && Fits(db, group) && p in Split(db, group).products && p !in db.products
    ensures ChildOf(db, group, Split(db, group).products[p], o)
  {
    o := SplitOffersChild(db, group, |group.offers|, p);
  }

  // ----- one turn -----

  ghost predicate Taken(db: Db, key: string) {
    exists p :: Carries(db.products, p, key)
  }

  /** The age a group's row has after its turn. A split whose key states no age drops what nobody set by hand; a
      bottling that agrees on another age and has no twin to go to takes that age, if it stored none. */
  ghost function AgeAfter(before: Db, group: Group, fate: Fate): Fact<int>
    requires group.id in before.products
  {
    var age := before.products[group.id].age;
    match fate
    case Part => if group.keyAge == 0 && age.source != Some(Manual) then Fact(None, None) else age
    case Go(a) => if age.value.None? && !Taken(before, Rekey(group.matchKey, a)) then Fact(Some(a), Some(Name)) else age
    case Rest => age
  }

  /** What a turn does to the rows: its own row changes in its age alone, no other row of before changes, and a row
      that was not there is a child of its own. */
  ghost predicate RowsTurn(before: Db, group: Group, fate: Fate, next: Db) {
    && group.id in before.products && group.id in next.products
    && next.products[group.id] == before.products[group.id].(age := AgeAfter(before, group, fate))
    && (forall p :: p in before.products && p != group.id ==>
         p in next.products && next.products[p] == before.products[p])
    && (forall p :: p in next.products && p !in before.products ==>
         exists o :: ChildOf(before, group, next.products[p], o))
  }

  lemma SplitRows(db: Db, group: Group)
    requires Sound(db) && Fits(db, group) && Mixed(db, group)
    ensures RowsTurn(db, group, Part, Split(db, group))
  {
    SplitOffersGrow(db, group, |group.offers|);
    forall p | p in Split(db, group).products && p !in db.products
      ensures exists o :: ChildOf(db, group, Split(db, group).products[p], o)
    {
      var o := SplitChild(db, group, p);
    }
  }

  lemma StepRowsTurn(db: Db, group: Group)
    requires Sound(db) && Fits(db, group)
    ensures RowsTurn(db, group, FateOf(db, group), Step(db, group))
  {
    if Mixed(db, group) {
      SplitRows(db, group);
    } else if OtherAge(db, group).Some? {
      var holder := Holder(db.products, Rekey(group.matchKey, OtherAge(db, group).value));
      assert holder.Some? <==> Taken(db, Rekey(group.matchKey, OtherAge(db, group).value));
    }
  }

  /** What a turn does to everything else: only a bottling that goes to a twin takes its tags and its users' entries
      along, a tag or an entry the twin has already stays as it is there, and no tag is ever lost. */
  ghost predicate OwnedTurn(before: Db, group: Group, fate: Fate, next: Db) {
    && next.collections == before.collections && next.purchases == before.purchases
    && next.conflicts == before.conflicts && next.aliases == before.aliases
    && (forall q :: fate.Go? && Carries(before.products, q, Rekey(group.matchKey, fate.age)) ==>
         && Copied(before.flavors, group.id, q, next.flavors)
         && Repointed(before.favorites, group.id, q, next.favorites)
         && Repointed(before.blacklist, group.id, q, next.blacklist))
    && ((fate.Go? && Taken(before, Rekey(group.matchKey, fate.age))) ||
        (next.flavors == before.flavors && next.favorites == before.favorites && next.blacklist == before.blacklist))
  }

  lemma StepOwnedTurn(db: Db, group: Group)
    requires Sound(db) && Fits(db, group)
    ensures OwnedTurn(db, group, FateOf(db, group), Step(db, group))
  {
    if Mixed(db, group) {
      SplitOwned(db, group, |group.offers|);
    } else if OtherAge(db, group).Some? {
      var holder := Holder(db.products, Rekey(group.matchKey, OtherAge(db, group).value));
      if holder.Some? {
        RepointedExactly(db.favorites, group.id, holder.value);
        RepointedExactly(db.blacklist, group.id, holder.value);
        CopiedExactly(db.flavors, group.id, holder.value);
      }
    }
  }

  ghost predicate SameOwned(db: Db, next: Db) {
    && next.collections == db.collections && next.purchases == db.purchases
    && next.conflicts == db.conflicts && next.aliases == db.aliases
    && next.flavors == db.flavors && next.favorites == db.favorites && next.blacklist == db.blacklist
  }

  lemma SplitOfferOwned(db: Db, group: Group, o: OfferId)
    requires Fits(db, group) && o in db.offers
    ensures SameOwned(db, SplitOffer(db, group, o))
  {
  }

  lemma {:induction false} SplitOwned(db: Db, group: Group, n: nat)
    requires Fits(db, group) && n <= |group.offers|
    ensures SameOwned(db, SplitOffers(db, group, n))
    decreases n
  {
    if n > 0 {
      SplitOwned(db, group, n - 1);
      SplitOfferOwned(SplitOffers(db, group, n - 1), group, group.offers[n - 1]);
    }
  }

  // ----- a whole run -----

  ghost predicate RowsHistory(db: Db, plan: seq<Group>, states: seq<Db>) {
    && History(db, plan, states)
    && forall k :: 0 <= k < |plan| ==> RowsTurnAt(db, plan, states, k)
  }

  ghost predicate RowsTurnAt(db: Db, plan: seq<Group>, states: seq<Db>, k: int) {
    0 <= k < |plan| && k + 1 < |states| && RowsTurn(states[k], plan[k], FateOf(db, plan[k]), states[k + 1])
  }

  lemma RunRowsTurn(db: Db, plan: seq<Group>, k: nat)
    requires Sound(db) && IsPlan(db, plan) && k < |plan|
    ensures RowsTurn(Run(db, plan, k), plan[k], FateOf(db, plan[k]), Run(db, plan, k + 1))
  {
    assert LoadedFrom(db, plan[k]);
    GrownFits(db, Run(db, plan, k), plan[k]);
    GrownIsKept(db, Run(db, plan, k));
    SameFate(db, Run(db, plan, k), plan[k]);
    StepRowsTurn(Run(db, plan, k), plan[k]);
  }

  /** Users' lists and tags move at each turn of a run by that law, and no tag of the start is ever lost. */
  lemma {:induction false} RunOwned(db: Db, plan: seq<Group>, k: nat)
    requires Sound(db) && IsPlan(db, plan) && k <= |plan|
    ensures forall t :: t in db.flavors ==>
      t in Run(db, plan, k).flavors && Run(db, plan, k).flavors[t] == db.flavors[t]
    ensures k < |plan| ==> OwnedTurn(Run(db, plan, k), plan[k], FateOf(db, plan[k]), Run(db, plan, k + 1))
    decreases k
  {
    if k > 0 {
      RunOwned(db, plan, k - 1);
      RunOwnedTurn(db, plan, k - 1);
      OwnedKeepsTags(Run(db, plan, k - 1), plan[k - 1], FateOf(db, plan[k - 1]), Run(db, plan, k));
    }
    if k < |plan| {
      RunOwnedTurn(db, plan, k);
    }
  }

  lemma RunOwnedTurn(db: Db, plan: seq<Group>, k: nat)
    requires Sound(db) && IsPlan(db, plan) && k < |plan|
    ensures OwnedTurn(Run(db, plan, k), plan[k], FateOf(db, plan[k]), Run(db, plan, k + 1))
  {
    assert LoadedFrom(db, plan[k]);
    GrownFits(db, Run(db, plan, k), plan[k]);
    GrownIsKept(db, Run(db, plan, k));
    SameFate(db, Run(db, plan, k), plan[k]);
    StepOwnedTurn(Run(db, plan, k), plan[k]);
  }

  lemma OwnedKeepsTags(before: Db, group: Group, fate: Fate, next: Db)
    requires OwnedTurn(before, group, fate, next)
    ensures forall t :: t in before.flavors ==> t in next.flavors && next.flavors[t] == before.flavors[t]
  {
    if fate.Go? && Taken(before, Rekey(group.matchKey, fate.age)) {
      var q :| Carries(before.products, q, Rekey(group.matchKey, fate.age));
      assert Copied(before.flavors, group.id, q, next.flavors);
    }
  }

  lemma RowsTurnFrom(db: Db, plan: seq<Group>, states: seq<Db>, k: nat, before: Db, next: Db)
    requires k < |plan| && |states| == |plan| + 1 && states[k] == before && states[k + 1] == next
    requires RowsTurn(before, plan[k], FateOf(db, plan[k]), next)
    ensures RowsTurnAt(db, plan, states, k)
  {
  }

  lemma RunRowsTurnAt(db: Db, plan: seq<Group>, k: nat)
    requires Sound(db) && IsPlan(db, plan) && k < |plan|
    ensures RowsTurnAt(db, plan, StatesOf(db, plan), k)
  {
    RunRowsTurn(db, plan, k);
    RowsTurnFrom(db, plan, StatesOf(db, plan), k, Run(db, plan, k), Run(db, plan, k + 1));
  }

  lemma RunIsRowsHistory(db: Db, plan: seq<Group>)
    requires Sound(db) && IsPlan(db, plan)
    ensures RowsHistory(db, plan, StatesOf(db, plan))
  {
    RunIsHistory(db, plan);
    forall k | 0 <= k < |plan|
      ensures RowsTurnAt(db, plan, StatesOf(db, plan), k)
    {
      RunRowsTurnAt(db, plan, k);
    }
  }

  /** Until its own turn, and after it, no turn changes a bottling of the start. */
  lemma {:induction false} RowWaits(db: Db, plan: seq<Group>, states: seq<Db>, from: nat, k: nat, p: Id)
    requires RowsHistory(db, plan, states) && from <= k <= |plan| && p in states[from].products
    requires forall i :: from <= i < k ==> plan[i].id != p
    ensures p in states[k].products && states[k].products[p] == states[from].products[p]
    decreases k
  {
    if from < k {
      RowWaits(db, plan, states, from, k - 1, p);
      assert RowsTurnAt(db, plan, states, k - 1);
    }
  }

  /** The age each bottling of the start ends with, whatever the order: the one its own turn leaves, where the turn
      sees the keys taken by then; nothing else about the row ever changes. */
  lemma {:induction false} RowsAtTheEnd(db: Db, plan: seq<Group>, i: nat)
    requires Sound(db) && IsPlan(db, plan) && i < |plan|
    ensures var row, now := db.products[plan[i].id], Run(db, plan, |plan|).products;
      && plan[i].id in now && plan[i].id in Run(db, plan, i).products
      && now[plan[i].id] == row.(age := AgeAfter(Run(db, plan, i), plan[i], FateOf(db, plan[i])))
  {
    var states := StatesOf(db, plan);
    RunIsRowsHistory(db, plan);
    assert LoadedFrom(db, plan[i]);
    OnceInThePlan(db, plan, i);
    RowWaits(db, plan, states, 0, i, plan[i].id);
    assert RowsTurnAt(db, plan, states, i);
    RowWaits(db, plan, states, i + 1, |plan|, plan[i].id);
  }

  lemma OnceInThePlan(db: Db, plan: seq<Group>, i: nat)
    requires IsPlan(db, plan) && i < |plan|
    ensures forall j :: 0 <= j < |plan| && j != i ==> plan[j].id != plan[i].id
  {
  }

  /** A bottling without a turn is not changed at all. */
  lemma {:induction false} OthersAtTheEnd(db: Db, plan: seq<Group>, p: Id)
    requires Sound(db) && IsPlan(db, plan) && p in db.products && forall i :: 0 <= i < |plan| ==> plan[i].id != p
    ensures p in Run(db, plan, |plan|).products && Run(db, plan, |plan|).products[p] == db.products[p]
  {
    RunIsRowsHistory(db, plan);
    RowWaits(db, plan, StatesOf(db, plan), 0, |plan|, p);
  }

  lemma {:induction false} ChildInHistory(db: Db, plan: seq<Group>, states: seq<Db>, k: nat, p: Id)
    returns (i: nat, o: OfferId)
    requires RowsHistory(db, plan, states) && IsPlan(db, plan) && k <= |plan|
    requires p in states[k].products && p !in db.products
    ensures i < k && plan[i].id in db.products && ChildOf(db, plan[i], states[k].products[p], o)
    decreases k
  {
    assert RowsTurnAt(db, plan, states, k - 1);
    if p in states[k - 1].products {
      i, o := ChildInHistory(db, plan, states, k - 1, p);
      assert plan[k - 1].id in db.products by {
        assert LoadedFrom(db, plan[k - 1]);
      }
    } else {
      i := k - 1;
      o :| ChildOf(states[i], plan[i], states[k].products[p], o);
      SourceWaits(db, plan, states, i);
      ChildThen(db, states[i], plan[i], states[k].products[p], o);
    }
  }

  lemma SourceWaits(db: Db, plan: seq<Group>, states: seq<Db>, i: nat)
    requires RowsHistory(db, plan, states) && IsPlan(db, plan) && i < |plan|
    ensures SameGroup(db, states[i], plan[i])
  {
    assert LoadedFrom(db, plan[i]);
    OnceInThePlan(db, plan, i);
    RowWaits(db, plan, states, 0, i, plan[i].id);
    assert Kept(db, states[i]);
  }

  /** Every bottling a run adds is the child of a mixed row as it was at the start, so the age it stores is the one
      its key states. */
  lemma {:induction false} NewBottlings(db: Db, plan: seq<Group>, p: Id) returns (i: nat, o: OfferId)
    requires Sound(db) && IsPlan(db, plan) && p in Run(db, plan, |plan|).products && p !in db.products
    ensures i < |plan| && plan[i].id in db.products
    ensures var row := Run(db, plan, |plan|).products[p];
      && ChildOf(db, plan[i], row, o)
      && row.matchKey.Some? && row.age.value.Some? && KeyAge(row.matchKey.value) == Some(row.age.value.value as nat)
  {
    RunIsRowsHistory(db, plan);
    i, o := ChildInHistory(db, plan, StatesOf(db, plan), |plan|, p);
    assert LoadedFrom(db, plan[i]);
    RekeySetsOnlyTheAge(plan[i].matchKey, db.offers[o].stated.value);
  }

  /** Every bottling the second catalogue adds stores, as read from a name, the very age its key states. */
  ghost predicate NewAgesAgree(db: Db, now: Db) {
    forall p :: p in now.products && p !in db.products ==>
      var row := now.products[p];
      && row.matchKey.Some? && row.age.value.Some? && row.age.source == Some(Name) && row.age.value.value >= 0
      && KeyAge(row.matchKey.value) == Some(row.age.value.value)
  }

  lemma {:induction false} NewBottlingsAgree(db: Db, plan: seq<Group>)
    requires Sound(db) && IsPlan(db, plan)
    ensures NewAgesAgree(db, Run(db, plan, |plan|))
  {
    forall p | p in Run(db, plan, |plan|).products && p !in db.products
      ensures var row := Run(db, plan, |plan|).products[p];
        && row.matchKey.Some? && row.age.value.Some? && row.age.source == Some(Name) && row.age.value.value >= 0
        && KeyAge(row.matchKey.value) == Some(row.age.value.value)
    {
      var i, o := NewBottlings(db, plan, p);
    }
  }
}
