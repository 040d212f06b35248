/** The age repair over the live tables, statement by statement. */
module AgeRegroupRun {
  import opened Facts
  import opened Tables
  import opened LiveCatalogue
  import opened MatchKey
  import opened AgeRun
  import opened AgeTheorems
  import opened AgeOrders
  import opened AgeRows

  lemma HolderIs(products: map<Id, Product>, key: string, p: Id)
    requires UniqueKeys(products) && Carries(products, p, key)
    ensures Holder(products, key) == Some(p)
  {
    var h := Holder(products, key);
    assert h.Some?;
  }

  lemma OtherAgeIs(db: Db, group: Group, other: Option<Age>)
    requires Fits(db, group)
    requires other.Some? ==> other.value != group.keyAge && exists o :: o in group.offers && States(db, o, other.value)
    requires forall o, a: Age :: o in group.offers && States(db, o, a) && a != group.keyAge ==> other == Some(a)
    ensures other == OtherAge(db, group)
  {
    if o :| o in group.offers && Leaves(db, group, o) {
      assert States(db, o, db.offers[o].stated.value);
    }
    if other.Some? {
      var o :| o in group.offers && States(db, o, other.value);
      assert Leaves(db, group, o);
    }
  }

  // ----- grouping the loaded rows -----

  /** The group holds its bottling's rows read so far. */
  ghost predicate LoadedSoFar(db: Db, group: Group, p: Id, rest: set<OfferId>) {
    && group.id == p && Signed(db, p) && group.matchKey == KeyOf(db, p) && group.keyAge == AgeOf(db, p)
    && group.offers != []
    && forall o :: o in group.offers <==> o in db.offers && o !in rest && db.offers[o].product == p
  }

  ghost predicate Loading(db: Db, groups: map<Id, Group>, rest: set<OfferId>) {
    && (forall p :: p in groups ==> LoadedSoFar(db, groups[p], p, rest))
    && (forall o :: o in db.offers && o !in rest && Signed(db, db.offers[o].product) ==> db.offers[o].product in groups)
  }

  ghost predicate Ordered(groups: map<Id, Group>, order: seq<Id>) {
    && (forall i :: 0 <= i < |order| ==> order[i] in groups)
    && (forall p :: p in groups ==> p in order)
    && (forall i, j :: 0 <= i < j < |order| ==> order[i] != order[j])
  }

  function Adding(db: Db, groups: map<Id, Group>, o: OfferId): map<Id, Group>
    requires o in db.offers && Signed(db, db.offers[o].product)
  {
    var p := db.offers[o].product;
    groups[p := if p in groups
      then groups[p].(offers := groups[p].offers + [o]) else Group(p, KeyOf(db, p), AgeOf(db, p), [o])]
  }

  lemma AddingKeepsGroups(db: Db, groups: map<Id, Group>, rest: set<OfferId>, o: OfferId, q: Id)
    requires Loading(db, groups, rest) && o in rest && o in db.offers && Signed(db, db.offers[o].product)
    requires q in Adding(db, groups, o)
    ensures LoadedSoFar(db, Adding(db, groups, o)[q], q, rest - {o})
  {
    if q == db.offers[o].product {
      AddingKeepsOwn(db, groups, rest, o);
    } else {
      assert LoadedSoFar(db, groups[q], q, rest);
    }
  }

  lemma AddingKeeps(db: Db, groups: map<Id, Group>, rest: set<OfferId>, o: OfferId)
    requires Loading(db, groups, rest) && o in rest && o in db.offers && Signed(db, db.offers[o].product)
    ensures Loading(db, Adding(db, groups, o), rest - {o})
  {
    forall q | q in Adding(db, groups, o)
      ensures LoadedSoFar(db, Adding(db, groups, o)[q], q, rest - {o})
    {
      AddingKeepsGroups(db, groups, rest, o, q);
    }
    assert groups.Keys <= Adding(db, groups, o).Keys;
  }

  lemma AddingKeepsOwn(db: Db, groups: map<Id, Group>, rest: set<OfferId>, o: OfferId)
    requires Loading(db, groups, rest) && o in rest && o in db.offers && Signed(db, db.offers[o].product)
    ensures var p := db.offers[o].product; LoadedSoFar(db, Adding(db, groups, o)[p], p, rest - {o})
  {
    var p := db.offers[o].product;
    if p in groups {
      assert LoadedSoFar(db, groups[p], p, rest);
    } else {
      assert forall r :: r in db.offers && r !in rest ==> db.offers[r].product != p;
    }
  }

  /** A listing of an unsigned bottling is passed over. */
  lemma SkippingKeeps(db: Db, groups: map<Id, Group>, rest: set<OfferId>, o: OfferId)
    requires Loading(db, groups, rest) && o in rest && o in db.offers && !Signed(db, db.offers[o].product)
    ensures Loading(db, groups, rest - {o})
  {
    forall q | q in groups
      ensures LoadedSoFar(db, groups[q], q, rest - {o})
    {
      assert LoadedSoFar(db, groups[q], q, rest);
    }
  }

  lemma OrderGrows(db: Db, groups: map<Id, Group>, order: seq<Id>, o: OfferId)
    requires Ordered(groups, order) && o in db.offers && Signed(db, db.offers[o].product)
    ensures var p := db.offers[o].product;
      Ordered(Adding(db, groups, o), if p in groups then order else order + [p])
  {
  }

  function InOrder(groups: map<Id, Group>, order: seq<Id>): seq<Group>
    requires forall i :: 0 <= i < |order| ==> order[i] in groups
  {
    seq(|order|, i requires 0 <= i < |order| => groups[order[i]])
  }

  lemma OrderedIsPlan(db: Db, groups: map<Id, Group>, order: seq<Id>)
    requires Ordered(groups, order) && Loading(db, groups, {})
    ensures IsPlan(db, InOrder(groups, order))
  {
    var plan := InOrder(groups, order);
    forall i | 0 <= i < |plan|
      ensures LoadedFrom(db, plan[i]) && plan[i].id == order[i]
    {
      assert LoadedSoFar(db, groups[order[i]], order[i], {});
    }
    forall o | o in db.offers && Signed(db, db.offers[o].product)
      ensures exists i :: 0 <= i < |plan| && plan[i].id == db.offers[o].product
    {
      assert db.offers[o].product in order;
      var i :| 0 <= i < |order| && order[i] == db.offers[o].product;
      assert plan[i].id == db.offers[o].product;
    }
  }

  class AgeRegroup {

    constructor () {
    }

    /** Reads every offer of a signed bottling, in whatever order the rows come back, and groups them by bottling
        in the order the bottlings first appear. */
    method Load(c: Catalogue) returns (plan: seq<Group>)
      ensures IsPlan(c.Snapshot(), plan)
    {
      var db := c.Snapshot();
      var groups: map<Id, Group>, order: seq<Id> := map[], [];
      var rest := c.offers.Keys;
      while rest != {}
        invariant rest <= db.offers.Keys && Ordered(groups, order) && Loading(db, groups, rest)
        decreases |rest|
      {
        var o := PickOne(rest);
        var p := db.offers[o].product;
        if Signed(db, p) {
          AddingKeeps(db, groups, rest, o);
          OrderGrows(db, groups, order, o);
          if p !in groups {
            order := order + [p];
          }
          groups := Adding(db, groups, o);
        } else {
          SkippingKeeps(db, groups, rest, o);
        }
        rest := rest - {o};
      }
      plan := InOrder(groups, order);
      OrderedIsPlan(db, groups, order);
    }

    /** Whether a group states two ages, and else the one age it states that its key does not carry. */
    method StatedAges(c: Catalogue, group: Group) returns (mixed: bool, other: Option<Age>)
      requires Fits(c.Snapshot(), group)
      ensures mixed <==> Mixed(c.Snapshot(), group)
      ensures !mixed ==> other == OtherAge(c.Snapshot(), group)
    {
      var first: Option<Age> := None;
      for i := 0 to |group.offers|
        invariant first.Some? ==> exists o :: o in group.offers && States(c.Snapshot(), o, first.value)
        invariant forall j, a: Age :: 0 <= j < i && States(c.Snapshot(), group.offers[j], a) ==> first == Some(a)
      {
        var o := group.offers[i];
        assert o in c.offers;
        if c.offers[o].stated.Some? {
          assert States(c.Snapshot(), o, c.offers[o].stated.value);
          if first.Some? && c.offers[o].stated != first {
            return true, None;
          }
          first := c.offers[o].stated;
        }
      }
      assert forall o, a: Age :: o in group.offers && States(c.Snapshot(), o, a) ==> first == Some(a);
      mixed := false;
      other := if first.Some? && first.value != group.keyAge then first else None;
      OtherAgeIs(c.Snapshot(), group, other);
    }

    /** The bottling carrying a key, created from the mixed row's own facts when there is none. */
    method EnsureBottling(c: Catalogue, source: Id, key: string, age: Age) returns (target: Id)
      requires Sound(c.Snapshot()) && source in c.products
      modifies c`products, c`nextId
      ensures c.Snapshot() == Ensured(old(c.Snapshot()), source, key, age)
      ensures Holder(c.products, key) == Some(target)
      ensures target in old(c.products) ==> c.products == old(c.products)
      ensures target !in old(c.products) ==>
        c.products - {target} == old(c.products) && BornOf(c.products[target], old(c.products)[source], key, age)
    {
      ghost var before := c.Snapshot();
      EnsuredGrows(before, source, key, age);
      var existing := c.FindByKey(key);
      if existing.Some? {
        assert Carries(c.products, existing.value, key);
        HolderIs(c.products, key, existing.value);
        return existing.value;
      }
      assert forall p :: !Carries(c.products, p, key);
      target := c.nextId;
      c.products := c.products[target := Offspring(c.products[source], key, age, c.nextId)];
      c.nextId := c.nextId + 1;
      HolderIs(c.products, key, target);
    }

    /** Moves each offer stating another age than the key's onto the bottling of that age. */
    method SplitGroup(c: Catalogue, group: Group)
      requires Sound(c.Snapshot()) && Fits(c.Snapshot(), group)
      modifies c
      ensures c.Snapshot() == Split(old(c.Snapshot()), group)
    {
      ghost var before := c.Snapshot();
      for i := 0 to |group.offers|
        invariant c.Snapshot() == SplitOffers(before, group, i)
      {
        SplitOffersGrow(before, group, i);
        MoveStated(c, group, group.offers[i]);
      }
      SplitOffersGrow(before, group, |group.offers|);
      if group.keyAge == 0 {
        c.products := c.products[group.id := Unsupported(c.products[group.id])];
      }
    }

    method MoveStated(c: Catalogue, group: Group, o: OfferId)
      requires Sound(c.Snapshot()) && Fits(c.Snapshot(), group) && o in c.offers
      modifies c
      ensures c.Snapshot() == SplitOffer(old(c.Snapshot()), group, o)
    {
      if Leaves(c.Snapshot(), group, o) {
        var age := c.offers[o].stated.value;
        var target := EnsureBottling(c, group.id, Rekey(group.matchKey, age), age);
        c.offers := c.offers[o := c.offers[o].(product := target)];
      }
    }

    /** Folds a bottling into the one that carries its age; the emptied row stays. */
    method FoldInto(c: Catalogue, source: Id, target: Id)
      modifies c
      ensures c.Snapshot() == FoldOnto(old(c.Snapshot()), source, target)
    {
      var moved := c.UpdateOffers(source, target);
      c.flavors := CopyFlavors(c.flavors, source, target);
      c.favorites := RepointUnheld(c.favorites, source, target);
      c.blacklist := RepointUnheld(c.blacklist, source, target);
    }

    /** Folds a bottling whose offers agree on an age into its twin of that age, or records the age. */
    method SettleSingleAge(c: Catalogue, group: Group, age: Age)
      requires Sound(c.Snapshot()) && Fits(c.Snapshot(), group)
      modifies c
      ensures c.Snapshot() == Settle(old(c.Snapshot()), group, age)
    {
      var key := Rekey(group.matchKey, age);
      var twin := c.FindByKey(key);
      if twin.Some? {
        assert Carries(c.products, twin.value, key);
        HolderIs(c.products, key, twin.value);
        FoldInto(c, group.id, twin.value);
      } else {
        assert forall p :: !Carries(c.products, p, key);
        assert Holder(c.products, key).None?;
        c.products := c.products[group.id := Stamped(c.products[group.id], age)];
      }
    }

    method Handle(c: Catalogue, group: Group)
      requires Sound(c.Snapshot()) && Fits(c.Snapshot(), group)
      modifies c
      ensures c.Snapshot() == Step(old(c.Snapshot()), group)
    {
      var mixed, other := StatedAges(c, group);
      if mixed {
        SplitGroup(c, group);
      } else if other.Some? {
        SettleSingleAge(c, group, other.value);
      }
    }

    /** The check made before committing: loads the written rows again. */
    method HoldsMixedAges(c: Catalogue) returns (mixed: bool)
      requires Sound(c.Snapshot())
      ensures mixed <==> MixedAges(c.Snapshot())
    {
      ghost var db := c.Snapshot();
      var plan := Load(c);
      for i := 0 to |plan|
        invariant forall j :: 0 <= j < i ==> !Mixed(db, plan[j])
      {
        GroupFits(db, plan, i);
        var here, other := StatedAges(c, plan[i]);
        if here {
          MixedGroupMixes(db, plan, i);
          return true;
        }
      }
      NoGroupMixed(db, plan);
      mixed := false;
    }

    /** The whole repair, one transaction: it aborts exactly if in the order loaded some bottling that disowns its key
        meets an offer the key claims, and so only if there is such a pair. */
    method Up(c: Catalogue) returns (committed: bool, plan: seq<Group>)
      requires Sound(c.Snapshot())
      modifies c
      ensures IsPlan(old(c.Snapshot()), plan)
      ensures committed <==> !MixedAges(Run(old(c.Snapshot()), plan, |plan|))
      ensures c.Snapshot() == if committed then Run(old(c.Snapshot()), plan, |plan|) else old(c.Snapshot())
      ensures committed <==> !SomeMeet(old(c.Snapshot()), plan, StatesOf(old(c.Snapshot()), plan))
      ensures !Clash(old(c.Snapshot())) ==> committed
      ensures NewAgesAgree(old(c.Snapshot()), c.Snapshot())
    {
      var saved := c.Snapshot();
      plan := Load(c);
      for i := 0 to |plan|
        invariant c.Snapshot() == Run(saved, plan, i)
      {
        GroupFits(saved, plan, i);
        GrownFits(saved, Run(saved, plan, i), plan[i]);
        Handle(c, plan[i]);
      }
      if !Clash(saved) {
        NoClashNoMix(saved, plan);
      }
      MixesExactly(saved, plan);
      NewBottlingsAgree(saved, plan);
      var mixed := HoldsMixedAges(c);
      committed := !mixed;
      if mixed {
        c.Restore(saved);
      }
    }
  }

  lemma GroupFits(db: Db, plan: seq<Group>, i: nat)
    requires IsPlan(db, plan) && i < |plan|
    ensures Fits(db, plan[i])
  {
    assert LoadedFrom(db, plan[i]);
  }

  lemma MixedGroupMixes(db: Db, plan: seq<Group>, i: nat)
    requires IsPlan(db, plan) && i < |plan| && Mixed(db, plan[i])
    ensures MixedAges(db)
  {
    var group := plan[i];
    assert LoadedFrom(db, group);
    var o, r, a, b :| o in group.offers && r in group.offers && States(db, o, a) && States(db, r, b) && a != b;
    assert db.offers[o].product == group.id == db.offers[r].product;
  }

  lemma NoGroupMixed(db: Db, plan: seq<Group>)
    requires IsPlan(db, plan) && forall i :: 0 <= i < |plan| ==> !Mixed(db, plan[i])
    ensures !MixedAges(db)
  {
    if MixedAges(db) {
      MixedAgesMixAGroup(db, plan);
    }
  }

  lemma MixedAgesMixAGroup(db: Db, plan: seq<Group>)
    requires IsPlan(db, plan) && MixedAges(db)
    ensures exists i :: 0 <= i < |plan| && Mixed(db, plan[i])
  {
    var o, r, a, b :| States(db, o, a) && States(db, r, b) && a != b
      && db.offers[o].product == db.offers[r].product && Signed(db, db.offers[o].product);
    var i :| 0 <= i < |plan| && plan[i].id == db.offers[o].product;
    assert LoadedFrom(db, plan[i]) && o in plan[i].offers && r in plan[i].offers;
  }
}
