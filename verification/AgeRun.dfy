/** The age repair as a function of the catalogue: groups loaded once, then split, folded or stamped one by
    one while their own steps change the rows later groups stand for. */
module AgeRun {
  import opened Facts
  import opened Tables
  import opened LiveCatalogue
  import opened MatchKey

  /** One bottling's offers as they were loaded at the start. */
  datatype Group = Group(id: Id, matchKey: string, keyAge: nat, offers: seq<OfferId>)

  // ----- single statements -----

  /** A new bottling: the mixed row's facts under its own key and age. */
  function Offspring(source: Product, key: string, age: Age, createdAt: int): Product {
    source.(matchKey := Some(key), age := Fact(Some(age), Some(Name)), brandOrig := None,
            lastLlmFlavorAt := None, flavorsCuratedAt := None, createdAt := createdAt)
  }

  ghost function Ensured(db: Db, source: Id, key: string, age: Age): Db
    requires source in db.products
  {
    if Holder(db.products, key).Some? then db
    else db.(products := db.products[db.nextId := Offspring(db.products[source], key, age, db.nextId)],
      nextId := db.nextId + 1)
  }

  function MoveOffer(db: Db, offer: OfferId, target: Id): Db
    requires offer in db.offers
  {
    db.(offers := db.offers[offer := db.offers[offer].(product := target)])
  }

  function Stamped(product: Product, age: Age): Product {
    if product.age.value.None? then product.(age := Fact(Some(age), Some(Name))) else product
  }

  function Unsupported(product: Product): Product {
    if ByHand(product.age) then product else product.(age := Fact(None, None))
  }

  // ----- one group -----

  /** The group's rows exist. */
  ghost predicate Fits(db: Db, group: Group) {
    && group.id in db.products && HasAge(group.matchKey)
    && forall o :: o in group.offers ==> o in db.offers
  }

  predicate States(db: Db, o: OfferId, age: Age) {
    o in db.offers && db.offers[o].stated == Some(age)
  }

  /** Two of the group's offers state different ages. */
  ghost predicate Mixed(db: Db, group: Group) {
    exists o, r, a, b :: o in group.offers && r in group.offers && States(db, o, a) && States(db, r, b) && a != b
  }

  /** The offer states an age that is not its group's. */
  predicate Leaves(db: Db, group: Group, o: OfferId) {
    o in db.offers && db.offers[o].stated.Some? && db.offers[o].stated.value != group.keyAge
  }

  /** Some offer states an age the key does not carry. */
  ghost function OtherAge(db: Db, group: Group): Option<Age> {
    if exists o :: o in group.offers && Leaves(db, group, o) then
      var o :| o in group.offers && Leaves(db, group, o);
      Some(db.offers[o].stated.value)
    else None
  }

  ghost function SplitOffer(db: Db, group: Group, o: OfferId): Db
    requires Fits(db, group) && o in db.offers
  {
    if !Leaves(db, group, o) then db
    else
      var age := db.offers[o].stated.value;
      var key := Rekey(group.matchKey, age);
      var ensured := Ensured(db, group.id, key, age);
      if Holder(ensured.products, key).None? then db
      else MoveOffer(ensured, o, Holder(ensured.products, key).value)
  }

  ghost function SplitOffers(db: Db, group: Group, n: nat): (next: Db)
    requires Fits(db, group) && n <= |group.offers|
    ensures Fits(next, group)
    decreases n
  {
    if n == 0 then db
    else SplitOffer(SplitOffers(db, group, n - 1), group, group.offers[n - 1])
  }

  ghost function Split(db: Db, group: Group): Db
    requires Fits(db, group)
  {
    var moved := SplitOffers(db, group, |group.offers|);
    if group.keyAge == 0
    then moved.(products := moved.products[group.id := Unsupported(moved.products[group.id])])
    else moved
  }

  ghost function Settle(db: Db, group: Group, age: Age): Db
    requires Fits(db, group)
  {
    match Holder(db.products, Rekey(group.matchKey, age))
    case Some(twin) => FoldOnto(db, group.id, twin)
    case None => db.(products := db.products[group.id := Stamped(db.products[group.id], age)])
  }

  ghost function Step(db: Db, group: Group): Db
    requires Fits(db, group)
  {
    if Mixed(db, group) then Split(db, group)
    else if OtherAge(db, group).Some? then Settle(db, group, OtherAge(db, group).value)
    else db
  }

  // ----- what one step keeps -----

  /** No bottling is deleted or re-keyed, no offer is lost, and the constraints hold again. */
  ghost predicate Grown(db: Db, next: Db) {
    && Sound(next)
    && (forall p :: p in db.products ==> p in next.products && next.products[p].matchKey == db.products[p].matchKey)
    && next.offers.Keys == db.offers.Keys
    && (forall o :: o in db.offers ==> next.offers[o].stated == db.offers[o].stated)
  }

  lemma GrownFits(db: Db, next: Db, group: Group)
    requires Grown(db, next) && Fits(db, group)
    ensures Fits(next, group)
  {
  }

  lemma EnsuredGrows(db: Db, source: Id, key: string, age: Age)
    requires Sound(db) && source in db.products
    ensures var next := Ensured(db, source, key, age);
      && Grown(db, next) && next.offers == db.offers
      && Holder(next.products, key).Some?
      && (forall p :: p in next.products ==> p in db.products || next.products[p].matchKey == Some(key))
      && (forall p :: p in db.products ==> next.products[p] == db.products[p])
  {
    var next := Ensured(db, source, key, age);
    if Holder(db.products, key).None? {
      assert forall p :: p in db.products ==> !Carries(db.products, p, key);
      assert UniqueKeys(next.products);
      assert next.products.Keys == db.products.Keys + {db.nextId};
      assert Carries(next.products, db.nextId, key);
    }
  }

  /** Every bottling the first catalogue lacks is of the group's whisky. */
  ghost predicate Creates(db: Db, next: Db, group: Group) {
    forall p :: p in next.products && p !in db.products ==> Relative(group, next.products[p])
  }

  /** Every row of the first catalogue is in the second as it was. */
  ghost predicate RowsKept(db: Db, next: Db) {
    forall p :: p in db.products ==> p in next.products && next.products[p] == db.products[p]
  }

  lemma GrownTwice(db: Db, middle: Db, next: Db)
    requires Grown(db, middle) && Grown(middle, next)
    ensures Grown(db, next)
    ensures RowsKept(db, middle) && RowsKept(middle, next) ==> RowsKept(db, next)
  {
  }

  lemma MoveOfferGrows(db: Db, o: OfferId, target: Id)
    requires Sound(db) && o in db.offers && target in db.products
    ensures Grown(db, MoveOffer(db, o, target)) && RowsKept(db, MoveOffer(db, o, target))
  {
  }

  lemma SplitOfferGrows(db: Db, group: Group, o: OfferId)
    requires Sound(db) && Fits(db, group) && o in db.offers
    ensures Grown(db, SplitOffer(db, group, o)) && RowsKept(db, SplitOffer(db, group, o))
  {
    if Leaves(db, group, o) {
      var age := db.offers[o].stated.value;
      var key := Rekey(group.matchKey, age);
      var ensured := Ensured(db, group.id, key, age);
      EnsuredGrows(db, group.id, key, age);
      MoveOfferGrows(ensured, o, Holder(ensured.products, key).value);
      GrownTwice(db, ensured, SplitOffer(db, group, o));
    }
  }

  /** One offer is placed and no other moves. */
  lemma SplitOfferPlaces(db: Db, group: Group, o: OfferId)
    requires Sound(db) && Fits(db, group) && o in db.offers
    ensures var next := SplitOffer(db, group, o);
      && (forall r :: r in db.offers && r != o ==> r in next.offers && next.offers[r] == db.offers[r])
      && (!Leaves(db, group, o) ==> next == db)
      && (Leaves(db, group, o) ==>
            var key := Rekey(group.matchKey, db.offers[o].stated.value);
            o in next.offers && Carries(next.products, next.offers[o].product, key))
  {
    if Leaves(db, group, o) {
      EnsuredGrows(db, group.id, Rekey(group.matchKey, db.offers[o].stated.value), db.offers[o].stated.value);
    }
  }

  lemma SplitOfferCreates(db: Db, group: Group, o: OfferId)
    requires Sound(db) && Fits(db, group) && o in db.offers
    ensures Creates(db, SplitOffer(db, group, o), group)
  {
    if Leaves(db, group, o) {
      var age := db.offers[o].stated.value;
      RekeySetsOnlyTheAge(group.matchKey, age);
      EnsuredGrows(db, group.id, Rekey(group.matchKey, age), age);
    }
  }

  /** A bottling of the same whisky at some age. */
  ghost predicate Relative(group: Group, product: Product) {
    product.matchKey.Some? && HasAge(group.matchKey) && HasAge(product.matchKey.value)
    && Stem(product.matchKey.value) == Stem(group.matchKey)
  }

  ghost predicate Listed(group: Group, n: nat, o: OfferId) {
    n <= |group.offers| && exists i :: 0 <= i < n && group.offers[i] == o
  }

  /** The offers handled so far stand on the bottling of the age they state; every other offer stands still. */
  ghost predicate Placed(db: Db, next: Db, group: Group, o: OfferId, handled: bool)
    requires o in db.offers && o in next.offers
  {
    if handled && db.offers[o].stated.Some? && db.offers[o].stated.value != group.keyAge
    then Carries(next.products, next.offers[o].product, Rekey(group.matchKey, db.offers[o].stated.value))
    else next.offers[o] == db.offers[o]
  }

  lemma {:induction false} SplitOffersGrow(db: Db, group: Group, n: nat)
    requires Sound(db) && Fits(db, group) && n <= |group.offers|
    ensures Grown(db, SplitOffers(db, group, n)) && RowsKept(db, SplitOffers(db, group, n))
    decreases n
  {
    if n > 0 {
      var before := SplitOffers(db, group, n - 1);
      SplitOffersGrow(db, group, n - 1);
      SplitOfferGrows(before, group, group.offers[n - 1]);
      GrownTwice(db, before, SplitOffers(db, group, n));
    }
  }

  /** What one more split starts from. */
  lemma SplitBefore(db: Db, group: Group, n: nat)
    requires Sound(db) && Fits(db, group) && n < |group.offers|
    ensures var before, last := SplitOffers(db, group, n), group.offers[n];
      && Sound(before) && Grown(db, before) && Fits(before, group) && last in db.offers && last in before.offers
      && SplitOffers(db, group, n + 1) == SplitOffer(before, group, last)
  {
    SplitOffersGrow(db, group, n);
    assert group.offers[n] in group.offers;
  }

  /** An offer once placed stays placed while the rest of its group is split. */
  lemma PlacedStays(db: Db, before: Db, next: Db, group: Group, o: OfferId, handled: bool)
    requires o in db.offers && o in before.offers && o in next.offers
    requires Placed(db, before, group, o, handled) && RowsKept(before, next) && next.offers[o] == before.offers[o]
    ensures Placed(db, next, group, o, handled)
  {
  }

  lemma PlaceOneMore(db: Db, before: Db, next: Db, group: Group, n: nat, o: OfferId)
    requires Sound(before) && Grown(db, before) && Fits(before, group) && n < |group.offers|
    requires o in db.offers && group.offers[n] in before.offers && next == SplitOffer(before, group, group.offers[n])
    requires Placed(db, before, group, o, Listed(group, n, o))
    ensures o in next.offers && Placed(db, next, group, o, Listed(group, n + 1, o))
  {
    var last := group.offers[n];
    SplitOfferPlaces(before, group, last);
    SplitOfferGrows(before, group, last);
    assert Listed(group, n + 1, o) <==> Listed(group, n, o) || o == last;
    if o != last {
      PlacedStays(db, before, next, group, o, Listed(group, n, o));
    }
  }

  lemma {:induction false} SplitOffersPlace(db: Db, group: Group, n: nat, o: OfferId)
    requires Sound(db) && Fits(db, group) && n <= |group.offers| && o in db.offers
    ensures o in SplitOffers(db, group, n).offers
    ensures Placed(db, SplitOffers(db, group, n), group, o, Listed(group, n, o))
    decreases n
  {
    if n > 0 {
      SplitBefore(db, group, n - 1);
      SplitOffersPlace(db, group, n - 1, o);
      PlaceOneMore(db, SplitOffers(db, group, n - 1), SplitOffers(db, group, n), group, n - 1, o);
    }
  }

  lemma SplitGrows(db: Db, group: Group)
    requires Sound(db) && Fits(db, group)
    ensures Grown(db, Split(db, group))
    ensures forall o :: o in db.offers ==> Placed(db, Split(db, group), group, o, o in group.offers)
  {
    var n := |group.offers|;
    SplitOffersGrow(db, group, n);
    var moved, next := SplitOffers(db, group, n), Split(db, group);
    assert next.products.Keys == moved.products.Keys;
    forall o | o in db.offers
      ensures Placed(db, next, group, o, o in group.offers)
    {
      SplitOffersPlace(db, group, n, o);
      assert Listed(group, n, o) <==> o in group.offers;
    }
  }

  lemma FoldOntoGrows(db: Db, source: Id, target: Id)
    requires Sound(db) && target in db.products
    ensures Grown(db, FoldOnto(db, source, target))
  {
  }

  lemma StampGrows(db: Db, p: Id, age: Age)
    requires Sound(db) && p in db.products
    ensures Grown(db, db.(products := db.products[p := Stamped(db.products[p], age)]))
  {
    assert db.products[p := Stamped(db.products[p], age)].Keys == db.products.Keys;
  }

  lemma SettleGrows(db: Db, group: Group, age: Age)
    requires Sound(db) && Fits(db, group)
    ensures Grown(db, Settle(db, group, age))
    ensures var next := Settle(db, group, age);
      var twin := Holder(db.products, Rekey(group.matchKey, age));
      forall o :: o in db.offers ==>
        next.offers[o].product ==
        if twin.Some? && db.offers[o].product == group.id then twin.value else db.offers[o].product
  {
    var twin := Holder(db.products, Rekey(group.matchKey, age));
    if twin.Some? {
      FoldOntoGrows(db, group.id, twin.value);
    } else {
      StampGrows(db, group.id, age);
    }
  }

  lemma StepGrows(db: Db, group: Group)
    requires Sound(db) && Fits(db, group)
    ensures Grown(db, Step(db, group))
  {
    if Mixed(db, group) {
      SplitGrows(db, group);
    } else if OtherAge(db, group).Some? {
      SettleGrows(db, group, OtherAge(db, group).value);
    }
  }

  /** A row the split of one more offer shows was there before, as it is, or is of the group's whisky. */
  lemma CreateOneMore(before: Db, group: Group, o: OfferId, p: Id)
    requires Sound(before) && Fits(before, group) && o in before.offers && p in SplitOffer(before, group, o).products
    ensures p in before.products ==> SplitOffer(before, group, o).products[p] == before.products[p]
    ensures p !in before.products ==> Relative(group, SplitOffer(before, group, o).products[p])
  {
    SplitOfferCreates(before, group, o);
    SplitOfferGrows(before, group, o);
  }

  lemma {:induction false} SplitOffersCreateOne(db: Db, group: Group, n: nat, p: Id)
    requires Sound(db) && Fits(db, group) && n <= |group.offers|
    requires p in SplitOffers(db, group, n).products && p !in db.products
    ensures Relative(group, SplitOffers(db, group, n).products[p])
    decreases n
  {
    if n > 0 {
      SplitBefore(db, group, n - 1);
      CreateOneMore(SplitOffers(db, group, n - 1), group, group.offers[n - 1], p);
      if p in SplitOffers(db, group, n - 1).products {
        SplitOffersCreateOne(db, group, n - 1, p);
      }
    }
  }

  lemma {:induction false} SplitOffersCreate(db: Db, group: Group, n: nat)
    requires Sound(db) && Fits(db, group) && n <= |group.offers|
    ensures Creates(db, SplitOffers(db, group, n), group)
  {
    forall p | p in SplitOffers(db, group, n).products && p !in db.products
      ensures Relative(group, SplitOffers(db, group, n).products[p])
    {
      SplitOffersCreateOne(db, group, n, p);
    }
  }

  /** A step rewrites no row but its own, and creates bottlings only by splitting, of the same whisky. */
  ghost predicate RowsLaw(before: Db, group: Group, splits: bool, next: Db) {
    && (forall p :: p in before.products && p != group.id ==>
         p in next.products && next.products[p] == before.products[p])
    && (forall p :: p in next.products && p !in before.products ==> splits && Relative(group, next.products[p]))
  }

  lemma StepRows(db: Db, group: Group)
    requires Sound(db) && Fits(db, group)
    ensures RowsLaw(db, group, Mixed(db, group), Step(db, group))
  {
    if Mixed(db, group) {
      SplitOffersGrow(db, group, |group.offers|);
      SplitOffersCreate(db, group, |group.offers|);
    }
  }
}
