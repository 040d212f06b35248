/** Whole runs of the age repair: when its final check can fire, whatever the order of the groups. */
module AgeTheorems {
  import opened Facts
  import opened Tables
  import opened LiveCatalogue
  import opened MatchKey
  import opened AgeRun

  /** The bottling has an identity this repair reads: a key that states an age. */
  predicate Signed(db: Db, p: Id) {
    p in db.products && db.products[p].matchKey.Some? && HasAge(db.products[p].matchKey.value)
  }

  function KeyOf(db: Db, p: Id): string
    requires Signed(db, p)
  {
    db.products[p].matchKey.value
  }

  function AgeOf(db: Db, p: Id): nat
    requires Signed(db, p)
  {
    Parse(Tail(KeyOf(db, p)))
  }

  /** The group was loaded from these tables. */
  ghost predicate LoadedFrom(db: Db, group: Group) {
    && Signed(db, group.id) && group.matchKey == KeyOf(db, group.id) && group.keyAge == AgeOf(db, group.id)
    && group.offers != []
    && forall o :: o in group.offers <==> o in db.offers && db.offers[o].product == group.id
  }

  /** The groups in the order their first rows came back: each signed bottling with offers, once. */
  ghost predicate IsPlan(db: Db, plan: seq<Group>) {
    && (forall i :: 0 <= i < |plan| ==> LoadedFrom(db, plan[i]))
    && (forall i, j :: 0 <= i < j < |plan| ==> plan[i].id != plan[j].id)
    && (forall o :: o in db.offers && Signed(db, db.offers[o].product) ==>
         exists i :: 0 <= i < |plan| && plan[i].id == db.offers[o].product)
  }

  /** The catalogue after the first `k` groups of the plan were handled. */
  ghost function Run(db: Db, plan: seq<Group>, k: nat): (after: Db)
    requires Sound(db) && IsPlan(db, plan) && k <= |plan|
    ensures Grown(db, after)
    decreases k
  {
    if k == 0 then db
    else
      var before := Run(db, plan, k - 1);
      assert LoadedFrom(db, plan[k - 1]);
      GrownFits(db, before, plan[k - 1]);
      StepGrows(before, plan[k - 1]);
      Step(before, plan[k - 1])
  }

  /** What the final check looks for: two offers of one signed bottling whose names state different ages. */
  ghost predicate MixedAges(db: Db) {
    exists o, r, a, b :: States(db, o, a) && States(db, r, b) && a != b
      && db.offers[o].product == db.offers[r].product && Signed(db, db.offers[o].product)
  }

  /** Every age the bottling's offers state is this one, and some offer states it, but the key carries another. */
  ghost predicate Disowns(db: Db, p: Id, age: Age) {
    && Signed(db, p) && AgeOf(db, p) != age
    && (exists o :: States(db, o, age) && db.offers[o].product == p)
    && (forall o, a :: States(db, o, a) && db.offers[o].product == p ==> a == age)
  }

  /** An offer of another bottling states exactly the age that this bottling's key carries, and would be sent here. */
  ghost predicate Receives(db: Db, p: Id, giver: Id, o: OfferId) {
    && Signed(db, p) && Signed(db, giver) && p != giver
    && o in db.offers && db.offers[o].product == giver && db.offers[o].stated.Some?
    && db.offers[o].stated.value == AgeOf(db, p) && AgeOf(db, giver) != AgeOf(db, p)
    && Rekey(KeyOf(db, giver), AgeOf(db, p)) == KeyOf(db, p)
  }

  /** A bottling all of whose offers disown its key, while another bottling holds an offer its key claims. */
  ghost predicate Clash(db: Db) {
    exists p, age, giver, o :: Disowns(db, p, age) && Receives(db, p, giver, o)
  }

  // ----- a run as the history of its states -----

  /** No bottling is deleted or re-keyed, no offer is lost or re-read, and keys stay unique. */
  ghost predicate Kept(db: Db, next: Db) {
    && (forall p :: p in db.products ==> p in next.products && next.products[p].matchKey == db.products[p].matchKey)
    && next.offers.Keys == db.offers.Keys
    && (forall o :: o in db.offers ==> next.offers[o].stated == db.offers[o].stated)
    && UniqueKeys(next.products)
  }

  /** What a group's turn does: nothing, its offers part by age, or the whole bottling goes to one place. */
  datatype Fate = Rest | Part | Go(age: Age)

  ghost function FateOf(db: Db, group: Group): Fate {
    if Mixed(db, group) then Part
    else if OtherAge(db, group).Some? then Go(OtherAge(db, group).value)
    else Rest
  }

  /** Where a bottling that goes ends up: on the bottling carrying its key at that age, or it stays. */
  ghost predicate Destination(before: Db, group: Group, age: Age, target: Id) {
    var key := Rekey(group.matchKey, age);
    if exists p :: Carries(before.products, p, key) then Carries(before.products, target, key) else target == group.id
  }

  ghost predicate AllGo(before: Db, group: Group, next: Db, target: Id)
    requires next.offers.Keys == before.offers.Keys
  {
    forall o :: o in before.offers ==>
      next.offers[o].product == if before.offers[o].product == group.id then target else before.offers[o].product
  }

  ghost predicate Law(before: Db, group: Group, fate: Fate, next: Db) {
    Kept(before, next) &&
    match fate
    case Rest => forall o :: o in before.offers ==> next.offers[o].product == before.offers[o].product
    case Part => forall o :: o in before.offers ==> Placed(before, next, group, o, o in group.offers)
    case Go(age) => exists target :: Destination(before, group, age, target) && AllGo(before, group, next, target)
  }

  ghost predicate Turn(db: Db, plan: seq<Group>, states: seq<Db>, k: int) {
    0 <= k < |plan| && k + 1 < |states| && Law(states[k], plan[k], FateOf(db, plan[k]), states[k + 1])
  }

  ghost predicate Turns(db: Db, plan: seq<Group>, states: seq<Db>) {
    |states| == |plan| + 1 && forall k :: 0 <= k < |plan| ==> Turn(db, plan, states, k)
  }

  ghost predicate History(db: Db, plan: seq<Group>, states: seq<Db>) {
    && |states| == |plan| + 1 && states[0] == db
    && (forall k :: 0 <= k <= |plan| ==> Kept(db, states[k]))
    && Turns(db, plan, states)
  }

  lemma SameFate(db: Db, now: Db, group: Group)
    requires Kept(db, now) && LoadedFrom(db, group)
    ensures FateOf(now, group) == FateOf(db, group)
  {
    assert forall o, a :: o in group.offers ==> (States(now, o, a) <==> States(db, o, a));
    assert forall o :: o in group.offers ==> (Leaves(now, group, o) <==> Leaves(db, group, o));
    if !Mixed(db, group) && OtherAge(db, group).Some? {
      OtherAgeIsTheOne(db, group);
      OtherAgeIsTheOne(now, group);
    }
  }

  lemma OtherAgeIsTheOne(db: Db, group: Group)
    requires !Mixed(db, group) && OtherAge(db, group).Some?
    ensures exists o :: o in group.offers && States(db, o, OtherAge(db, group).value)
    ensures OtherAge(db, group).value != group.keyAge
    ensures forall o, a :: o in group.offers && States(db, o, a) ==> a == OtherAge(db, group).value
  {
    var o :| o in group.offers && Leaves(db, group, o) && OtherAge(db, group) == Some(db.offers[o].stated.value);
    assert States(db, o, db.offers[o].stated.value);
  }

  lemma StepIsLawful(db: Db, group: Group)
    requires Sound(db) && Fits(db, group)
    ensures Law(db, group, FateOf(db, group), Step(db, group))
  {
    StepGrows(db, group);
    if Mixed(db, group) {
      SplitGrows(db, group);
    } else if OtherAge(db, group).Some? {
      var age := OtherAge(db, group).value;
      var twin := Holder(db.products, Rekey(group.matchKey, age));
      SettleGrows(db, group, age);
      var target := if twin.Some? then twin.value else group.id;
      assert Destination(db, group, age, target) && AllGo(db, group, Step(db, group), target);
    }
  }

  ghost function StatesOf(db: Db, plan: seq<Group>): seq<Db>
    requires Sound(db) && IsPlan(db, plan)
  {
    seq(|plan| + 1, k requires 0 <= k <= |plan| => Run(db, plan, k))
  }

  lemma GrownIsKept(db: Db, next: Db)
    requires Grown(db, next)
    ensures Kept(db, next)
  {
  }

  /** Every run is a history. */
  lemma RunIsHistory(db: Db, plan: seq<Group>)
    requires Sound(db) && IsPlan(db, plan)
    ensures History(db, plan, StatesOf(db, plan))
  {
    forall k | 0 <= k <= |plan|
      ensures Kept(db, StatesOf(db, plan)[k])
    {
      GrownIsKept(db, Run(db, plan, k));
    }
    forall k | 0 <= k < |plan|
      ensures Turn(db, plan, StatesOf(db, plan), k)
    {
      RunTurn(db, plan, k);
    }
  }

  lemma RunTurn(db: Db, plan: seq<Group>, k: nat)
    requires Sound(db) && IsPlan(db, plan) && k < |plan|
    ensures Turn(db, plan, StatesOf(db, plan), k)
  {
    RunStepIsLawful(db, plan, k);
    TurnFrom(db, plan, StatesOf(db, plan), k, Run(db, plan, k), Run(db, plan, k + 1));
  }

  lemma TurnFrom(db: Db, plan: seq<Group>, states: seq<Db>, k: nat, before: Db, next: Db)
    requires k < |plan| && |states| == |plan| + 1 && states[k] == before && states[k + 1] == next
    requires Law(before, plan[k], FateOf(db, plan[k]), next)
    ensures Turn(db, plan, states, k)
  {
  }

  lemma RunStepIsLawful(db: Db, plan: seq<Group>, k: nat)
    requires Sound(db) && IsPlan(db, plan) && k < |plan|
    ensures Law(Run(db, plan, k), plan[k], FateOf(db, plan[k]), Run(db, plan, k + 1))
  {
    assert LoadedFrom(db, plan[k]);
    var before := Run(db, plan, k);
    GrownFits(db, before, plan[k]);
    StepIsLawful(before, plan[k]);
    SameFate(db, before, plan[k]);
  }

  // ----- where offers are during a run -----

  ghost predicate Handled(plan: seq<Group>, k: nat, p: Id) {
    exists i :: 0 <= i < k && i < |plan| && plan[i].id == p
  }

  lemma HandledNext(plan: seq<Group>, k: nat, p: Id)
    requires k < |plan|
    ensures Handled(plan, k + 1, p) <==> Handled(plan, k, p) || plan[k].id == p
  {
  }

  /** The offer's group, as it was loaded, states two ages and this offer not the one of its key. */
  ghost predicate MustLeave(db: Db, o: OfferId)
    requires o in db.offers
  {
    var home := db.offers[o].product;
    && Signed(db, home) && db.offers[o].stated.Some? && db.offers[o].stated.value != AgeOf(db, home)
    && exists r, a :: States(db, r, a) && db.offers[r].product == home && a != db.offers[o].stated.value
  }

  /** The offer, if its name states an age, stands on the bottling whose key is its home's at that age. */
  ghost predicate Sent(db: Db, now: Db, o: OfferId)
    requires o in db.offers && o in now.offers
  {
    var home, stated := db.offers[o].product, db.offers[o].stated;
    && Signed(db, home)
    && (stated.Some? ==> stated.value != AgeOf(db, home))
    && (stated.Some? ==> Carries(now.products, now.offers[o].product, Rekey(KeyOf(db, home), stated.value)))
  }

  /** An offer is at home, unless its home was handled and sent it away, as it must those of another age. */
  ghost predicate InPlace(db: Db, now: Db, o: OfferId, handled: bool)
    requires o in db.offers && o in now.offers
  {
    if now.offers[o].product == db.offers[o].product then handled ==> !MustLeave(db, o)
    else handled && Sent(db, now, o)
  }

  /** This order handles the giver of a clash before the bottling that disowns its key. */
  ghost predicate EarlyGiver(db: Db, plan: seq<Group>) {
    exists g, t, age, o ::
      0 <= g < t < |plan| && Disowns(db, plan[t].id, age) && Receives(db, plan[t].id, plan[g].id, o)
  }

  lemma NoClashNoEarlyGiver(db: Db, plan: seq<Group>)
    requires !Clash(db)
    ensures !EarlyGiver(db, plan)
  {
  }

  /** Where an offer was sent, its home sends it. */
  lemma SentMeansReceived(db: Db, now: Db, q: Id, o: OfferId)
    requires Kept(db, now) && Signed(db, q) && o in db.offers && o in now.offers && db.offers[o].stated.Some?
    requires Sent(db, now, o) && now.offers[o].product == q != db.offers[o].product
    ensures Receives(db, q, db.offers[o].product, o)
  {
    RekeySetsOnlyTheAge(KeyOf(db, db.offers[o].product), db.offers[o].stated.value);
  }

  /** An order without an early giver brings a bottling that goes no guest of a handled home. */
  lemma NoEarlyGift(db: Db, plan: seq<Group>, k: nat, o: OfferId)
    requires !EarlyGiver(db, plan) && k < |plan| && o in db.offers && Handled(plan, k, db.offers[o].product)
    ensures Receives(db, plan[k].id, db.offers[o].product, o) ==> forall age :: !Disowns(db, plan[k].id, age)
  {
    var g :| 0 <= g < k && plan[g].id == db.offers[o].product;
  }

  /** Without an early giver one turn keeps every offer in place. */
  lemma InPlaceStep(db: Db, plan: seq<Group>, states: seq<Db>, k: nat, o: OfferId)
    requires UniqueKeys(db.products) && IsPlan(db, plan) && History(db, plan, states) && k < |plan|
    requires !EarlyGiver(db, plan) && o in db.offers && o in states[k].offers
    requires InPlace(db, states[k], o, Handled(plan, k, db.offers[o].product))
    ensures o in states[k + 1].offers
    ensures InPlace(db, states[k + 1], o, Handled(plan, k, db.offers[o].product) || plan[k].id == db.offers[o].product)
  {
    var group, handled := plan[k], Handled(plan, k, db.offers[o].product);
    assert LoadedFrom(db, group) && Kept(db, states[k]) && Turn(db, plan, states, k);
    if handled {
      NoEarlyGift(db, plan, k, o);
    }
    match FateOf(db, group)
    case Rest => InPlaceRest(db, states[k], group, states[k + 1], o, handled);
    case Part => InPlacePart(db, states[k], group, states[k + 1], o, handled);
    case Go(_) => InPlaceGo(db, states[k], group, states[k + 1], o, handled);
  }

  /** Without an early giver every offer is in place throughout the run. */
  lemma {:induction false} EveryOfferInPlace(db: Db, plan: seq<Group>, states: seq<Db>, k: nat, o: OfferId)
    requires UniqueKeys(db.products) && IsPlan(db, plan) && History(db, plan, states) && k <= |plan|
    requires !EarlyGiver(db, plan) && o in db.offers
    ensures o in states[k].offers && InPlace(db, states[k], o, Handled(plan, k, db.offers[o].product))
    decreases k
  {
    if k > 0 {
      EveryOfferInPlace(db, plan, states, k - 1, o);
      HandledNext(plan, k - 1, db.offers[o].product);
      InPlaceStep(db, plan, states, k - 1, o);
    }
  }

  lemma InPlaceRest(db: Db, before: Db, group: Group, next: Db, o: OfferId, handled: bool)
    requires LoadedFrom(db, group) && Kept(db, before) && FateOf(db, group).Rest? && Law(before, group, Rest, next)
    requires o in db.offers && InPlace(db, before, o, handled)
    ensures InPlace(db, next, o, handled || group.id == db.offers[o].product)
  {
    if group.id == db.offers[o].product {
      assert o in group.offers && !Leaves(db, group, o);
    }
  }

  lemma InPlacePart(db: Db, before: Db, group: Group, next: Db, o: OfferId, handled: bool)
    requires UniqueKeys(db.products) && LoadedFrom(db, group) && Kept(db, before) && Law(before, group, Part, next)
    requires o in db.offers && InPlace(db, before, o, handled)
    ensures InPlace(db, next, o, handled || group.id == db.offers[o].product)
  {
    assert Placed(before, next, group, o, o in group.offers);
    if o in group.offers && Leaves(before, group, o) {
      RekeySetsOnlyTheAge(group.matchKey, db.offers[o].stated.value);
    }
  }

  lemma InPlaceGo(db: Db, before: Db, group: Group, next: Db, o: OfferId, handled: bool)
    requires LoadedFrom(db, group) && Kept(db, before) && FateOf(db, group).Go?
    requires Law(before, group, FateOf(db, group), next)
    requires o in db.offers && InPlace(db, before, o, handled)
    requires handled && Receives(db, group.id, db.offers[o].product, o) ==> forall age :: !Disowns(db, group.id, age)
    ensures InPlace(db, next, o, handled || group.id == db.offers[o].product)
  {
    var age := FateOf(db, group).age;
    var target :| Destination(before, group, age, target) && AllGo(before, group, next, target);
    OtherAgeIsTheOne(db, group);
    SettledDisowns(db, group);
    if db.offers[o].product == group.id {
      assert o in group.offers;
      assert db.offers[o].stated.Some? ==> States(db, o, db.offers[o].stated.value);
    } else if before.offers[o].product == group.id && db.offers[o].stated.Some? {
      SentMeansReceived(db, before, group.id, o);
      assert false;
    }
  }

  /** A group that goes disowns its key. */
  lemma SettledDisowns(db: Db, group: Group)
    requires LoadedFrom(db, group) && FateOf(db, group).Go?
    ensures Disowns(db, group.id, FateOf(db, group).age)
  {
    OtherAgeIsTheOne(db, group);
    var o :| o in group.offers && States(db, o, FateOf(db, group).age);
    assert db.offers[o].product == group.id;
  }

  /** Without a clash no order of the groups ends with a mixed bottling. */
  lemma {:induction false} NoClashNoMix(db: Db, plan: seq<Group>)
    requires Sound(db) && IsPlan(db, plan) && !Clash(db)
    ensures !MixedAges(Run(db, plan, |plan|))
  {
    var now, states := Run(db, plan, |plan|), StatesOf(db, plan);
    RunIsHistory(db, plan);
    NoClashNoEarlyGiver(db, plan);
    if MixedAges(now) {
      var o, r, a, b :| States(now, o, a) && States(now, r, b) && a != b
        && now.offers[o].product == now.offers[r].product && Signed(now, now.offers[o].product);
      EveryOfferInPlace(db, plan, states, |plan|, o);
      EveryOfferInPlace(db, plan, states, |plan|, r);
      PairInPlace(db, plan, now, o, r, a, b);
    }
  }

  lemma PairInPlace(db: Db, plan: seq<Group>, now: Db, o: OfferId, r: OfferId, a: Age, b: Age)
    requires OffersLive(db.offers, db.products.Keys) && IsPlan(db, plan) && Kept(db, now)
    requires States(db, o, a) && States(db, r, b) && a != b
    requires InPlace(db, now, o, Handled(plan, |plan|, db.offers[o].product))
    requires InPlace(db, now, r, Handled(plan, |plan|, db.offers[r].product))
    requires now.offers[o].product == now.offers[r].product && Signed(now, now.offers[o].product)
    ensures Clash(db)
  {
    var q := now.offers[o].product;
    if q == db.offers[o].product && q == db.offers[r].product {
      StrangersAtHome(db, o, r, a, b);
    } else if q == db.offers[o].product {
      assert Signed(db, q) && Handled(plan, |plan|, q);
      GuestMeansClash(db, now, o, r, a, b);
    } else if q == db.offers[r].product {
      assert Signed(db, q) && Handled(plan, |plan|, q);
      GuestMeansClash(db, now, r, o, b, a);
    } else {
      RekeySetsOnlyTheAge(KeyOf(db, db.offers[o].product), a);
      RekeySetsOnlyTheAge(KeyOf(db, db.offers[r].product), b);
    }
  }

  /** Of two offers of one home stating different ages, one must leave. */
  lemma StrangersAtHome(db: Db, o: OfferId, r: OfferId, a: Age, b: Age)
    requires States(db, o, a) && States(db, r, b) && a != b
    requires db.offers[o].product == db.offers[r].product && Signed(db, db.offers[o].product)
    ensures MustLeave(db, o) || MustLeave(db, r)
  {
  }

  /** A guest of another age on a handled home is a clash. */
  lemma GuestMeansClash(db: Db, now: Db, o: OfferId, r: OfferId, a: Age, b: Age)
    requires Kept(db, now) && States(db, o, a) && States(db, r, b) && a != b
    requires Signed(db, db.offers[o].product) && !MustLeave(db, o) && Sent(db, now, r)
    requires now.offers[o].product == db.offers[o].product == now.offers[r].product != db.offers[r].product
    ensures Disowns(db, db.offers[o].product, a) && Receives(db, db.offers[o].product, db.offers[r].product, r)
  {
    SentMeansReceived(db, now, db.offers[o].product, r);
  }

  // ----- a clash makes an order that aborts -----

  /** A bottling's own offers leave it only when it is its turn. */
  lemma {:induction false} WaitAtHome(db: Db, plan: seq<Group>, states: seq<Db>, k: nat, o: OfferId)
    requires IsPlan(db, plan) && History(db, plan, states) && k <= |plan|
    requires o in db.offers && !Handled(plan, k, db.offers[o].product)
    ensures o in states[k].offers && states[k].offers[o].product == db.offers[o].product
    decreases k
  {
    if k > 0 {
      HandledNext(plan, k - 1, db.offers[o].product);
      WaitAtHome(db, plan, states, k - 1, o);
      assert LoadedFrom(db, plan[k - 1]) && o !in plan[k - 1].offers && Turn(db, plan, states, k - 1);
      StayPut(states[k - 1], plan[k - 1], FateOf(db, plan[k - 1]), states[k], o);
    }
  }

  lemma StayPut(before: Db, group: Group, fate: Fate, next: Db, o: OfferId)
    requires Law(before, group, fate, next) && o in before.offers && o !in group.offers
    requires before.offers[o].product != group.id
    ensures next.offers[o].product == before.offers[o].product
  {
    if fate.Part? {
      assert Placed(before, next, group, o, false);
    }
  }

  /** The giver's turn: the offer its key disclaims is sent to the bottling whose key claims it. */
  lemma GiverGives(db: Db, plan: seq<Group>, states: seq<Db>, k: nat, p: Id, o: OfferId)
    requires IsPlan(db, plan) && History(db, plan, states) && k < |plan| && Receives(db, p, plan[k].id, o)
    ensures o in states[k + 1].offers && states[k + 1].offers[o].product == p
  {
    var before, group, age := states[k], plan[k], db.offers[o].stated.value;
    assert LoadedFrom(db, group) && o in group.offers && Kept(db, before) && Turn(db, plan, states, k);
    WaitAtHome(db, plan, states, k, o);
    assert Leaves(db, group, o) && States(db, o, age);
    assert Carries(before.products, p, Rekey(group.matchKey, age));
    match FateOf(db, group)
    case Part => assert Placed(before, states[k + 1], group, o, true);
    case Go(_) => OtherAgeIsTheOne(db, group);
    case Rest =>
  }

  /** No group from `from` on was loaded with the offer. */
  ghost predicate Behind(plan: seq<Group>, from: nat, o: OfferId) {
    forall i :: from <= i < |plan| ==> o !in plan[i].offers
  }

  lemma OwnTurnIsBehind(db: Db, plan: seq<Group>, k: nat, o: OfferId)
    requires IsPlan(db, plan) && k < |plan| && o in db.offers && db.offers[o].product == plan[k].id
    ensures Behind(plan, k + 1, o)
  {
    forall i | k + 1 <= i < |plan|
      ensures o !in plan[i].offers
    {
      assert LoadedFrom(db, plan[i]);
    }
  }

  lemma BehindLater(plan: seq<Group>, from: nat, later: nat, o: OfferId)
    requires Behind(plan, from, o) && from <= later
    ensures Behind(plan, later, o)
  {
  }

  /** After its own turn an offer leaves a bottling only at that bottling's turn. */
  lemma {:induction false} GuestsWait(db: Db, plan: seq<Group>, states: seq<Db>, from: nat, k: nat, o: OfferId, p: Id)
    requires Turns(db, plan, states) && from <= k <= |plan| && Behind(plan, from, o)
    requires o in states[from].offers && states[from].offers[o].product == p
    requires forall i :: from <= i < k ==> plan[i].id != p
    ensures o in states[k].offers && states[k].offers[o].product == p
    decreases k
  {
    if from < k {
      GuestsWait(db, plan, states, from, k - 1, o, p);
      assert Turn(db, plan, states, k - 1);
      StayPut(states[k - 1], plan[k - 1], FateOf(db, plan[k - 1]), states[k], o);
    }
  }

  /** Two offers stand on one bottling. */
  ghost predicate Together(now: Db, o: OfferId, r: OfferId) {
    o in now.offers && r in now.offers && now.offers[o].product == now.offers[r].product
  }

  lemma MoveTogether(before: Db, group: Group, fate: Fate, next: Db, o: OfferId, r: OfferId)
    requires Law(before, group, fate, next) && Together(before, o, r)
    requires fate.Part? ==> o !in group.offers && r !in group.offers
    ensures Together(next, o, r)
  {
    if fate.Part? {
      assert Placed(before, next, group, o, false) && Placed(before, next, group, r, false);
    }
  }

  /** Nothing separates handled offers again: splits move only a group's own offers, folds whole bottlings. */
  lemma {:induction false} StuckForGood(db: Db, plan: seq<Group>, states: seq<Db>, from: nat, k: nat, o: OfferId,
                                        r: OfferId)
    requires Turns(db, plan, states) && from <= k <= |plan| && Behind(plan, from, o) && Behind(plan, from, r)
    requires Together(states[from], o, r)
    ensures Together(states[k], o, r)
    decreases k
  {
    if from < k {
      StuckForGood(db, plan, states, from, k - 1, o, r);
      assert Turn(db, plan, states, k - 1);
      MoveTogether(states[k - 1], plan[k - 1], FateOf(db, plan[k - 1]), states[k], o, r);
    }
  }

  /** Offers of signed bottlings only ever stand on signed bottlings. */
  lemma {:induction false} AlwaysSigned(db: Db, plan: seq<Group>, states: seq<Db>, k: nat, o: OfferId)
    requires Turns(db, plan, states) && states[0] == db && k <= |plan|
    requires forall i :: 0 <= i < |plan| ==> HasAge(plan[i].matchKey)
    requires o in db.offers && Signed(db, db.offers[o].product)
    ensures o in states[k].offers && Signed(states[k], states[k].offers[o].product)
    decreases k
  {
    if k > 0 {
      AlwaysSigned(db, plan, states, k - 1, o);
      assert Turn(db, plan, states, k - 1);
      SignedStep(states[k - 1], plan[k - 1], FateOf(db, plan[k - 1]), states[k], o);
    }
  }

  lemma SignedStep(before: Db, group: Group, fate: Fate, next: Db, o: OfferId)
    requires Law(before, group, fate, next) && HasAge(group.matchKey)
    requires o in before.offers && Signed(before, before.offers[o].product)
    ensures Signed(next, next.offers[o].product)
  {
    match fate
    case Rest =>
    case Part =>
      assert Placed(before, next, group, o, o in group.offers);
      if o in group.offers && Leaves(before, group, o) {
        RekeySetsOnlyTheAge(group.matchKey, before.offers[o].stated.value);
      }
    case Go(age) =>
      RekeySetsOnlyTheAge(group.matchKey, age);
  }

  /** Every order that handles the giver before the bottling that disowns its key ends mixed. */
  lemma {:induction false} ClashAborts(db: Db, plan: seq<Group>, g: nat, t: nat, age: Age, o: OfferId)
    requires Sound(db) && IsPlan(db, plan) && g < t < |plan|
    requires Disowns(db, plan[t].id, age) && Receives(db, plan[t].id, plan[g].id, o)
    ensures MixedAges(Run(db, plan, |plan|))
  {
    RunIsHistory(db, plan);
    var now, states := Run(db, plan, |plan|), StatesOf(db, plan);
    var r :| States(db, r, age) && db.offers[r].product == plan[t].id;
    ClashSticks(db, plan, states, g, t, age, o, r);
    assert forall i :: 0 <= i < |plan| ==> LoadedFrom(db, plan[i]);
    AlwaysSigned(db, plan, states, |plan|, o);
    assert States(now, o, db.offers[o].stated.value) && States(now, r, age);
  }

  lemma ClashSticks(db: Db, plan: seq<Group>, states: seq<Db>, g: nat, t: nat, age: Age, o: OfferId, r: OfferId)
    requires IsPlan(db, plan) && History(db, plan, states) && g < t < |plan|
    requires Disowns(db, plan[t].id, age) && Receives(db, plan[t].id, plan[g].id, o)
    requires States(db, r, age) && db.offers[r].product == plan[t].id
    ensures Together(states[|plan|], o, r)
  {
    OwnTurnIsBehind(db, plan, g, o);
    GiverGives(db, plan, states, g, plan[t].id, o);
    MeetAtTheTurn(db, plan, states, g, t, age, o, r);
    StuckTogether(db, plan, states, g, t, o, r);
  }

  lemma StuckTogether(db: Db, plan: seq<Group>, states: seq<Db>, g: nat, t: nat, o: OfferId, r: OfferId)
    requires IsPlan(db, plan) && Turns(db, plan, states) && g < t < |plan| && Behind(plan, g + 1, o)
    requires r in db.offers && db.offers[r].product == plan[t].id && Together(states[t + 1], o, r)
    ensures Together(states[|plan|], o, r)
  {
    BehindLater(plan, g + 1, t + 1, o);
    OwnTurnIsBehind(db, plan, t, r);
    StuckForGood(db, plan, states, t + 1, |plan|, o, r);
  }

  lemma MeetAtTheTurn(db: Db, plan: seq<Group>, states: seq<Db>, g: nat, t: nat, age: Age, o: OfferId, r: OfferId)
    requires IsPlan(db, plan) && History(db, plan, states) && g < t < |plan| && Disowns(db, plan[t].id, age)
    requires Behind(plan, g + 1, o) && o in states[g + 1].offers && states[g + 1].offers[o].product == plan[t].id
    requires r in db.offers && db.offers[r].product == plan[t].id
    ensures Together(states[t + 1], o, r)
  {
    GuestsWait(db, plan, states, g + 1, t, o, plan[t].id);
    WaitAtHome(db, plan, states, t, r);
    assert Kept(db, states[t]) && Turn(db, plan, states, t) && LoadedFrom(db, plan[t]);
    DisownedTurn(db, plan[t], states[t], states[t + 1], age, o, r);
  }

  lemma DisownedTurn(db: Db, group: Group, before: Db, next: Db, age: Age, o: OfferId, r: OfferId)
    requires LoadedFrom(db, group) && Kept(db, before) && Disowns(db, group.id, age)
    requires Law(before, group, FateOf(db, group), next)
    requires o in before.offers && before.offers[o].product == group.id
    requires r in before.offers && before.offers[r].product == group.id
    ensures Together(next, o, r)
  {
    assert !Mixed(db, group);
    MoveTogether(before, group, FateOf(db, group), next, o, r);
  }

  ghost function AsSeq(s: set<int>): (r: seq<int>)
    ensures forall x :: x in r <==> x in s
    ensures forall i, j :: 0 <= i < j < |r| ==> r[i] != r[j]
  {
    if s == {} then []
    else
      Inhabited(s);
      var x :| x in s;
      AsSeq(s - {x}) + [x]
  }

  lemma Inhabited(s: set<int>)
    requires s != {}
    ensures exists x :: x in s
  {
    var x := SomeMember(s);
  }

  ghost function OffersOf(db: Db, p: Id): set<OfferId> {
    set o | o in db.offers && db.offers[o].product == p
  }

  ghost function GroupOf(db: Db, p: Id): Group
    requires Signed(db, p)
  {
    Group(p, KeyOf(db, p), AgeOf(db, p), AsSeq(OffersOf(db, p)))
  }

  lemma GroupIsLoaded(db: Db, p: Id, o: OfferId)
    requires Signed(db, p) && o in db.offers && db.offers[o].product == p
    ensures LoadedFrom(db, GroupOf(db, p))
  {
    assert o in OffersOf(db, p);
  }

  ghost function PlanOf(db: Db, ids: seq<Id>): seq<Group>
    requires forall i :: 0 <= i < |ids| ==> Signed(db, ids[i])
  {
    seq(|ids|, i requires 0 <= i < |ids| => GroupOf(db, ids[i]))
  }

  /** The signed bottlings with offers. */
  ghost function ListedIds(db: Db): set<Id> {
    set o | o in db.offers && Signed(db, db.offers[o].product) :: db.offers[o].product
  }

  lemma AnyOrderIsAPlan(db: Db, ids: seq<Id>)
    requires forall i, j :: 0 <= i < j < |ids| ==> ids[i] != ids[j]
    requires forall x :: x in ids <==> x in ListedIds(db)
    ensures forall i :: 0 <= i < |ids| ==> Signed(db, ids[i])
    ensures IsPlan(db, PlanOf(db, ids))
  {
    forall i | 0 <= i < |ids|
      ensures Signed(db, ids[i]) && LoadedFrom(db, GroupOf(db, ids[i]))
    {
      assert ids[i] in ListedIds(db);
      var o :| o in db.offers && Signed(db, db.offers[o].product) && db.offers[o].product == ids[i];
      GroupIsLoaded(db, ids[i], o);
    }
    forall o | o in db.offers && Signed(db, db.offers[o].product)
      ensures exists i :: 0 <= i < |ids| && PlanOf(db, ids)[i].id == db.offers[o].product
    {
      assert db.offers[o].product in ListedIds(db);
      var i :| 0 <= i < |ids| && ids[i] == db.offers[o].product;
      assert PlanOf(db, ids)[i].id == db.offers[o].product;
    }
  }

  lemma StartingWith(ids: set<Id>, p: Id, q: Id) returns (order: seq<Id>)
    requires p in ids && q in ids && p != q
    ensures |order| >= 2 && order[0] == p && order[1] == q
    ensures forall i, j :: 0 <= i < j < |order| ==> order[i] != order[j]
    ensures forall x :: x in order <==> x in ids
  {
    var rest := AsSeq(ids - {p, q});
    order := [p, q] + rest;
    assert forall k :: 0 <= k < |rest| ==> rest[k] in ids - {p, q};
    assert forall x :: x in rest <==> x in ids - {p, q};
  }

  /** The rows may come back in any order, so any two groups may be the first two. */
  lemma PlanStarting(db: Db, p: Id, q: Id) returns (plan: seq<Group>)
    requires p in ListedIds(db) && q in ListedIds(db) && p != q
    ensures IsPlan(db, plan) && |plan| >= 2 && plan[0].id == p && plan[1].id == q
  {
    var ids := StartingWith(ListedIds(db), p, q);
    AnyOrderIsAPlan(db, ids);
    plan := PlanOf(db, ids);
  }

  /** The final check is out of reach in every order of the groups exactly when no bottling disowns its key while
      another holds an offer that key claims. */
  lemma {:induction false} AbortsOnlyByClash(db: Db)
    requires Sound(db)
    ensures (forall plan :: IsPlan(db, plan) ==> !MixedAges(Run(db, plan, |plan|))) <==> !Clash(db)
  {
    if !Clash(db) {
      forall plan | IsPlan(db, plan)
        ensures !MixedAges(Run(db, plan, |plan|))
      {
        NoClashNoMix(db, plan);
      }
    } else {
      var p, age, giver, o :| Disowns(db, p, age) && Receives(db, p, giver, o);
      var r :| States(db, r, age) && db.offers[r].product == p;
      var plan := PlanStarting(db, giver, p);
      ClashAborts(db, plan, 0, 1, age, o);
    }
  }

  /** In particular no order aborts if every bottling keyed with an age has an offer stating that age,
      or one stating none, or offers of several ages. */
  lemma {:induction false} NoDisowningNoAbort(db: Db, plan: seq<Group>)
    requires Sound(db) && IsPlan(db, plan)
    requires forall p, age :: Disowns(db, p, age) ==> AgeOf(db, p) == 0
    ensures !MixedAges(Run(db, plan, |plan|))
  {
    NoClashNoMix(db, plan);
  }
}
