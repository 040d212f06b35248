/** One given order of the groups: exactly when it ends with a bottling of two stated ages. */
module AgeOrders {
  import opened Facts
  import opened Tables
  import opened LiveCatalogue
  import opened MatchKey
  import opened AgeRun
  import opened AgeTheorems
  import opened AgeAgain

  /** At the turn of group `t` no bottling carries its key at that age, so its offers stay. */
  ghost predicate NoTwinAt(plan: seq<Group>, states: seq<Db>, t: int, age: Age)
    requires 0 <= t < |plan| && |states| == |plan| + 1
  {
    forall p :: !Carries(states[t].products, p, Rekey(plan[t].matchKey, age))
  }

  /** Bottling `t` disowns its key while bottling `g` holds an offer the key claims, and either the giver is handled
      first or the bottling has nowhere to go at its turn. */
  ghost predicate Meets(db: Db, plan: seq<Group>, states: seq<Db>, g: int, t: int, age: Age, o: OfferId) {
    && 0 <= g < |plan| && 0 <= t < |plan| && |states| == |plan| + 1
    && Disowns(db, plan[t].id, age) && Receives(db, plan[t].id, plan[g].id, o)
    && (g < t || NoTwinAt(plan, states, t, age))
  }

  ghost predicate SomeMeet(db: Db, plan: seq<Group>, states: seq<Db>) {
    exists g, t, age, o :: Meets(db, plan, states, g, t, age, o)
  }

  // ----- a meeting ends mixed -----

  /** With nowhere to go, a bottling's offers stay to the end. */
  lemma DisownedStays(db: Db, plan: seq<Group>, states: seq<Db>, t: nat, age: Age, r: OfferId)
    requires IsPlan(db, plan) && History(db, plan, states) && t < |plan|
    requires Disowns(db, plan[t].id, age) && NoTwinAt(plan, states, t, age)
    requires r in db.offers && db.offers[r].product == plan[t].id
    ensures r in states[|plan|].offers && states[|plan|].offers[r].product == plan[t].id
  {
    WaitAtHome(db, plan, states, t, r);
    assert Turn(db, plan, states, t) && LoadedFrom(db, plan[t]);
    DisownsGoes(db, plan[t], age);
    OwnTurnIsBehind(db, plan, t, r);
    GuestsWait(db, plan, states, t + 1, |plan|, r, plan[t].id);
  }

  lemma GiftStays(db: Db, plan: seq<Group>, states: seq<Db>, g: nat, t: nat, o: OfferId)
    requires IsPlan(db, plan) && History(db, plan, states) && t < g < |plan| && Receives(db, plan[t].id, plan[g].id, o)
    ensures o in states[|plan|].offers && states[|plan|].offers[o].product == plan[t].id
  {
    GiverGives(db, plan, states, g, plan[t].id, o);
    OwnTurnIsBehind(db, plan, g, o);
    GuestsWait(db, plan, states, g + 1, |plan|, o, plan[t].id);
  }

  lemma {:induction false} LateGiftMixes(db: Db, plan: seq<Group>, g: nat, t: nat, age: Age, o: OfferId)
    requires Sound(db) && IsPlan(db, plan) && t < g && Meets(db, plan, StatesOf(db, plan), g, t, age, o)
    ensures MixedAges(Run(db, plan, |plan|))
  {
    var now, states := Run(db, plan, |plan|), StatesOf(db, plan);
    RunIsHistory(db, plan);
    var r :| States(db, r, age) && db.offers[r].product == plan[t].id;
    DisownedStays(db, plan, states, t, age, r);
    GiftStays(db, plan, states, g, t, o);
    assert now == states[|plan|] && Kept(db, now);
    HomeAndGuestMix(db, now, plan[t].id, r, o, age);
  }

  lemma HomeAndGuestMix(db: Db, now: Db, p: Id, r: OfferId, o: OfferId, age: Age)
    requires Kept(db, now) && Signed(db, p) && States(db, r, age) && AgeOf(db, p) != age
    requires o in db.offers && db.offers[o].stated.Some? && db.offers[o].stated.value == AgeOf(db, p)
    requires now.offers[r].product == p && now.offers[o].product == p
    ensures MixedAges(now)
  {
    assert States(now, r, age) && States(now, o, db.offers[o].stated.value);
  }

  lemma {:induction false} MeetingMixes(db: Db, plan: seq<Group>, g: int, t: int, age: Age, o: OfferId)
    requires Sound(db) && IsPlan(db, plan) && Meets(db, plan, StatesOf(db, plan), g, t, age, o)
    ensures MixedAges(Run(db, plan, |plan|))
  {
    if g < t {
      ClashAborts(db, plan, g, t, age, o);
    } else {
      LateGiftMixes(db, plan, g, t, age, o);
    }
  }

  // ----- and nothing else does -----

  /** Without an early giver an offer that states an age never moves after its own bottling's turn. */
  lemma {:induction false} StatedStays(db: Db, plan: seq<Group>, states: seq<Db>, t: nat, k: nat, o: OfferId)
    requires UniqueKeys(db.products) && IsPlan(db, plan) && History(db, plan, states) && !EarlyGiver(db, plan)
    requires t < k <= |plan| && o in db.offers && db.offers[o].stated.Some? && db.offers[o].product == plan[t].id
    ensures o in states[t + 1].offers && o in states[k].offers
    ensures states[k].offers[o].product == states[t + 1].offers[o].product
    decreases k
  {
    EveryOfferInPlace(db, plan, states, k, o);
    if k > t + 1 {
      StatedStays(db, plan, states, t, k - 1, o);
      EveryOfferInPlace(db, plan, states, k - 1, o);
      StatedWaits(db, plan, states, t, k - 1, o);
    }
  }

  lemma StatedWaits(db: Db, plan: seq<Group>, states: seq<Db>, t: nat, k: nat, o: OfferId)
    requires IsPlan(db, plan) && History(db, plan, states) && !EarlyGiver(db, plan) && t < k < |plan|
    requires o in db.offers && db.offers[o].stated.Some? && db.offers[o].product == plan[t].id
    requires o in states[k].offers && InPlace(db, states[k], o, true)
    ensures o in states[k + 1].offers && states[k + 1].offers[o].product == states[k].offers[o].product
  {
    var group, q := plan[k], states[k].offers[o].product;
    assert LoadedFrom(db, group) && Kept(db, states[k]) && Turn(db, plan, states, k) && o !in group.offers;
    assert Handled(plan, k, db.offers[o].product);
    NoEarlyGift(db, plan, k, o);
    if q != group.id {
      StayPut(states[k], group, FateOf(db, group), states[k + 1], o);
    } else if FateOf(db, group).Go? {
      SettledDisowns(db, group);
      SentMeansReceived(db, states[k], q, o);
      assert false;
    } else {
      assert FateOf(db, group).Part? ==> Placed(states[k], states[k + 1], group, o, false);
    }
  }

  /** Where a bottling carries the other age's key, the offers go there. */
  lemma TwinTakes(db: Db, group: Group, before: Db, next: Db, age: Age, o: OfferId)
    requires LoadedFrom(db, group) && Kept(db, before) && Disowns(db, group.id, age)
    requires Law(before, group, FateOf(db, group), next)
    requires o in before.offers && before.offers[o].product == group.id && next.offers[o].product == group.id
    ensures forall p :: !Carries(before.products, p, Rekey(group.matchKey, age))
  {
    DisownsGoes(db, group, age);
    OwnKeyIsNotIt(db, before, group, age);
    var target :| Destination(before, group, age, target) && AllGo(before, group, next, target);
    assert target == group.id;
  }

  lemma OwnKeyIsNotIt(db: Db, before: Db, group: Group, age: Age)
    requires LoadedFrom(db, group) && Kept(db, before) && age != group.keyAge
    ensures !Carries(before.products, group.id, Rekey(group.matchKey, age))
  {
    RekeySetsOnlyTheAge(group.matchKey, age);
  }

  /** A bottling that disowned its key and still holds an offer of its own had nowhere to go. */
  lemma HomeMeansNoTwin(db: Db, plan: seq<Group>, states: seq<Db>, t: nat, age: Age, o: OfferId)
    requires UniqueKeys(db.products) && IsPlan(db, plan) && History(db, plan, states) && !EarlyGiver(db, plan)
    requires t < |plan| && Disowns(db, plan[t].id, age) && States(db, o, age) && db.offers[o].product == plan[t].id
    requires o in states[|plan|].offers && states[|plan|].offers[o].product == plan[t].id
    ensures NoTwinAt(plan, states, t, age)
  {
    StatedStays(db, plan, states, t, |plan|, o);
    OnlyOnce(plan, t, db);
    WaitAtHome(db, plan, states, t, o);
    assert LoadedFrom(db, plan[t]) && Kept(db, states[t]) && Turn(db, plan, states, t);
    TwinTakes(db, plan[t], states[t], states[t + 1], age, o);
  }

  lemma OnlyOnce(plan: seq<Group>, t: nat, db: Db)
    requires IsPlan(db, plan) && t < |plan|
    ensures !Handled(plan, t, plan[t].id)
  {
  }

  /** A home offer and a guest that ended on one bottling met there. */
  lemma PairMeets(db: Db, plan: seq<Group>, states: seq<Db>, o: OfferId, r: OfferId, a: Age, b: Age)
    requires Sound(db) && IsPlan(db, plan) && History(db, plan, states) && !EarlyGiver(db, plan)
    requires States(db, o, a) && States(db, r, b) && a != b && Signed(db, db.offers[o].product)
    requires o in states[|plan|].offers && r in states[|plan|].offers
    requires !MustLeave(db, o) && Sent(db, states[|plan|], r)
    requires states[|plan|].offers[o].product == db.offers[o].product
    requires states[|plan|].offers[r].product == db.offers[o].product != db.offers[r].product
    ensures exists g, t :: Meets(db, plan, states, g, t, a, r)
  {
    assert Kept(db, states[|plan|]);
    GuestMeansClash(db, states[|plan|], o, r, a, b);
    var t :| 0 <= t < |plan| && plan[t].id == db.offers[o].product;
    var g :| 0 <= g < |plan| && plan[g].id == db.offers[r].product;
    HomeMeansNoTwin(db, plan, states, t, a, o);
    assert Meets(db, plan, states, g, t, a, r);
  }

  lemma {:induction false} MixtureMeets(db: Db, plan: seq<Group>, o: OfferId, r: OfferId, a: Age, b: Age)
    requires Sound(db) && IsPlan(db, plan) && !EarlyGiver(db, plan)
    requires var now := Run(db, plan, |plan|);
      && States(now, o, a) && States(now, r, b) && a != b
      && now.offers[o].product == now.offers[r].product && Signed(now, now.offers[o].product)
    ensures SomeMeet(db, plan, StatesOf(db, plan))
  {
    var now, states := Run(db, plan, |plan|), StatesOf(db, plan);
    RunIsHistory(db, plan);
    assert now == states[|plan|] && Kept(db, now);
    EveryOfferInPlace(db, plan, states, |plan|, o);
    EveryOfferInPlace(db, plan, states, |plan|, r);
    var q := now.offers[o].product;
    if q == db.offers[o].product && q == db.offers[r].product {
      StrangersAtHome(db, o, r, a, b);
      assert false;
    } else if q == db.offers[o].product {
      PairMeets(db, plan, states, o, r, a, b);
    } else if q == db.offers[r].product {
      PairMeets(db, plan, states, r, o, b, a);
    } else {
      RekeySetsOnlyTheAge(KeyOf(db, db.offers[o].product), a);
      RekeySetsOnlyTheAge(KeyOf(db, db.offers[r].product), b);
      assert false;
    }
  }

  lemma EarlyGiverMeets(db: Db, plan: seq<Group>, states: seq<Db>)
    requires EarlyGiver(db, plan) && |states| == |plan| + 1
    ensures SomeMeet(db, plan, states)
  {
    var g, t, age, o :| 0 <= g < t < |plan| && Disowns(db, plan[t].id, age) && Receives(db, plan[t].id, plan[g].id, o);
    assert Meets(db, plan, states, g, t, age, o);
  }

  lemma {:induction false} MixedOrderMeets(db: Db, plan: seq<Group>)
    requires Sound(db) && IsPlan(db, plan) && !EarlyGiver(db, plan) && MixedAges(Run(db, plan, |plan|))
    ensures SomeMeet(db, plan, StatesOf(db, plan))
  {
    var now := Run(db, plan, |plan|);
    var o, r, a, b :| States(now, o, a) && States(now, r, b) && a != b
      && now.offers[o].product == now.offers[r].product && Signed(now, now.offers[o].product);
    MixtureMeets(db, plan, o, r, a, b);
  }

  /** A given order of the groups ends with a bottling of two stated ages, and so aborts, exactly when a bottling that
      disowns its key meets an offer its key claims: the giver is handled first, or no bottling carries the disowned
      key's other age when its turn comes. */
  lemma {:induction false} MixesExactly(db: Db, plan: seq<Group>)
    requires Sound(db) && IsPlan(db, plan)
    ensures MixedAges(Run(db, plan, |plan|)) <==> SomeMeet(db, plan, StatesOf(db, plan))
  {
    if SomeMeet(db, plan, StatesOf(db, plan)) {
      var g, t, age, o :| Meets(db, plan, StatesOf(db, plan), g, t, age, o);
      MeetingMixes(db, plan, g, t, age, o);
    } else if MixedAges(Run(db, plan, |plan|)) {
      if EarlyGiver(db, plan) {
        EarlyGiverMeets(db, plan, StatesOf(db, plan));
      } else {
        MixedOrderMeets(db, plan);
      }
    }
  }
}
