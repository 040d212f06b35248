/** Running the age repair a second time. */
module AgeAgain {
  import opened Facts
  import opened Tables
  import opened LiveCatalogue
  import opened MatchKey
  import opened AgeRun
  import opened AgeTheorems

  /** Keys are written the way the catalogue writes them. */
  ghost predicate CanonicalKeys(db: Db) {
    forall p :: Signed(db, p) ==> Canonical(KeyOf(db, p))
  }

  /** Every bottling keyed with an age holds only offers stating that age, or none. */
  ghost predicate AgesAgree(db: Db) {
    forall o, a: Age :: States(db, o, a) && Signed(db, db.offers[o].product) && AgeOf(db, db.offers[o].product) != 0
      ==> a == AgeOf(db, db.offers[o].product)
  }

  /** One whisky has at most one bottling of unknown age. */
  ghost predicate OneAgeless(db: Db) {
    forall p, q {:trigger Stem(KeyOf(db, p)), Stem(KeyOf(db, q))} |
      Signed(db, p) && Signed(db, q) && AgeOf(db, p) == 0 && AgeOf(db, q) == 0
        && Stem(KeyOf(db, p)) == Stem(KeyOf(db, q))
      :: p == q
  }

  lemma CanonicalMeansOneAgeless(db: Db)
    requires UniqueKeys(db.products) && CanonicalKeys(db)
    ensures OneAgeless(db)
  {
    forall p, q | Signed(db, p) && Signed(db, q) && AgeOf(db, p) == 0 && AgeOf(db, q) == 0
      && Stem(KeyOf(db, p)) == Stem(KeyOf(db, q))
      ensures p == q
    {
      SameStemSameKey(db, p, q);
    }
  }

  /** Two canonical keys of one whisky and one age are one key. */
  lemma SameStemSameKey(db: Db, p: Id, q: Id)
    requires UniqueKeys(db.products) && Signed(db, p) && Signed(db, q)
    requires Canonical(KeyOf(db, p)) && Canonical(KeyOf(db, q)) && AgeOf(db, p) == AgeOf(db, q)
    ensures Stem(KeyOf(db, p)) == Stem(KeyOf(db, q)) ==> p == q
  {
  }

  /** The offer states its bottling's age, or the bottling has settled on the one age all its offers state:
      it is recorded, and no other bottling carries it. */
  ghost predicate AtRest(db: Db, p: Id, a: Age)
    requires Signed(db, p)
  {
    a == AgeOf(db, p) ||
    (db.products[p].age.value.Some?
     && (forall q :: !Carries(db.products, q, Rekey(KeyOf(db, p), a)))
     && (forall r, b: Age :: States(db, r, b) && db.offers[r].product == p ==> b == a))
  }

  ghost predicate Settled(db: Db, p: Id) {
    Signed(db, p) ==> forall o, a: Age :: States(db, o, a) && db.offers[o].product == p ==> AtRest(db, p, a)
  }

  lemma SettledAgree(db: Db, p: Id, o: OfferId, r: OfferId, a: Age, b: Age)
    requires Signed(db, p) && Settled(db, p)
    requires States(db, o, a) && db.offers[o].product == p && States(db, r, b) && db.offers[r].product == p
    ensures a == b
  {
    assert AtRest(db, p, a) && AtRest(db, p, b);
  }

  lemma SettledStep(db: Db, group: Group)
    requires Sound(db) && LoadedFrom(db, group) && Fits(db, group) && Settled(db, group.id)
    ensures Step(db, group) == db
  {
    if Mixed(db, group) {
      var o, r, a, b :| o in group.offers && r in group.offers && States(db, o, a) && States(db, r, b) && a != b;
      SettledAgree(db, group.id, o, r, a, b);
    } else if OtherAge(db, group).Some? {
      var age := OtherAge(db, group).value;
      var o :| o in group.offers && Leaves(db, group, o) && db.offers[o].stated == Some(age);
      assert States(db, o, age) && AtRest(db, group.id, age);
      assert Holder(db.products, Rekey(group.matchKey, age)).None?;
      assert db.products[group.id := Stamped(db.products[group.id], age)] == db.products;
    }
  }

  lemma {:induction false} SettledRun(db: Db, plan: seq<Group>, k: nat)
    requires Sound(db) && IsPlan(db, plan) && k <= |plan| && forall p :: Settled(db, p)
    ensures Run(db, plan, k) == db
    decreases k
  {
    if k > 0 {
      SettledRun(db, plan, k - 1);
      SettledTurn(db, plan, k - 1);
    }
  }

  lemma SettledTurn(db: Db, plan: seq<Group>, k: nat)
    requires Sound(db) && IsPlan(db, plan) && k < |plan| && Run(db, plan, k) == db
    requires Settled(db, plan[k].id)
    ensures Run(db, plan, k + 1) == db
  {
    assert LoadedFrom(db, plan[k]);
    GrownFits(db, db, plan[k]);
    SettledStep(db, plan[k]);
  }

  // ----- a first run settles every bottling -----

  /** All offers of the bottling's that state this age stand on the bottling carrying its key at that age. */
  ghost predicate Gone(db: Db, now: Db, p: Id, a: Age)
    requires Signed(db, p) && now.offers.Keys == db.offers.Keys
  {
    forall o :: States(db, o, a) && db.offers[o].product == p
      ==> Carries(now.products, now.offers[o].product, Rekey(KeyOf(db, p), a))
  }

  /** The bottling records an age, and none carries its key at this age. */
  ghost predicate Alone(db: Db, now: Db, p: Id, a: Age)
    requires Signed(db, p)
  {
    p in now.products && now.products[p].age.value.Some? && forall q ::
      !Carries(now.products, q, Rekey(KeyOf(db, p), a))
  }

  /** An ageless bottling whose offers agree on an age closes: they all went, or it recorded the age. */
  lemma DisownedTurnCloses(db: Db, before: Db, group: Group, a: Age)
    requires Sound(before) && Kept(db, before) && LoadedFrom(db, group) && Fits(before, group)
    requires FateOf(before, group) == Go(a)
    requires forall o :: o in db.offers && db.offers[o].product == group.id ==> before.offers[o].product == group.id
    ensures var next := Step(before, group);
      next.offers.Keys == db.offers.Keys && (Gone(db, next, group.id, a) || Alone(db, next, group.id, a))
  {
    SettleGrows(before, group, a);
    var twin, next := Holder(before.products, Rekey(group.matchKey, a)), Settle(before, group, a);
    if twin.None? {
      forall q
        ensures !Carries(next.products, q, Rekey(group.matchKey, a))
      {
        assert !Carries(before.products, q, Rekey(group.matchKey, a));
      }
      assert Alone(db, next, group.id, a);
    } else {
      assert Gone(db, next, group.id, a);
    }
  }

  /** Only a bottling whose key states no age ever disowns its key or splits. */
  lemma OnlyAgelessActs(db: Db, group: Group)
    requires AgesAgree(db) && LoadedFrom(db, group) && !FateOf(db, group).Rest?
    ensures group.keyAge == 0
  {
    if FateOf(db, group).Go? {
      OtherAgeIsTheOne(db, group);
      var o :| o in group.offers && States(db, o, FateOf(db, group).age);
      assert db.offers[o].product == group.id;
    } else {
      var o, r, a, b :| o in group.offers && r in group.offers && States(db, o, a) && States(db, r, b) && a != b;
      assert db.offers[o].product == group.id && db.offers[r].product == group.id;
    }
  }

  lemma GoneStays(db: Db, before: Db, group: Group, fate: Fate, next: Db, p: Id, a: Age)
    requires Kept(db, before) && Law(before, group, fate, next) && LoadedFrom(db, group)
    requires Signed(db, p) && p != group.id && (fate.Rest? || group.keyAge == 0) && Gone(db, before, p, a)
    ensures next.offers.Keys == db.offers.Keys && Gone(db, next, p, a)
  {
    RekeySetsOnlyTheAge(KeyOf(db, p), a);
    forall o | States(db, o, a) && db.offers[o].product == p
      ensures Carries(next.products, next.offers[o].product, Rekey(KeyOf(db, p), a))
    {
      assert o !in group.offers;
      if before.offers[o].product != group.id {
        StayPut(before, group, fate, next, o);
      }
    }
  }

  lemma AloneStays(db: Db, before: Db, group: Group, splits: bool, next: Db, p: Id, a: Age)
    requires OneAgeless(db) && Kept(db, before) && LoadedFrom(db, group)
    requires Kept(before, next) && RowsLaw(before, group, splits, next) && (splits ==> group.keyAge == 0)
    requires Signed(db, p) && p != group.id && AgeOf(db, p) == 0 && Alone(db, before, p, a)
    ensures Alone(db, next, p, a)
  {
    var key := Rekey(KeyOf(db, p), a);
    RekeySetsOnlyTheAge(KeyOf(db, p), a);
    assert Stem(KeyOf(db, group.id)) == Stem(KeyOf(db, p)) && splits ==> group.id == p;
    forall q
      ensures !Carries(next.products, q, key)
    {
      assert !Carries(before.products, q, key);
    }
  }

  lemma {:induction false} TurnCloses(db: Db, plan: seq<Group>, t: nat, a: Age)
    requires Sound(db) && IsPlan(db, plan) && t < |plan| && Disowns(db, plan[t].id, a)
    ensures Gone(db, Run(db, plan, t + 1), plan[t].id, a) || Alone(db, Run(db, plan, t + 1), plan[t].id, a)
  {
    var before, group := Run(db, plan, t), plan[t];
    assert LoadedFrom(db, group);
    GrownFits(db, before, group);
    GrownIsKept(db, before);
    RunIsHistory(db, plan);
    assert !Handled(plan, t, group.id);
    forall o | o in db.offers && db.offers[o].product == group.id
      ensures before.offers[o].product == group.id
    {
      WaitAtHome(db, plan, StatesOf(db, plan), t, o);
    }
    DisownsGoes(db, group, a);
    SameFate(db, before, group);
    DisownedTurnCloses(db, before, group, a);
  }

  lemma DisownsGoes(db: Db, group: Group, a: Age)
    requires LoadedFrom(db, group) && Disowns(db, group.id, a)
    ensures FateOf(db, group) == Go(a)
  {
    assert !Mixed(db, group);
    var o :| States(db, o, a) && db.offers[o].product == group.id;
    assert o in group.offers && Leaves(db, group, o);
    OtherAgeIsTheOne(db, group);
  }

  /** One turn of a run over agreeing bottlings: only an ageless one acts, and it rewrites no other row. */
  ghost predicate MildTurn(db: Db, plan: seq<Group>, states: seq<Db>, k: int) {
    && 0 <= k < |plan| && k + 1 < |states|
    && LoadedFrom(db, plan[k]) && Kept(db, states[k])
    && Law(states[k], plan[k], FateOf(db, plan[k]), states[k + 1])
    && RowsLaw(states[k], plan[k], FateOf(db, plan[k]).Part?, states[k + 1])
    && (FateOf(db, plan[k]).Rest? || plan[k].keyAge == 0)
  }

  ghost predicate MildTurns(db: Db, plan: seq<Group>, states: seq<Db>) {
    |states| == |plan| + 1 && forall k :: 0 <= k < |plan| ==> MildTurn(db, plan, states, k)
  }

  ghost predicate RowsTurn(db: Db, plan: seq<Group>, states: seq<Db>, k: int) {
    0 <= k < |plan| && k + 1 < |states| && RowsLaw(states[k], plan[k], FateOf(db, plan[k]).Part?, states[k + 1])
  }

  lemma RunIsMild(db: Db, plan: seq<Group>)
    requires Sound(db) && IsPlan(db, plan) && AgesAgree(db)
    ensures MildTurns(db, plan, StatesOf(db, plan))
  {
    RunIsHistory(db, plan);
    forall k | 0 <= k < |plan|
      ensures RowsTurn(db, plan, StatesOf(db, plan), k)
    {
      RunRowsTurn(db, plan, k);
    }
    HistoryIsMild(db, plan, StatesOf(db, plan));
  }

  lemma RunRowsTurn(db: Db, plan: seq<Group>, k: nat)
    requires Sound(db) && IsPlan(db, plan) && k < |plan|
    ensures RowsTurn(db, plan, StatesOf(db, plan), k)
  {
    RunRows(db, plan, k);
    RowsTurnFrom(db, plan, StatesOf(db, plan), k, Run(db, plan, k), Run(db, plan, k + 1));
  }

  lemma RowsTurnFrom(db: Db, plan: seq<Group>, states: seq<Db>, k: nat, before: Db, next: Db)
    requires k < |plan| && |states| == |plan| + 1 && states[k] == before && states[k + 1] == next
    requires RowsLaw(before, plan[k], FateOf(db, plan[k]).Part?, next)
    ensures RowsTurn(db, plan, states, k)
  {
  }

  lemma HistoryIsMild(db: Db, plan: seq<Group>, states: seq<Db>)
    requires IsPlan(db, plan) && AgesAgree(db) && History(db, plan, states)
    requires forall k :: 0 <= k < |plan| ==> RowsTurn(db, plan, states, k)
    ensures MildTurns(db, plan, states)
  {
    forall k | 0 <= k < |plan|
      ensures MildTurn(db, plan, states, k)
    {
      assert Turn(db, plan, states, k) && RowsTurn(db, plan, states, k) && LoadedFrom(db, plan[k])
        && Kept(db, states[k]);
      if !FateOf(db, plan[k]).Rest? {
        OnlyAgelessActs(db, plan[k]);
      }
    }
  }

  lemma RunRows(db: Db, plan: seq<Group>, k: nat)
    requires Sound(db) && IsPlan(db, plan) && k < |plan|
    ensures RowsLaw(Run(db, plan, k), plan[k], FateOf(db, plan[k]).Part?, Run(db, plan, k + 1))
  {
    assert LoadedFrom(db, plan[k]);
    GrownFits(db, Run(db, plan, k), plan[k]);
    GrownIsKept(db, Run(db, plan, k));
    SameFate(db, Run(db, plan, k), plan[k]);
    StepRows(Run(db, plan, k), plan[k]);
  }

  lemma {:induction false} GoneForGood(db: Db, plan: seq<Group>, states: seq<Db>, t: nat, k: nat, p: Id, a: Age)
    requires MildTurns(db, plan, states) && t < k <= |plan| && Signed(db, p) && forall i :: t < i < k ==>
      plan[i].id != p
    requires states[t + 1].offers.Keys == db.offers.Keys && Gone(db, states[t + 1], p, a)
    ensures states[k].offers.Keys == db.offers.Keys && Gone(db, states[k], p, a)
    decreases k
  {
    if t + 1 < k {
      GoneForGood(db, plan, states, t, k - 1, p, a);
      assert MildTurn(db, plan, states, k - 1);
      GoneStays(db, states[k - 1], plan[k - 1], FateOf(db, plan[k - 1]), states[k], p, a);
    }
  }

  lemma {:induction false} AloneForGood(db: Db, plan: seq<Group>, states: seq<Db>, t: nat, k: nat, p: Id, a: Age)
    requires MildTurns(db, plan, states) && OneAgeless(db) && t < k <= |plan| && forall i :: t < i < k ==>
      plan[i].id != p
    requires Signed(db, p) && AgeOf(db, p) == 0 && Alone(db, states[t + 1], p, a)
    ensures Alone(db, states[k], p, a)
    decreases k
  {
    if t + 1 < k {
      AloneForGood(db, plan, states, t, k - 1, p, a);
      assert MildTurn(db, plan, states, k - 1);
      AloneStays(db, states[k - 1], plan[k - 1], FateOf(db, plan[k - 1]).Part?, states[k], p, a);
    }
  }

  lemma AgreementHasNoClash(db: Db)
    requires AgesAgree(db)
    ensures !Clash(db)
  {
  }

  lemma {:induction false} RunSettles(db: Db, plan: seq<Group>, p: Id)
    requires Sound(db) && IsPlan(db, plan) && AgesAgree(db) && OneAgeless(db)
    ensures Settled(Run(db, plan, |plan|), p)
  {
    var now := Run(db, plan, |plan|);
    AgreementHasNoClash(db);
    RunIsHistory(db, plan);
    if Signed(now, p) {
      forall o, a: Age | States(now, o, a) && now.offers[o].product == p
        ensures AtRest(now, p, a)
      {
        OfferAtRest(db, plan, now, p, o, a);
      }
    }
  }

  lemma {:induction false} OfferAtRest(db: Db, plan: seq<Group>, now: Db, p: Id, o: OfferId, a: Age)
    requires Sound(db) && IsPlan(db, plan) && AgesAgree(db) && OneAgeless(db) && !Clash(db)
    requires History(db, plan, StatesOf(db, plan))
    requires now == Run(db, plan, |plan|) && Signed(now, p) && States(now, o, a) && now.offers[o].product == p
    ensures AtRest(now, p, a)
  {
    NoClashNoEarlyGiver(db, plan);
    EveryOfferInPlace(db, plan, StatesOf(db, plan), |plan|, o);
    GrownIsKept(db, now);
    assert States(db, o, a);
    if db.offers[o].product != p {
      RekeySetsOnlyTheAge(KeyOf(db, db.offers[o].product), a);
      assert AgeOf(now, p) == a;
    } else if AgeOf(db, p) != 0 {
      assert AgeOf(now, p) == AgeOf(db, p) == a;
    } else {
      HomeOfferAtRest(db, plan, now, p, o, a);
    }
  }

  lemma {:induction false} HomeOfferAtRest(db: Db, plan: seq<Group>, now: Db, p: Id, o: OfferId, a: Age)
    requires Sound(db) && IsPlan(db, plan) && AgesAgree(db) && OneAgeless(db) && !Clash(db)
    requires History(db, plan, StatesOf(db, plan))
    requires now == Run(db, plan, |plan|) && Kept(db, now) && Signed(now, p) && Signed(db, p) && AgeOf(db, p) == 0
    requires States(db, o, a) && db.offers[o].product == p && now.offers[o].product == p
    requires InPlace(db, now, o, Handled(plan, |plan|, p))
    ensures AtRest(now, p, a)
  {
    HandledInTheEnd(db, plan, o);
    HomeAgrees(db, p, o, a);
    forall r, b: Age | States(now, r, b) && now.offers[r].product == p
      ensures b == a
    {
      OthersAgree(db, plan, now, p, a, r, b);
    }
    ClosedInTheEnd(db, plan, p, a);
    ClosedAtHomeIsAtRest(db, now, p, o, a);
  }

  lemma OthersAgree(db: Db, plan: seq<Group>, now: Db, p: Id, a: Age, r: OfferId, b: Age)
    requires UniqueKeys(db.products) && OffersLive(db.offers, db.products.Keys) && IsPlan(db, plan) && !Clash(db)
    requires Sound(db) && History(db, plan, StatesOf(db, plan)) && now == StatesOf(db, plan)[|plan|] && Kept(db, now)
    requires Signed(now, p) && Disowns(db, p, a) && AgeOf(db, p) == 0 && States(now, r, b) && now.offers[r].product == p
    ensures b == a
  {
    NoClashNoEarlyGiver(db, plan);
    EveryOfferInPlace(db, plan, StatesOf(db, plan), |plan|, r);
    NoGuestOfNoAge(db, now, p, r, b);
  }

  lemma HandledInTheEnd(db: Db, plan: seq<Group>, o: OfferId)
    requires IsPlan(db, plan) && o in db.offers
    ensures Signed(db, db.offers[o].product) ==> Handled(plan, |plan|, db.offers[o].product)
  {
  }

  /** Nothing reopens a closed bottling after its turn. */
  lemma ClosedForGood(db: Db, plan: seq<Group>, states: seq<Db>, t: nat, first: Db, last: Db, p: Id, a: Age)
    requires MildTurns(db, plan, states) && OneAgeless(db) && t < |plan|
    requires (forall i :: t < i < |plan| ==> plan[i].id != p) && Signed(db, p) && AgeOf(db, p) == 0
    requires states[t + 1] == first && states[|plan|] == last
    requires first.offers.Keys == db.offers.Keys == last.offers.Keys
    requires Gone(db, first, p, a) || Alone(db, first, p, a)
    ensures Gone(db, last, p, a) || Alone(db, last, p, a)
  {
    if Gone(db, first, p, a) {
      GoneForGood(db, plan, states, t, |plan|, p, a);
    } else {
      AloneForGood(db, plan, states, t, |plan|, p, a);
    }
  }

  lemma {:induction false} ClosedInTheEnd(db: Db, plan: seq<Group>, p: Id, a: Age)
    requires Sound(db) && IsPlan(db, plan) && AgesAgree(db) && OneAgeless(db)
    requires Disowns(db, p, a) && AgeOf(db, p) == 0
    ensures Gone(db, Run(db, plan, |plan|), p, a) || Alone(db, Run(db, plan, |plan|), p, a)
  {
    var t := TurnOf(db, plan, p, a);
    TurnCloses(db, plan, t, a);
    RunIsMild(db, plan);
    ClosedFromItsTurn(db, plan, StatesOf(db, plan), t, p, a);
  }

  lemma {:induction false} StateAt(db: Db, plan: seq<Group>, k: nat)
    requires Sound(db) && IsPlan(db, plan) && k <= |plan|
    ensures |StatesOf(db, plan)| == |plan| + 1 && StatesOf(db, plan)[k] == Run(db, plan, k)
    ensures Run(db, plan, k).offers.Keys == db.offers.Keys
  {
  }

  lemma ClosedFromItsTurn(db: Db, plan: seq<Group>, states: seq<Db>, t: nat, p: Id, a: Age)
    requires MildTurns(db, plan, states) && OneAgeless(db) && t < |plan| && Signed(db, p) && AgeOf(db, p) == 0
    requires Sound(db) && IsPlan(db, plan) && forall i :: t < i < |plan| ==> plan[i].id != p
    requires states == StatesOf(db, plan) && Run(db, plan, t + 1).offers.Keys == db.offers.Keys
    requires Gone(db, Run(db, plan, t + 1), p, a) || Alone(db, Run(db, plan, t + 1), p, a)
    ensures Run(db, plan, |plan|).offers.Keys == db.offers.Keys
    ensures Gone(db, Run(db, plan, |plan|), p, a) || Alone(db, Run(db, plan, |plan|), p, a)
  {
    StateAt(db, plan, t + 1);
    StateAt(db, plan, |plan|);
    ClosedForGood(db, plan, states, t, Run(db, plan, t + 1), Run(db, plan, |plan|), p, a);
  }

  lemma TurnOf(db: Db, plan: seq<Group>, p: Id, a: Age) returns (t: nat)
    requires IsPlan(db, plan) && Disowns(db, p, a)
    ensures t < |plan| && plan[t].id == p && forall i :: t < i < |plan| ==> plan[i].id != p
  {
    var o :| States(db, o, a) && db.offers[o].product == p;
    t :| 0 <= t < |plan| && plan[t].id == p;
  }

  lemma HomeAgrees(db: Db, p: Id, o: OfferId, a: Age)
    requires Signed(db, p) && AgeOf(db, p) == 0 && States(db, o, a) && db.offers[o].product == p && !MustLeave(db, o)
    ensures Disowns(db, p, a)
  {
  }

  /** A bottling whose key states no age receives no offer that states one. */
  lemma NoGuestOfNoAge(db: Db, now: Db, p: Id, r: OfferId, b: Age)
    requires Kept(db, now) && Signed(db, p) && AgeOf(db, p) == 0 && States(db, r, b)
    requires now.offers[r].product == p && exists handled :: InPlace(db, now, r, handled)
    ensures db.offers[r].product == p
  {
    if db.offers[r].product != p {
      RekeySetsOnlyTheAge(KeyOf(db, db.offers[r].product), b);
    }
  }

  lemma ClosedAtHomeIsAtRest(db: Db, now: Db, p: Id, o: OfferId, a: Age)
    requires Kept(db, now) && Signed(db, p) && Signed(now, p) && AgeOf(db, p) == 0
      && (Gone(db, now, p, a) || Alone(db, now, p, a))
    requires States(db, o, a) && db.offers[o].product == p && now.offers[o].product == p
    requires forall r, b: Age :: States(now, r, b) && now.offers[r].product == p ==> b == a
    ensures AtRest(now, p, a)
  {
    RekeySetsOnlyTheAge(KeyOf(db, p), a);
    assert !Gone(db, now, p, a);
  }

  /** When every bottling keyed with an age already agrees with its key, a second run changes nothing at all,
      whatever order either run takes. */
  lemma {:induction false} SecondRunChangesNothing(db: Db, plan: seq<Group>, again: seq<Group>)
    requires Sound(db) && IsPlan(db, plan) && CanonicalKeys(db) && AgesAgree(db) && IsPlan(Run(db, plan, |plan|), again)
    ensures Run(Run(db, plan, |plan|), again, |again|) == Run(db, plan, |plan|)
  {
    CanonicalMeansOneAgeless(db);
    forall p
      ensures Settled(Run(db, plan, |plan|), p)
    {
      RunSettles(db, plan, p);
    }
    SettledRun(Run(db, plan, |plan|), again, |again|);
  }
}
