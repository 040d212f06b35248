/** Concrete catalogues on which the two repairs' final checks do fire. */
module Witnesses {
  import opened Facts
  import opened Tables
  import opened MergeRun
  import opened GroupFold
  import opened DuplicatePasses
  import MatchKey
  import AgeRun
  import AgeTheorems

  function Bottling(key: Option<string>, identity: string, words: set<string>, age: Fact<int>): Product {
    Product(
      key, Fact(Some(DisplayName(identity, identity, words)), Some(Store)), age, Fact(Some(700), Some(Store)),
      Fact(None, None), Fact(None, None), Fact(None, None), Maker(None, None, None), None, None, None, 0)
  }

  function Catalogue(products: map<Id, Product>, offers: map<OfferId, Offer>): Db {
    Db(products, offers, {}, {}, map[], map[], map[], map[], map[], 4)
  }

  const JURA := Bottling(None, "jura", {"jura"}, Fact(None, None))
  const ISLE := Bottling(None, "juraisle", {"jura", "isle"}, Fact(Some(12), Some(Manual)))
  const AGED := Bottling(None, "jura", {"jura"}, Fact(Some(12), Some(Store)))

  /** "Jura" and "Jura Isle", which a person gave an age of 12, and a third row "Jura" at 12; one offer each. */
  function Shelf(): Db {
    Catalogue(
      map[1 := JURA, 2 := ISLE, 3 := AGED],
      map[10 := Offer(1, true, None), 20 := Offer(2, true, None), 30 := Offer(3, true, None)])
  }

  lemma ThreeIdentities()
    ensures IdentityOf(JURA) != IdentityOf(AGED) && IdentityOf(JURA) != IdentityOf(ISLE)
      && IdentityOf(AGED) != IdentityOf(ISLE)
  {
    assert |"jura"| != |"juraisle"|;
  }

  lemma ShelfIsSound()
    ensures Sound(Shelf()) && NoTwins(Shelf().products) && ClashFree(Shelf())
  {
    ThreeIdentities();
  }

  lemma OneOfferEach(p: Id, o: OfferId)
    requires p in {1, 2} && o == 10 * p
    ensures (set x | x in Shelf().offers && Shelf().offers[x].product == p) == {o}
    ensures (set x | x in Shelf().offers && Shelf().offers[x].product == p && Shelf().offers[x].inStock) == {o}
  {
    assert Shelf().offers.Keys == {10, 20, 30};
  }

  lemma JuraRanksFirst()
    ensures RankedBy(Shelf(), [1, 2])
  {
    OneOfferEach(1, 10);
    OneOfferEach(2, 20);
    assert StandingOf(Shelf(), 1) == Standing(false, 1, 1, false, 0, 1);
    assert StandingOf(Shelf(), 2) == Standing(false, 1, 1, false, 0, 2);
  }

  lemma JuraTakesIsleIn()
    ensures TakenIn(Shelf().products, [1, 2]) == [1, 2] && Folds([1, 2]) == [Fold(2, 1)]
  {
    CompatibleIsEitherSubset({"jura"}, {"jura", "isle"});
    assert Eligible(JURA, ISLE);
    assert [1, 2][..1] == [1];
    assert TakenIn(Shelf().products, [1]) == [1];
  }

  lemma TheRepairFolds()
    ensures Sound(Shelf()) && SettledAt(Shelf(), [], [{1, 2}], [], [Fold(2, 1)])
  {
    ShelfIsSound();
    JuraRanksFirst();
    JuraTakesIsleIn();
    assert forall p :: p in {1, 2} ==> MergeRun.Resolve([], p) == p;
    assert StandsFor(Shelf(), [], {1, 2}, [1, 2]);
    assert BarcodeTurn(Shelf(), [], {1, 2}, [Fold(2, 1)]);
    assert BarcodePass(Shelf(), [], [], []);
    BarcodePassThen(Shelf(), [], [{1, 2}], [], [Fold(2, 1)]);
    assert CuratedPass(Shelf(), [], [], []) && IdentityPass(Shelf(), [], [], []);
    assert IdentityPlan(Run(Shelf(), []).products, []);
  }

  lemma TheFoldMovesTheAge()
    ensures Applies(Shelf(), Fold(2, 1))
    ensures MergeInto(Shelf(), 2, 1).products[1].age == ISLE.age
      && MergeInto(Shelf(), 2, 1).products[1].name == JURA.name
    ensures MergeInto(Shelf(), 2, 1).products[3] == AGED
    ensures IdentityOf(MergeInto(Shelf(), 2, 1).products[1]) == IdentityOf(AGED)
  {
  }

  lemma TheAgeIsTaken()
    ensures MovesTakenAge(Shelf(), Fold(2, 1))
  {
    assert 3 in Shelf().products && IdentityOf(Shelf().products[3]) == Some(Identity("jura", Some(700), Some(12)));
  }

  /** Whatever the sweep deletes, the two rows that have offers stay. */
  lemma TwinsSurviveTheSweep()
    ensures Sound(Shelf()) && !NoTwins(Sweep(MergeInto(Shelf(), 2, 1)).products)
  {
    ShelfIsSound();
    TheFoldMovesTheAge();
    var after := MergeInto(Shelf(), 2, 1);
    assert after.offers[10].product == 1 && after.offers[30].product == 3;
    assert !Orphan(after, 1) && !Orphan(after, 3);
    assert Twins(Sweep(after).products, 1, 3);
  }

  /** On this catalogue, with the first two rows sharing a barcode, the repair's own log leaves twins that the final
      check finds after the sweep. */
  lemma BarcodePassAborts() returns (db: Db, barcodes: seq<set<Id>>, log: seq<Step>)
    ensures Sound(db) && NoTwins(db.products) && ClashFree(db) && Feasible(db, log)
    ensures RepairLog(db, [], barcodes, log) && !NoTwins(Sweep(Run(db, log)).products)
    ensures BarcodeTakesAge(db, [], barcodes, log)
  {
    db, barcodes, log := Shelf(), [{1, 2}], [Fold(2, 1)];
    ShelfIsSound();
    TheRepairFolds();
    TheFoldMovesTheAge();
    assert log[..0] == [];
    TwinsSurviveTheSweep();
    TheAgeIsTaken();
    assert FoldMovesTakenAge(db, log, 0);
  }

  /** A key that carries an age of 12, and the same whisky's key without an age. */
  ghost predicate KeyPair(aged: string, ageless: string) {
    && MatchKey.HasAge(aged) && MatchKey.Parse(MatchKey.Tail(aged)) == 12
    && MatchKey.HasAge(ageless) && MatchKey.Parse(MatchKey.Tail(ageless)) == 0
    && MatchKey.Rekey(ageless, 12) == aged && aged != ageless
  }

  lemma KeyPairExists() returns (aged: string, ageless: string)
    ensures KeyPair(aged, ageless)
  {
    var base := "x|a" + MatchKey.Decimal(0);
    MatchKey.DecimalRoundTrip(0);
    MatchKey.TailOf("x|a", MatchKey.Decimal(0));
    assert base[|base| - |MatchKey.Decimal(0)| - 2..|base| - |MatchKey.Decimal(0)|] == "|a";
    aged, ageless := MatchKey.Rekey(base, 12), base;
    MatchKey.RekeySetsOnlyTheAge(base, 12);
  }

  /** The first bottling holds one offer, which states 15, while the second holds one stating 12. */
  function Disputed(aged: string, ageless: string): Db {
    Catalogue(
      map[1 := Bottling(Some(aged), "x", {"x"}, Fact(Some(12), Some(Name))),
        2 := Bottling(Some(ageless), "x", {"x"}, Fact(None, None))],
      map[10 := Offer(1, true, Some(15)), 20 := Offer(2, true, Some(12))])
  }

  lemma DisputedIsSound(aged: string, ageless: string)
    requires aged != ageless
    ensures Sound(Disputed(aged, ageless))
  {
  }

  lemma FirstDisowns(aged: string, ageless: string)
    requires KeyPair(aged, ageless)
    ensures AgeTheorems.Disowns(Disputed(aged, ageless), 1, 15)
  {
    var db := Disputed(aged, ageless);
    assert AgeRun.States(db, 10, 15) && db.offers[10].product == 1;
    assert forall o :: o in db.offers && db.offers[o].product == 1 ==> o == 10;
  }

  lemma FirstReceives(aged: string, ageless: string)
    requires KeyPair(aged, ageless)
    ensures AgeTheorems.Receives(Disputed(aged, ageless), 1, 2, 20)
  {
    var db := Disputed(aged, ageless);
    assert db.offers[20] == Offer(2, true, Some(12));
  }

  /** Some order of these two groups aborts the repair: the first bottling's offers go before the second sends
      it one. */
  lemma AgeRepairAborts() returns (db: Db, plan: seq<AgeRun.Group>)
    ensures Sound(db) && AgeTheorems.IsPlan(db, plan) && AgeTheorems.MixedAges(AgeTheorems.Run(db, plan, |plan|))
  {
    var aged, ageless := KeyPairExists();
    DisputedIsSound(aged, ageless);
    FirstDisowns(aged, ageless);
    FirstReceives(aged, ageless);
    db := Disputed(aged, ageless);
    assert AgeTheorems.Clash(db);
    AgeTheorems.AbortsOnlyByClash(db);
    plan :| AgeTheorems.IsPlan(db, plan) && AgeTheorems.MixedAges(AgeTheorems.Run(db, plan, |plan|));
  }
}
