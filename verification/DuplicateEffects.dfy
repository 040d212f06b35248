/** What the passes of the duplicate repair come to, said of the tables: which row a group keeps, which rows it takes
    in, what a curated correction leaves and what the sweep deletes. */
module DuplicateEffects {
  import opened Facts
  import opened Tables
  import opened LiveCatalogue
  import opened MergeRun
  import opened GroupFold
  import opened DuplicatePasses

  // ----- the row a group keeps -----

  ghost function OffersOn(db: Db, p: Id): set<OfferId> {
    set o | o in db.offers && db.offers[o].product == p
  }

  ghost function InStockOn(db: Db, p: Id): set<OfferId> {
    set o | o in db.offers && db.offers[o].product == p && db.offers[o].inStock
  }

  ghost predicate NamedByHand(db: Db, p: Id) {
    p in db.products && db.products[p].name.source == Some(Manual)
  }

  ghost predicate Keyed(db: Db, p: Id) {
    p in db.products && db.products[p].matchKey.Some?
  }

  /** A name a person set, then more offers, then more of them in stock, then a key, then the earlier creation, then
      the smaller id. */
  ghost predicate Precedes(db: Db, p: Id, q: Id)
    requires p in db.products && q in db.products
  {
    && (NamedByHand(db, q) ==> NamedByHand(db, p))
    && (NamedByHand(db, p) == NamedByHand(db, q) ==>
      && |OffersOn(db, p)| >= |OffersOn(db, q)|
      && (|OffersOn(db, p)| == |OffersOn(db, q)| ==>
        && |InStockOn(db, p)| >= |InStockOn(db, q)|
        && (|InStockOn(db, p)| == |InStockOn(db, q)| ==>
          && (Keyed(db, q) ==> Keyed(db, p))
          && (Keyed(db, p) == Keyed(db, q) ==>
            && db.products[p].createdAt <= db.products[q].createdAt
            && (db.products[p].createdAt == db.products[q].createdAt ==> p < q)))))
  }

  /** The rows a group stands for are in that order. */
  lemma RankedAsStated(db: Db, log: seq<Step>, group: set<Id>, rows: seq<Id>, i: nat, j: nat)
    requires StandsFor(db, log, group, rows) && i < j < |rows|
    ensures Precedes(db, rows[i], rows[j])
  {
    assert Ahead(StandingOf(db, rows[i]), StandingOf(db, rows[j]));
    assert forall p :: p in db.products ==>
      StandingOf(db, p).offers == |OffersOn(db, p)| && StandingOf(db, p).inStock == |InStockOn(db, p)|;
  }

  lemma FirstIsAhead(db: Db, rows: seq<Id>, p: Id)
    requires RankedBy(db, rows) && p in rows
    ensures p == rows[0] || Ahead(StandingOf(db, rows[0]), StandingOf(db, p))
  {
    var i :| 0 <= i < |rows| && rows[i] == p;
  }

  /** There is only one such order of the rows. */
  lemma {:induction false} RankedOnce(db: Db, left: seq<Id>, right: seq<Id>)
    requires RankedBy(db, left) && RankedBy(db, right) && forall p :: p in left <==> p in right
    ensures left == right
  {
    if left != [] {
      var p := HeadOf(left);
    }
    if right != [] {
      var p := HeadOf(right);
    }
    if left != [] && right != [] {
      FirstIsAhead(db, left, right[0]);
      FirstIsAhead(db, right, left[0]);
      RestOfTheRanking(db, left, right);
      RankedOnce(db, left[1..], right[1..]);
      assert left == [left[0]] + left[1..] && right == [right[0]] + right[1..];
    }
  }

  lemma HeadOf(rows: seq<Id>) returns (p: Id)
    requires rows != []
    ensures p == rows[0] && p in rows
  {
    p := rows[0];
  }

  lemma NotAgain(db: Db, rows: seq<Id>)
    requires RankedBy(db, rows) && rows != []
    ensures forall p :: p in rows[1..] <==> p in rows && p != rows[0]
  {
    forall i | 1 <= i < |rows|
      ensures rows[i] != rows[0]
    {
      assert Ahead(StandingOf(db, rows[0]), StandingOf(db, rows[i]));
    }
    assert rows == [rows[0]] + rows[1..];
  }

  lemma RestOfTheRanking(db: Db, left: seq<Id>, right: seq<Id>)
    requires RankedBy(db, left) && RankedBy(db, right) && left != [] && right != [] && left[0] == right[0]
    requires forall p :: p in left <==> p in right
    ensures forall p :: p in left[1..] <==> p in right[1..]
  {
    NotAgain(db, left);
    NotAgain(db, right);
  }

  /** An identity group keeps the first of its rows: the later ones are gone, and every other row stays. */
  lemma {:induction false} IdentityGroupKeepsFirst(start: Db, before: seq<Step>, group: set<Id>, after: seq<Step>,
                                                   rows: seq<Id>)
    requires Sound(start) && IdentityTurn(start, before, group, after)
    requires StandsFor(Run(start, before), before, group, rows) && rows != []
    ensures forall p :: p in Run(start, after).products <==> p in Run(start, before).products && p !in rows[1..]
  {
    var db := Run(start, before);
    var ranked :| ranked != [] && StandsFor(db, before, group, ranked) && after == before + Folds(ranked);
    RankedOnce(db, ranked, rows);
    RankedGroupIsNamedFirst(db, rows);
    FoldGroupRows(db, rows);
    RunConcat(start, before, Folds(rows));
  }

  // ----- the rows a barcode group takes in -----

  /** The two rows state the same volume, both are named, and the names are one identity or the significant words of
      one, some at least, are all among the other's. */
  ghost predicate OneWhisky(left: Product, right: Product) {
    && left.volumeMl.value.Some? && right.volumeMl.value == left.volumeMl.value
    && left.name.value.Some? && right.name.value.Some?
    && var a, b := left.name.value.value, right.name.value.value;
       a.identity == b.identity || (a.words != {} && b.words != {} && (a.words <= b.words || b.words <= a.words))
  }

  lemma EligibleMeansOneWhisky(left: Product, right: Product)
    ensures Eligible(left, right) <==> OneWhisky(left, right)
  {
    if left.name.value.Some? && right.name.value.Some? {
      CompatibleIsEitherSubset(left.name.value.value.words, right.name.value.value.words);
    }
  }

  /** Step `k` folds two live rows that may be one whisky. */
  ghost predicate FoldsOneWhisky(start: Db, log: seq<Step>, k: int)
    requires Sound(start)
  {
    0 <= k < |log| && log[k].Fold? && log[k].loser != log[k].survivor &&
    var now := Run(start, log[..k]).products;
    log[k].loser in now && log[k].survivor in now && OneWhisky(now[log[k].survivor], now[log[k].loser])
  }

  lemma {:induction false} FoldOfTheGroup(start: Db, before: seq<Step>, rows: seq<Id>, i: nat)
    requires Sound(start) && NamedFirst(Run(start, before), rows) && AllEligible(Run(start, before), rows)
    requires 1 <= i < |rows|
    ensures FoldsOneWhisky(start, before + Folds(rows), |before| + i - 1)
  {
    var db, log := Run(start, before), before + Folds(rows);
    FoldsInOrder(rows, i);
    AppendedAt(before, Folds(rows), i - 1);
    RunConcat(start, before, Folds(rows[..i]));
    StillEligible(db, rows, i);
    var now := Run(db, Folds(rows[..i])).products;
    EligibleMeansOneWhisky(now[rows[0]], now[rows[i]]);
    assert Run(start, log[..|before| + i - 1]).products == now;
  }

  lemma {:induction false} TurnFoldsOneWhisky(start: Db, before: seq<Step>, group: set<Id>, after: seq<Step>, k: int)
    requires Sound(start) && BarcodeTurn(start, before, group, after) && |before| <= k < |after|
    ensures FoldsOneWhisky(start, after, k)
  {
    var db := Run(start, before);
    var rows :| StandsFor(db, before, group, rows) &&
      after == if |rows| < 2 then before else before + Folds(TakenIn(db.products, rows));
    TakenInRanked(db, rows);
    var taken := TakenIn(db.products, rows);
    RankedGroupIsNamedFirst(db, taken);
    AsManyFolds(taken);
    FoldOfTheGroup(start, before, taken, k - |before| + 1);
  }

  lemma EarlierFoldStays(start: Db, mid: seq<Step>, after: seq<Step>, k: int)
    requires Sound(start) && mid <= after && FoldsOneWhisky(start, mid, k)
    ensures FoldsOneWhisky(start, after, k)
  {
    assert mid[..k] == after[..k] && mid[k] == after[k];
  }

  lemma {:induction false} AsManyFolds(rows: seq<Id>)
    requires rows != []
    ensures |Folds(rows)| == |rows| - 1
  {
    if |rows| > 1 {
      AsManyFolds(rows[..|rows| - 1]);
    }
  }

  /** Whatever the barcode groups, every step of their pass folds two rows that may be one whisky. */
  lemma {:induction false} PassFoldsOneWhisky(start: Db, before: seq<Step>, groups: seq<set<Id>>, after: seq<Step>,
                                              k: int)
    requires Sound(start) && BarcodePass(start, before, groups, after) && |before| <= k < |after|
    ensures FoldsOneWhisky(start, after, k)
    decreases |groups|
  {
    if groups != [] {
      var front, last := groups[..|groups| - 1], groups[|groups| - 1];
      var mid :| BarcodePass(start, before, front, mid) && BarcodeTurn(start, mid, last, after);
      TurnExtends(start, mid, last, after);
      if k < |mid| {
        PassFoldsOneWhisky(start, before, front, mid, k);
        EarlierFoldStays(start, mid, after, k);
      } else {
        TurnFoldsOneWhisky(start, mid, last, after, k);
      }
    }
  }

  lemma {:induction false} TakenExactly(products: map<Id, Product>, rows: seq<Id>, p: Id)
    requires rows != [] && forall i :: 0 <= i < |rows| ==> rows[i] in products
    ensures p in TakenIn(products, rows)[1..]
      <==> exists i :: 1 <= i < |rows| && rows[i] == p && Eligible(products[rows[0]], products[p])
  {
    var n := |rows| - 1;
    if n > 0 {
      TakenExactly(products, rows[..n], p);
      var front, last := TakenIn(products, rows[..n]), TakenIn(products, rows)[|TakenIn(products, rows[..n])|..];
      assert TakenIn(products, rows)[1..] == front[1..] + last;
    }
  }

  /** A barcode group takes in exactly those of its later rows that may be one whisky with its first; its other rows,
      and all rows outside it, stay. */
  lemma {:induction false} BarcodeGroupTakes(start: Db, before: seq<Step>, group: set<Id>, after: seq<Step>,
                                             rows: seq<Id>)
    requires Sound(start) && BarcodeTurn(start, before, group, after)
    requires StandsFor(Run(start, before), before, group, rows) && rows != []
    ensures var db, now := Run(start, before).products, Run(start, after).products;
      forall p :: p in now <==> p in db && (p in rows[1..] ==> !OneWhisky(db[rows[0]], db[p]))
  {
    var db := Run(start, before);
    var ranked :| StandsFor(db, before, group, ranked) &&
      after == if |ranked| < 2 then before else before + Folds(TakenIn(db.products, ranked));
    RankedOnce(db, ranked, rows);
    var taken := TakenIn(db.products, rows);
    if |rows| >= 2 {
      TakenInRanked(db, rows);
      FoldGroupRows(db, taken);
      RunConcat(start, before, Folds(taken));
    }
    forall p | p in db.products
      ensures p in Run(start, after).products <==> (p in rows[1..] ==> !OneWhisky(db.products[rows[0]], db.products[p]))
    {
      TakenExactly(db.products, rows, p);
      EligibleMeansOneWhisky(db.products[rows[0]], db.products[p]);
    }
  }

  // ----- a curated correction -----

  lemma NoneIsEarlier(products: map<Id, Product>, identity: Identity, row: Option<Id>, p: Id)
    requires IsFirst(products, identity, row) && p in products && IdentityOf(products[p]) == Some(identity)
    ensures row.Some? && (products[row.value].createdAt < products[p].createdAt
                          || (products[row.value].createdAt == products[p].createdAt && row.value <= p))
  {
  }

  lemma FirstIsOne(products: map<Id, Product>, identity: Identity, left: Option<Id>, right: Option<Id>)
    requires IsFirst(products, identity, left) && IsFirst(products, identity, right)
    ensures left == right
  {
    if left.Some? {
      NoneIsEarlier(products, identity, right, left.value);
    }
    if right.Some? {
      NoneIsEarlier(products, identity, left, right.value);
    }
  }

  function Cleared(db: Db, loser: Id, clear: bool): Db
    requires loser in db.products
  {
    if clear then db.(products := db.products[loser := ClearAgeAndAbv(db.products[loser])]) else db
  }

  lemma ClearedIsSound(db: Db, loser: Id, clear: bool)
    requires Sound(db) && loser in db.products
    ensures Sound(Cleared(db, loser, clear)) && (ClashFree(db) ==> ClashFree(Cleared(db, loser, clear)))
  {
    assert Cleared(db, loser, clear).products.Keys == db.products.Keys;
  }

  /** The run through a curated fold, step by step. */
  lemma {:induction false} CuratedSteps(start: Db, before: seq<Step>, curated: CuratedFold, loser: Id, survivor: Id)
    requires Sound(start) && Applies(Run(start, before), Fold(loser, survivor))
    ensures var db := Run(start, before);
      var key, cleared := db.products[loser].matchKey, Cleared(db, loser, curated.clearAgeAndAbv);
      && Sound(cleared)
      && Run(start, CuratedLog(before, curated, loser, survivor, key)) == Finished(cleared, curated, loser, survivor)
  {
    var db := Run(start, before);
    var key := db.products[loser].matchKey;
    ClearedIsSound(db, loser, curated.clearAgeAndAbv);
    var first := before + (if curated.clearAgeAndAbv then [Clear(loser)] else []);
    if curated.clearAgeAndAbv {
      RunOneMore(start, before, Clear(loser));
    } else {
      assert first == before;
    }
    RunOneMore(start, first, Fold(loser, survivor));
    var second := first + [Fold(loser, survivor)];
    if !curated.keepAlias && key.Some? {
      RunOneMore(start, second, Forget(key.value));
    } else {
      assert CuratedLog(before, curated, loser, survivor, key) == second;
    }
  }

  ghost function Finished(db: Db, curated: CuratedFold, loser: Id, survivor: Id): Db
    requires Sound(db) && Applies(db, Fold(loser, survivor))
  {
    var folded, key := MergeInto(db, loser, survivor), db.products[loser].matchKey;
    if !curated.keepAlias && key.Some? then folded.(aliases := folded.aliases - {key.value}) else folded
  }

  lemma FinishedRows(db: Db, curated: CuratedFold, loser: Id, survivor: Id)
    requires Sound(db) && Applies(db, Fold(loser, survivor)) && Sound(Cleared(db, loser, curated.clearAgeAndAbv))
    ensures var now := Finished(Cleared(db, loser, curated.clearAgeAndAbv), curated, loser, survivor).products;
      && now.Keys == db.products.Keys - {loser}
      && (forall p :: p in now && p != survivor ==> now[p] == db.products[p])
      && (curated.clearAgeAndAbv ==>
           now[survivor].age == db.products[survivor].age && now[survivor].abv == db.products[survivor].abv)
  {
  }

  lemma FinishedKey(db: Db, curated: CuratedFold, loser: Id, survivor: Id, p: Id)
    requires Sound(db) && ClashFree(db) && Applies(db, Fold(loser, survivor)) && db.products[loser].matchKey.Some?
    ensures Answers(Finished(db, curated, loser, survivor), db.products[loser].matchKey.value, p)
      <==> p == survivor && (curated.keepAlias || db.products[survivor].matchKey.None?)
  {
    var key := db.products[loser].matchKey.value;
    assert Answers(db, key, loser);
    MergeKeepsLiveAnswer(db, loser, survivor, key, p);
    MergeKeepsClashFree(db, loser, survivor);
  }

  /** Where a correction finds its two rows apart, the one is gone and no third row changed; a cleared row adds no age
      or strength of its own; and its key answers with the survivor, or if its alias is not kept, only where the
      survivor had no key and adopted it. */
  lemma {:induction false} CuratedFoldLeaves(start: Db, before: seq<Step>, curated: CuratedFold, after: seq<Step>,
                                             from: Id, into: Id)
    requires Sound(start) && CuratedTurn(start, before, curated, after) && from != into
    requires IsFirst(Run(start, before).products, curated.from, Some(from))
    requires IsFirst(Run(start, before).products, curated.into, Some(into))
    ensures var db, now := Run(start, before), Run(start, after);
      && now.products.Keys == db.products.Keys - {from}
      && (forall p :: p in now.products && p != into ==> now.products[p] == db.products[p])
      && (curated.clearAgeAndAbv ==>
           now.products[into].age == db.products[into].age && now.products[into].abv == db.products[into].abv)
      && (ClashFree(db) && db.products[from].matchKey.Some? ==> forall p ::
           Answers(now, db.products[from].matchKey.value, p)
           <==> p == into && (curated.keepAlias || db.products[into].matchKey.None?))
  {
    var db := Run(start, before);
    CuratedLogIs(start, before, curated, after, from, into);
    CuratedSteps(start, before, curated, from, into);
    FinishedRows(db, curated, from, into);
    var cleared := Cleared(db, from, curated.clearAgeAndAbv);
    ClearedIsSound(db, from, curated.clearAgeAndAbv);
    if ClashFree(db) && db.products[from].matchKey.Some? {
      forall p
        ensures Answers(Finished(cleared, curated, from, into), db.products[from].matchKey.value, p)
          <==> p == into && (curated.keepAlias || db.products[into].matchKey.None?)
      {
        FinishedKey(cleared, curated, from, into, p);
      }
    }
  }

  lemma {:induction false} CuratedLogIs(start: Db, before: seq<Step>, curated: CuratedFold, after: seq<Step>,
                                              from: Id, into: Id)
    requires Sound(start) && CuratedTurn(start, before, curated, after) && from != into
    requires IsFirst(Run(start, before).products, curated.from, Some(from))
    requires IsFirst(Run(start, before).products, curated.into, Some(into))
    ensures after == CuratedLog(before, curated, from, into, Run(start, before).products[from].matchKey)
  {
    var products := Run(start, before).products;
    var f, i :| IsFirst(products, curated.from, f) && IsFirst(products, curated.into, i) &&
      after == if f.None? || i.None? || f == i then before
               else CuratedLog(before, curated, f.value, i.value, products[f.value].matchKey);
    FirstIsOne(products, curated.from, f, Some(from));
    FirstIsOne(products, curated.into, i, Some(into));
  }

  // ----- the sweep -----

  /** Something a shop or a user owns names the bottling. */
  ghost predicate Named(db: Db, p: Id) {
    || (exists o :: o in db.offers && db.offers[o].product == p)
    || (exists c :: c in db.collections && db.collections[c].product == p)
    || (exists user :: Entry(user, p) in db.favorites)
    || (exists user :: Entry(user, p) in db.blacklist)
  }

  ghost predicate AllNamed(db: Db) {
    forall p :: p in db.products ==> Named(db, p)
  }

  lemma SweptAreNamed(db: Db)
    ensures AllNamed(Sweep(db))
  {
    SweptExactly(db);
    forall p | p in Sweep(db).products
      ensures Named(Sweep(db), p)
    {
      assert Named(db, p);
    }
  }

  /** The sweep leaves exactly the bottlings something names, each as it was, and touches nothing anyone owns. */
  lemma SweptExactly(db: Db)
    ensures forall p :: p in Sweep(db).products <==> p in db.products && Named(db, p)
    ensures forall p :: p in Sweep(db).products ==> Sweep(db).products[p] == db.products[p]
    ensures Sweep(db).offers == db.offers && Sweep(db).favorites == db.favorites
      && Sweep(db).blacklist == db.blacklist
      && Sweep(db).collections == db.collections && Sweep(db).purchases == db.purchases
    ensures forall t :: t in db.flavors && Named(db, t.product) && t.product in db.products ==>
      t in Sweep(db).flavors && Sweep(db).flavors[t] == db.flavors[t]
    ensures forall k :: k in db.conflicts && Named(db, k.product) && k.product in db.products ==>
      k in Sweep(db).conflicts && Sweep(db).conflicts[k] == db.conflicts[k]
  {
    forall p | p in db.products
      ensures Orphan(db, p) <==> !Named(db, p)
    {
      if !Orphan(db, p) {
        if e :| e in db.favorites && e.product == p {
          assert Entry(e.user, p) in db.favorites;
        }
        if e :| e in db.blacklist && e.product == p {
          assert Entry(e.user, p) in db.blacklist;
        }
      }
    }
  }
}
