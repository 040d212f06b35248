/** The duplicate repair's passes as logs: the ranking, what each pass may append to the log of a run, and what
    that means for twins. */
module DuplicatePasses {
  import opened Facts
  import opened Tables
  import opened LiveCatalogue
  import opened MergeRun
  import opened GroupFold

  /** A correction that addresses both rows by identity. */
  datatype CuratedFold = CuratedFold(from: Identity, into: Identity, clearAgeAndAbv: bool, keepAlias: bool)

  /** What the ranking orders by, best first. */
  datatype Standing = Standing(named: bool, offers: nat, inStock: nat, keyed: bool, createdAt: int, id: Id)

  function StandingOf(db: Db, p: Id): Standing
    requires p in db.products
  {
    Standing(
      ByHand(db.products[p].name),
      |set o | o in db.offers && db.offers[o].product == p|,
      |set o | o in db.offers && db.offers[o].product == p && db.offers[o].inStock|,
      db.products[p].matchKey.Some?,
      db.products[p].createdAt,
      p)
  }

  predicate Ahead(x: Standing, y: Standing) {
    if x.named != y.named then x.named
    else if x.offers != y.offers then x.offers > y.offers
    else if x.inStock != y.inStock then x.inStock > y.inStock
    else if x.keyed != y.keyed then x.keyed
    else if x.createdAt != y.createdAt then x.createdAt < y.createdAt
    else x.id < y.id
  }

  /** The rows in ranking order. */
  ghost predicate RankedBy(db: Db, rows: seq<Id>) {
    && (forall i :: 0 <= i < |rows| ==> rows[i] in db.products)
    && (forall i, j :: 0 <= i < j < |rows| ==> Ahead(StandingOf(db, rows[i]), StandingOf(db, rows[j])))
  }

  lemma RankedGroupIsNamedFirst(db: Db, rows: seq<Id>)
    requires rows != [] && RankedBy(db, rows)
    ensures NamedFirst(db, rows)
  {
    forall i, j | 0 <= i < j < |rows|
      ensures rows[i] != rows[j]
    {
      assert Ahead(StandingOf(db, rows[i]), StandingOf(db, rows[j]));
    }
    forall i | 0 < i < |rows| && !ByHand(db.products[rows[0]].name)
      ensures !ByHand(db.products[rows[i]].name)
    {
      assert Ahead(StandingOf(db, rows[0]), StandingOf(db, rows[i]));
    }
  }

  /** A row taken after some of the rows before it keeps the ranking. */
  lemma StillRanked(db: Db, rows: seq<Id>, i: nat, taken: seq<Id>)
    requires RankedBy(db, rows) && RankedBy(db, taken) && i < |rows| && forall j :: 0 <= j < |taken| ==>
      taken[j] in rows[..i]
    ensures RankedBy(db, taken + [rows[i]]) && rows[i] !in rows[..i]
  {
    forall j | 0 <= j < i
      ensures rows[j] != rows[i]
    {
      assert Ahead(StandingOf(db, rows[j]), StandingOf(db, rows[i]));
    }
    forall j | 0 <= j < |taken|
      ensures Ahead(StandingOf(db, taken[j]), StandingOf(db, rows[i]))
    {
      var k :| 0 <= k < i && rows[k] == taken[j];
    }
  }

  // ----- the sweep -----

  predicate Orphan(db: Db, p: Id) {
    && p in db.products
    && (forall o :: o in db.offers ==> db.offers[o].product != p)
    && (forall c :: c in db.collections ==> db.collections[c].product != p)
    && (forall e :: e in db.favorites ==> e.product != p)
    && (forall e :: e in db.blacklist ==> e.product != p)
  }

  function Sweep(db: Db): Db {
    db.(products := map p | p in db.products && !Orphan(db, p) :: db.products[p],
        flavors := map t | t in db.flavors && !Orphan(db, t.product) :: db.flavors[t],
        conflicts := map k | k in db.conflicts && !Orphan(db, k.product) :: db.conflicts[k],
        aliases := map k | k in db.aliases && !Orphan(db, db.aliases[k]) :: db.aliases[k])
  }

  /** The sweep breaks no reference and forgets exactly the keys that landed on an orphan. */
  lemma SweepKeeps(db: Db)
    requires Sound(db)
    ensures Sound(Sweep(db))
    ensures NoTwins(db.products) ==> NoTwins(Sweep(db).products)
    ensures ClashFree(db) ==> ClashFree(Sweep(db))
    ensures ClashFree(db) ==> forall key, p :: Answers(Sweep(db), key, p) <==> Answers(db, key, p) && !Orphan(db, p)
  {
    var next := Sweep(db);
    SweepKeepsReferences(db);
    assert UniqueKeys(next.products);
    if NoTwins(db.products) {
      KeptIdentitiesKeepNoTwins(db.products, next.products);
    }
  }

  lemma SweepKeepsReferences(db: Db)
    requires Sound(db)
    ensures Referential(Sweep(db))
  {
  }

  // ----- one merge, table by table -----

  lemma FactsKeepKeys(products: map<Id, Product>, loser: Id, survivor: Id)
    requires UniqueKeys(products) && loser in products && survivor in products
    ensures UniqueKeys(products[survivor := MergeFacts(products[survivor], products[loser])])
  {
  }

  /** Once everything moved, nothing a user owns and no alias names the loser. */
  lemma NothingNamesTheLoser(db: Db, loser: Id, survivor: Id)
    requires loser != survivor
    ensures forall o :: o in db.offers ==> MoveOffers(db.offers, loser, survivor)[o].product != loser
    ensures forall e :: e in MoveEntries(db.favorites, loser, survivor) ==> e.product != loser
    ensures forall e :: e in MoveEntries(db.blacklist, loser, survivor) ==> e.product != loser
    ensures var rows := MoveCollections(db.collections, loser, survivor); forall r :: r in rows ==>
      rows[r].product != loser
    ensures forall k :: k in db.aliases ==> MoveAliases(db.aliases, loser, survivor)[k] != loser
  {
  }

  lemma RetiredRow(products: map<Id, Product>, loser: Id, survivor: Id)
    requires loser in products && survivor in products && loser != survivor
    ensures var lost, kept := products[loser], products[survivor];
      var facts := products[survivor := MergeFacts(kept, lost)];
      facts[loser := lost.(matchKey := None)][survivor :=
        facts[survivor].(matchKey := Coalesce(kept.matchKey, lost.matchKey))] - {loser}
        == (products - {loser})[survivor := MergeRow(kept, lost)]
  {
  }

  // ----- one group -----

  /** Two rows one planned group names. */
  ghost predicate Grouped(groups: seq<set<Id>>, p: Id, q: Id) {
    exists i :: 0 <= i < |groups| && p in groups[i] && q in groups[i]
  }

  /** The group's rows are live and share one identity. */
  ghost predicate OneIdentity(products: map<Id, Product>, group: set<Id>) {
    && group != {}
    && (forall p :: p in group ==> p in products && IdentityOf(products[p]).Some?)
    && (forall p, q :: p in group && q in group ==> IdentityOf(products[p]) == IdentityOf(products[q]))
  }

  lemma AppendStep(log: seq<Step>, more: seq<Step>, step: Step)
    ensures log + more + [step] == log + (more + [step])
  {
  }

  lemma SameKeysSameSize<V>(left: map<int, V>, right: map<int, V>)
    requires left.Keys == right.Keys
    ensures |left| == |right|
  {
    assert |left| == |left.Keys| && |right| == |right.Keys|;
  }

  /** The footprint is the same before and after any run, and retired keys stay apart from live ones. */
  lemma {:induction false} RunKeepsFootprint(db: Db, log: seq<Step>)
    requires Sound(db) && Feasible(db, log)
    ensures |Run(db, log).offers| == |db.offers| && |Run(db, log).purchases| == |db.purchases|
    ensures ClashFree(db) ==> ClashFree(Run(db, log))
  {
    OffersFollow(db, log);
    PurchasesKeepTheirOwner(db, log);
    SameKeysSameSize(Run(db, log).offers, db.offers);
    SameKeysSameSize(Run(db, log).purchases, db.purchases);
    if ClashFree(db) {
      KeysFollow(db, log);
    }
  }

  /** The log after one curated correction. */
  function CuratedLog(log: seq<Step>, curated: CuratedFold, loser: Id, survivor: Id, key: Option<string>): seq<Step> {
    log + (if curated.clearAgeAndAbv then [Clear(loser)] else []) + [Fold(loser, survivor)] +
    (if !curated.keepAlias && key.Some? then [Forget(key.value)] else [])
  }

  /** One more step that applies extends the run, the redirects and what was forgotten by just that step. */
  lemma {:induction false} LogsOneMore(start: Db, log: seq<Step>, step: Step)
    requires Sound(start) && Feasible(start, log) && Applies(Run(start, log), step)
    ensures Feasible(start, log + [step]) && Run(start, log + [step]) == Apply(Run(start, log), step)
    ensures Redirects(log + [step])
      == if step.Fold? then Redirects(log)[step.loser := step.survivor] else Redirects(log)
    ensures Forgotten(log + [step]) == Forgotten(log) + if step.Forget? then {step.key} else {}
  {
    assert (log + [step])[..|log|] == log;
  }

  lemma StepKeepsNoAgeByHand(db: Db, step: Step)
    requires Sound(db) && Applies(db, step) && NoAgeByHand(db.products)
    ensures NoAgeByHand(Apply(db, step).products)
  {
  }

  /** No run sets an age by hand. */
  lemma {:induction false} RunKeepsNoAgeByHand(db: Db, log: seq<Step>)
    requires Sound(db) && NoAgeByHand(db.products)
    ensures NoAgeByHand(Run(db, log).products)
  {
    if log != [] {
      var front := log[..|log| - 1];
      RunKeepsNoAgeByHand(db, front);
      if Applies(Run(db, front), log[|log| - 1]) {
        StepKeepsNoAgeByHand(Run(db, front), log[|log| - 1]);
      }
    }
  }

  // ----- what each pass does, group by group -----

  /** The rows a planned group stands for by now, best first. */
  ghost predicate StandsFor(db: Db, log: seq<Step>, group: set<Id>, rows: seq<Id>) {
    && RankedBy(db, rows)
    && forall p :: p in rows <==> p in db.products && exists id :: id in group && Resolve(log, id) == p
  }

  /** The first row and those after it that it may take in. */
  function TakenIn(products: map<Id, Product>, rows: seq<Id>): (taken: seq<Id>)
    requires rows != [] && forall i :: 0 <= i < |rows| ==> rows[i] in products
    ensures taken != [] && taken[0] == rows[0]
  {
    var n := |rows| - 1;
    if n == 0 then rows
    else TakenIn(products, rows[..n]) + if Eligible(products[rows[0]], products[rows[n]]) then [rows[n]] else []
  }

  /** The earliest row of one identity, if any. */
  ghost predicate IsFirst(products: map<Id, Product>, identity: Identity, row: Option<Id>) {
    && (row.Some? ==> row.value in products && IdentityOf(products[row.value]) == Some(identity))
    && forall p :: p in products && IdentityOf(products[p]) == Some(identity) ==>
                     row.Some? && (products[row.value].createdAt < products[p].createdAt
                                   || (products[row.value].createdAt == products[p].createdAt && row.value <= p))
  }

  /** A curated correction folds the two rows it finds apart, and otherwise does nothing. */
  ghost predicate CuratedTurn(start: Db, before: seq<Step>, curated: CuratedFold, after: seq<Step>)
    requires Sound(start)
  {
    var products := Run(start, before).products;
    exists from, into :: IsFirst(products, curated.from, from) && IsFirst(products, curated.into, into) &&
      after == if from.None? || into.None? || from == into then before
               else CuratedLog(before, curated, from.value, into.value, products[from.value].matchKey)
  }

  ghost predicate IdentityTurn(start: Db, before: seq<Step>, group: set<Id>, after: seq<Step>)
    requires Sound(start)
  {
    exists rows :: rows != [] && StandsFor(Run(start, before), before, group, rows) && after == before + Folds(rows)
  }

  /** A barcode group folds the rows its best row may take in. */
  ghost predicate BarcodeTurn(start: Db, before: seq<Step>, group: set<Id>, after: seq<Step>)
    requires Sound(start)
  {
    var db := Run(start, before);
    exists rows :: StandsFor(db, before, group, rows) &&
      after == if |rows| < 2 then before else before + Folds(TakenIn(db.products, rows))
  }

  ghost predicate CuratedPass(start: Db, before: seq<Step>, curated: seq<CuratedFold>, after: seq<Step>)
    requires Sound(start)
  {
    if curated == [] then after == before
    else
      var front, last := curated[..|curated| - 1], curated[|curated| - 1];
      exists mid :: CuratedPass(start, before, front, mid) && CuratedTurn(start, mid, last, after)
  }

  ghost predicate IdentityPass(start: Db, before: seq<Step>, groups: seq<set<Id>>, after: seq<Step>)
    requires Sound(start)
  {
    if groups == [] then after == before
    else
      var front, last := groups[..|groups| - 1], groups[|groups| - 1];
      exists mid :: IdentityPass(start, before, front, mid) && IdentityTurn(start, mid, last, after)
  }

  ghost predicate BarcodePass(start: Db, before: seq<Step>, groups: seq<set<Id>>, after: seq<Step>)
    requires Sound(start)
  {
    if groups == [] then after == before
    else
      var front, last := groups[..|groups| - 1], groups[|groups| - 1];
      exists mid :: BarcodePass(start, before, front, mid) && BarcodeTurn(start, mid, last, after)
  }

  lemma CuratedPassThen(start: Db, before: seq<Step>, curated: seq<CuratedFold>, mid: seq<Step>, after: seq<Step>)
    requires Sound(start) && curated != []
    requires CuratedPass(start, before, curated[..|curated| - 1], mid)
      && CuratedTurn(start, mid, curated[|curated| - 1], after)
    ensures CuratedPass(start, before, curated, after)
  {
  }

  lemma {:induction false} CuratedPassGoesOn(start: Db, before: seq<Step>, curated: seq<CuratedFold>, i: nat,
                                             mid: seq<Step>, after: seq<Step>)
    requires Sound(start) && i < |curated|
    requires CuratedPass(start, before, curated[..i], mid) && CuratedTurn(start, mid, curated[i], after)
    ensures CuratedPass(start, before, curated[..i + 1], after)
  {
    var done := curated[..i + 1];
    assert done[..|done| - 1] == curated[..i] && done[|done| - 1] == curated[i];
    CuratedPassThen(start, before, done, mid, after);
  }

  lemma IdentityPassThen(start: Db, before: seq<Step>, groups: seq<set<Id>>, mid: seq<Step>, after: seq<Step>)
    requires Sound(start) && groups != []
    requires IdentityPass(start, before, groups[..|groups| - 1], mid)
      && IdentityTurn(start, mid, groups[|groups| - 1], after)
    ensures IdentityPass(start, before, groups, after)
  {
  }

  lemma {:induction false} IdentityPassGoesOn(start: Db, before: seq<Step>, groups: seq<set<Id>>, i: nat,
                                              mid: seq<Step>, after: seq<Step>)
    requires Sound(start) && i < |groups|
    requires IdentityPass(start, before, groups[..i], mid) && IdentityTurn(start, mid, groups[i], after)
    ensures IdentityPass(start, before, groups[..i + 1], after)
  {
    var done := groups[..i + 1];
    assert done[..|done| - 1] == groups[..i] && done[|done| - 1] == groups[i];
    IdentityPassThen(start, before, done, mid, after);
  }

  lemma BarcodePassThen(start: Db, before: seq<Step>, groups: seq<set<Id>>, mid: seq<Step>, after: seq<Step>)
    requires Sound(start) && groups != []
    requires BarcodePass(start, before, groups[..|groups| - 1], mid)
      && BarcodeTurn(start, mid, groups[|groups| - 1], after)
    ensures BarcodePass(start, before, groups, after)
  {
  }

  lemma {:induction false} BarcodePassGoesOn(start: Db, before: seq<Step>, groups: seq<set<Id>>, i: nat, mid: seq<Step>,
                                             after: seq<Step>)
    requires Sound(start) && i < |groups|
    requires BarcodePass(start, before, groups[..i], mid) && BarcodeTurn(start, mid, groups[i], after)
    ensures BarcodePass(start, before, groups[..i + 1], after)
  {
    var done := groups[..i + 1];
    assert done[..|done| - 1] == groups[..i] && done[|done| - 1] == groups[i];
    BarcodePassThen(start, before, done, mid, after);
  }

  /** The groups of two or more rows that share one identity: disjoint, and all the twins there are. */
  ghost predicate IdentityPlan(products: map<Id, Product>, groups: seq<set<Id>>) {
    && (forall i :: 0 <= i < |groups| ==> OneIdentity(products, groups[i]))
    && (forall i, j :: 0 <= i < j < |groups| ==> groups[i] !! groups[j])
    && (forall p, q :: Twins(products, p, q) ==> Grouped(groups, p, q))
  }

  /** Of each of the first `i` groups a single row is left, the later ones are whole, and no identity changed. */
  ghost predicate Thinned(before: map<Id, Product>, now: map<Id, Product>, groups: seq<set<Id>>, i: int) {
    && (forall p :: p in now ==> p in before && IdentityOf(now[p]) == IdentityOf(before[p]))
    && (forall j, p :: i <= j < |groups| && 0 <= j && p in groups[j] ==> p in now)
    && (forall j, p, q :: 0 <= j < i && j < |groups| && p in groups[j] && q in groups[j] && p in now && q in now ==>
         p == q)
  }

  lemma ThinnedNext(before: map<Id, Product>, now: map<Id, Product>, next: map<Id, Product>, groups: seq<set<Id>>,
                    i: int)
    requires Thinned(before, now, groups, i) && 0 <= i < |groups|
    requires forall j :: i < j < |groups| ==> groups[i] !! groups[j]
    requires forall p :: p in next ==> p in now && IdentityOf(next[p]) == IdentityOf(now[p])
    requires forall p :: p in now && p !in groups[i] ==> p in next
    requires forall p, q :: p in groups[i] && q in groups[i] && p in next && q in next ==> p == q
    ensures Thinned(before, next, groups, i + 1)
  {
  }

  lemma ThinnedHasNoTwins(before: map<Id, Product>, now: map<Id, Product>, groups: seq<set<Id>>)
    requires IdentityPlan(before, groups) && Thinned(before, now, groups, |groups|)
    ensures NoTwins(now)
  {
    forall p, q
      ensures !Twins(now, p, q)
    {
      assert Twins(before, p, q) ==> Grouped(groups, p, q);
    }
  }

  lemma StillOneIdentity(before: map<Id, Product>, now: map<Id, Product>, groups: seq<set<Id>>, i: int)
    requires IdentityPlan(before, groups) && Thinned(before, now, groups, i) && 0 <= i < |groups|
    ensures OneIdentity(now, groups[i])
  {
    assert OneIdentity(before, groups[i]);
  }

  /** The passes in order: the curated folds, the identity groups as they then are, up to `settled`, and from there
      the barcode groups. */
  ghost predicate SettledAt(start: Db, curated: seq<CuratedFold>, barcodes: seq<set<Id>>, settled: seq<Step>,
                            log: seq<Step>)
    requires Sound(start)
  {
    exists first, groups ::
      && CuratedPass(start, [], curated, first)
      && IdentityPlan(Run(start, first).products, groups) && IdentityPass(start, first, groups, settled)
      && BarcodePass(start, settled, barcodes, log)
  }

  /** The log of a whole repair. */
  ghost predicate RepairLog(start: Db, curated: seq<CuratedFold>, barcodes: seq<set<Id>>, log: seq<Step>)
    requires Sound(start)
  {
    exists settled :: SettledAt(start, curated, barcodes, settled, log)
  }

  /** The `k`th step folds a row whose hand-set age moves onto a name and volume already taken at that age. */
  ghost predicate FoldMovesTakenAge(start: Db, log: seq<Step>, k: int)
    requires Sound(start)
  {
    0 <= k < |log| && MovesTakenAge(Run(start, log[..k]), log[k])
  }

  /** Some fold of the barcode pass does. */
  ghost predicate BarcodeTakesAge(start: Db, curated: seq<CuratedFold>, barcodes: seq<set<Id>>, log: seq<Step>)
    requires Sound(start)
  {
    exists settled, k ::
      SettledAt(start, curated, barcodes, settled, log) && |settled| <= k && FoldMovesTakenAge(start, log, k)
  }

  lemma {:induction false} SettledThenShared(start: Db, curated: seq<CuratedFold>, barcodes: seq<set<Id>>,
                                             first: seq<Step>, groups: seq<set<Id>>, settled: seq<Step>, log: seq<Step>)
    requires Sound(start) && CuratedPass(start, [], curated, first)
    requires IdentityPlan(Run(start, first).products, groups) && IdentityPass(start, first, groups, settled)
    requires BarcodePass(start, settled, barcodes, log)
    ensures RepairLog(start, curated, barcodes, log)
    ensures (exists k :: |settled| <= k < |log| && FoldMovesTakenAge(start, log, k)) ==>
      BarcodeTakesAge(start, curated, barcodes, log)
  {
    assert SettledAt(start, curated, barcodes, settled, log);
  }

  /** Where no person ever set an age there is none to move. */
  lemma NoneToTake(start: Db, curated: seq<CuratedFold>, barcodes: seq<set<Id>>, log: seq<Step>)
    requires Sound(start) && NoAgeByHand(start.products)
    ensures !BarcodeTakesAge(start, curated, barcodes, log)
  {
    forall k | 0 <= k < |log|
      ensures !FoldMovesTakenAge(start, log, k)
    {
      RunKeepsNoAgeByHand(start, log[..k]);
    }
  }

  // ----- twins of the barcode pass -----

  lemma {:induction false} TakenInRanked(db: Db, rows: seq<Id>)
    requires rows != [] && RankedBy(db, rows)
    ensures RankedBy(db, TakenIn(db.products, rows)) && AllEligible(db, TakenIn(db.products, rows))
    ensures forall j :: 0 <= j < |TakenIn(db.products, rows)| ==> TakenIn(db.products, rows)[j] in rows
  {
    var n := |rows| - 1;
    if n > 0 {
      TakenInRanked(db, rows[..n]);
      StillRanked(db, rows, n, TakenIn(db.products, rows[..n]));
    }
    RankedGroupIsNamedFirst(db, TakenIn(db.products, rows));
  }

  lemma {:induction false} FoldsInOrder(rows: seq<Id>, i: nat)
    requires 1 <= i < |rows|
    ensures |Folds(rows)| == |rows| - 1 && Folds(rows)[..i - 1] == Folds(rows[..i])
    ensures Folds(rows)[i - 1] == Fold(rows[i], rows[0])
  {
    var n := |rows| - 1;
    if n > 1 {
      FoldsInOrder(rows[..n], if i < n then i else n - 1);
    }
    if i < n {
      assert rows[..n][..i] == rows[..i];
    }
  }

  lemma AppendedAt(before: seq<Step>, more: seq<Step>, j: nat)
    requires j < |more|
    ensures (before + more)[..|before| + j] == before + more[..j] && (before + more)[|before| + j] == more[j]
  {
  }

  lemma {:induction false} ReadOff(start: Db, log: seq<Step>, k: nat, before: seq<Step>, step: Step)
    requires Sound(start) && k < |log| && log[..k] == before && log[k] == step
      && MovesTakenAge(Run(start, before), step)
    ensures FoldMovesTakenAge(start, log, k)
  {
  }

  /** A step, read off the log it was appended to. */
  lemma {:induction false} FoldInLog(start: Db, before: seq<Step>, more: seq<Step>, j: nat)
    requires Sound(start) && j < |more| && MovesTakenAge(Run(Run(start, before), more[..j]), more[j])
    ensures FoldMovesTakenAge(start, before + more, |before| + j)
  {
    AppendedAt(before, more, j);
    RunConcat(start, before, more[..j]);
    ReadOff(start, before + more, |before| + j, before + more[..j], more[j]);
  }

  lemma {:induction false} TurnTwins(start: Db, before: seq<Step>, group: set<Id>, after: seq<Step>)
    requires Sound(start) && BarcodeTurn(start, before, group, after) && NoTwins(Run(start, before).products)
    ensures before <= after
    ensures NoTwins(Run(start, after).products) || exists k ::
      |before| <= k < |after| && FoldMovesTakenAge(start, after, k)
  {
    var db := Run(start, before);
    var rows :| StandsFor(db, before, group, rows) &&
      after == if |rows| < 2 then before else before + Folds(TakenIn(db.products, rows));
    if |rows| >= 2 {
      TakenInRanked(db, rows);
      FoldsTwins(start, before, TakenIn(db.products, rows));
    }
  }

  lemma {:induction false} GroupFoldInLog(start: Db, before: seq<Step>, rows: seq<Id>, i: nat)
    requires Sound(start) && 1 <= i < |rows|
    requires MovesTakenAge(Run(Run(start, before), Folds(rows[..i])), Fold(rows[i], rows[0]))
    ensures FoldMovesTakenAge(start, before + Folds(rows), |before| + i - 1)
  {
    FoldsInOrder(rows, i);
    FoldInLog(start, before, Folds(rows), i - 1);
  }

  lemma {:induction false} NoneMovesNoTwins(start: Db, before: seq<Step>, rows: seq<Id>)
    requires Sound(start) && NoTwins(Run(start, before).products)
    requires rows != [] && RankedBy(Run(start, before), rows) && AllEligible(Run(start, before), rows)
    requires forall i | 1 <= i < |rows| ::
      !MovesTakenAge(Run(Run(start, before), Folds(rows[..i])), Fold(rows[i], rows[0]))
    ensures NoTwins(Run(start, before + Folds(rows)).products)
  {
    RankedGroupIsNamedFirst(Run(start, before), rows);
    TwinsComeFromTakenAges(Run(start, before), rows, |rows|);
    assert rows[..|rows|] == rows;
    RunConcat(start, before, Folds(rows));
  }

  lemma {:induction false} FoldsTwins(start: Db, before: seq<Step>, rows: seq<Id>)
    requires Sound(start) && NoTwins(Run(start, before).products)
    requires rows != [] && RankedBy(Run(start, before), rows) && AllEligible(Run(start, before), rows)
    ensures var after := before + Folds(rows);
      NoTwins(Run(start, after).products) || exists k :: |before| <= k < |after| && FoldMovesTakenAge(start, after, k)
  {
    if i :| 1 <= i < |rows| && MovesTakenAge(Run(Run(start, before), Folds(rows[..i])), Fold(rows[i], rows[0])) {
      GroupFoldInLog(start, before, rows, i);
    } else {
      NoneMovesNoTwins(start, before, rows);
    }
  }

  lemma EarlierFold(start: Db, mid: seq<Step>, after: seq<Step>, k: int)
    requires Sound(start) && mid <= after && FoldMovesTakenAge(start, mid, k)
    ensures FoldMovesTakenAge(start, after, k)
  {
    assert mid[..k] == after[..k] && mid[k] == after[k];
  }

  /** Twins after a barcode pass come from a fold of it that moved a person's age onto a taken identity. */
  lemma {:induction false} PassTwins(start: Db, before: seq<Step>, groups: seq<set<Id>>, after: seq<Step>)
    requires Sound(start) && BarcodePass(start, before, groups, after) && NoTwins(Run(start, before).products)
    ensures before <= after
    ensures NoTwins(Run(start, after).products) || exists k ::
      |before| <= k < |after| && FoldMovesTakenAge(start, after, k)
    decreases |groups|
  {
    if groups != [] {
      var front, last := groups[..|groups| - 1], groups[|groups| - 1];
      var mid :| BarcodePass(start, before, front, mid) && BarcodeTurn(start, mid, last, after);
      PassTwins(start, before, front, mid);
      if NoTwins(Run(start, mid).products) {
        TurnTwins(start, mid, last, after);
      } else {
        var k :| |before| <= k < |mid| && FoldMovesTakenAge(start, mid, k);
        TurnExtends(start, mid, last, after);
        EarlierFold(start, mid, after, k);
      }
    }
  }

  lemma TurnExtends(start: Db, before: seq<Step>, group: set<Id>, after: seq<Step>)
    requires Sound(start) && BarcodeTurn(start, before, group, after)
    ensures before <= after
  {
  }
}
