/** One ranked group folded into its first row: the survivor's row, the identity pass and the barcode pass. */
module GroupFold {
  import opened Facts
  import opened Tables
  import opened MergeRun

  /** The folds of a ranked group: every later row into the first, in order. */
  function Folds(rows: seq<Id>): seq<Step>
    requires rows != []
  {
    if |rows| == 1 then [] else Folds(rows[..|rows| - 1]) + [Fold(rows[|rows| - 1], rows[0])]
  }

  ghost predicate Distinct(rows: seq<Id>) {
    forall i, j :: 0 <= i < j < |rows| ==> rows[i] != rows[j]
  }

  ghost predicate LiveGroup(db: Db, rows: seq<Id>) {
    rows != [] && Distinct(rows) && forall i :: 0 <= i < |rows| ==> rows[i] in db.products
  }

  function FoldRows(rows: seq<Product>): Product
    requires rows != []
  {
    if |rows| == 1 then rows[0] else MergeRow(FoldRows(rows[..|rows| - 1]), rows[|rows| - 1])
  }

  ghost function RowsOf(db: Db, rows: seq<Id>): seq<Product>
    requires LiveGroup(db, rows)
  {
    seq(|rows|, i requires 0 <= i < |rows| => db.products[rows[i]])
  }

  /** The rows a fold deletes. */
  ghost function Later(rows: seq<Id>): set<Id>
    requires rows != []
  {
    set p | p in rows[1..]
  }

  lemma LaterStep(rows: seq<Id>)
    requires |rows| > 1 && Distinct(rows)
    ensures Later(rows) == Later(rows[..|rows| - 1]) + {rows[|rows| - 1]}
    ensures rows[|rows| - 1] !in Later(rows[..|rows| - 1]) && rows[0] !in Later(rows)
  {
    assert rows[1..] == rows[..|rows| - 1][1..] + [rows[|rows| - 1]];
  }

  /** No fold of a live group can fail, its later rows are gone, the first carries what all of them knew,
      and no other row changed. */
  lemma {:induction false} FoldGroupRows(db: Db, rows: seq<Id>)
    requires Sound(db) && LiveGroup(db, rows)
    ensures Feasible(db, Folds(rows))
    ensures var after := Run(db, Folds(rows)).products;
      && after.Keys == db.products.Keys - Later(rows)
      && rows[0] in after && after[rows[0]] == FoldRows(RowsOf(db, rows))
      && forall p :: p in after && p != rows[0] ==> after[p] == db.products[p]
  {
    var n := |rows| - 1;
    if n > 0 {
      var front := rows[..n];
      FoldGroupRows(db, front);
      LaterStep(rows);
      assert Folds(rows)[..|Folds(rows)| - 1] == Folds(front);
      assert RowsOf(db, rows)[..n] == RowsOf(db, front);
      FoldOneMore(db, Run(db, Folds(front)), rows);
    } else {
      assert RowsOf(db, rows) == [db.products[rows[0]]];
    }
  }

  lemma FoldOneMore(db: Db, before: Db, rows: seq<Id>)
    requires Sound(db) && Sound(before) && LiveGroup(db, rows) && |rows| > 1
    requires rows[|rows| - 1] !in Later(rows[..|rows| - 1]) && rows[0] !in Later(rows)
    requires Later(rows) == Later(rows[..|rows| - 1]) + {rows[|rows| - 1]}
    requires before.products.Keys == db.products.Keys - Later(rows[..|rows| - 1])
    requires before.products[rows[0]] == FoldRows(RowsOf(db, rows)[..|rows| - 1])
    requires forall p :: p in before.products && p != rows[0] ==> before.products[p] == db.products[p]
    ensures Applies(before, Fold(rows[|rows| - 1], rows[0]))
    ensures var after := MergeInto(before, rows[|rows| - 1], rows[0]).products;
      && after.Keys == db.products.Keys - Later(rows)
      && after[rows[0]] == FoldRows(RowsOf(db, rows))
      && forall p :: p in after && p != rows[0] ==> after[p] == db.products[p]
  {
  }

  lemma NextFold(rows: seq<Id>, i: int)
    requires 1 <= i < |rows|
    ensures Folds(rows[..i + 1]) == Folds(rows[..i]) + [Fold(rows[i], rows[0])]
  {
    assert rows[..i + 1][..i] == rows[..i];
  }

  lemma {:induction false} NextRowsAreLive(db: Db, rows: seq<Id>, i: int)
    requires Sound(db) && LiveGroup(db, rows) && 1 <= i < |rows|
    ensures Applies(Run(db, Folds(rows[..i])), Fold(rows[i], rows[0]))
  {
    FoldGroupRows(db, rows[..i]);
    assert rows[i] !in Later(rows[..i]) && rows[0] !in Later(rows[..i]);
  }

  lemma {:induction false} RunOneMore(db: Db, log: seq<Step>, step: Step)
    requires Sound(db) && Applies(Run(db, log), step)
    ensures Run(db, log + [step]) == Apply(Run(db, log), step)
  {
    assert (log + [step])[..|log|] == log;
  }

  /** The next fold of a group finds both its rows live, and extends the folds made so far. */
  lemma {:induction false} GroupStep(db: Db, rows: seq<Id>, i: int)
    requires Sound(db) && LiveGroup(db, rows) && 1 <= i < |rows|
    ensures Applies(Run(db, Folds(rows[..i])), Fold(rows[i], rows[0]))
    ensures Folds(rows[..i + 1]) == Folds(rows[..i]) + [Fold(rows[i], rows[0])]
    ensures Run(db, Folds(rows[..i + 1])) == MergeInto(Run(db, Folds(rows[..i])), rows[i], rows[0])
  {
    NextRowsAreLive(db, rows, i);
    NextFold(rows, i);
    RunOneMore(db, Folds(rows[..i]), Fold(rows[i], rows[0]));
  }

  ghost function Names(rows: seq<Product>): seq<Fact<DisplayName>> {
    seq(|rows|, i requires 0 <= i < |rows| => rows[i].name)
  }

  ghost function Ages(rows: seq<Product>): seq<Fact<int>> {
    seq(|rows|, i requires 0 <= i < |rows| => rows[i].age)
  }

  ghost function Volumes(rows: seq<Product>): seq<Fact<int>> {
    seq(|rows|, i requires 0 <= i < |rows| => rows[i].volumeMl)
  }

  ghost function Abvs(rows: seq<Product>): seq<Fact<int>> {
    seq(|rows|, i requires 0 <= i < |rows| => rows[i].abv)
  }

  ghost function Types(rows: seq<Product>): seq<Fact<int>> {
    seq(|rows|, i requires 0 <= i < |rows| => rows[i].typeId)
  }

  ghost function Countries(rows: seq<Product>): seq<Fact<int>> {
    seq(|rows|, i requires 0 <= i < |rows| => rows[i].countryId)
  }

  /** The folded row's columns are the folds of the group's columns. */
  lemma {:induction false} FoldRowsByColumn(rows: seq<Product>)
    requires rows != []
    ensures FoldRows(rows).name == FoldDecided(Names(rows))
    ensures FoldRows(rows).age == FoldDecided(Ages(rows))
    ensures FoldRows(rows).volumeMl == FoldDecided(Volumes(rows))
    ensures FoldRows(rows).abv == FoldTrusted(Abvs(rows))
    ensures FoldRows(rows).typeId == FoldTrusted(Types(rows))
    ensures FoldRows(rows).countryId == FoldTrusted(Countries(rows))
  {
    var n := |rows| - 1;
    if n > 0 {
      var front := rows[..n];
      FoldRowsByColumn(front);
      assert Names(rows)[..n] == Names(front) && Ages(rows)[..n] == Ages(front) && Volumes(rows)[..n] == Volumes(front);
      assert Abvs(rows)[..n] == Abvs(front) && Types(rows)[..n] == Types(front)
        && Countries(rows)[..n] == Countries(front);
    }
  }

  ghost predicate MakerByHand(row: Product) {
    row.maker.source == Some(Manual)
  }

  /** Row `i` is the first whose maker a person set; if nobody set any, the first that names a producer; and if none
      does, the survivor. */
  ghost predicate DecidesMaker(rows: seq<Product>, i: int) {
    0 <= i < |rows| &&
    if MakerByHand(rows[i]) then forall j :: 0 <= j < i ==> !MakerByHand(rows[j])
    else
      && (forall j :: 0 <= j < |rows| ==> !MakerByHand(rows[j]))
      && if rows[i].maker.producerId.Some?
         then forall j :: 0 <= j < i ==> rows[j].maker.producerId.None?
         else i == 0 && forall j :: 0 <= j < |rows| ==> rows[j].maker.producerId.None?
  }

  /** The three columns of the maker come together from that row. */
  lemma {:induction false} FoldRowsMaker(rows: seq<Product>) returns (i: int)
    requires rows != []
    ensures DecidesMaker(rows, i) && FoldRows(rows).maker == rows[i].maker
  {
    var n := |rows| - 1;
    if n == 0 {
      return 0;
    }
    var front := rows[..n];
    i := FoldRowsMaker(front);
    assert forall j :: 0 <= j < n ==> rows[j] == front[j];
    if !MakerByHand(rows[i]) && (MakerByHand(rows[n])
      || (rows[i].maker.producerId.None? && rows[n].maker.producerId.Some?)) {
      i := n;
    }
  }

  ghost predicate Latest(stamps: seq<Option<int>>, latest: Option<int>) {
    && (latest.Some? ==> latest in stamps)
    && forall i :: 0 <= i < |stamps| && stamps[i].Some? ==> latest.Some? && stamps[i].value <= latest.value
  }

  ghost function LlmStamps(rows: seq<Product>): seq<Option<int>> {
    seq(|rows|, i requires 0 <= i < |rows| => rows[i].lastLlmFlavorAt)
  }

  ghost function CurationStamps(rows: seq<Product>): seq<Option<int>> {
    seq(|rows|, i requires 0 <= i < |rows| => rows[i].flavorsCuratedAt)
  }

  lemma LatestNext(stamps: seq<Option<int>>, latest: Option<int>, last: Option<int>, next: Option<int>)
    requires stamps != [] && stamps[|stamps| - 1] == last && Latest(stamps[..|stamps| - 1], latest)
    requires next == latest || next == last
    requires latest.Some? ==> next.Some? && latest.value <= next.value
    requires last.Some? ==> next.Some? && last.value <= next.value
    ensures Latest(stamps, next)
  {
    assert stamps == stamps[..|stamps| - 1] + [last];
  }

  /** Both stamps end as the latest any row carries; the row was created when the survivor was. */
  lemma {:induction false} FoldRowsStamps(rows: seq<Product>)
    requires rows != []
    ensures Latest(LlmStamps(rows), FoldRows(rows).lastLlmFlavorAt)
    ensures Latest(CurationStamps(rows), FoldRows(rows).flavorsCuratedAt)
    ensures FoldRows(rows).createdAt == rows[0].createdAt
  {
    var n := |rows| - 1;
    if n > 0 {
      var front := rows[..n];
      FoldRowsStamps(front);
      assert LlmStamps(rows)[..n] == LlmStamps(front) && CurationStamps(rows)[..n] == CurationStamps(front);
      LatestNext(LlmStamps(rows), FoldRows(front).lastLlmFlavorAt, rows[n].lastLlmFlavorAt,
        FoldRows(rows).lastLlmFlavorAt);
      LatestNext(CurationStamps(rows), FoldRows(front).flavorsCuratedAt, rows[n].flavorsCuratedAt,
        FoldRows(rows).flavorsCuratedAt);
    } else {
      assert LlmStamps(rows) == [rows[0].lastLlmFlavorAt] && CurationStamps(rows) == [rows[0].flavorsCuratedAt];
    }
  }

  ghost predicate FirstStated(values: seq<Option<string>>, i: int, value: Option<string>) {
    0 <= i < |values| && values[i] == value && forall j :: 0 <= j < i ==> values[j].None?
  }

  /** The value is the first stated one, or none where none is stated. */
  ghost predicate IsFirstStated(values: seq<Option<string>>, value: Option<string>) {
    if value.Some? then exists i :: FirstStated(values, i, value)
    else forall j :: 0 <= j < |values| ==> values[j].None?
  }

  ghost function Keys(rows: seq<Product>): seq<Option<string>> {
    seq(|rows|, i requires 0 <= i < |rows| => rows[i].matchKey)
  }

  ghost function Brands(rows: seq<Product>): seq<Option<string>> {
    seq(|rows|, i requires 0 <= i < |rows| => rows[i].brandOrig)
  }

  lemma FirstStatedNext(values: seq<Option<string>>, value: Option<string>, next: Option<string>)
    requires values != [] && IsFirstStated(values[..|values| - 1], value)
    requires next == if value.Some? then value else values[|values| - 1]
    ensures IsFirstStated(values, next)
  {
    var n := |values| - 1;
    assert forall j :: 0 <= j < n ==> values[..n][j] == values[j];
    if value.Some? {
      var i :| FirstStated(values[..n], i, value);
      assert FirstStated(values, i, next);
    } else if next.Some? {
      assert FirstStated(values, n, next);
    }
  }

  /** The survivor keeps its own key, or adopts the first key folded into it; so too the shop's brand text. */
  lemma {:induction false} FoldRowsKeyAndBrand(rows: seq<Product>)
    requires rows != []
    ensures IsFirstStated(Keys(rows), FoldRows(rows).matchKey)
    ensures IsFirstStated(Brands(rows), FoldRows(rows).brandOrig)
  {
    var n := |rows| - 1;
    if n > 0 {
      var front := rows[..n];
      FoldRowsKeyAndBrand(front);
      assert Keys(rows)[..n] == Keys(front) && Brands(rows)[..n] == Brands(front);
      FirstStatedNext(Keys(rows), FoldRows(front).matchKey, FoldRows(rows).matchKey);
      FirstStatedNext(Brands(rows), FoldRows(front).brandOrig, FoldRows(rows).brandOrig);
    } else {
      assert rows[0].matchKey.Some? ==> FirstStated(Keys(rows), 0, rows[0].matchKey);
      assert rows[0].brandOrig.Some? ==> FirstStated(Brands(rows), 0, rows[0].brandOrig);
    }
  }

  /** In the catalogue the survivor of a group carries just that. */
  lemma {:induction false} FoldedRest(db: Db, rows: seq<Id>) returns (i: int)
    requires Sound(db) && LiveGroup(db, rows)
    ensures rows[0] in Run(db, Folds(rows)).products
    ensures var after, group := Run(db, Folds(rows)).products[rows[0]], RowsOf(db, rows);
      && DecidesMaker(group, i) && after.maker == group[i].maker
      && Latest(LlmStamps(group), after.lastLlmFlavorAt) && Latest(CurationStamps(group), after.flavorsCuratedAt)
      && IsFirstStated(Keys(group), after.matchKey) && IsFirstStated(Brands(group), after.brandOrig)
      && after.createdAt == db.products[rows[0]].createdAt
  {
    FoldGroupRows(db, rows);
    i := FoldRowsMaker(RowsOf(db, rows));
    FoldRowsStamps(RowsOf(db, rows));
    FoldRowsKeyAndBrand(RowsOf(db, rows));
  }

  /** After a group was folded, strength, type and country are each the first of the best-sourced values the
      group stated, exactly when nobody had cleared the fact on the survivor. */
  lemma {:induction false} FoldedFactsAreBest(db: Db, rows: seq<Id>)
    requires Sound(db) && LiveGroup(db, rows)
    ensures rows[0] in Run(db, Folds(rows)).products
    ensures var after, group := Run(db, Folds(rows)).products[rows[0]], RowsOf(db, rows);
      && IsBestIffNotCleared(after.abv, Abvs(group))
      && IsBestIffNotCleared(after.typeId, Types(group))
      && IsBestIffNotCleared(after.countryId, Countries(group))
  {
    FoldGroupRows(db, rows);
    var group := RowsOf(db, rows);
    FoldRowsByColumn(group);
    if AnyStated(Abvs(group)) { FoldIsBestStated(Abvs(group)); }
    if AnyStated(Types(group)) { FoldIsBestStated(Types(group)); }
    if AnyStated(Countries(group)) { FoldIsBestStated(Countries(group)); }
  }

  ghost predicate IsBestIffNotCleared(fact: Fact<int>, group: seq<Fact<int>>) {
    group != [] &&
    (AnyStated(group) ==> ((exists i :: BestStated(group, i) && fact == group[i]) <==> !ClearedByHand(group[0])))
  }

  // ----- identity -----

  /** What makes two rows one whisky: the identity form of the name, the volume and the age. */
  datatype Identity = Identity(name: string, volumeMl: Option<int>, age: Option<int>)

  function IdentityOf(product: Product): Option<Identity> {
    if product.name.value.None? then None
    else Some(Identity(product.name.value.value.identity, product.volumeMl.value, product.age.value))
  }

  predicate Twins(products: map<Id, Product>, p: Id, q: Id) {
    && p in products && q in products && p != q
    && IdentityOf(products[p]).Some? && IdentityOf(products[p]) == IdentityOf(products[q])
  }

  ghost predicate NoTwins(products: map<Id, Product>) {
    forall p, q :: !Twins(products, p, q)
  }

  /** A ranked group puts a name a person set first: a first row without one means no row has one. */
  ghost predicate NamedFirst(db: Db, rows: seq<Id>) {
    LiveGroup(db, rows) &&
    (ByHand(db.products[rows[0]].name) || forall i :: 0 <= i < |rows| ==> !ByHand(db.products[rows[i]].name))
  }

  /** Ranking keeps the survivor's name from ever changing. */
  lemma {:induction false} SurvivorKeepsItsName(db: Db, rows: seq<Id>)
    requires Sound(db) && NamedFirst(db, rows)
    ensures rows[0] in Run(db, Folds(rows)).products
    ensures Run(db, Folds(rows)).products[rows[0]].name == db.products[rows[0]].name
  {
    var names := Names(RowsOf(db, rows));
    FoldGroupRows(db, rows);
    FoldRowsByColumn(RowsOf(db, rows));
    assert forall i :: 0 <= i < |names| ==> names[i] == db.products[rows[i]].name;
    FirstDecides(names);
  }

  lemma {:induction false} FoldDecidedOfEqualValues(group: seq<Fact<int>>)
    requires group != [] && forall i :: 0 <= i < |group| ==> group[i].value == group[0].value
    ensures FoldDecided(group).value == group[0].value
  {
    if |group| > 1 {
      FoldDecidedOfEqualValues(group[..|group| - 1]);
    }
  }

  /** Folding a group of one identity leaves every live row's identity as it was. */
  lemma {:induction false} IdentityGroupKeepsIdentities(db: Db, rows: seq<Id>)
    requires Sound(db) && NamedFirst(db, rows) && IdentityOf(db.products[rows[0]]).Some?
    requires forall i :: 0 <= i < |rows| ==> IdentityOf(db.products[rows[i]]) == IdentityOf(db.products[rows[0]])
    ensures var after := Run(db, Folds(rows)).products;
      forall p :: p in after ==> p in db.products && IdentityOf(after[p]) == IdentityOf(db.products[p])
  {
    var group := RowsOf(db, rows);
    FoldGroupRows(db, rows);
    SurvivorKeepsItsName(db, rows);
    FoldRowsByColumn(group);
    forall i | 0 <= i < |rows|
      ensures group[i].age.value == group[0].age.value && group[i].volumeMl.value == group[0].volumeMl.value
    {
      assert IdentityOf(group[i]) == IdentityOf(group[0]);
    }
    FoldDecidedOfEqualValues(Ages(group));
    FoldDecidedOfEqualValues(Volumes(group));
  }

  // ----- barcodes -----

  /** `compatible`: both names carry a significant word, and the smaller set of words lies within the larger. */
  predicate CompatibleWords(left: set<string>, right: set<string>) {
    left != {} && right != {} && if |left| <= |right| then left <= right else right <= left
  }

  lemma SubsetSize(small: set<string>, large: set<string>)
    requires small <= large
    ensures |small| <= |large| && (|small| == |large| ==> small == large)
  {
    assert large == small + (large - small);
  }

  /** Comparing sizes first loses nothing: the test is symmetric and holds just when either set lies within the
      other. */
  lemma CompatibleIsEitherSubset(left: set<string>, right: set<string>)
    ensures CompatibleWords(left, right) <==> left != {} && right != {} && (left <= right || right <= left)
    ensures CompatibleWords(left, right) == CompatibleWords(right, left)
  {
    if left <= right { SubsetSize(left, right); }
    if right <= left { SubsetSize(right, left); }
  }

  predicate SameVolume(left: Product, right: Product) {
    left.volumeMl.value.Some? && left.volumeMl.value == right.volumeMl.value
  }

  predicate CompatibleNames(left: Product, right: Product) {
    && left.name.value.Some? && right.name.value.Some?
    && (left.name.value.value.identity == right.name.value.value.identity
        || CompatibleWords(left.name.value.value.words, right.name.value.value.words))
  }

  predicate Eligible(survivor: Product, row: Product) {
    SameVolume(survivor, row) && CompatibleNames(survivor, row)
  }

  /** The age a person set on the loser is about to move onto the survivor. */
  predicate AgeMoves(kept: Product, lost: Product) {
    LoserDecides(kept.age, lost.age) && lost.age.value != kept.age.value
  }

  /** A third row already stands under the survivor's name and volume at that age. */
  predicate Taken(db: Db, loser: Id, survivor: Id)
    requires loser in db.products && survivor in db.products && db.products[survivor].name.value.Some?
  {
    exists q :: q in db.products && q != loser && q != survivor &&
      IdentityOf(db.products[q]) == Some(Identity(db.products[survivor].name.value.value.identity,
                                                 db.products[survivor].volumeMl.value, db.products[loser].age.value))
  }

  /** One barcode merge leaves the catalogue free of twins exactly unless it moves a person's age onto a survivor
      whose name and volume another row already carries at that age. */
  lemma BarcodeMergeTwins(db: Db, loser: Id, survivor: Id)
    requires Sound(db) && NoTwins(db.products) && Applies(db, Fold(loser, survivor))
    requires Eligible(db.products[survivor], db.products[loser])
    requires NamedFirst(db, [survivor, loser])
    ensures NoTwins(MergeInto(db, loser, survivor).products)
      <==> !(AgeMoves(db.products[survivor], db.products[loser]) && Taken(db, loser, survivor))
  {
    var after := MergeInto(db, loser, survivor).products;
    var kept, lost := db.products[survivor], db.products[loser];
    assert [survivor, loser][0] == survivor && [survivor, loser][1] == loser;
    assert after[survivor].name == kept.name && after[survivor].volumeMl.value == kept.volumeMl.value;
    if AgeMoves(kept, lost) && Taken(db, loser, survivor) {
      var q :| q in db.products && q != loser && q != survivor &&
        IdentityOf(db.products[q])
          == Some(Identity(kept.name.value.value.identity, kept.volumeMl.value, lost.age.value));
      assert Twins(after, survivor, q);
    } else {
      forall p, q
        ensures !Twins(after, p, q)
      {
        assert !Twins(db.products, p, q) && !Twins(db.products, survivor, p) && !Twins(db.products, survivor, q);
      }
    }
  }

  ghost predicate NoAgeByHand(products: map<Id, Product>) {
    forall p :: p in products ==> !ByHand(products[p].age)
  }

  // ----- the age a group ends with -----

  lemma {:induction false} FirstByHand<T>(group: seq<Fact<T>>, k: int) returns (i: int)
    requires 0 <= k < |group| && ByHand(group[k])
    ensures 0 <= i <= k && ByHand(group[i]) && forall j :: 0 <= j < i ==> !ByHand(group[j])
  {
    if j :| 0 <= j < k && ByHand(group[j]) {
      i := FirstByHand(group, j);
    } else {
      i := k;
    }
  }

  /** The first age a person set in the group, if any, states what the first row states. */
  ghost predicate FirstByHandAgrees(ages: seq<Fact<int>>) {
    forall i :: 0 <= i < |ages| && ByHand(ages[i]) && (forall j :: 0 <= j < i ==> !ByHand(ages[j])) ==>
      ages[i].value == ages[0].value
  }

  /** A fold leaves the first row's age exactly then. */
  lemma {:induction false} FoldedAgeStays(ages: seq<Fact<int>>)
    requires ages != []
    ensures FoldDecided(ages).value == ages[0].value <==> FirstByHandAgrees(ages)
    ensures (forall i :: 0 <= i < |ages| ==> !ByHand(ages[i])) ==> FoldDecided(ages) == ages[0]
  {
    FoldFindsFirstByHand(ages);
    if k :| 0 <= k < |ages| && ByHand(ages[k]) {
      var i := FirstByHand(ages, k);
      assert FoldDecided(ages) == ages[i];
    }
  }

  lemma {:induction false} FoldedVolume(group: seq<Product>)
    requires group != [] && forall i :: 1 <= i < |group| ==> SameVolume(group[0], group[i])
    ensures FoldRows(group).volumeMl.value == group[0].volumeMl.value
  {
    FoldRowsByColumn(group);
    assert forall i :: 0 <= i < |group| ==> Volumes(group)[i] == group[i].volumeMl;
    FoldDecidedOfEqualValues(Volumes(group));
  }

  /** The group's later rows may all be taken in by its first. */
  ghost predicate AllEligible(db: Db, rows: seq<Id>) {
    LiveGroup(db, rows) && forall i :: 1 <= i < |rows| ==> Eligible(db.products[rows[0]], db.products[rows[i]])
  }

  ghost function AgesOf(db: Db, rows: seq<Id>): (ages: seq<Fact<int>>)
    requires LiveGroup(db, rows)
    ensures |ages| == |rows| && forall i :: 0 <= i < |rows| ==> ages[i] == db.products[rows[i]].age
  {
    Ages(RowsOf(db, rows))
  }

  /** What a barcode group leaves of its first row: the name, the volume, and the age decided by hand. */
  lemma {:induction false} BarcodeSurvivor(db: Db, rows: seq<Id>)
    requires Sound(db) && NamedFirst(db, rows) && AllEligible(db, rows)
    ensures rows[0] in Run(db, Folds(rows)).products
    ensures var before, after := db.products[rows[0]], Run(db, Folds(rows)).products[rows[0]];
      && after.name == before.name && after.volumeMl.value == before.volumeMl.value
      && after.age == FoldDecided(AgesOf(db, rows))
  {
    var group := RowsOf(db, rows);
    SurvivorKeepsItsName(db, rows);
    FoldGroupRows(db, rows);
    FoldRowsByColumn(group);
    assert forall i :: 0 <= i < |group| ==> group[i] == db.products[rows[i]];
    FoldedVolume(group);
  }

  lemma OthersKeepTheirs(before: map<Id, Product>, after: map<Id, Product>, first: Id)
    requires after.Keys <= before.Keys && first in after
    requires forall p :: p in after && p != first ==> after[p] == before[p]
    ensures (forall p :: p in after ==> p in before && IdentityOf(after[p]) == IdentityOf(before[p]))
      <==> IdentityOf(after[first]) == IdentityOf(before[first])
  {
  }

  /** A barcode group leaves every live row's identity as it was exactly when the first age a person set in it, if
      any, is the survivor's own. */
  lemma {:induction false} BarcodeGroupKeepsIdentities(db: Db, rows: seq<Id>)
    requires Sound(db) && NamedFirst(db, rows) && AllEligible(db, rows)
    ensures var after := Run(db, Folds(rows)).products;
      (forall p :: p in after ==> p in db.products && IdentityOf(after[p]) == IdentityOf(db.products[p]))
      <==> FirstByHandAgrees(AgesOf(db, rows))
  {
    FoldGroupRows(db, rows);
    OthersKeepTheirs(db.products, Run(db, Folds(rows)).products, rows[0]);
    BarcodeSurvivor(db, rows);
    FoldedAgeStays(AgesOf(db, rows));
    assert |rows| > 1 ==> Eligible(db.products[rows[0]], db.products[rows[1]]);
  }

  /** A row outside the group carries the survivor's name and volume at the age the group ends with. */
  ghost predicate TakenOutside(db: Db, rows: seq<Id>)
    requires LiveGroup(db, rows) && db.products[rows[0]].name.value.Some?
  {
    var kept := db.products[rows[0]];
    exists q :: q in db.products && q !in rows && IdentityOf(db.products[q]) ==
      Some(Identity(kept.name.value.value.identity, kept.volumeMl.value, FoldDecided(AgesOf(db, rows)).value))
  }

  /** A barcode group leaves the catalogue with twins exactly when it ends on an age a person set, not the survivor's
      own, at which a row outside the group already carries the survivor's name and volume. */
  lemma {:induction false} BarcodeGroupTwins(db: Db, rows: seq<Id>)
    requires Sound(db) && NoTwins(db.products) && NamedFirst(db, rows) && AllEligible(db, rows)
    requires db.products[rows[0]].name.value.Some?
    ensures NoTwins(Run(db, Folds(rows)).products) <==> FirstByHandAgrees(AgesOf(db, rows)) || !TakenOutside(db, rows)
  {
    var after := Run(db, Folds(rows)).products;
    FoldGroupRows(db, rows);
    BarcodeGroupKeepsIdentities(db, rows);
    BarcodeSurvivor(db, rows);
    FoldedAgeStays(AgesOf(db, rows));
    if FirstByHandAgrees(AgesOf(db, rows)) {
      KeptIdentitiesKeepNoTwins(db.products, after);
    } else if TakenOutside(db, rows) {
      var kept := db.products[rows[0]];
      var q :| q in db.products && q !in rows && IdentityOf(db.products[q]) ==
        Some(Identity(kept.name.value.value.identity, kept.volumeMl.value, FoldDecided(AgesOf(db, rows)).value));
      assert Twins(after, rows[0], q);
    } else {
      OnlyTheSurvivorChanged(db, rows, after);
    }
  }

  lemma OnlyTheSurvivorChanged(db: Db, rows: seq<Id>, after: map<Id, Product>)
    requires LiveGroup(db, rows) && NoTwins(db.products) && rows[0] in after
      && after.Keys == db.products.Keys - Later(rows)
    requires forall p :: p in after && p != rows[0] ==> after[p] == db.products[p]
    requires forall q :: q in db.products && q !in rows ==> IdentityOf(db.products[q]) != IdentityOf(after[rows[0]])
    ensures NoTwins(after)
  {
    forall p, q
      ensures !Twins(after, p, q)
    {
      assert !Twins(db.products, p, q);
    }
  }

  // ----- fold by fold -----

  /** The fold moves an age a person set onto a name and volume already taken at that age. */
  ghost predicate MovesTakenAge(db: Db, step: Step) {
    && step.Fold? && step.loser in db.products && step.survivor in db.products
    && db.products[step.survivor].name.value.Some?
    && AgeMoves(db.products[step.survivor], db.products[step.loser]) && Taken(db, step.loser, step.survivor)
  }

  lemma PairNamedFirst(db: Db, first: Id, second: Id)
    requires first in db.products && second in db.products && first != second
    requires ByHand(db.products[second].name) ==> ByHand(db.products[first].name)
    ensures NamedFirst(db, [first, second])
  {
  }

  lemma {:induction false} UntouchedUntilItsTurn(db: Db, rows: seq<Id>, i: nat)
    requires Sound(db) && LiveGroup(db, rows) && 1 <= i < |rows|
    ensures var now := Run(db, Folds(rows[..i]));
      Applies(now, Fold(rows[i], rows[0])) && now.products[rows[i]] == db.products[rows[i]]
  {
    NextRowsAreLive(db, rows, i);
    FoldGroupRows(db, rows[..i]);
  }

  /** At its turn a later row of the group is still eligible, and the survivor's name still ranks first. */
  lemma {:induction false} StillEligible(db: Db, rows: seq<Id>, i: nat)
    requires Sound(db) && NamedFirst(db, rows) && AllEligible(db, rows) && 1 <= i < |rows|
    ensures var now := Run(db, Folds(rows[..i]));
      && Applies(now, Fold(rows[i], rows[0])) && NamedFirst(now, [rows[0], rows[i]])
      && Eligible(now.products[rows[0]], now.products[rows[i]])
  {
    UntouchedUntilItsTurn(db, rows, i);
    BarcodeSurvivor(db, rows[..i]);
    PairNamedFirst(Run(db, Folds(rows[..i])), rows[0], rows[i]);
  }

  lemma {:induction false} NoTwinsAfterFold(db: Db, rows: seq<Id>, i: nat)
    requires Sound(db) && NamedFirst(db, rows) && AllEligible(db, rows) && 1 <= i < |rows|
    requires NoTwins(Run(db, Folds(rows[..i])).products)
    requires !MovesTakenAge(Run(db, Folds(rows[..i])), Fold(rows[i], rows[0]))
    ensures NoTwins(Run(db, Folds(rows[..i + 1])).products)
  {
    StillEligible(db, rows, i);
    BarcodeMergeTwins(Run(db, Folds(rows[..i])), rows[i], rows[0]);
    GroupStep(db, rows, i);
  }

  /** A barcode group that makes twins does so at a fold that moves a person's age onto a taken identity. */
  lemma {:induction false} TwinsComeFromTakenAges(db: Db, rows: seq<Id>, n: nat)
    requires Sound(db) && NoTwins(db.products) && NamedFirst(db, rows) && AllEligible(db, rows) && 1 <= n <= |rows|
    requires forall i | 1 <= i < n :: !MovesTakenAge(Run(db, Folds(rows[..i])), Fold(rows[i], rows[0]))
    ensures NoTwins(Run(db, Folds(rows[..n])).products)
  {
    if n > 1 {
      TwinsComeFromTakenAges(db, rows, n - 1);
      NoTwinsAfterFold(db, rows, n - 1);
    }
  }

  lemma KeptIdentitiesKeepNoTwins(before: map<Id, Product>, after: map<Id, Product>)
    requires NoTwins(before)
    requires forall p :: p in after ==> p in before && IdentityOf(after[p]) == IdentityOf(before[p])
    ensures NoTwins(after)
  {
    forall p, q
      ensures !Twins(after, p, q)
    {
      assert !Twins(before, p, q);
    }
  }
}
