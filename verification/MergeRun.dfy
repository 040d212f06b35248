/** A run of the duplicate repair as the list of its row-changing steps, and what every run keeps. */
module MergeRun {
  import opened Facts
  import opened Tables

  /** Fold one row away; clear the age and strength a person set by mistake; forget a retired key. */
  datatype Step = Fold(loser: Id, survivor: Id) | Clear(product: Id) | Forget(key: string)

  function ClearAgeAndAbv(product: Product): Product {
    product.(age := Fact(None, None), abv := Fact(None, None))
  }

  predicate Applies(db: Db, step: Step) {
    match step
    case Fold(loser, survivor) => loser in db.products && survivor in db.products && loser != survivor
    case Clear(product) => product in db.products
    case Forget(_) => true
  }

  ghost function Apply(db: Db, step: Step): Db
    requires Sound(db) && Applies(db, step)
  {
    match step
    case Fold(loser, survivor) => MergeInto(db, loser, survivor)
    case Clear(product) => db.(products := db.products[product := ClearAgeAndAbv(db.products[product])])
    case Forget(key) => db.(aliases := db.aliases - {key})
  }

  lemma ApplyKeepsSound(db: Db, step: Step)
    requires Sound(db) && Applies(db, step)
    ensures Sound(Apply(db, step))
  {
    match step
    case Fold(loser, survivor) => MergeKeepsSound(db, loser, survivor);
    case Clear(product) =>
      assert Apply(db, step).products.Keys == db.products.Keys;
    case Forget(key) =>
  }

  /** The database after the whole log; a step that does not apply ends the run there. */
  ghost function Run(db: Db, log: seq<Step>): (after: Db)
    requires Sound(db)
    ensures Sound(after)
  {
    if log == [] then db
    else
      var before := Run(db, log[..|log| - 1]);
      if Applies(before, log[|log| - 1])
      then ApplyKeepsSound(before, log[|log| - 1]); Apply(before, log[|log| - 1])
      else before
  }

  /** Every step found its rows live and distinct when its turn came. */
  ghost predicate Feasible(db: Db, log: seq<Step>)
    requires Sound(db)
  {
    log == [] ||
    (Feasible(db, log[..|log| - 1]) && Applies(Run(db, log[..|log| - 1]), log[|log| - 1]))
  }

  /** Where a bottling of the start is found after the log. */
  function Resolve(log: seq<Step>, product: Id): Id {
    if log == [] then product
    else RenameBy(log[|log| - 1], Resolve(log[..|log| - 1], product))
  }

  function RenameBy(step: Step, product: Id): Id {
    if step.Fold? then Rename(product, step.loser, step.survivor) else product
  }

  /** The redirect map as the run fills it. */
  function Redirects(log: seq<Step>): map<Id, Id> {
    if log == [] then map[]
    else
      var before := Redirects(log[..|log| - 1]);
      var step := log[|log| - 1];
      if step.Fold? then before[step.loser := step.survivor] else before
  }

  /** How many folds moved a bottling: the length of its redirect chain. */
  function Hops(log: seq<Step>, product: Id): nat {
    if log == [] then 0
    else
      var before := Hops(log[..|log| - 1], product);
      var step := log[|log| - 1];
      if step.Fold? && Resolve(log[..|log| - 1], product) == step.loser then before + 1 else before
  }

  /** The keys a run forgot on purpose. */
  function Forgotten(log: seq<Step>): set<string> {
    if log == [] then {}
    else
      Forgotten(log[..|log| - 1]) + if log[|log| - 1].Forget? then {log[|log| - 1].key} else {}
  }

  // ----- redirects -----

  lemma RowsAfter(db: Db, step: Step)
    requires Sound(db) && Applies(db, step)
    ensures Apply(db, step).products.Keys == db.products.Keys - if step.Fold? then {step.loser} else {}
  {
  }

  lemma {:induction false} OnlyRedirectedRowsMove(log: seq<Step>, product: Id)
    requires product !in Redirects(log)
    ensures Resolve(log, product) == product
  {
    if log != [] {
      OnlyRedirectedRowsMove(log[..|log| - 1], product);
    }
  }

  lemma {:induction false} GoneRows(db: Db, log: seq<Step>)
    requires Sound(db) && Feasible(db, log)
    ensures Redirects(log).Keys == db.products.Keys - Run(db, log).products.Keys
    ensures Run(db, log).products.Keys <= db.products.Keys
  {
    if log != [] {
      var front, step := log[..|log| - 1], log[|log| - 1];
      GoneRows(db, front);
      RowsAfter(Run(db, front), step);
    }
  }

  lemma {:induction false} ResolvesToALiveRow(db: Db, log: seq<Step>, product: Id)
    requires Sound(db) && Feasible(db, log) && product in db.products
    ensures Resolve(log, product) in Run(db, log).products
  {
    if log != [] {
      var front, step := log[..|log| - 1], log[|log| - 1];
      ResolvesToALiveRow(db, front, product);
      RowsAfter(Run(db, front), step);
    }
  }

  /** The redirect map's keys are exactly the rows folded away, and every starting row resolves to a live one. */
  lemma {:induction false} RedirectsAreTheGone(db: Db, log: seq<Step>)
    requires Sound(db) && Feasible(db, log)
    ensures Redirects(log).Keys == db.products.Keys - Run(db, log).products.Keys
    ensures Run(db, log).products.Keys <= db.products.Keys
    ensures forall p :: p in db.products ==> Resolve(log, p) in Run(db, log).products
  {
    GoneRows(db, log);
    forall p | p in db.products
      ensures Resolve(log, p) in Run(db, log).products
    {
      ResolvesToALiveRow(db, log, p);
    }
  }

  /** Each redirect is one hop nearer the end of its chain, so chains never close: the map is a forest. */
  lemma {:induction false} RedirectHop(db: Db, log: seq<Step>, product: Id)
    requires Sound(db) && Feasible(db, log) && product in Redirects(log)
    ensures Hops(log, product) == Hops(log, Redirects(log)[product]) + 1
    ensures Resolve(log, Redirects(log)[product]) == Resolve(log, product)
  {
    var front, step := log[..|log| - 1], log[|log| - 1];
    GoneRows(db, front);
    if step.Fold? && step.loser == product {
      NoHopsWhenLive(db, front, product);
      NoHopsWhenLive(db, front, step.survivor);
    } else {
      RedirectHop(db, front, product);
    }
  }

  lemma {:induction false} NoHopsWhenLive(db: Db, log: seq<Step>, product: Id)
    requires Sound(db) && Feasible(db, log) && product in Run(db, log).products
    ensures Hops(log, product) == 0 && Resolve(log, product) == product
  {
    GoneRows(db, log);
    OnlyRedirectedRowsMove(log, product);
    if log != [] {
      var front, step := log[..|log| - 1], log[|log| - 1];
      RowsAfter(Run(db, front), step);
      NoHopsWhenLive(db, front, product);
    }
  }

  lemma {:induction false} RunConcat(db: Db, log: seq<Step>, more: seq<Step>)
    requires Sound(db)
    ensures Run(db, log + more) == Run(Run(db, log), more)
  {
    if more == [] {
      assert log + more == log;
    } else {
      assert (log + more)[..|log + more| - 1] == log + more[..|more| - 1];
      RunConcat(db, log, more[..|more| - 1]);
    }
  }

  // ----- user-owned relations -----

  /** The pairs with every bottling read through the redirects. */
  ghost function Image(log: seq<Step>, entries: set<Entry>): set<Entry> {
    set e | e in entries :: Entry(e.user, Resolve(log, e.product))
  }

  lemma ImageStep(log: seq<Step>, entries: set<Entry>)
    requires log != [] && log[|log| - 1].Fold?
    ensures Image(log, entries) ==
      MoveEntries(Image(log[..|log| - 1], entries), log[|log| - 1].loser, log[|log| - 1].survivor)
  {
    var front, step := log[..|log| - 1], log[|log| - 1];
    forall e | e in entries
      ensures Entry(e.user, Resolve(log, e.product)) in MoveEntries(Image(front, entries), step.loser, step.survivor)
    {
      assert Entry(e.user, Resolve(front, e.product)) in Image(front, entries);
    }
    forall e | e in MoveEntries(Image(front, entries), step.loser, step.survivor)
      ensures e in Image(log, entries)
    {
      var d :| d in Image(front, entries) && e == Entry(d.user, Rename(d.product, step.loser, step.survivor));
      var c :| c in entries && d == Entry(c.user, Resolve(front, c.product));
      assert e == Entry(c.user, Resolve(log, c.product));
    }
  }

  lemma ImageStill(log: seq<Step>, entries: set<Entry>)
    requires log != [] && !log[|log| - 1].Fold?
    ensures Image(log, entries) == Image(log[..|log| - 1], entries)
  {
    var front := log[..|log| - 1];
    assert forall p :: Resolve(log, p) == Resolve(front, p);
  }

  /** However the merges chain, each of the three per-user relations ends as exactly the image of its
      start under the redirects: no pair lost, none invented, none doubled. */
  lemma {:induction false} UserListsAreImages(db: Db, log: seq<Step>)
    requires Sound(db) && Feasible(db, log)
    ensures Run(db, log).favorites == Image(log, db.favorites)
    ensures Run(db, log).blacklist == Image(log, db.blacklist)
    ensures Held(Run(db, log)) == Image(log, Held(db))
    ensures UniqueEntries(Run(db, log).collections)
  {
    if log == [] {
      assert forall e: Entry :: e == Entry(e.user, Resolve(log, e.product));
      assert Image(log, db.favorites) == db.favorites;
      assert Image(log, db.blacklist) == db.blacklist;
      assert Image(log, Held(db)) == Held(db);
    } else {
      var front, step := log[..|log| - 1], log[|log| - 1];
      UserListsAreImages(db, front);
      if step.Fold? {
        ImageStep(log, db.favorites);
        ImageStep(log, db.blacklist);
        ImageStep(log, Held(db));
        MergeMovesHoldings(Run(db, front), step.loser, step.survivor);
      } else {
        ImageStill(log, db.favorites);
        ImageStill(log, db.blacklist);
        ImageStill(log, Held(db));
      }
    }
  }

  /** No purchase is lost; each keeps its owner and lands on the image of its bottling. */
  lemma {:induction false} PurchasesKeepTheirOwner(db: Db, log: seq<Step>)
    requires Sound(db) && Feasible(db, log)
    ensures Run(db, log).purchases.Keys == db.purchases.Keys
    ensures forall p :: p in db.purchases ==>
      EntryOf(Run(db, log), p) == Entry(EntryOf(db, p).user, Resolve(log, EntryOf(db, p).product))
  {
    if log != [] {
      var front, step := log[..|log| - 1], log[|log| - 1];
      PurchasesKeepTheirOwner(db, front);
      if step.Fold? {
        forall p | p in db.purchases
          ensures EntryOf(Run(db, log), p) == Entry(EntryOf(db, p).user, Resolve(log, EntryOf(db, p).product))
        {
          MergeMovesPurchases(Run(db, front), step.loser, step.survivor, p);
        }
      }
    }
  }

  /** Every collection row left is one of the start, on the image of its bottling; where a user held two bottlings
      that became one, the row of the one never folded away stays. */
  lemma {:induction false} CollectionRowsStay(db: Db, log: seq<Step>, c: CollectionId)
    requires Sound(db) && Feasible(db, log)
    ensures c in Run(db, log).collections ==>
      && c in db.collections
      && Run(db, log).collections[c] == Entry(db.collections[c].user, Resolve(log, db.collections[c].product))
    ensures c in db.collections && db.collections[c].product !in Redirects(log) ==> c in Run(db, log).collections
  {
    if log != [] {
      var front, step := log[..|log| - 1], log[|log| - 1];
      CollectionRowsStay(db, front, c);
      if c in db.collections && db.collections[c].product !in Redirects(log) {
        OnlyRedirectedRowsMove(front, db.collections[c].product);
      }
    }
  }

  /** No offer is lost; each lands on the image of its bottling and changes in nothing else. */
  lemma {:induction false} OffersFollow(db: Db, log: seq<Step>)
    requires Sound(db) && Feasible(db, log)
    ensures Run(db, log).offers.Keys == db.offers.Keys
    ensures forall o :: o in db.offers ==>
      Run(db, log).offers[o] == db.offers[o].(product := Resolve(log, db.offers[o].product))
  {
    if log != [] {
      var front, step := log[..|log| - 1], log[|log| - 1];
      OffersFollow(db, front);
      if step.Fold? {
        assert Run(db, log).offers == MoveOffers(Run(db, front).offers, step.loser, step.survivor);
      }
    }
  }

  // ----- keys -----

  /** From a clash-free start no retired key is ever a live one, and every key not forgotten on purpose
      lands on the image of the bottling it landed on, or still nowhere. */
  lemma {:induction false} KeysFollow(db: Db, log: seq<Step>)
    requires Sound(db) && ClashFree(db) && Feasible(db, log)
    ensures ClashFree(Run(db, log)) && UniqueKeys(Run(db, log).products)
    ensures forall key, q :: key !in Forgotten(log) ==>
      (Answers(Run(db, log), key, q) <==> exists p :: Answers(db, key, p) && q == Resolve(log, p))
  {
    if log != [] {
      var front, step := log[..|log| - 1], log[|log| - 1];
      var before := Run(db, front);
      KeysFollow(db, front);
      if step.Fold? {
        MergeKeepsClashFree(before, step.loser, step.survivor);
      }
      forall key, q | key !in Forgotten(log)
        ensures Answers(Run(db, log), key, q) <==> exists p :: Answers(db, key, p) && q == Resolve(log, p)
      {
        KeyStep(before, step, key, q);
        if Answers(Run(db, log), key, q) {
          var m :| Answers(before, key, m) && q == RenameBy(step, m);
          var p :| Answers(db, key, p) && m == Resolve(front, p);
          assert q == Resolve(log, p);
        }
        if p :| Answers(db, key, p) && q == Resolve(log, p) {
          assert Answers(before, key, Resolve(front, p));
        }
      }
    }
  }

  lemma KeyStep(db: Db, step: Step, key: string, product: Id)
    requires Sound(db) && ClashFree(db) && Applies(db, step) && step != Forget(key)
    ensures Answers(Apply(db, step), key, product) <==> exists m :: Answers(db, key, m) && product == RenameBy(step, m)
  {
    match step
    case Fold(loser, survivor) =>
      MergeKeepsAnswers(db, loser, survivor, key, product);
      if p :| Answers(db, key, p) && product == Rename(p, loser, survivor) {
        assert product == RenameBy(step, p);
      }
      if m :| Answers(db, key, m) && product == RenameBy(step, m) {
        assert product == Rename(m, loser, survivor);
      }
    case Clear(_) =>
      assert Answers(Apply(db, step), key, product) <==> Answers(db, key, product);
      assert product == RenameBy(step, product);
    case Forget(_) =>
      assert Answers(Apply(db, step), key, product) <==> Answers(db, key, product);
      assert product == RenameBy(step, product);
  }

  /** Folding a row away without leaving its key behind: the key lands nowhere afterwards,
      unless the survivor had none of its own and adopted it. */
  lemma {:induction false} ForgettingAKey(db: Db, loser: Id, survivor: Id)
    requires Sound(db) && ClashFree(db) && Applies(db, Fold(loser, survivor)) && db.products[loser].matchKey.Some?
    ensures var key := db.products[loser].matchKey.value;
      forall p :: Answers(Run(db, [Fold(loser, survivor), Forget(key)]), key, p)
        <==> p == survivor && db.products[survivor].matchKey.None?
  {
    var key := db.products[loser].matchKey.value;
    var log := [Fold(loser, survivor), Forget(key)];
    assert log[..1] == [Fold(loser, survivor)] && log[..1][..0] == [];
    assert Run(db, log[..1]) == MergeInto(db, loser, survivor);
  }

  // ----- tags -----

  predicate Curated(db: Db, product: Id) {
    product in db.products && db.products[product].flavorsCuratedAt.Some?
  }

  /** The row carries the tag, sourced at least this well. */
  predicate CarriesAtLeast(db: Db, product: Id, flavor: int, rank: nat) {
    Tag(product, flavor) in db.flavors && rank <= TagRank(db.flavors[Tag(product, flavor)])
  }

  lemma CurationStep(db: Db, step: Step, product: Id)
    requires Sound(db) && Applies(db, step) && Curated(db, product)
    ensures Curated(Apply(db, step), RenameBy(step, product))
  {
  }

  /** Curation is never forgotten: the row a curated row is folded into is curated. */
  lemma {:induction false} CurationSurvives(db: Db, log: seq<Step>, product: Id)
    requires Sound(db) && Feasible(db, log) && Curated(db, product)
    ensures Curated(Run(db, log), Resolve(log, product))
  {
    if log != [] {
      var front := log[..|log| - 1];
      CurationSurvives(db, front, product);
      CurationStep(Run(db, front), log[|log| - 1], Resolve(front, product));
    }
  }

  lemma CurationOriginStep(db: Db, step: Step, product: Id) returns (from: Id)
    requires Sound(db) && Applies(db, step) && Curated(Apply(db, step), product)
    ensures Curated(db, from) && RenameBy(step, from) == product
  {
    from := if step.Fold? && product == step.survivor && !Curated(db, product) then step.loser else product;
  }

  /** Nor is it invented. */
  lemma {:induction false} CurationHasAnOrigin(db: Db, log: seq<Step>, product: Id) returns (origin: Id)
    requires Sound(db) && Feasible(db, log) && Curated(Run(db, log), product)
    ensures Curated(db, origin) && Resolve(log, origin) == product
  {
    if log == [] {
      origin := product;
    } else {
      var front := log[..|log| - 1];
      var from := CurationOriginStep(Run(db, front), log[|log| - 1], product);
      origin := CurationHasAnOrigin(db, front, from);
    }
  }

  /** Every row folded into the same bottling as this one is uncurated. */
  ghost predicate UncuratedClass(db: Db, log: seq<Step>, product: Id) {
    forall q :: Resolve(log, q) == Resolve(log, product) ==> !Curated(db, q)
  }

  /** At step `k` the row's image is an uncurated survivor that takes in a curated loser, and loses its tags. */
  ghost predicate ResetAt(db: Db, log: seq<Step>, product: Id, k: int)
    requires Sound(db)
  {
    0 <= k < |log| && log[k].Fold? && Resolve(log[..k], product) == log[k].survivor &&
    var now := Run(db, log[..k]).products;
    && log[k].loser in now && now[log[k].loser].flavorsCuratedAt.Some?
    && log[k].survivor in now && now[log[k].survivor].flavorsCuratedAt.None?
  }

  ghost predicate NeverReset(db: Db, log: seq<Step>, product: Id)
    requires Sound(db)
  {
    forall k :: !ResetAt(db, log, product, k)
  }

  lemma ResetEarlier(db: Db, log: seq<Step>, product: Id, k: int)
    requires Sound(db) && log != [] && k < |log| - 1
    ensures ResetAt(db, log, product, k) <==> ResetAt(db, log[..|log| - 1], product, k)
  {
    if 0 <= k {
      assert log[..|log| - 1][..k] == log[..k];
    }
  }

  /** A row is never reset exactly if it was not before the last step and is not at it. */
  lemma NeverResetStep(db: Db, log: seq<Step>, product: Id)
    requires Sound(db) && log != []
    ensures NeverReset(db, log, product)
      <==> NeverReset(db, log[..|log| - 1], product) && !ResetAt(db, log, product, |log| - 1)
  {
    var front := log[..|log| - 1];
    forall k
      ensures ResetAt(db, log, product, k)
        <==> ResetAt(db, front, product, k) || (k == |log| - 1 && ResetAt(db, log, product, k))
    {
      if k < |log| - 1 {
        ResetEarlier(db, log, product, k);
      }
    }
  }

  /** A curated row is never reset, nor is one that meets no curated row. */
  lemma {:induction false} CuratedIsNeverReset(db: Db, log: seq<Step>, product: Id)
    requires Sound(db) && Feasible(db, log) && (Curated(db, product) || UncuratedClass(db, log, product))
    ensures NeverReset(db, log, product)
  {
    if log != [] {
      var front, step := log[..|log| - 1], log[|log| - 1];
      assert forall q :: Resolve(front, q) == Resolve(front, product) ==> Resolve(log, q) == Resolve(log, product);
      CuratedIsNeverReset(db, front, product);
      NeverResetStep(db, log, product);
      if Curated(db, product) {
        CurationSurvives(db, front, product);
      } else if ResetAt(db, log, product, |log| - 1) {
        var origin := CurationHasAnOrigin(db, front, step.loser);
        assert false;
      }
    }
  }

  lemma {:induction false} RankSurvives(db: Db, log: seq<Step>, product: Id, flavor: int, rank: nat)
    requires Sound(db) && Feasible(db, log) && NeverReset(db, log, product)
    requires CarriesAtLeast(db, product, flavor, rank)
    ensures CarriesAtLeast(Run(db, log), Resolve(log, product), flavor, rank)
  {
    if log != [] {
      var front, step := log[..|log| - 1], log[|log| - 1];
      NeverResetStep(db, log, product);
      RankSurvives(db, front, product, flavor, rank);
      if step.Fold? {
        TagStep(Run(db, front), step.loser, step.survivor, Resolve(front, product), flavor, rank);
      }
    }
  }

  /** A tag moves to its bottling's image, from a source no worse. */
  lemma TagMoves(flavors: map<Tag, FlavorSource>, loser: Id, survivor: Id, tag: Tag)
    requires loser != survivor && tag in flavors
    ensures var moved := Tag(Rename(tag.product, loser, survivor), tag.flavor);
      moved in MoveFlavors(flavors, loser, survivor)
        && TagRank(flavors[tag]) <= TagRank(MoveFlavors(flavors, loser, survivor)[moved])
  {
    assert Tag(Rename(tag.product, loser, survivor), tag.flavor) in MoveFlavors(flavors, loser, survivor);
  }

  /** A moved tag's source is that of a tag its bottling is the image of. */
  lemma TagMovedFrom(flavors: map<Tag, FlavorSource>, loser: Id, survivor: Id, tag: Tag) returns (from: Id)
    requires loser != survivor && tag in MoveFlavors(flavors, loser, survivor)
    ensures Tag(from, tag.flavor) in flavors && Rename(from, loser, survivor) == tag.product
    ensures flavors[Tag(from, tag.flavor)] == MoveFlavors(flavors, loser, survivor)[tag]
  {
    var source := MoveFlavors(flavors, loser, survivor)[tag];
    var lost := Tag(loser, tag.flavor);
    from := if tag.product == survivor && lost in flavors && source == flavors[lost] then loser else tag.product;
  }

  function KeptFlavors(db: Db, loser: Id, survivor: Id): map<Tag, FlavorSource>
    requires loser in db.products && survivor in db.products
  {
    if ResetsTags(db.products[survivor], db.products[loser]) then DropFlavors(db.flavors, survivor) else db.flavors
  }

  lemma TagStep(db: Db, loser: Id, survivor: Id, product: Id, flavor: int, rank: nat)
    requires Sound(db) && Applies(db, Fold(loser, survivor)) && CarriesAtLeast(db, product, flavor, rank)
    requires product == survivor ==> !ResetsTags(db.products[survivor], db.products[loser])
    ensures CarriesAtLeast(MergeInto(db, loser, survivor), Rename(product, loser, survivor), flavor, rank)
  {
    TagMoves(KeptFlavors(db, loser, survivor), loser, survivor, Tag(product, flavor));
  }

  lemma TagOriginStep(db: Db, step: Step, tag: Tag) returns (from: Id)
    requires Sound(db) && Applies(db, step) && tag in Apply(db, step).flavors
    ensures Tag(from, tag.flavor) in db.flavors && RenameBy(step, from) == tag.product
    ensures db.flavors[Tag(from, tag.flavor)] == Apply(db, step).flavors[tag]
    ensures step.Fold? && from == step.survivor ==> !ResetsTags(db.products[step.survivor], db.products[step.loser])
  {
    if step.Fold? {
      from := TagMovedFrom(KeptFlavors(db, step.loser, step.survivor), step.loser, step.survivor, tag);
    } else {
      from := tag.product;
    }
  }

  /** The tag sources from the most trusted down; any other is trusted least. */
  const TAG_TRUST := [ManualTag, KbTag, LlmTag, ScrapeTag]

  ghost predicate TagOutranks(better: FlavorSource, worse: FlavorSource) {
    exists i :: 0 <= i < |TAG_TRUST| && better == TAG_TRUST[i] && forall j :: 0 <= j <= i ==> worse != TAG_TRUST[j]
  }

  lemma TagRankIsTrust(left: FlavorSource, right: FlavorSource)
    ensures TagRank(left) > TagRank(right) <==> TagOutranks(left, right)
  {
    assert TAG_TRUST[0] == ManualTag && TAG_TRUST[1] == KbTag && TAG_TRUST[2] == LlmTag && TAG_TRUST[3] == ScrapeTag;
  }

  /** A row's tags are neither lost nor demoted, whatever it is folded into, unless its image is reset on the way. */
  lemma {:induction false} TagsSurvive(db: Db, log: seq<Step>, tag: Tag)
    requires Sound(db) && Feasible(db, log) && tag in db.flavors && NeverReset(db, log, tag.product)
    ensures var now, image := Run(db, log).flavors, Tag(Resolve(log, tag.product), tag.flavor);
      image in now && !TagOutranks(db.flavors[tag], now[image])
  {
    RankSurvives(db, log, tag.product, tag.flavor, TagRank(db.flavors[tag]));
    TagRankIsTrust(db.flavors[tag], Run(db, log).flavors[Tag(Resolve(log, tag.product), tag.flavor)]);
  }

  /** No tag is invented: each one at the end was carried, from that very source, by a row folded into its bottling
      that was never reset. */
  lemma {:induction false} TagsHaveAnOrigin(db: Db, log: seq<Step>, tag: Tag) returns (origin: Id)
    requires Sound(db) && Feasible(db, log) && tag in Run(db, log).flavors
    ensures Tag(origin, tag.flavor) in db.flavors && Resolve(log, origin) == tag.product
    ensures db.flavors[Tag(origin, tag.flavor)] == Run(db, log).flavors[tag]
    ensures NeverReset(db, log, origin)
  {
    if log == [] {
      origin := tag.product;
    } else {
      var front := log[..|log| - 1];
      var from := TagOriginStep(Run(db, front), log[|log| - 1], tag);
      origin := TagsHaveAnOrigin(db, front, Tag(from, tag.flavor));
      NeverResetStep(db, log, origin);
    }
  }

  /** The row carried the tag, was folded into the tag's bottling, and its image was never reset. */
  ghost predicate BringsTag(db: Db, log: seq<Step>, tag: Tag, origin: Id)
    requires Sound(db)
  {
    Tag(origin, tag.flavor) in db.flavors && Resolve(log, origin) == tag.product && NeverReset(db, log, origin)
  }

  /** So a bottling ends with exactly the tags of the rows folded into it whose image was never reset. */
  lemma {:induction false} TagsEndExactly(db: Db, log: seq<Step>, tag: Tag)
    requires Sound(db) && Feasible(db, log)
    ensures tag in Run(db, log).flavors <==> exists origin :: BringsTag(db, log, tag, origin)
  {
    if tag in Run(db, log).flavors {
      var origin := TagsHaveAnOrigin(db, log, tag);
      assert BringsTag(db, log, tag, origin);
    }
    if origin :| BringsTag(db, log, tag, origin) {
      TagsSurvive(db, log, Tag(origin, tag.flavor));
    }
  }

  // ----- fact conflicts -----

  /** The starting conflicts of one store about one attribute that belong to one bottling of the end. */
  ghost function Merged(db: Db, log: seq<Step>, key: ConflictKey): set<ConflictKey> {
    set k | k in db.conflicts.Keys && k.store == key.store && k.attribute == key.attribute
      && Resolve(log, k.product) == key.product
  }

  ghost function TotalSeen(conflicts: map<ConflictKey, Conflict>, keys: set<ConflictKey>): int
    requires keys <= conflicts.Keys
  {
    if keys == {} then 0
    else
      var k :| k in keys;
      conflicts[k].seenCount + TotalSeen(conflicts, keys - {k})
  }

  lemma {:induction false} TotalSeenWithout(conflicts: map<ConflictKey, Conflict>, keys: set<ConflictKey>,
                                            key: ConflictKey)
    requires keys <= conflicts.Keys && key in keys
    ensures TotalSeen(conflicts, keys) == conflicts[key].seenCount + TotalSeen(conflicts, keys - {key})
  {
    var k :| k in keys && TotalSeen(conflicts, keys) == conflicts[k].seenCount + TotalSeen(conflicts, keys - {k});
    if k != key {
      TotalSeenWithout(conflicts, keys - {k}, key);
      TotalSeenWithout(conflicts, keys - {key}, k);
      assert keys - {k} - {key} == keys - {key} - {k};
    }
  }

  lemma {:induction false} TotalSeenOfUnion(conflicts: map<ConflictKey, Conflict>, left: set<ConflictKey>,
                                            right: set<ConflictKey>)
    requires left <= conflicts.Keys && right <= conflicts.Keys && left !! right
    ensures TotalSeen(conflicts, left + right) == TotalSeen(conflicts, left) + TotalSeen(conflicts, right)
  {
    if right == {} {
      assert left + right == left;
    } else {
      var k :| k in right;
      TotalSeenWithout(conflicts, left + right, k);
      TotalSeenWithout(conflicts, right, k);
      assert left + right - {k} == left + (right - {k});
      TotalSeenOfUnion(conflicts, left, right - {k});
    }
  }

  /** A conflict row sums the sightings of exactly its origins, since their first and until their last, and claims
      what one of them claimed. */
  ghost predicate Gathers(conflict: Conflict, conflicts: map<ConflictKey, Conflict>, origins: set<ConflictKey>)
    requires origins <= conflicts.Keys
  {
    && conflict.seenCount == TotalSeen(conflicts, origins)
    && (forall k :: k in origins ==>
         conflict.firstSeenAt <= conflicts[k].firstSeenAt && conflicts[k].lastSeenAt <= conflict.lastSeenAt)
    && (exists k :: k in origins && conflicts[k].firstSeenAt == conflict.firstSeenAt)
    && (exists k :: k in origins && conflicts[k].lastSeenAt == conflict.lastSeenAt)
    && (exists k :: k in origins && conflicts[k].claim == conflict.claim)
  }

  lemma GathersBoth(kept: Conflict, lost: Conflict, conflicts: map<ConflictKey, Conflict>, left: set<ConflictKey>,
                    right: set<ConflictKey>)
    requires left <= conflicts.Keys && right <= conflicts.Keys && left !! right
    requires Gathers(kept, conflicts, left) && Gathers(lost, conflicts, right)
    ensures Gathers(JoinConflicts(kept, lost), conflicts, left + right)
  {
    TotalSeenOfUnion(conflicts, left, right);
    var a :| a in left && conflicts[a].firstSeenAt == kept.firstSeenAt;
    var b :| b in right && conflicts[b].firstSeenAt == lost.firstSeenAt;
    var c :| c in left && conflicts[c].lastSeenAt == kept.lastSeenAt;
    var d :| d in right && conflicts[d].lastSeenAt == lost.lastSeenAt;
    var e :| e in left && conflicts[e].claim == kept.claim;
    assert {a, b, c, d, e} <= left + right;
  }

  /** The table holds a row under the key exactly when it has origins, and the row gathers them. */
  ghost predicate Accounts(table: map<ConflictKey, Conflict>, key: ConflictKey, conflicts: map<ConflictKey, Conflict>,
                           origins: set<ConflictKey>)
    requires origins <= conflicts.Keys
  {
    && (key in table <==> origins != {})
    && (key in table ==> Gathers(table[key], conflicts, origins))
  }

  /** One fold gathers the loser's conflict and its origins into the survivor's. */
  lemma MergedStep(db: Db, log: seq<Step>, key: ConflictKey)
    requires log != []
    ensures var front, step := log[..|log| - 1], log[|log| - 1];
      Merged(db, log, key) ==
      if step.Fold? && step.loser != step.survivor && key.product == step.loser then {}
      else if step.Fold? && key.product == step.survivor
      then Merged(db, front, key) + Merged(db, front, AtProduct(key, step.loser))
      else Merged(db, front, key)
  {
  }

  lemma ConflictStep(before: map<ConflictKey, Conflict>, step: Step, key: ConflictKey,
                     conflicts: map<ConflictKey, Conflict>, origins: set<ConflictKey>, lost: set<ConflictKey>)
    requires step.Fold? && step.loser != step.survivor && origins <= conflicts.Keys && lost <= conflicts.Keys
    requires key.product == step.survivor ==> origins !! lost
    requires Accounts(before, key, conflicts, origins) && Accounts(before, AtProduct(key, step.loser), conflicts, lost)
    ensures Accounts(MoveConflicts(before, step.loser, step.survivor), key, conflicts,
      if key.product == step.loser then {} else if key.product == step.survivor then origins + lost else origins)
  {
    if key.product == step.survivor {
      SurvivorConflict(before, step, key, conflicts, origins, lost);
    } else if key.product == step.loser {
      assert key !in MoveConflicts(before, step.loser, step.survivor);
    } else {
      OtherConflict(before, step, key);
    }
  }

  /** Over any run a bottling has a conflict row exactly when one of the rows folded into it had one, and that
      row conserves their sightings and spans their dates. */
  lemma {:induction false} ConflictsAreConserved(db: Db, log: seq<Step>, key: ConflictKey)
    requires Sound(db) && Feasible(db, log)
    ensures Accounts(Run(db, log).conflicts, key, db.conflicts, Merged(db, log, key))
  {
    if log == [] {
      assert Merged(db, log, key) == if key in db.conflicts then {key} else {};
      if key in db.conflicts {
        TotalSeenWithout(db.conflicts, {key}, key);
        assert {key} - {key} == {};
      }
    } else {
      var front, step := log[..|log| - 1], log[|log| - 1];
      ConflictsAreConserved(db, front, key);
      MergedStep(db, log, key);
      if step.Fold? {
        var lost := AtProduct(key, step.loser);
        ConflictsAreConserved(db, front, lost);
        ConflictStep(Run(db, front).conflicts, step, key, db.conflicts, Merged(db, front, key),
          Merged(db, front, lost));
      }
    }
  }

  /** A bottling never folded away keeps what its own conflict claimed, whatever is folded into it. */
  lemma {:induction false} ClaimsStay(db: Db, log: seq<Step>, key: ConflictKey)
    requires Sound(db) && Feasible(db, log) && key in db.conflicts && key.product !in Redirects(log)
    ensures key in Run(db, log).conflicts && Run(db, log).conflicts[key].claim == db.conflicts[key].claim
  {
    if log != [] {
      var front, step := log[..|log| - 1], log[|log| - 1];
      ClaimsStay(db, front, key);
      if step.Fold? {
        var before := Run(db, front).conflicts;
        assert AtProduct(key, Rename(key.product, step.loser, step.survivor)) == key;
        assert key in MoveConflicts(before, step.loser, step.survivor);
      }
    }
  }

  lemma SurvivorConflict(before: map<ConflictKey, Conflict>, step: Step, key: ConflictKey,
                         conflicts: map<ConflictKey, Conflict>, kept: set<ConflictKey>, lost: set<ConflictKey>)
    requires step.Fold? && step.loser != step.survivor && key.product == step.survivor
    requires kept <= conflicts.Keys && lost <= conflicts.Keys && kept !! lost
    requires Accounts(before, key, conflicts, kept) && Accounts(before, AtProduct(key, step.loser), conflicts, lost)
    ensures Accounts(MoveConflicts(before, step.loser, step.survivor), key, conflicts, kept + lost)
  {
    var next := MoveConflicts(before, step.loser, step.survivor);
    var other := AtProduct(key, step.loser);
    assert key in before ==> AtProduct(key, Rename(key.product, step.loser, step.survivor)) in next;
    assert other in before ==> AtProduct(other, Rename(other.product, step.loser, step.survivor)) in next;
    assert key in next ==> key in before || other in before;
    if key in before && other in before {
      GathersBoth(before[key], before[other], conflicts, kept, lost);
    } else if key in before {
      assert kept + lost == kept;
    } else if other in before {
      assert kept + lost == lost;
    }
  }

  lemma OtherConflict(before: map<ConflictKey, Conflict>, step: Step, key: ConflictKey)
    requires step.Fold? && key.product != step.survivor && key.product != step.loser
    ensures var next := MoveConflicts(before, step.loser, step.survivor);
      (key in next <==> key in before) && (key in before ==> next[key] == before[key])
  {
    assert key in before ==> AtProduct(key, Rename(key.product, step.loser, step.survivor)) == key;
  }
}
