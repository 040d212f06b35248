/** The duplicate repair itself: grouping passes over the live tables, the redirect map they fill,
    the orphan sweep and the checks made before committing. */
module DuplicateMergeRun {
  import opened Facts
  import opened Tables
  import opened LiveCatalogue
  import opened MergeRun
  import opened GroupFold
  import opened DuplicatePasses
  import opened DuplicateEffects

  datatype Reason = FootprintChanged | TwinsRemain | KeysClash

  datatype Verdict = Committed | Aborted(reason: Reason)

  // ----- the run -----

  class DuplicateMerge {
    /** Rows this run already folded away, each with the row it was folded into. */
    var redirects: map<Id, Id>
    ghost var start: Db
    ghost var log: seq<Step>

    constructor (c: Catalogue)
      requires Sound(c.Snapshot())
      ensures Tracks(c) && log == [] && start == c.Snapshot()
    {
      redirects := map[];
      start := c.Snapshot();
      log := [];
    }

    /** The live tables are the start after the log, and the redirect map is the log's. */
    ghost predicate Tracks(c: Catalogue)
      reads this, c
    {
      Sound(start) && Feasible(start, log) && c.Snapshot() == Run(start, log) && redirects == Redirects(log)
    }

    /** Follows the redirects; the walk ends because every hop shortens the chain. */
    method Resolve(c: Catalogue, id: Id) returns (current: Id)
      requires Tracks(c)
      ensures current == MergeRun.Resolve(log, id)
      ensures current !in redirects
    {
      current := id;
      while current in redirects
        invariant MergeRun.Resolve(log, current) == MergeRun.Resolve(log, id)
        decreases Hops(log, current)
      {
        RedirectHop(start, log, current);
        current := redirects[current];
      }
      OnlyRedirectedRowsMove(log, current);
    }

    method MoveUserLists(c: Catalogue, loser: Id, survivor: Id)
      requires loser != survivor
      modifies c`favorites, c`blacklist
      ensures c.favorites == MoveEntries(old(c.favorites), loser, survivor)
      ensures c.blacklist == MoveEntries(old(c.blacklist), loser, survivor)
    {
      RepointThenDrop(c.favorites, loser, survivor);
      c.favorites := RepointUnheld(c.favorites, loser, survivor);
      c.favorites := DropEntries(c.favorites, loser);
      RepointThenDrop(c.blacklist, loser, survivor);
      c.blacklist := RepointUnheld(c.blacklist, loser, survivor);
      c.blacklist := DropEntries(c.blacklist, loser);
    }

    /** Purchases of a doubled row move first, so that deleting the row cascades to none. */
    method MoveCollection(c: Catalogue, loser: Id, survivor: Id)
      requires loser != survivor && UniqueEntries(c.collections)
      modifies c`collections, c`purchases
      ensures c.collections == MoveCollections(old(c.collections), loser, survivor)
      ensures c.purchases == MovePurchases(old(c.collections), old(c.purchases), loser, survivor)
    {
      ghost var before := c.collections;
      c.purchases := MovePurchases(c.collections, c.purchases, loser, survivor);
      assert forall p :: p in c.purchases ==> !Doubled(before, c.purchases[p], loser, survivor);
      c.collections := map r | r in c.collections && !Doubled(c.collections, r, loser, survivor) :: c.collections[r];
      MoveKeepsUniqueEntries(before, loser, survivor);
      c.collections := map r | r in c.collections ::
        Entry(c.collections[r].user, Rename(c.collections[r].product, loser, survivor));
      assert UniqueEntries(c.collections);  // unique index on (userId, productId)
    }

    /** The loser's aliases follow it; its own key is adopted by a keyless survivor, else becomes an alias. */
    method RetireKey(c: Catalogue, loser: Id, survivor: Id, lostKey: Option<string>, keptKey: Option<string>)
      requires loser in c.products && survivor in c.products && loser != survivor && UniqueKeys(c.products)
      requires c.products[loser].matchKey == lostKey && c.products[survivor].matchKey == keptKey
      modifies c`products, c`aliases
      ensures c.products == old(c.products)[loser := old(c.products)[loser].(matchKey := None)]
                                           [survivor :=
                                             old(c.products)[survivor].(matchKey := Coalesce(keptKey, lostKey))]
      ensures c.aliases == var moved := MoveAliases(old(c.aliases), loser, survivor);
        if lostKey.Some? && keptKey.Some? then moved[lostKey.value := survivor] else moved
    {
      c.aliases := MoveAliases(c.aliases, loser, survivor);
      if lostKey.None? {
        return;
      }
      c.SetKey(loser, None);
      if keptKey.None? {
        c.SetKey(survivor, lostKey);
        return;
      }
      c.aliases := c.aliases[lostKey.value := survivor];
    }

    /** The survivor's tags take in the loser's, which a curated loser's replace first. */
    method FoldFlavors(c: Catalogue, loser: Id, survivor: Id, resets: bool)
      requires loser != survivor
      modifies c`flavors
      ensures DropFlavors(c.flavors, loser) ==
        MoveFlavors(if resets then DropFlavors(old(c.flavors), survivor) else old(c.flavors), loser, survivor)
    {
      if resets {
        c.flavors := DropFlavors(c.flavors, survivor);
      }
      UpsertThenDropFlavors(c.flavors, loser, survivor);
      c.flavors := UpsertFlavors(c.flavors, loser, survivor);
    }

    method FoldConflicts(c: Catalogue, loser: Id, survivor: Id)
      requires loser != survivor
      modifies c`conflicts
      ensures DropConflicts(c.conflicts, loser) == MoveConflicts(old(c.conflicts), loser, survivor)
    {
      UpsertThenDropConflicts(c.conflicts, loser, survivor);
      c.conflicts := UpsertConflicts(c.conflicts, loser, survivor);
    }

    /** Deletes a row nothing owned names any more: nothing restricts it, and no user entry or alias is cascaded
        away. */
    method DeleteFolded(c: Catalogue, loser: Id)
      requires forall o :: o in c.offers ==> c.offers[o].product != loser
      requires forall r :: r in c.collections ==> c.collections[r].product != loser
      requires forall e :: e in c.favorites ==> e.product != loser
      requires forall e :: e in c.blacklist ==> e.product != loser
      requires forall k :: k in c.aliases ==> c.aliases[k] != loser
      modifies c`products, c`favorites, c`blacklist, c`flavors, c`conflicts, c`aliases
      ensures c.products == old(c.products) - {loser}
      ensures c.favorites == old(c.favorites) && c.blacklist == old(c.blacklist) && c.aliases == old(c.aliases)
      ensures c.flavors == DropFlavors(old(c.flavors), loser) && c.conflicts == DropConflicts(old(c.conflicts), loser)
    {
      assert DropEntries(c.favorites, loser) == c.favorites;
      assert DropEntries(c.blacklist, loser) == c.blacklist;
      assert DropAliasesOf(c.aliases, loser) == c.aliases;
      c.DeleteProduct(loser);
    }

    /** Folds one bottling into another. Every constraint holds at each statement. */
    method Merge(c: Catalogue, loser: Id, survivor: Id) returns (moved: Option<nat>)
      requires Tracks(c) && loser != survivor
      modifies this`redirects, this`log, c
      ensures Tracks(c)
      ensures moved.None? <==> loser !in old(c.products) || survivor !in old(c.products)
      ensures moved.None? ==> log == old(log) && c.Snapshot() == old(c.Snapshot())
      ensures moved.Some? ==> log == old(log) + [Fold(loser, survivor)]
      ensures moved.Some? ==> c.Snapshot() == MergeInto(old(c.Snapshot()), loser, survivor)
      ensures start == old(start) && Forgotten(log) == Forgotten(old(log))
      ensures moved.Some? ==> moved.value == |set o | o in old(c.offers) && old(c.offers)[o].product == loser|
    {
      if loser !in c.products || survivor !in c.products {
        return None;
      }
      LogsOneMore(start, log, Fold(loser, survivor));
      moved := MergeLive(c, loser, survivor);
      redirects := redirects[loser := survivor];
      log := log + [Fold(loser, survivor)];
    }

    /** Everything a user or a shop owns on the loser moves. */
    method MoveOwned(c: Catalogue, loser: Id, survivor: Id) returns (moved: nat)
      requires UniqueEntries(c.collections) && loser != survivor
      modifies c`offers, c`favorites, c`blacklist, c`collections, c`purchases
      ensures c.offers == MoveOffers(old(c.offers), loser, survivor)
      ensures c.favorites == MoveEntries(old(c.favorites), loser, survivor)
      ensures c.blacklist == MoveEntries(old(c.blacklist), loser, survivor)
      ensures c.collections == MoveCollections(old(c.collections), loser, survivor)
      ensures c.purchases == MovePurchases(old(c.collections), old(c.purchases), loser, survivor)
      ensures moved == |set o | o in old(c.offers) && old(c.offers)[o].product == loser|
    {
      moved := c.UpdateOffers(loser, survivor);
      MoveUserLists(c, loser, survivor);
      MoveCollection(c, loser, survivor);
    }

    /** Every statement of a merge before the delete: the loser keeps its row, but owns and answers to nothing. */
    method EmptyLoser(c: Catalogue, loser: Id, survivor: Id) returns (moved: nat)
      requires UniqueKeys(c.products) && UniqueEntries(c.collections)
      requires loser in c.products && survivor in c.products && loser != survivor
      modifies c`products, c`flavors, c`conflicts, c`offers, c`favorites, c`blacklist, c`collections, c`purchases,
        c`aliases
      ensures c.products - {loser} ==
        (old(c.products) - {loser})[survivor := MergeRow(old(c.products)[survivor], old(c.products)[loser])]
      ensures DropFlavors(c.flavors, loser) == MoveFlavors(
        if ResetsTags(old(c.products)[survivor], old(c.products)[loser])
          then DropFlavors(old(c.flavors), survivor) else old(c.flavors),
        loser, survivor)
      ensures DropConflicts(c.conflicts, loser) == MoveConflicts(old(c.conflicts), loser, survivor)
      ensures c.offers == MoveOffers(old(c.offers), loser, survivor)
      ensures c.favorites == MoveEntries(old(c.favorites), loser, survivor)
      ensures c.blacklist == MoveEntries(old(c.blacklist), loser, survivor)
      ensures c.collections == MoveCollections(old(c.collections), loser, survivor)
      ensures c.purchases == MovePurchases(old(c.collections), old(c.purchases), loser, survivor)
      ensures c.aliases ==
        RetireInto(MoveAliases(old(c.aliases), loser, survivor), old(c.products)[loser], old(c.products)[survivor],
          survivor)
      ensures moved == |set o | o in old(c.offers) && old(c.offers)[o].product == loser|
    {
      var lost, kept := c.products[loser], c.products[survivor];
      FactsKeepKeys(c.products, loser, survivor);
      RetiredRow(c.products, loser, survivor);
      c.products := c.products[survivor := MergeFacts(kept, lost)];
      FoldFlavors(c, loser, survivor, ResetsTags(kept, lost));
      FoldConflicts(c, loser, survivor);
      moved := MoveOwned(c, loser, survivor);
      RetireKey(c, loser, survivor, lost.matchKey, kept.matchKey);
    }

    /** The statements of one merge, in order; no constraint can be violated at any of them. */
    method MergeLive(c: Catalogue, loser: Id, survivor: Id) returns (moved: Option<nat>)
      requires Sound(c.Snapshot()) && loser in c.products && survivor in c.products && loser != survivor
      modifies c
      ensures c.Snapshot() == MergeInto(old(c.Snapshot()), loser, survivor)
      ensures moved == Some(|set o | o in old(c.offers) && old(c.offers)[o].product == loser|)
    {
      NothingNamesTheLoser(c.Snapshot(), loser, survivor);
      var count := EmptyLoser(c, loser, survivor);
      DeleteFolded(c, loser);
      moved := Some(count);
    }

    // ----- grouping -----

    /** The live rows a planned group stands for now, best first; rows folded together earlier appear once. */
    method Ranked(c: Catalogue, ids: set<Id>) returns (rows: seq<Id>)
      requires Tracks(c)
      ensures StandsFor(c.Snapshot(), log, ids, rows)
      ensures forall i, j :: 0 <= i < j < |rows| ==> Precedes(c.Snapshot(), rows[i], rows[j])
    {
      var live: set<Id> := {};
      var rest := ids;
      while rest != {}
        invariant rest <= ids
        invariant forall p :: p in live <==> exists id :: id in ids - rest && MergeRun.Resolve(log, id) == p
        decreases |rest|
      {
        var id := PickOne(rest);
        var p := Resolve(c, id);
        assert ids - (rest - {id}) == ids - rest + {id};
        rest := rest - {id};
        live := live + {p};
      }
      assert ids - {} == ids;
      rows := SortRows(c, live * c.products.Keys);
      forall i, j | 0 <= i < j < |rows|
        ensures Precedes(c.Snapshot(), rows[i], rows[j])
      {
        RankedAsStated(c.Snapshot(), log, ids, rows, i, j);
      }
    }

    method SortRows(c: Catalogue, live: set<Id>) returns (rows: seq<Id>)
      requires live <= c.products.Keys
      ensures RankedBy(c.Snapshot(), rows)
      ensures forall p :: p in rows <==> p in live
    {
      rows := [];
      var rest := live;
      while rest != {}
        invariant rest <= live && RankedBy(c.Snapshot(), rows)
        invariant forall p :: p in live <==> p in rest || p in rows
        invariant forall i, p :: 0 <= i < |rows| && p in rest ==>
          Ahead(StandingOf(c.Snapshot(), rows[i]), StandingOf(c.Snapshot(), p))
        decreases |rest|
      {
        var best := Best(c, rest);
        rows := rows + [best];
        rest := rest - {best};
      }
    }

    method Best(c: Catalogue, candidates: set<Id>) returns (best: Id)
      requires candidates != {} && candidates <= c.products.Keys
      ensures best in candidates
      ensures forall p :: p in candidates - {best} ==>
        Ahead(StandingOf(c.Snapshot(), best), StandingOf(c.Snapshot(), p))
    {
      best := PickOne(candidates);
      var rest := candidates - {best};
      while rest != {}
        invariant rest <= candidates && best in candidates - rest
        invariant forall p :: p in candidates - rest - {best} ==>
          Ahead(StandingOf(c.Snapshot(), best), StandingOf(c.Snapshot(), p))
        decreases |rest|
      {
        var p := PickOne(rest);
        if Ahead(StandingOf(c.Snapshot(), p), StandingOf(c.Snapshot(), best)) {
          best := p;
        }
        rest := rest - {p};
      }
    }

    /** Folds a ranked group into its first row; no merge of it can find a row missing or equal to the survivor. */
    method FoldGroup(c: Catalogue, rows: seq<Id>)
      requires Tracks(c) && LiveGroup(c.Snapshot(), rows)
      modifies this`redirects, this`log, c
      ensures Tracks(c) && start == old(start) && Forgotten(log) == Forgotten(old(log))
      ensures log == old(log) + Folds(rows)
      ensures c.Snapshot() == Run(old(c.Snapshot()), Folds(rows))
    {
      ghost var before, planned := c.Snapshot(), log;
      assert Folds(rows[..1]) == [];
      for i := 1 to |rows|
        invariant Tracks(c) && start == old(start) && Forgotten(log) == Forgotten(planned)
        invariant log == planned + Folds(rows[..i])
        invariant c.Snapshot() == Run(before, Folds(rows[..i]))
      {
        GroupStep(before, rows, i);
        AppendStep(planned, Folds(rows[..i]), Fold(rows[i], rows[0]));
        var moved := Merge(c, rows[i], rows[0]);
      }
      assert rows[..|rows|] == rows;
    }

    /** The groups of two or more rows that share one identity. */
    method IdentityGroups(c: Catalogue) returns (groups: seq<set<Id>>)
      ensures IdentityPlan(c.products, groups)
    {
      groups := [];
      var rest := set p | p in c.products && IdentityOf(c.products[p]).Some?;
      while rest != {}
        invariant forall p :: p in rest ==> p in c.products && IdentityOf(c.products[p]).Some?
        invariant forall i :: 0 <= i < |groups| ==> OneIdentity(c.products, groups[i])
        invariant forall i, j :: 0 <= i < j < |groups| ==> groups[i] !! groups[j]
        invariant forall i :: 0 <= i < |groups| ==> groups[i] !! rest
        invariant forall p, q :: Twins(c.products, p, q) ==> (p in rest && q in rest) || Grouped(groups, p, q)
        decreases |rest|
      {
        var p := PickOne(rest);
        var group := set q | q in rest && IdentityOf(c.products[q]) == IdentityOf(c.products[p]);
        assert p in group;
        ghost var earlier := groups;
        if group != {p} {
          groups := groups + [group];
        }
        forall q, r | Twins(c.products, q, r)
          ensures (q in rest - group && r in rest - group) || Grouped(groups, q, r)
        {
          if Grouped(earlier, q, r) {
            ghost var i :| 0 <= i < |earlier| && q in earlier[i] && r in earlier[i];
            assert groups[i] == earlier[i];
          } else if q in group || r in group {
            assert q in group && r in group && groups[|earlier|] == group;
          }
        }
        rest := rest - group;
      }
    }

    lemma LiveRowsStand(group: set<Id>)
      requires redirects == Redirects(log) && group !! redirects.Keys
      ensures forall p :: p in group ==> MergeRun.Resolve(log, p) == p
    {
      forall p | p in group
        ensures MergeRun.Resolve(log, p) == p
      {
        OnlyRedirectedRowsMove(log, p);
      }
    }

    /** Folds one identity group: a single row of it stays, every other row and every identity is as it was. */
    method FoldIdentityGroup(c: Catalogue, group: set<Id>)
      requires Tracks(c) && OneIdentity(c.products, group)
      modifies this`redirects, this`log, c
      ensures Tracks(c) && start == old(start) && Forgotten(log) == Forgotten(old(log))
      ensures IdentityTurn(start, old(log), group, log)
      ensures forall p :: p in c.products ==>
        p in old(c.products) && IdentityOf(c.products[p]) == IdentityOf(old(c.products)[p])
      ensures forall p :: p in old(c.products) && p !in group ==> p in c.products
      ensures forall p, q :: p in group && q in group && p in c.products && q in c.products ==> p == q
    {
      ghost var before := c.Snapshot();
      var rows := Ranked(c, group);
      GoneRows(start, log);
      assert forall p :: p in group ==> p in before.products && p !in redirects;
      LiveRowsStand(group);
      assert forall p :: p in rows <==> p in group;
      assert rows != [] by {
        assert forall p :: p in group ==> p in rows;
      }
      RankedGroupIsNamedFirst(before, rows);
      assert forall k :: 0 <= k < |rows| ==> rows[k] in group;
      IdentityGroupKeepsIdentities(before, rows);
      FoldGroupRows(before, rows);
      FoldGroup(c, rows);
      assert forall p :: p in rows && p !in Later(rows) ==> p == rows[0];
    }

    /** Folds every group that shares a name, volume and age: afterwards no two named rows do, and no row's
        identity has changed. */
    method MergeIdentityGroups(c: Catalogue) returns (ghost groups: seq<set<Id>>)
      requires Tracks(c)
      modifies this`redirects, this`log, c
      ensures Tracks(c) && start == old(start) && Forgotten(log) == Forgotten(old(log))
      ensures IdentityPlan(old(c.products), groups) && IdentityPass(start, old(log), groups, log)
      ensures NoTwins(c.products)
      ensures forall p :: p in c.products ==>
        p in old(c.products) && IdentityOf(c.products[p]) == IdentityOf(old(c.products)[p])
    {
      var planned := IdentityGroups(c);
      groups := planned;
      ghost var before := c.products;
      for i := 0 to |planned|
        invariant Tracks(c) && start == old(start) && Forgotten(log) == Forgotten(old(log))
        invariant IdentityPass(start, old(log), groups[..i], log)
        invariant Thinned(before, c.products, groups, i)
      {
        ghost var mid, now := log, c.products;
        StillOneIdentity(before, now, groups, i);
        FoldIdentityGroup(c, planned[i]);
        IdentityPassGoesOn(start, old(log), groups, i, mid, log);
        ThinnedNext(before, now, c.products, groups, i);
      }
      assert groups[..|groups|] == groups;
      ThinnedHasNoTwins(before, c.products, groups);
    }

    /** The rows of a ranked barcode group its first row may take in, itself first. */
    method EligibleRows(c: Catalogue, rows: seq<Id>) returns (eligible: seq<Id>)
      requires rows != [] && RankedBy(c.Snapshot(), rows)
      ensures eligible == TakenIn(c.products, rows)
    {
      eligible := [rows[0]];
      for i := 1 to |rows|
        invariant eligible == TakenIn(c.products, rows[..i])
      {
        assert rows[..i + 1][..i] == rows[..i];
        if Eligible(c.products[rows[0]], c.products[rows[i]]) {
          eligible := eligible + [rows[i]];
        }
      }
      assert rows[..|rows|] == rows;
    }

    /** Folds the eligible rows of every group of rows sharing a barcode, whatever the planned groups name by now; each
        fold joins two rows that may be one whisky. Twins appear only where one of these folds moves a person's age
        onto a taken identity. */
    method MergeBarcodeGroups(c: Catalogue, groups: seq<set<Id>>)
      requires Tracks(c)
      modifies this`redirects, this`log, c
      ensures Tracks(c) && start == old(start) && Forgotten(log) == Forgotten(old(log))
      ensures BarcodePass(start, old(log), groups, log)
      ensures forall k :: |old(log)| <= k < |log| ==> FoldsOneWhisky(start, log, k)
      ensures NoTwins(old(c.products)) && !NoTwins(c.products) ==>
        exists k :: |old(log)| <= k < |log| && FoldMovesTakenAge(start, log, k)
    {
      for i := 0 to |groups|
        invariant Tracks(c) && start == old(start) && Forgotten(log) == Forgotten(old(log))
        invariant BarcodePass(start, old(log), groups[..i], log)
      {
        ghost var mid := log;
        FoldShared(c, groups[i]);
        BarcodePassGoesOn(start, old(log), groups, i, mid, log);
      }
      assert groups[..|groups|] == groups;
      forall k | |old(log)| <= k < |log|
        ensures FoldsOneWhisky(start, log, k)
      {
        PassFoldsOneWhisky(start, old(log), groups, log, k);
      }
      if NoTwins(old(c.products)) {
        PassTwins(start, old(log), groups, log);
      }
    }

    method FoldShared(c: Catalogue, group: set<Id>)
      requires Tracks(c)
      modifies this`redirects, this`log, c
      ensures Tracks(c) && start == old(start) && Forgotten(log) == Forgotten(old(log))
      ensures BarcodeTurn(start, old(log), group, log)
    {
      var rows := Ranked(c, group);
      if |rows| >= 2 {
        var eligible := EligibleRows(c, rows);
        TakenInRanked(c.Snapshot(), rows);
        FoldGroup(c, eligible);
      }
    }

    /** The earliest row of one identity, if any. */
    method FindByIdentity(c: Catalogue, identity: Identity) returns (row: Option<Id>)
      ensures IsFirst(c.products, identity, row)
    {
      var rows := set p | p in c.products && IdentityOf(c.products[p]) == Some(identity);
      if rows == {} {
        assert forall p :: p in c.products && IdentityOf(c.products[p]) == Some(identity) ==> p in rows;
        return None;
      }
      var first := c.Earliest(rows);
      return Some(first);
    }

    method ClearFacts(c: Catalogue, product: Id, clear: bool)
      requires Tracks(c) && product in c.products
      modifies this`log, c`products
      ensures Tracks(c) && log == old(log) + (if clear then [Clear(product)] else [])
      ensures c.products.Keys == old(c.products).Keys
        && c.products[product].matchKey == old(c.products)[product].matchKey
      ensures Forgotten(log) == Forgotten(old(log))
    {
      if clear {
        LogsOneMore(start, log, Clear(product));
        c.products := c.products[product := ClearAgeAndAbv(c.products[product])];
        log := log + [Clear(product)];
      }
    }

    method ForgetKey(c: Catalogue, key: Option<string>, keep: bool)
      requires Tracks(c)
      modifies this`log, c`aliases
      ensures Tracks(c) && log == old(log) + (if !keep && key.Some? then [Forget(key.value)] else [])
      ensures keep ==> Forgotten(log) == Forgotten(old(log))
    {
      if !keep && key.Some? {
        LogsOneMore(start, log, Forget(key.value));
        c.aliases := c.aliases - {key.value};
        log := log + [Forget(key.value)];
      }
    }

    /** Folds one bottling, addressed by identity, into another; does nothing unless both are found apart. */
    method FoldByIdentity(c: Catalogue, curated: CuratedFold) returns (moved: Option<nat>)
      requires Tracks(c)
      modifies this`redirects, this`log, c
      ensures Tracks(c) && start == old(start)
      ensures moved.None? ==> log == old(log) && c.Snapshot() == old(c.Snapshot())
      ensures CuratedTurn(start, old(log), curated, log)
      ensures curated.keepAlias ==> Forgotten(log) == Forgotten(old(log))
    {
      var from := FindByIdentity(c, curated.from);
      var into := FindByIdentity(c, curated.into);
      if from.None? || into.None? || from == into {
        return None;
      }
      moved := FoldCurated(c, curated, from.value, into.value);
    }

    method FoldCurated(c: Catalogue, curated: CuratedFold, loser: Id, survivor: Id) returns (moved: Option<nat>)
      requires Tracks(c) && loser in c.products && survivor in c.products && loser != survivor
      modifies this`redirects, this`log, c
      ensures Tracks(c) && start == old(start) && moved.Some?
      ensures log == CuratedLog(old(log), curated, loser, survivor, old(c.products)[loser].matchKey)
      ensures curated.keepAlias ==> Forgotten(log) == Forgotten(old(log))
    {
      var key := c.products[loser].matchKey;
      ClearFacts(c, loser, curated.clearAgeAndAbv);
      moved := Merge(c, loser, survivor);
      ForgetKey(c, key, curated.keepAlias);
    }

    /** Deletes every bottling nothing refers to. */
    method SweepOrphans(c: Catalogue) returns (deleted: nat)
      requires Sound(c.Snapshot())
      modifies c
      ensures c.Snapshot() == Sweep(old(c.Snapshot()))
      ensures deleted == |set p | p in old(c.products) && Orphan(old(c.Snapshot()), p)|
    {
      var db := c.Snapshot();
      deleted := |set p | p in db.products && Orphan(db, p)|;
      c.Restore(Sweep(db));
    }

    /** The checks made before committing. */
    method Check(c: Catalogue, offersBefore: nat, purchasesBefore: nat) returns (verdict: Verdict)
      ensures verdict == Aborted(FootprintChanged) <==> |c.offers| != offersBefore || |c.purchases| != purchasesBefore
      ensures verdict == Aborted(TwinsRemain) ==> !NoTwins(c.products)
      ensures verdict == Aborted(KeysClash) ==> !ClashFree(c.Snapshot())
      ensures verdict == Committed ==> NoTwins(c.products) && ClashFree(c.Snapshot())
    {
      if |c.offers| != offersBefore || |c.purchases| != purchasesBefore {
        return Aborted(FootprintChanged);
      }
      if exists p, q :: p in c.products && q in c.products && Twins(c.products, p, q) {
        return Aborted(TwinsRemain);
      }
      if exists p :: p in c.products && c.products[p].matchKey.Some? && c.products[p].matchKey.value in c.aliases {
        return Aborted(KeysClash);
      }
      return Committed;
    }

    /** The passes up to the orphan sweep. */
    method Repair(c: Catalogue, curated: seq<CuratedFold>, barcodes: seq<set<Id>>)
      requires Tracks(c) && log == []
      modifies this`redirects, this`log, c
      ensures Tracks(c) && start == old(start) && RepairLog(start, curated, barcodes, log)
      ensures !NoTwins(c.products) ==> BarcodeTakesAge(start, curated, barcodes, log)
      ensures (forall f :: f in curated ==> f.keepAlias) ==> Forgotten(log) == {}
    {
      for i := 0 to |curated|
        invariant Tracks(c) && start == old(start) && CuratedPass(start, [], curated[..i], log)
        invariant (forall f :: f in curated ==> f.keepAlias) ==> Forgotten(log) == {}
      {
        ghost var mid := log;
        var moved := FoldByIdentity(c, curated[i]);
        CuratedPassGoesOn(start, [], curated, i, mid, log);
      }
      assert curated[..|curated|] == curated;
      ghost var first := log;
      ghost var groups := MergeIdentityGroups(c);
      ghost var settled := log;
      MergeBarcodeGroups(c, barcodes);
      SettledThenShared(start, curated, barcodes, first, groups, settled, log);
    }

    /** The whole repair, one transaction. From a start whose retired and live keys are apart, only a fold of the
        barcode pass that moves a person's age onto a name and volume already taken at that age can abort it. */
    method Up(c: Catalogue, curated: seq<CuratedFold>, barcodes: seq<set<Id>>) returns (verdict: Verdict)
      requires Tracks(c) && log == []
      modifies this`redirects, this`log, c
      ensures Sound(start) && Feasible(start, log) && start == old(c.Snapshot())
      ensures RepairLog(start, curated, barcodes, log)
      ensures verdict == Committed ==> c.Snapshot() == Sweep(Run(start, log)) && NoTwins(c.products)
      ensures verdict == Committed ==> AllNamed(c.Snapshot())
      ensures verdict != Committed ==> c.Snapshot() == old(c.Snapshot())
      ensures verdict != Aborted(FootprintChanged)
      ensures ClashFree(start) ==> (verdict == Committed <==> NoTwins(Sweep(Run(start, log)).products))
      ensures ClashFree(start) && verdict != Committed ==> BarcodeTakesAge(start, curated, barcodes, log)
      ensures ClashFree(start) && NoAgeByHand(start.products) ==> verdict == Committed
      ensures (forall f :: f in curated ==> f.keepAlias) ==> Forgotten(log) == {}
    {
      var saved := c.Snapshot();
      Repair(c, curated, barcodes);
      RunKeepsFootprint(start, log);
      SweepKeeps(c.Snapshot());
      SweptAreNamed(c.Snapshot());
      ghost var twins := !NoTwins(c.products);
      var deleted := SweepOrphans(c);
      ghost var swept := c.Snapshot();
      assert c.offers == Run(start, log).offers && c.purchases == Run(start, log).purchases;
      verdict := Check(c, |saved.offers|, |saved.purchases|);
      assert swept == Sweep(Run(start, log)) && (ClashFree(start) ==> ClashFree(swept));
      assert verdict == Aborted(TwinsRemain) ==> !NoTwins(swept.products);
      assert verdict == Aborted(KeysClash) ==> !ClashFree(swept);
      assert verdict.Committed? || verdict.reason.FootprintChanged? || verdict.reason.TwinsRemain?
        || verdict.reason.KeysClash?;
      assert ClashFree(start) ==> (verdict == Committed <==> NoTwins(swept.products));
      if NoAgeByHand(start.products) {
        NoneToTake(start, curated, barcodes, log);
      }
      if verdict != Committed {
        c.Restore(saved);
      }
    }
  }
}
