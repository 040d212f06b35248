/** A run over one store's bottlings after a run over the whole catalogue. Both resolve their rows from the shops'
    own texts, so the rows are the same names; the store run weighs them against the names the catalogue-wide run
    stored for the other bottlings. */
module StoreRuns {
  import opened Facts
  import opened NameSettlement
  import opened NameRuns

  /** What the catalogue-wide run stores, the store's bottlings first; the order does not matter. */
  ghost function Wide(speller: Speller, mine: Names, others: Names): Names
    requires TotalOrder(speller.compare)
  {
    Settled(speller, mine + others, [])
  }

  /** The stored names the store run has for its context. */
  ghost function Context(speller: Speller, mine: Names, others: Names): Names
    requires TotalOrder(speller.compare)
  {
    Wide(speller, mine, others)[|mine|..]
  }

  ghost function StoreRun(speller: Speller, mine: Names, others: Names): Names
    requires TotalOrder(speller.compare)
  {
    Settled(speller, mine, Context(speller, mine, others))
  }

  /** The store run leaves every bottling it covers where the catalogue-wide run put it. */
  ghost predicate Undisturbed(speller: Speller, mine: Names, others: Names)
    requires TotalOrder(speller.compare)
  {
    StoreRun(speller, mine, others) == Wide(speller, mine, others)[..|mine|]
  }

  /** Every shorter name on the way from `name` to its collapse is attested still. */
  ghost predicate StillAttested(speller: Speller, wide: set<string>, store: set<string>, name: string)
    decreases |name|
  {
    Sheds(speller, wide, name) ==>
      var shorter := name[..LastSpace(name)];
      speller.lower(shorter) in store && StillAttested(speller, wide, store, shorter)
  }

  /** Shedding a tag shortens the spelling key: the tag's letters are part of it. */
  ghost predicate TagsCount(speller: Speller) {
    forall name: string :: TagCounts(speller, name)
  }

  ghost predicate TagCounts(speller: Speller, name: string) {
    var cut := LastSpace(name);
    cut > 0 && speller.lower(name[cut + 1..]) in speller.tags ==> |speller.key(name[..cut])| < |speller.key(name)|
  }

  /** The names the whole catalogue attests, and those the store run sees. */
  function AllNames(speller: Speller, mine: Names, others: Names): set<string> {
    Attested(speller, mine + others + [])
  }

  ghost function SeenNames(speller: Speller, mine: Names, others: Names): set<string>
    requires TotalOrder(speller.compare)
  {
    Attested(speller, mine + Context(speller, mine, others))
  }

  lemma StoreSeesNoMore(speller: Speller, mine: Names, others: Names)
    requires TotalOrder(speller.compare)
    ensures SeenNames(speller, mine, others) <= AllNames(speller, mine, others)
  {
    var all, context := mine + others, Context(speller, mine, others);
    forall n | n in mine + context && n.Some?
      ensures speller.lower(n.value) in AllNames(speller, mine, others)
    {
      if n in mine {
        assert n in all;
        AttestedHas(speller, all, [], n.value);
      } else {
        var i :| 0 <= i < |context| && context[i] == n;
        SettledRow(speller, all, [], |mine| + i);
      }
    }
  }

  /** With less attested, a name collapses as far as before exactly if its shorter names are attested still. */
  lemma {:induction false} CollapseStays(speller: Speller, wide: set<string>, store: set<string>, name: string)
    requires store <= wide
    ensures StillAttested(speller, wide, store, name) ==>
      Collapse(speller, store, name) == Collapse(speller, wide, name)
    decreases |name|
  {
    if Sheds(speller, wide, name) && StillAttested(speller, wide, store, name) {
      CollapseStays(speller, wide, store, name[..LastSpace(name)]);
    }
  }

  lemma {:induction false} CollapseShortensTheKey(speller: Speller, attested: set<string>, name: string)
    requires TagsCount(speller)
    ensures |speller.key(Collapse(speller, attested, name))| <= |speller.key(name)|
    decreases |name|
  {
    if Sheds(speller, attested, name) {
      assert TagCounts(speller, name);
      CollapseShortensTheKey(speller, attested, name[..LastSpace(name)]);
    }
  }

  /** Where a shorter name is no longer attested, the name ends under another key. */
  lemma {:induction false} CollapseFallsShort(speller: Speller, wide: set<string>, store: set<string>, name: string)
    requires store <= wide && TagsCount(speller) && !StillAttested(speller, wide, store, name)
    ensures speller.key(Collapse(speller, store, name)) != speller.key(Collapse(speller, wide, name))
    decreases |name|
  {
    var shorter := name[..LastSpace(name)];
    assert TagCounts(speller, name);
    if Sheds(speller, store, name) {
      CollapseFallsShort(speller, wide, store, shorter);
    } else {
      CollapseShortensTheKey(speller, wide, shorter);
    }
  }

  // ----- where the names stay attested -----

  /** Every name the store covers still finds its shorter names. */
  ghost predicate AllStillAttested(speller: Speller, mine: Names, others: Names)
    requires TotalOrder(speller.compare)
  {
    var wide, store := AllNames(speller, mine, others), SeenNames(speller, mine, others);
    forall n | Some(n) in mine :: StillAttested(speller, wide, store, n)
  }

  lemma SameCollapse(speller: Speller, mine: Names, others: Names)
    requires TotalOrder(speller.compare) && AllStillAttested(speller, mine, others)
    ensures Collapsed(speller, mine, Context(speller, mine, others)) == Collapsed(speller, mine + others, [])[..|mine|]
  {
    var wide, store := AllNames(speller, mine, others), SeenNames(speller, mine, others);
    StoreSeesNoMore(speller, mine, others);
    forall i | 0 <= i < |mine|
      ensures Collapsed(speller, mine, Context(speller, mine, others))[i] == Collapsed(speller, mine + others, [])[i]
    {
      assert (mine + others)[i] == mine[i];
      if mine[i].Some? {
        assert Some(mine[i].value) in mine;
        CollapseStays(speller, wide, store, mine[i].value);
      }
    }
  }

  lemma NothingAdded<T>(s: seq<T>)
    ensures s + [] == s
  {
  }

  /** A row of the catalogue-wide run holds the winner of its collapsed name's group. */
  lemma WideRow(speller: Speller, all: Names, i: nat)
    requires TotalOrder(speller.compare) && i < |all| && all[i].Some?
    ensures var collapsed, stored := Collapsed(speller, all, [])[i], Settled(speller, all, [])[i];
      && collapsed.Some? && stored.Some? && speller.key(stored.value) == speller.key(collapsed.value)
      && Wins(speller, multiset(Collapsed(speller, all, [])), stored.value)
  {
    NothingAdded(Collapsed(speller, all, []));
    SettledWinner(speller, all, [], i);
  }

  /** Among the stored names of the others only the winner of a group is left, once for each of its rows. */
  lemma OthersStandForTheirGroup(speller: Speller, mine: Names, others: Names, j: nat)
    requires TotalOrder(speller.compare) && j < |others| && others[j].Some?
    ensures var collapsed := Collapsed(speller, mine + others, []);
      var stored := Context(speller, mine, others)[j];
      && stored.Some? && collapsed[|mine| + j].Some? && Wins(speller, multiset(collapsed), stored.value)
      && speller.key(stored.value) == speller.key(collapsed[|mine| + j].value)
  {
    assert (mine + others)[|mine| + j] == others[j];
    WideRow(speller, mine + others, |mine| + j);
  }

  lemma WinnerIsOne(speller: Speller, names: multiset<Option<string>>, v: string, w: string)
    requires TotalOrder(speller.compare) && Wins(speller, names, v) && Wins(speller, names, w)
    requires speller.key(v) == speller.key(w)
    ensures v == w
  {
    if v != w {
      AheadIsTotal(speller, names, v, w);
    }
  }

  /** The winner of a group keeps its listings in the store run. */
  lemma WinnerKeepsListings(speller: Speller, mine: Names, others: Names, w: string)
    requires TotalOrder(speller.compare) && Wins(speller, multiset(Collapsed(speller, mine + others, [])), w)
    ensures var rest, context := Collapsed(speller, mine + others, [])[|mine|..], Context(speller, mine, others);
      multiset(rest)[Some(w)] <= multiset(context)[Some(w)]
  {
    var all, context := Collapsed(speller, mine + others, []), Context(speller, mine, others);
    var rest := all[|mine|..];
    forall j | 0 <= j < |rest| && rest[j] == Some(w)
      ensures context[j] == Some(w)
    {
      OthersStandForTheirGroup(speller, mine, others, j);
      WinnerIsOne(speller, multiset(all), w, context[j].value);
    }
    NoFewer(rest, context, Some(w));
  }

  /** No rival of it is stored. */
  lemma RivalIsNotStored(speller: Speller, mine: Names, others: Names, w: string, n: string)
    requires TotalOrder(speller.compare) && Wins(speller, multiset(Collapsed(speller, mine + others, [])), w)
    requires speller.key(n) == speller.key(w) && n != w
    ensures Some(n) !in Context(speller, mine, others)
  {
    var context := Context(speller, mine, others);
    if Some(n) in context {
      var j :| 0 <= j < |context| && context[j] == Some(n);
      NothingFromNothing(speller, mine, others, j);
      OthersStandForTheirGroup(speller, mine, others, j);
      WinnerIsOne(speller, multiset(Collapsed(speller, mine + others, [])), w, n);
    }
  }

  /** Swapping the rest of the rows for the context, one name's listings fall no lower and another's rise no higher. */
  lemma ListingsShift<T>(front: seq<T>, rest: seq<T>, context: seq<T>, w: T, n: T)
    requires multiset(rest)[w] <= multiset(context)[w] && n !in context
    ensures multiset(front + rest)[w] <= multiset(front + context)[w]
    ensures multiset(front + context)[n] <= multiset(front + rest)[n]
  {
    assert n !in multiset(context);
    assert multiset(front + rest) == multiset(front) + multiset(rest);
    assert multiset(front + context) == multiset(front) + multiset(context);
  }

  lemma WinnerStaysAhead(speller: Speller, mine: Names, others: Names, w: string, n: string)
    requires TotalOrder(speller.compare) && Wins(speller, multiset(Collapsed(speller, mine + others, [])), w)
    requires speller.key(n) == speller.key(w) && n != w
    ensures var all := Collapsed(speller, mine + others, []);
      var seen := multiset(all[..|mine|] + Context(speller, mine, others));
      multiset(all)[Some(w)] <= seen[Some(w)] && seen[Some(n)] <= multiset(all)[Some(n)]
  {
    var all := Collapsed(speller, mine + others, []);
    WinnerKeepsListings(speller, mine, others, w);
    RivalIsNotStored(speller, mine, others, w, n);
    ListingsShift(all[..|mine|], all[|mine|..], Context(speller, mine, others), Some(w), Some(n));
    assert all == all[..|mine|] + all[|mine|..];
  }

  lemma NothingFromNothing(speller: Speller, mine: Names, others: Names, j: nat)
    requires TotalOrder(speller.compare) && j < |others| && Context(speller, mine, others)[j].Some?
    ensures others[j].Some?
  {
    SettledRow(speller, mine + others, [], |mine| + j);
  }

  /** Where every name stays attested, the winner of a covered row's group wins again. */
  lemma WinnerWinsAgain(speller: Speller, mine: Names, others: Names, i: nat)
    requires TotalOrder(speller.compare) && AllStillAttested(speller, mine, others) && i < |mine| && mine[i].Some?
    ensures var seen :=
      multiset(Collapsed(speller, mine, Context(speller, mine, others)) + Context(speller, mine, others));
      var stored := Wide(speller, mine, others)[i];
      stored.Some? && Wins(speller, seen, stored.value)
  {
    var all, context := Collapsed(speller, mine + others, []), Context(speller, mine, others);
    SameCollapse(speller, mine, others);
    assert (mine + others)[i] == mine[i];
    WideRow(speller, mine + others, i);
    var w := Wide(speller, mine, others)[i].value;
    var seen := multiset(all[..|mine|] + context);
    assert Some(w) in seen by {
      WinnerListed(speller, mine, others, w);
    }
    forall n | Some(n) in seen && speller.key(n) == speller.key(w) && n != w
      ensures Ahead(speller, seen, w, n)
    {
      WinnerStaysAhead(speller, mine, others, w, n);
      StillAhead(speller, multiset(all), seen, w, n);
    }
  }

  /** The winner is still listed: its listings went nowhere. */
  lemma WinnerListed(speller: Speller, mine: Names, others: Names, w: string)
    requires TotalOrder(speller.compare) && Wins(speller, multiset(Collapsed(speller, mine + others, [])), w)
    ensures Some(w) in multiset(Collapsed(speller, mine + others, [])[..|mine|] + Context(speller, mine, others))
  {
    WinnerKeepsListings(speller, mine, others, w);
    StillListed(Collapsed(speller, mine + others, []), |mine|, Context(speller, mine, others), Some(w));
  }

  lemma StillListed<T>(all: seq<T>, n: nat, context: seq<T>, w: T)
    requires n <= |all| && multiset(all[n..])[w] <= multiset(context)[w] && w in multiset(all)
    ensures w in multiset(all[..n] + context)
  {
    var front, rest := all[..n], all[n..];
    assert all == front + rest;
    assert multiset(all) == multiset(front) + multiset(rest);
    assert multiset(front + context) == multiset(front) + multiset(context);
  }

  /** A store run leaves every bottling it covers as the catalogue-wide run stored it exactly when each name it
      covers still finds, among the names it sees, the shorter names its tags were dropped for. */
  lemma StoreRunUndoesNothing(speller: Speller, mine: Names, others: Names)
    requires TotalOrder(speller.compare) && TagsCount(speller)
    ensures Undisturbed(speller, mine, others) <==> AllStillAttested(speller, mine, others)
  {
    if AllStillAttested(speller, mine, others) {
      AttestedIsEnough(speller, mine, others);
    } else {
      var n :| Some(n) in mine
        && !StillAttested(speller, AllNames(speller, mine, others), SeenNames(speller, mine, others), n);
      var i :| 0 <= i < |mine| && mine[i] == Some(n);
      LostNameMoves(speller, mine, others, i);
    }
  }

  lemma AttestedIsEnough(speller: Speller, mine: Names, others: Names)
    requires TotalOrder(speller.compare) && AllStillAttested(speller, mine, others)
    ensures Undisturbed(speller, mine, others)
  {
    var context := Context(speller, mine, others);
    var collapsed := Collapsed(speller, mine, context);
    SameCollapse(speller, mine, others);
    forall i | 0 <= i < |mine|
      ensures StoreRun(speller, mine, others)[i] == Wide(speller, mine, others)[i]
    {
      SettledRow(speller, mine + others, [], i);
      SettledRow(speller, mine, context, i);
      if mine[i].Some? {
        WinnerWinsAgain(speller, mine, others, i);
        var again := StoreRun(speller, mine, others)[i].value;
        WinnerIsOne(speller, multiset(collapsed + context), again, Wide(speller, mine, others)[i].value);
      }
    }
  }

  lemma {:induction false} LostNameMoves(speller: Speller, mine: Names, others: Names, i: nat)
    requires TotalOrder(speller.compare) && TagsCount(speller) && i < |mine| && mine[i].Some?
    requires !StillAttested(speller, AllNames(speller, mine, others), SeenNames(speller, mine, others), mine[i].value)
    ensures StoreRun(speller, mine, others)[i] != Wide(speller, mine, others)[i]
  {
    StoreSeesNoMore(speller, mine, others);
    CollapseFallsShort(speller, AllNames(speller, mine, others), SeenNames(speller, mine, others), mine[i].value);
    SettledRow(speller, mine + others, [], i);
    SettledRow(speller, mine, Context(speller, mine, others), i);
    assert (mine + others)[i] == mine[i];
  }
}
