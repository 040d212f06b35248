/** The two name passes composed as one run over the catalogue: what a run stores, that the passes are idempotent
    on names, and that the order of the rows does not matter. */
module NameRuns {
  import opened Facts
  import opened NameSettlement

  function CollapseRow(speller: Speller, attested: set<string>, row: Option<string>): Option<string> {
    if row.Some? then Some(Collapse(speller, attested, row.value)) else None
  }

  function CollapseAll(speller: Speller, attested: set<string>, rows: Names): Names {
    seq(|rows|, i requires 0 <= i < |rows| => CollapseRow(speller, attested, rows[i]))
  }

  /** The rows after the tag pass; the context attests names but is not itself shortened. */
  function Collapsed(speller: Speller, rows: Names, context: Names): Names {
    CollapseAll(speller, Attested(speller, rows + context), rows)
  }

  ghost function Spelt(speller: Speller, names: multiset<Option<string>>, row: Option<string>): Option<string>
    requires TotalOrder(speller.compare)
  {
    if row.Some? && row in names then Some(Winner(speller, names, row.value)) else row
  }

  /** What a run stores, row by row. */
  ghost function Settled(speller: Speller, rows: Names, context: Names): Names
    requires TotalOrder(speller.compare)
  {
    var collapsed := Collapsed(speller, rows, context);
    seq(|rows|, i requires 0 <= i < |rows| => Spelt(speller, multiset(collapsed + context), collapsed[i]))
  }

  lemma Pooled(collapsed: Names, context: Names)
    ensures forall i :: 0 <= i < |collapsed| ==> collapsed[i] in multiset(collapsed + context)
    ensures multiset(collapsed + context) == multiset(collapsed) + multiset(context)
  {
    forall i | 0 <= i < |collapsed|
      ensures collapsed[i] in multiset(collapsed + context)
    {
      assert collapsed[i] == (collapsed + context)[i];
    }
  }

  function Replaced(tags: map<string, string>, row: Option<string>): Option<string> {
    if row.Some? && row.value in tags then Some(tags[row.value]) else row
  }

  method ReplaceTags(tags: map<string, string>, rows: Names) returns (collapsed: Names)
    ensures |collapsed| == |rows| && forall j :: 0 <= j < |rows| ==> collapsed[j] == Replaced(tags, rows[j])
  {
    collapsed := [];
    for i := 0 to |rows|
      invariant |collapsed| == i
      invariant forall j :: 0 <= j < i ==> collapsed[j] == Replaced(tags, rows[j])
    {
      var row := rows[i];
      collapsed := collapsed + [if row.Some? && row.value in tags then Some(tags[row.value]) else row];
    }
  }

  lemma LookedUp(speller: Speller, attested: set<string>, names: Names, tags: map<string, string>, row: Option<string>)
    requires Shortens(Collapser(speller, attested), names, tags) && row in names
    ensures Replaced(tags, row) == CollapseRow(speller, attested, row)
  {
    if row.Some? {
      assert Collapser(speller, attested)(row.value) == Collapse(speller, attested, row.value);
    }
  }

  method CollapseRows(speller: Speller, rows: Names, context: Names) returns (collapsed: Names)
    ensures collapsed == Collapsed(speller, rows, context)
  {
    var names := rows + context;
    var tags := CollapseTags(speller, names);
    collapsed := ReplaceTags(tags, rows);
    forall i | 0 <= i < |rows|
      ensures collapsed[i] == CollapseRow(speller, Attested(speller, names), rows[i])
    {
      assert rows[i] == names[i];
      LookedUp(speller, Attested(speller, names), names, tags, rows[i]);
    }
  }

  ghost predicate SpellsGroups(speller: Speller, names: Names, spelling: map<string, string>)
    requires TotalOrder(speller.compare)
  {
    forall k, n :: Leading(speller, names, k, n) ==> k in spelling && spelling[k] == Winner(speller, multiset(names), n)
  }

  function Respelt(speller: Speller, spelling: map<string, string>, row: Option<string>): Option<string> {
    if row.Some? && speller.key(row.value) in spelling then Some(spelling[speller.key(row.value)]) else row
  }

  method SpellRows(speller: Speller, collapsed: Names, spelling: map<string, string>) returns (after: Names)
    ensures |after| == |collapsed| && forall j :: 0 <= j < |after| ==>
      after[j] == Respelt(speller, spelling, collapsed[j])
  {
    after := [];
    for i := 0 to |collapsed|
      invariant |after| == i
      invariant forall j :: 0 <= j < i ==> after[j] == Respelt(speller, spelling, collapsed[j])
    {
      var row := collapsed[i];
      var spelt := row.Some? && speller.key(row.value) in spelling;
      after := after + [if spelt then Some(spelling[speller.key(row.value)]) else row];
    }
  }

  lemma SpellOne(speller: Speller, names: Names, spelling: map<string, string>, row: Option<string>)
    requires TotalOrder(speller.compare) && SpellsGroups(speller, names, spelling) && row in names
    ensures Respelt(speller, spelling, row) == Spelt(speller, multiset(names), row)
  {
    assert row.Some? ==> Leading(speller, names, speller.key(row.value), row.value);
  }

  lemma AllSpelt(speller: Speller, collapsed: Names, context: Names, spelling: map<string, string>, after: Names)
    requires TotalOrder(speller.compare) && SpellsGroups(speller, collapsed + context, spelling)
    requires |after| == |collapsed| && forall j :: 0 <= j < |after| ==>
      after[j] == Respelt(speller, spelling, collapsed[j])
    ensures forall j :: 0 <= j < |after| ==> after[j] == Spelt(speller, multiset(collapsed + context), collapsed[j])
  {
    forall j | 0 <= j < |after|
      ensures after[j] == Spelt(speller, multiset(collapsed + context), collapsed[j])
    {
      assert collapsed[j] == (collapsed + context)[j];
      SpellOne(speller, collapsed + context, spelling, collapsed[j]);
    }
  }

  method Settle(speller: Speller, rows: Names, context: Names) returns (after: Names)
    requires TotalOrder(speller.compare)
    ensures after == Settled(speller, rows, context)
  {
    var collapsed := CollapseRows(speller, rows, context);
    var spelling := CanonicalSpelling(speller, collapsed + context);
    after := SpellRows(speller, collapsed, spelling);
    AllSpelt(speller, collapsed, context, spelling, after);
  }

  // ----- one run -----

  lemma SettledWinner(speller: Speller, rows: Names, context: Names, i: nat)
    requires TotalOrder(speller.compare) && i < |rows| && rows[i].Some?
    ensures var collapsed, after := Collapsed(speller, rows, context), Settled(speller, rows, context)[i];
      && collapsed[i].Some? && after.Some? && speller.key(after.value) == speller.key(collapsed[i].value)
      && Wins(speller, multiset(collapsed + context), after.value)
  {
    Pooled(Collapsed(speller, rows, context), context);
  }

  /** Each row takes the most frequent spelling of its group, which is some row's collapsed name or a context
      name; its lower-cased form is one the catalogue already attested. */
  lemma SettledRow(speller: Speller, rows: Names, context: Names, i: nat)
    requires TotalOrder(speller.compare) && i < |rows|
    ensures Settled(speller, rows, context)[i].Some? <==> rows[i].Some?
    ensures rows[i].Some? ==>
      var collapsed := Collapsed(speller, rows, context);
      var w := Settled(speller, rows, context)[i].value;
      && Wins(speller, multiset(collapsed + context), w)
      && (Some(w) in collapsed || Some(w) in context)
      && speller.key(w) == speller.key(collapsed[i].value)
      && speller.lower(w) in Attested(speller, rows + context)
  {
    var collapsed := Collapsed(speller, rows, context);
    Pooled(collapsed, context);
    if rows[i].Some? {
      var w := Winner(speller, multiset(collapsed + context), collapsed[i].value);
      assert Some(w) in collapsed + context;
      if Some(w) in context {
        AttestedHas(speller, rows, context, w);
      } else {
        var j :| 0 <= j < |collapsed| && collapsed[j] == Some(w);
        AttestedHas(speller, rows, context, rows[j].value);
        CollapseIsDone(speller, Attested(speller, rows + context), rows[j].value);
      }
    }
  }

  lemma AttestedHas(speller: Speller, rows: Names, context: Names, name: string)
    requires Some(name) in rows || Some(name) in context
    ensures speller.lower(name) in Attested(speller, rows + context)
  {
    assert Some(name) in rows + context;
  }

  /** Two rows end with one spelling exactly when their shortened names fold to one key. */
  lemma OneSpellingPerGroup(speller: Speller, rows: Names, context: Names, i: nat, j: nat)
    requires TotalOrder(speller.compare) && i < |rows| && j < |rows| && rows[i].Some? && rows[j].Some?
    ensures var collapsed, after := Collapsed(speller, rows, context), Settled(speller, rows, context);
      after[i] == after[j] <==> speller.key(collapsed[i].value) == speller.key(collapsed[j].value)
  {
    SettledRow(speller, rows, context, i);
    SettledRow(speller, rows, context, j);
    Pooled(Collapsed(speller, rows, context), context);
  }

  // ----- the passes on settled names -----

  /** A settled name sheds nothing, unless it is a context name that does. */
  lemma SettledNamesShedNothing(speller: Speller, rows: Names, context: Names, i: nat)
    requires TotalOrder(speller.compare) && i < |rows| && rows[i].Some?
    requires forall c :: Some(c) in context ==> !Sheds(speller, Attested(speller, rows + context), c)
    ensures !Sheds(speller, Attested(speller, rows + context), Settled(speller, rows, context)[i].value)
  {
    SettledRow(speller, rows, context, i);
    var collapsed, w := Collapsed(speller, rows, context), Settled(speller, rows, context)[i].value;
    if Some(w) in collapsed {
      var j :| 0 <= j < |collapsed| && collapsed[j] == Some(w);
      CollapseIsDone(speller, Attested(speller, rows + context), rows[j].value);
    }
  }

  /** Settling attests nothing new. */
  lemma AttestedShrinks(speller: Speller, rows: Names, context: Names)
    requires TotalOrder(speller.compare)
    ensures Attested(speller, Settled(speller, rows, context) + context) <= Attested(speller, rows + context)
  {
    var after := Settled(speller, rows, context);
    forall n | n in after + context && n.Some?
      ensures speller.lower(n.value) in Attested(speller, rows + context)
    {
      if n in after {
        var i :| 0 <= i < |after| && after[i] == n;
        SettledRow(speller, rows, context, i);
      } else {
        AttestedHas(speller, rows, context, n.value);
      }
    }
  }

  lemma SecondCollapseIsIdle(speller: Speller, rows: Names, context: Names)
    requires TotalOrder(speller.compare)
    requires forall c :: Some(c) in context ==> !Sheds(speller, Attested(speller, rows + context), c)
    ensures Collapsed(speller, Settled(speller, rows, context), context) == Settled(speller, rows, context)
  {
    var after := Settled(speller, rows, context);
    AttestedShrinks(speller, rows, context);
    forall i | 0 <= i < |after|
      ensures Collapsed(speller, after, context)[i] == after[i]
    {
      if rows[i].Some? {
        SettledNamesShedNothing(speller, rows, context, i);
      }
      SettledRow(speller, rows, context, i);
    }
  }

  /** Where every `x` stays an `x`, there are at least as many of them afterwards. */
  lemma {:induction false} NoFewer<T>(before: seq<T>, after: seq<T>, x: T)
    requires |before| == |after|
    requires forall i :: 0 <= i < |before| && before[i] == x ==> after[i] == x
    ensures multiset(before)[x] <= multiset(after)[x]
  {
    if before != [] {
      var last := |before| - 1;
      assert before == before[..last] + [before[last]] && after == after[..last] + [after[last]];
      NoFewer(before[..last], after[..last], x);
    }
  }

  lemma OnlyTheWinnerIsLeft(speller: Speller, rows: Names, context: Names, i: nat, n: string)
    requires TotalOrder(speller.compare) && i < |rows| && rows[i].Some?
    requires var w := Settled(speller, rows, context)[i];
      w.Some? && speller.key(n) == speller.key(w.value) && n != w.value
    ensures Some(n) !in Settled(speller, rows, context)
  {
    var after := Settled(speller, rows, context);
    SettledRow(speller, rows, context, i);
    if Some(n) in after {
      var j :| 0 <= j < |after| && after[j] == Some(n);
      SettledRow(speller, rows, context, j);
      OneSpellingPerGroup(speller, rows, context, i, j);
    }
  }

  lemma WinnerGains(speller: Speller, rows: Names, context: Names, i: nat)
    requires TotalOrder(speller.compare) && i < |rows| && rows[i].Some?
    ensures var collapsed, after := Collapsed(speller, rows, context), Settled(speller, rows, context);
      multiset(collapsed)[after[i]] <= multiset(after)[after[i]]
  {
    var collapsed, after := Collapsed(speller, rows, context), Settled(speller, rows, context);
    SettledRow(speller, rows, context, i);
    forall j | 0 <= j < |rows| && collapsed[j] == after[i]
      ensures after[j] == after[i]
    {
      OneSpellingPerGroup(speller, rows, context, i, j);
    }
    NoFewer(collapsed, after, after[i]);
  }

  /** A winner keeps its place: its listings can only grow, and no rival is left but in the context. */
  lemma WinnerStays(speller: Speller, rows: Names, context: Names, i: nat)
    requires TotalOrder(speller.compare) && i < |rows| && rows[i].Some?
    ensures var after := Settled(speller, rows, context);
      after[i].Some? && Wins(speller, multiset(after + context), after[i].value)
  {
    var collapsed, after := Collapsed(speller, rows, context), Settled(speller, rows, context);
    SettledRow(speller, rows, context, i);
    Pooled(collapsed, context);
    Pooled(after, context);
    WinnerGains(speller, rows, context, i);
    var w := after[i].value;
    forall n | Some(n) in multiset(after + context) && speller.key(n) == speller.key(w) && n != w
      ensures Ahead(speller, multiset(after + context), w, n)
    {
      OnlyTheWinnerIsLeft(speller, rows, context, i, n);
      StillAhead(speller, multiset(collapsed + context), multiset(after + context), w, n);
    }
  }

  lemma StillAhead(speller: Speller, names: multiset<Option<string>>, names': multiset<Option<string>>, w: string,
                   n: string)
    requires names[Some(w)] <= names'[Some(w)] && names'[Some(n)] <= names[Some(n)]
    requires names'[Some(n)] > 0 && (Some(n) in names ==> Ahead(speller, names, w, n))
    ensures Ahead(speller, names', w, n)
  {
  }

  /** The two passes over names they have settled change none of them, if the context sheds nothing. */
  lemma PassesAreIdempotent(speller: Speller, rows: Names, context: Names)
    requires TotalOrder(speller.compare)
    requires forall c :: Some(c) in context ==> !Sheds(speller, Attested(speller, rows + context), c)
    ensures Settled(speller, Settled(speller, rows, context), context) == Settled(speller, rows, context)
  {
    var after := Settled(speller, rows, context);
    SecondCollapseIsIdle(speller, rows, context);
    forall i | 0 <= i < |after|
      ensures Settled(speller, after, context)[i] == after[i]
    {
      SettledRow(speller, rows, context, i);
      if rows[i].Some? {
        WinnerStays(speller, rows, context, i);
        Pooled(after, context);
      }
    }
  }

  /** In particular the passes of a catalogue-wide run, which has no context, are idempotent on names. */
  lemma WidePassesAreIdempotent(speller: Speller, rows: Names)
    requires TotalOrder(speller.compare)
    ensures Settled(speller, Settled(speller, rows, []), []) == Settled(speller, rows, [])
  {
    PassesAreIdempotent(speller, rows, []);
  }

  // ----- the order of the rows -----

  lemma CollapseAllSplits(speller: Speller, attested: set<string>, a: Names, b: Names)
    ensures CollapseAll(speller, attested, a + b)
      == CollapseAll(speller, attested, a) + CollapseAll(speller, attested, b)
  {
  }

  lemma {:induction false} CollapseAllKeepsBags(speller: Speller, attested: set<string>, rows: Names, rows': Names)
    requires multiset(rows) == multiset(rows')
    ensures multiset(CollapseAll(speller, attested, rows)) == multiset(CollapseAll(speller, attested, rows'))
  {
    if rows == [] {
      assert |rows'| == |multiset(rows')| == 0;
    } else {
      assert rows[0] in multiset(rows');
      var j :| 0 <= j < |rows'| && rows'[j] == rows[0];
      var front, rest := rows'[..j], rows'[j + 1..];
      var one := [rows[0]];
      assert rows == one + rows[1..];
      assert rows' == front + (one + rest);
      assert multiset(rows[1..]) == multiset(rows) - multiset{rows[0]};
      assert multiset(front + rest) == multiset(rows') - multiset{rows[0]};
      CollapseAllKeepsBags(speller, attested, rows[1..], front + rest);
      CollapseAllSplits(speller, attested, one, rows[1..]);
      CollapseAllSplits(speller, attested, front, one + rest);
      CollapseAllSplits(speller, attested, one, rest);
      CollapseAllSplits(speller, attested, front, rest);
    }
  }

  /** What a name becomes depends on which names there are, not on the order of the rows. */
  lemma RowOrderDoesNotMatter(speller: Speller, rows: Names, context: Names, rows': Names, context': Names, i: nat,
                              j: nat)
    requires TotalOrder(speller.compare)
    requires multiset(rows) == multiset(rows') && multiset(context) == multiset(context')
    requires i < |rows| && j < |rows'| && rows[i] == rows'[j]
    ensures Settled(speller, rows, context)[i] == Settled(speller, rows', context')[j]
  {
    assert Attested(speller, rows + context) == Attested(speller, rows' + context') by {
      forall n: Option<string>
        ensures n in rows + context <==> n in rows' + context'
      {
        assert n in rows + context <==> n in multiset(rows) + multiset(context);
        assert n in rows' + context' <==> n in multiset(rows') + multiset(context');
      }
    }
    CollapseAllKeepsBags(speller, Attested(speller, rows + context), rows, rows');
    Pooled(Collapsed(speller, rows, context), context);
    Pooled(Collapsed(speller, rows', context'), context');
  }
}
