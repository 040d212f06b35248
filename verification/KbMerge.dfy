/** The knowledge-base merge as a run: the rows are rewritten in place, step by step, and what comes out is
    closed under its own references. */
module KbMergeRun {
  import opened Facts
  import opened KnowledgeBase
  import opened KbAliases
  import SeedTsv

  // ----- house styles -----

  predicate TakesFlavor(lex: Lexicon, slugs: set<string>, row: Flavor) {
    row.flavor != "peated" && row.flavor in lex.flavors && row.effect in lex.effects && row.producerSlug in slugs
  }

  predicate Styles(lex: Lexicon, slugs: set<string>, rows: seq<Flavor>, pair: (string, string), i: int) {
    0 <= i < |rows| && TakesFlavor(lex, slugs, rows[i]) && (rows[i].producerSlug, rows[i].flavor) == pair
  }

  /** Row `i` is the last of the first `n` accepted for the pair. */
  ghost predicate LastStyle(lex: Lexicon, slugs: set<string>, rows: seq<Flavor>, n: nat, pair: (string, string),
                            i: int) {
    Styles(lex, slugs, rows, pair, i) && i < n && forall j :: Styles(lex, slugs, rows, pair, j) && j < n ==> j <= i
  }

  /** One row per producer and flavor, the last accepted; none says `peated`. */
  method MergeFlavors(lex: Lexicon, slugs: set<string>, rows: seq<Flavor>)
    returns (byPair: map<(string, string), Flavor>)
    ensures FlavorsSettled(lex, slugs, rows, byPair)
  {
    byPair := map[];
    ghost var at: map<(string, string), int> := map[];
    for n := 0 to |rows|
      invariant at.Keys == byPair.Keys
      invariant forall p :: p in byPair ==> LastStyle(lex, slugs, rows, n, p, at[p]) && byPair[p] == rows[at[p]]
      invariant forall p, i :: Styles(lex, slugs, rows, p, i) && i < n ==> p in byPair
    {
      var row := rows[n];
      if TakesFlavor(lex, slugs, row) {
        at := at[(row.producerSlug, row.flavor) := n];
        byPair := byPair[(row.producerSlug, row.flavor) := row];
      }
    }
  }

  // ----- rules -----

  predicate TakesRule(lex: Lexicon, slugs: set<string>, row: Rule) {
    var isPeat, isTag := row.peatProfile != "", row.flavor != "" && row.effect != "";
    && lex.key(row.pattern) != "" && isPeat != isTag
    && (isPeat ==> row.peatProfile in lex.peats) && (isTag ==> row.flavor in lex.flavors)
    && (row.producerSlug == "" || row.producerSlug in slugs)
  }

  function RuleKey(lex: Lexicon, row: Rule): (string, string, string) {
    (row.producerSlug, lex.key(row.pattern), row.flavor)
  }

  predicate Rules(lex: Lexicon, slugs: set<string>, rows: seq<Rule>, key: (string, string, string), i: int) {
    0 <= i < |rows| && TakesRule(lex, slugs, rows[i]) && RuleKey(lex, rows[i]) == key
  }

  ghost predicate LastRule(lex: Lexicon, slugs: set<string>, rows: seq<Rule>, n: nat, key: (string, string, string),
                           i: int) {
    Rules(lex, slugs, rows, key, i) && i < n && forall j :: Rules(lex, slugs, rows, key, j) && j < n ==> j <= i
  }

  /** One rule per producer, normalised pattern and flavor, the last accepted. */
  method MergeRules(lex: Lexicon, slugs: set<string>, rows: seq<Rule>)
    returns (byKey: map<(string, string, string), Rule>)
    ensures RulesSettled(lex, slugs, rows, byKey)
  {
    byKey := map[];
    ghost var at: map<(string, string, string), int> := map[];
    for n := 0 to |rows|
      invariant at.Keys == byKey.Keys
      invariant forall k :: k in byKey ==>
        LastRule(lex, slugs, rows, n, k, at[k]) && byKey[k] == rows[at[k]].(pattern := k.1)
      invariant forall k, i :: Rules(lex, slugs, rows, k, i) && i < n ==> k in byKey
    {
      var row := rows[n];
      if TakesRule(lex, slugs, row) {
        at := at[RuleKey(lex, row) := n];
        byKey := byKey[RuleKey(lex, row) := row.(pattern := lex.key(row.pattern))];
      }
    }
  }

  /** The table's own constraint: a tag with its effect and no peat, or a peat level and neither. */
  predicate MeetsCheck(row: Rule) {
    || (row.flavor != "" && row.effect != "" && row.peatProfile == "")
    || (row.flavor == "" && row.effect == "" && row.peatProfile != "")
  }

  // ----- folding -----

  function FoldAlias(target: map<string, string>, row: Alias): Alias {
    row.(producerSlug := Resolve(target, row.producerSlug))
  }

  function FoldFlavor(target: map<string, string>, row: Flavor): Flavor {
    row.(producerSlug := Resolve(target, row.producerSlug))
  }

  function FoldRule(target: map<string, string>, row: Rule): Rule {
    row.(producerSlug := Resolve(target, row.producerSlug))
  }

  function FoldProducers(target: map<string, string>, rows: seq<Producer>): seq<Producer> {
    seq(|rows|, i requires 0 <= i < |rows| => FoldProducer(target, rows[i]))
  }

  function FoldAliases(target: map<string, string>, rows: seq<Alias>): seq<Alias> {
    seq(|rows|, i requires 0 <= i < |rows| => FoldAlias(target, rows[i]))
  }

  function FoldFlavors(target: map<string, string>, rows: seq<Flavor>): seq<Flavor> {
    seq(|rows|, i requires 0 <= i < |rows| => FoldFlavor(target, rows[i]))
  }

  function FoldRules(target: map<string, string>, rows: seq<Rule>): seq<Rule> {
    seq(|rows|, i requires 0 <= i < |rows| => FoldRule(target, rows[i]))
  }

  function ProducerSlugs(rows: seq<Producer>): set<string> {
    (set p | p in rows :: p.slug) + (set p | p in rows :: p.parentSlug) + (set p | p in rows :: p.bottlerSlug)
  }

  function AliasSlugs(rows: seq<Alias>): set<string> { set a | a in rows :: a.producerSlug }

  function FlavorSlugs(rows: seq<Flavor>): set<string> { set f | f in rows :: f.producerSlug }

  function RuleSlugs(rows: seq<Rule>): set<string> { set r | r in rows :: r.producerSlug }

  /** The slugs the rows of the four tables name, as their own or in references. */
  function SlugsNamed(producers: seq<Producer>, aliases: seq<Alias>, flavors: seq<Flavor>,
                      rules: seq<Rule>): set<string> {
    ProducerSlugs(producers) + AliasSlugs(aliases) + FlavorSlugs(flavors) + RuleSlugs(rules)
  }

  function Resolved(target: map<string, string>, slugs: set<string>): set<string> {
    set s | s in slugs :: Resolve(target, s)
  }

  lemma FoldedProducerNames(target: map<string, string>, rows: seq<Producer>)
    ensures ProducerSlugs(FoldProducers(target, rows)) == Resolved(target, ProducerSlugs(rows))
  {
    var folded := FoldProducers(target, rows);
    forall p | p in rows
      ensures FoldProducer(target, p) in folded
    {
      var i :| 0 <= i < |rows| && rows[i] == p;
      assert folded[i] == FoldProducer(target, p);
    }
    forall p | p in folded
      ensures exists q :: q in rows && p == FoldProducer(target, q)
    {
      var i :| 0 <= i < |rows| && folded[i] == p;
      assert rows[i] in rows;
    }
  }

  lemma FoldedAliasNames(target: map<string, string>, rows: seq<Alias>)
    ensures AliasSlugs(FoldAliases(target, rows)) == Resolved(target, AliasSlugs(rows))
  {
    forall a | a in rows
      ensures FoldAlias(target, a) in FoldAliases(target, rows)
    {
      var i :| 0 <= i < |rows| && rows[i] == a;
      assert FoldAliases(target, rows)[i] == FoldAlias(target, a);
    }
  }

  lemma FoldedFlavorNames(target: map<string, string>, rows: seq<Flavor>)
    ensures FlavorSlugs(FoldFlavors(target, rows)) == Resolved(target, FlavorSlugs(rows))
  {
    forall f | f in rows
      ensures FoldFlavor(target, f) in FoldFlavors(target, rows)
    {
      var i :| 0 <= i < |rows| && rows[i] == f;
      assert FoldFlavors(target, rows)[i] == FoldFlavor(target, f);
    }
  }

  lemma FoldedRuleNames(target: map<string, string>, rows: seq<Rule>)
    ensures RuleSlugs(FoldRules(target, rows)) == Resolved(target, RuleSlugs(rows))
  {
    forall r | r in rows
      ensures FoldRule(target, r) in FoldRules(target, rows)
    {
      var i :| 0 <= i < |rows| && rows[i] == r;
      assert FoldRules(target, rows)[i] == FoldRule(target, r);
    }
  }

  lemma ResolvedUnion(target: map<string, string>, a: set<string>, b: set<string>)
    ensures Resolved(target, a + b) == Resolved(target, a) + Resolved(target, b)
  {
  }

  /** What the folded rows name is what the rows named, resolved one hop. */
  lemma FoldedNames(target: map<string, string>, producers: seq<Producer>, aliases: seq<Alias>, flavors: seq<Flavor>,
                    rules: seq<Rule>)
    ensures SlugsNamed(FoldProducers(target, producers), FoldAliases(target, aliases), FoldFlavors(target, flavors),
                       FoldRules(target, rules))
      == Resolved(target, SlugsNamed(producers, aliases, flavors, rules))
  {
    FoldedProducerNames(target, producers);
    FoldedAliasNames(target, aliases);
    FoldedFlavorNames(target, flavors);
    FoldedRuleNames(target, rules);
    var p, a, f, r := ProducerSlugs(producers), AliasSlugs(aliases), FlavorSlugs(flavors), RuleSlugs(rules);
    ResolvedUnion(target, p, a);
    ResolvedUnion(target, p + a, f);
    ResolvedUnion(target, p + a + f, r);
  }

  /** No folded row names a retired slug exactly when no slug the rows named is folded into a retired one. */
  lemma FoldingIsComplete(target: map<string, string>, slugs: set<string>)
    ensures Resolved(target, slugs) !! target.Keys <==> forall s | s in slugs && s in target :: target[s] !in target
  {
    if Resolved(target, slugs) !! target.Keys {
      forall s | s in slugs && s in target
        ensures target[s] !in target
      {
        assert Resolve(target, s) in Resolved(target, slugs);
      }
    }
  }

  // ----- the run -----

  /** What the four seed files hold. */
  datatype Seed = Seed(
    producers: map<string, Producer>,
    aliases: map<string, Alias>,
    flavors: map<(string, string), Flavor>,
    rules: map<(string, string, string), Rule>)

  /** Every parent and bottler is empty or kept, every alias and flavor names a kept producer, and every rule
      is global or names one. */
  ghost predicate Closed(seed: Seed) {
    && KeptBySlug(seed.producers) && ReferencesKept(seed.producers)
    && (forall k :: k in seed.aliases ==> seed.aliases[k].producerSlug in seed.producers)
    && (forall k :: k in seed.flavors ==> seed.flavors[k].producerSlug in seed.producers)
    && (forall k :: k in seed.rules ==> seed.rules[k].producerSlug in seed.producers.Keys + {""})
  }

  ghost predicate Slugged(producers: map<string, Producer>) {
    forall s :: s in producers ==> Kebab(s)
  }

  /** The rows kept: for each slug some judged row describes, the earliest of the best. */
  ghost predicate Chosen(rows: seq<Producer>, kept: map<string, Producer>) {
    && (forall s :: s in kept <==> exists i :: Describes(rows, s, i))
    && (forall s :: s in kept ==> exists i :: Best(rows, |rows|, s, i) && kept[s] == rows[i])
  }

  lemma {:induction false} ChosenAreSlugged(lex: Lexicon, research: seq<Producer>, kept: map<string, Producer>)
    requires Chosen(Judged(lex, research), kept)
    ensures KeptBySlug(kept) && Slugged(kept)
  {
    var rows := Judged(lex, research);
    JudgedAreUsable(lex, research);
    forall s | s in kept
      ensures kept[s].slug == s && Kebab(s)
    {
      var i :| Best(rows, |rows|, s, i) && kept[s] == rows[i];
      assert rows[i] in rows;
    }
  }

  /** The first accepted target of each key, with the scope of the last row that agrees. */
  ghost predicate AliasesSettled(lex: Lexicon, slugs: set<string>, rows: seq<Alias>, byKey: map<string, Alias>) {
    && (forall k :: k in byKey <==> exists i :: Spells(lex, slugs, rows, k, i))
    && forall k :: k in byKey ==>
         exists first, last ::
           Settles(lex, slugs, rows, |rows|, k, first, last) && byKey[k] == Stored(lex, rows, first, last)
  }

  ghost predicate FlavorsSettled(lex: Lexicon, slugs: set<string>, rows: seq<Flavor>,
                                 byPair: map<(string, string), Flavor>) {
    && (forall p :: p in byPair <==> exists i :: Styles(lex, slugs, rows, p, i))
    && (forall p :: p in byPair ==> exists i :: LastStyle(lex, slugs, rows, |rows|, p, i) && byPair[p] == rows[i])
  }

  ghost predicate RulesSettled(lex: Lexicon, slugs: set<string>, rows: seq<Rule>,
                               byKey: map<(string, string, string), Rule>) {
    && (forall k :: k in byKey <==> exists i :: Rules(lex, slugs, rows, k, i))
    && (forall k :: k in byKey ==>
         exists i :: LastRule(lex, slugs, rows, |rows|, k, i) && byKey[k] == rows[i].(pattern := k.1))
  }

  /** A rule of the seed meets the table's constraint unless it is a peat rule that also names a flavor or an effect:
      the merge asks only that a tag be complete or absent. */
  lemma SeedRulesMeetCheck(lex: Lexicon, slugs: set<string>, rows: seq<Rule>,
                           byKey: map<(string, string, string), Rule>)
    requires RulesSettled(lex, slugs, rows, byKey)
    ensures forall k :: k in byKey ==>
      (MeetsCheck(byKey[k]) <==> byKey[k].peatProfile == "" || (byKey[k].flavor == "" && byKey[k].effect == ""))
  {
    forall k | k in byKey
      ensures MeetsCheck(byKey[k]) <==> byKey[k].peatProfile == "" || (byKey[k].flavor == "" && byKey[k].effect == "")
    {
      var i :| LastRule(lex, slugs, rows, |rows|, k, i) && byKey[k] == rows[i].(pattern := k.1);
    }
  }

  /** Such a rule, and a seed that holds it: "peated" as heavy peat, with the flavor `smoky` and no effect. */
  lemma PeatRuleNamingAFlavor(lex: Lexicon, slugs: set<string>, byKey: map<(string, string, string), Rule>)
    requires lex.key("peated") != "" && "heavy" in lex.peats
    requires RulesSettled(lex, slugs, [Rule("", "peated", "word", "smoky", "", "heavy", 50, "", "")], byKey)
    ensures exists k :: k in byKey && !MeetsCheck(byKey[k])
  {
    var rows := [Rule("", "peated", "word", "smoky", "", "heavy", 50, "", "")];
    var k := ("", lex.key("peated"), "smoky");
    assert Rules(lex, slugs, rows, k, 0);
    assert k in byKey;
    var i :| LastRule(lex, slugs, rows, |rows|, k, i) && byKey[k] == rows[i].(pattern := k.1);
    assert !MeetsCheck(byKey[k]);
  }

  lemma AliasesNameProducers(lex: Lexicon, slugs: set<string>, rows: seq<Alias>, byKey: map<string, Alias>)
    requires AliasesSettled(lex, slugs, rows, byKey)
    ensures forall k :: k in byKey ==> byKey[k].producerSlug in slugs
  {
    forall k | k in byKey
      ensures byKey[k].producerSlug in slugs
    {
      var first, last :| Settles(lex, slugs, rows, |rows|, k, first, last)
        && byKey[k] == Stored(lex, rows, first, last);
      assert Spells(lex, slugs, rows, k, first);
    }
  }

  lemma FlavorsNameProducers(lex: Lexicon, slugs: set<string>, rows: seq<Flavor>, byPair: map<(string, string), Flavor>)
    requires FlavorsSettled(lex, slugs, rows, byPair)
    ensures forall p :: p in byPair ==> byPair[p].producerSlug in slugs
  {
    forall p | p in byPair
      ensures byPair[p].producerSlug in slugs
    {
      var i :| LastStyle(lex, slugs, rows, |rows|, p, i) && byPair[p] == rows[i];
    }
  }

  lemma RulesNameProducers(lex: Lexicon, slugs: set<string>, rows: seq<Rule>,
                           byKey: map<(string, string, string), Rule>)
    requires RulesSettled(lex, slugs, rows, byKey)
    ensures forall k :: k in byKey ==> byKey[k].producerSlug in slugs + {""}
  {
    forall k | k in byKey
      ensures byKey[k].producerSlug in slugs + {""}
    {
      var i :| LastRule(lex, slugs, rows, |rows|, k, i) && byKey[k] == rows[i].(pattern := k.1);
    }
  }

  class KbMerge {
    var producerRows: seq<Producer>
    var aliasRows: seq<Alias>
    var flavorRows: seq<Flavor>
    var ruleRows: seq<Rule>
    /** The merged producers, corrected in place. */
    var producers: map<string, Producer>
    var peatConflicts: seq<string>
    var aliasConflicts: seq<string>

    /** The slugs the rows name by now. */
    function Named(): set<string>
      reads this
    {
      SlugsNamed(producerRows, aliasRows, flavorRows, ruleRows)
    }

    /** Every reference to a retired slug is rewritten, one hop: no row names a retired slug afterwards if and only if
        no slug a row named was folded into one that is itself retired. */
    method FoldSlugs(merges: seq<SlugMerge>)
      modifies `producerRows, `aliasRows, `flavorRows, `ruleRows
      ensures producerRows == FoldProducers(Targets(merges), old(producerRows))
      ensures aliasRows == FoldAliases(Targets(merges), old(aliasRows))
      ensures flavorRows == FoldFlavors(Targets(merges), old(flavorRows))
      ensures ruleRows == FoldRules(Targets(merges), old(ruleRows))
      ensures var target := Targets(merges);
        Named() !! target.Keys <==> forall s | s in old(Named()) && s in target :: target[s] !in target
    {
      var target := Targets(merges);
      FoldProducerRows(target);
      FoldAliasRows(target);
      FoldFlavorRows(target);
      FoldRuleRows(target);
      FoldedNames(target, old(producerRows), old(aliasRows), old(flavorRows), old(ruleRows));
      FoldingIsComplete(target, old(Named()));
    }

    method FoldProducerRows(target: map<string, string>)
      modifies `producerRows
      ensures producerRows == FoldProducers(target, old(producerRows))
    {
      for i := 0 to |producerRows|
        invariant |producerRows| == |old(producerRows)|
        invariant forall j :: i <= j < |producerRows| ==> producerRows[j] == old(producerRows)[j]
        invariant forall j :: 0 <= j < i ==> producerRows[j] == FoldProducer(target, old(producerRows)[j])
      {
        producerRows := producerRows[i := FoldProducer(target, producerRows[i])];
      }
    }

    method FoldAliasRows(target: map<string, string>)
      modifies `aliasRows
      ensures aliasRows == FoldAliases(target, old(aliasRows))
    {
      for i := 0 to |aliasRows|
        invariant |aliasRows| == |old(aliasRows)|
        invariant forall j :: i <= j < |aliasRows| ==> aliasRows[j] == old(aliasRows)[j]
        invariant forall j :: 0 <= j < i ==> aliasRows[j] == FoldAlias(target, old(aliasRows)[j])
      {
        aliasRows := aliasRows[i := FoldAlias(target, aliasRows[i])];
      }
    }

    method FoldFlavorRows(target: map<string, string>)
      modifies `flavorRows
      ensures flavorRows == FoldFlavors(target, old(flavorRows))
    {
      for i := 0 to |flavorRows|
        invariant |flavorRows| == |old(flavorRows)|
        invariant forall j :: i <= j < |flavorRows| ==> flavorRows[j] == old(flavorRows)[j]
        invariant forall j :: 0 <= j < i ==> flavorRows[j] == FoldFlavor(target, old(flavorRows)[j])
      {
        flavorRows := flavorRows[i := FoldFlavor(target, flavorRows[i])];
      }
    }

    method FoldRuleRows(target: map<string, string>)
      modifies `ruleRows
      ensures ruleRows == FoldRules(target, old(ruleRows))
    {
      for i := 0 to |ruleRows|
        invariant |ruleRows| == |old(ruleRows)|
        invariant forall j :: i <= j < |ruleRows| ==> ruleRows[j] == old(ruleRows)[j]
        invariant forall j :: 0 <= j < i ==> ruleRows[j] == FoldRule(target, old(ruleRows)[j])
      {
        ruleRows := ruleRows[i := FoldRule(target, ruleRows[i])];
      }
    }

    method ApplyOverrides(overrides: seq<Override>, statusOnly: bool)
      modifies `producers
      ensures producers == Overridden(old(producers), overrides, statusOnly)
    {
      for i := 0 to |overrides|
        invariant producers == Overridden(old(producers), overrides[..i], statusOnly)
      {
        assert overrides[..i + 1][..i] == overrides[..i];
        var o := overrides[i];
        if InPass(o, statusOnly) && o.slug in producers && Overridable(o.field) {
          producers := producers[o.slug := With(producers[o.slug], o.field, o.value)];
        }
      }
      assert overrides[..|overrides|] == overrides;
    }

    /** References to producers nobody described are cleared, one row at a time. */
    method PruneReferences()
      modifies `producers
      ensures producers == Pruned(old(producers))
    {
      var rest := producers.Keys;
      while rest != {}
        invariant rest <= producers.Keys == old(producers).Keys
        invariant forall s :: s in rest ==> producers[s] == old(producers)[s]
        invariant forall s :: s in producers && s !in rest ==> producers[s] == Pruned(old(producers))[s]
        decreases |rest|
      {
        var s := PickOne(rest);
        rest := rest - {s};
        var row := producers[s];
        if row.parentSlug != "" && row.parentSlug !in producers {
          row := row.(parentSlug := "");
        }
        if row.bottlerSlug != "" && row.bottlerSlug !in producers {
          row := row.(bottlerSlug := "");
        }
        producers := producers[s := row];
      }
    }

    method GateStatuses(lex: Lexicon)
      modifies `producers
      ensures producers == Gated(lex, old(producers))
    {
      var rest := producers.Keys;
      while rest != {}
        invariant rest <= producers.Keys == old(producers).Keys
        invariant forall s :: s in rest ==> producers[s] == old(producers)[s]
        invariant forall s :: s in producers && s !in rest ==> producers[s] == Gated(lex, old(producers))[s]
        decreases |rest|
      {
        var s := PickOne(rest);
        rest := rest - {s};
        producers := producers[s := producers[s].(status := lex.gate(producers[s]))];
      }
    }

    /** Overrides, pruning, the gate, and then the status overrides, which must survive it. */
    method CorrectProducers(lex: Lexicon, overrides: seq<Override>)
      modifies `producers
      ensures producers == Corrected(lex, old(producers), overrides)
    {
      ApplyOverrides(overrides, false);
      PruneReferences();
      GateStatuses(lex);
      ApplyOverrides(overrides, true);
    }

    /** The whole merge: the seed is closed under its references, whatever the agents and the curator wrote, and
        its producers are the corrections of the best judged rows. */
    method Merge(lex: Lexicon, merges: seq<SlugMerge>, overrides: seq<Override>, globalRules: seq<Rule>)
      returns (seed: Seed, ghost chosen: map<string, Producer>)
      modifies this
      ensures Closed(seed) && Slugged(seed.producers)
      ensures producerRows == FoldProducers(Targets(merges), old(producerRows))
      ensures aliasRows == FoldAliases(Targets(merges), old(aliasRows))
      ensures flavorRows == FoldFlavors(Targets(merges), old(flavorRows))
      ensures ruleRows == FoldRules(Targets(merges), old(ruleRows))
      ensures Chosen(Judged(lex, producerRows), chosen) && seed.producers == Corrected(lex, chosen, overrides)
      ensures forall s :: s in peatConflicts <==> Contested(Judged(lex, producerRows), |Judged(lex, producerRows)|, s)
      ensures forall k :: k in aliasConflicts <==> Collides(lex, seed.producers.Keys, aliasRows, |aliasRows|, k)
      ensures AliasesSettled(lex, seed.producers.Keys, aliasRows, seed.aliases)
      ensures FlavorsSettled(lex, seed.producers.Keys, flavorRows, seed.flavors)
      ensures RulesSettled(lex, seed.producers.Keys, globalRules + ruleRows, seed.rules)
    {
      FoldSlugs(merges);
      var valid := Judge(lex, producerRows);
      producers, peatConflicts := MergeProducers(valid);
      chosen := producers;
      ChosenAreSlugged(lex, producerRows, chosen);
      CorrectionsCloseReferences(lex, chosen, overrides);
      CorrectProducers(lex, overrides);
      seed := MergeNames(lex, globalRules);
    }

    /** The aliases, house styles and rules, judged against the producers kept. */
    method MergeNames(lex: Lexicon, globalRules: seq<Rule>) returns (seed: Seed)
      requires KeptBySlug(producers) && ReferencesKept(producers)
      modifies `aliasConflicts
      ensures Closed(seed) && seed.producers == producers
      ensures forall k :: k in aliasConflicts <==> Collides(lex, producers.Keys, aliasRows, |aliasRows|, k)
      ensures AliasesSettled(lex, producers.Keys, aliasRows, seed.aliases)
      ensures FlavorsSettled(lex, producers.Keys, flavorRows, seed.flavors)
      ensures RulesSettled(lex, producers.Keys, globalRules + ruleRows, seed.rules)
    {
      var aliases;
      aliases, aliasConflicts := MergeAliases(lex, producers.Keys, aliasRows);
      var flavors := MergeFlavors(lex, producers.Keys, flavorRows);
      var rules := MergeRules(lex, producers.Keys, globalRules + ruleRows);
      seed := Seed(producers, aliases, flavors, rules);
      AliasesNameProducers(lex, producers.Keys, aliasRows, aliases);
      FlavorsNameProducers(lex, producers.Keys, flavorRows, flavors);
      RulesNameProducers(lex, producers.Keys, globalRules + ruleRows, rules);
    }
  }

  // ----- the seed file -----

  const PRODUCER_FIELDS := 15

  /** The columns of the producer file, in the order they are printed. */
  function Columns(p: Producer): seq<string> {
    [p.slug, p.name, p.kind, p.countryCode, p.region, p.legalRegion, p.owner, p.defaultTypeName,
     p.peatProfile, p.parentSlug, p.bottlerSlug, p.status, p.confidence, p.sourceUrls, p.note]
  }

  function Table(rows: seq<Producer>): seq<seq<string>> {
    seq(|rows|, i requires 0 <= i < |rows| => Columns(rows[i]))
  }

  /** Whatever order the kept producers are printed in, the importing migration reads back every one of them,
      with only tabs and newlines changed. */
  lemma ProducerFileReadsBack(space: char -> bool, seed: Seed, printed: seq<Producer>)
    requires space('\t') && forall c :: KebabChar(c) ==> !space(c)
    requires KeptBySlug(seed.producers) && Slugged(seed.producers)
    requires forall p :: p in printed ==> p.slug in seed.producers
    ensures SeedTsv.ReadBack(space, PRODUCER_FIELDS, SeedTsv.WriteTsv(Table(printed)))
      == SeedTsv.Rows(SeedTsv.CleanRows(Table(printed)))
  {
    forall r | r in Table(printed)
      ensures |r| == PRODUCER_FIELDS && !SeedTsv.BlankRow(space, r)
    {
      var i :| 0 <= i < |printed| && r == Columns(printed[i]);
      assert printed[i] in printed;
      SlugIsNotBlank(space, r[0]);
      assert !SeedTsv.Blank(space, SeedTsv.Clean(r[0]));
    }
    SeedTsv.RoundTrip(space, PRODUCER_FIELDS, Table(printed));
  }

  lemma {:induction false} SlugIsNotBlank(space: char -> bool, slug: string)
    requires Kebab(slug) && forall c :: KebabChar(c) ==> !space(c)
    ensures !SeedTsv.Blank(space, SeedTsv.Clean(slug))
  {
    assert KebabChar(slug[0]);
    assert SeedTsv.Clean(slug)[0] == slug[0];
  }
}
