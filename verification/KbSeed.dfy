/** What ends up in the knowledge-base seed, said of the rows as the agents and the curator wrote them. */
module KbSeed {
  import opened Facts
  import opened KnowledgeBase
  import opened KbAliases
  import opened KbMergeRun
  import SeedTsv

  // ----- folded slugs -----

  /** The last decision to fold this slug away is the `i`th. */
  ghost predicate LastFrom(merges: seq<SlugMerge>, slug: string, i: int) {
    && 0 <= i < |merges| && merges[i].fromSlug == slug
    && forall j :: i < j < |merges| ==> merges[j].fromSlug != slug
  }

  /** The slug reads as the target of the last decision to fold it away, or as itself where there is none. */
  ghost predicate Hop(merges: seq<SlugMerge>, slug: string, to: string) {
    if exists i :: LastFrom(merges, slug, i) then exists i :: LastFrom(merges, slug, i) && to == merges[i].toSlug
    else to == slug
  }

  lemma {:induction false} TargetIsLast(merges: seq<SlugMerge>, slug: string)
    ensures slug in Targets(merges) ==>
      exists i :: LastFrom(merges, slug, i) && Targets(merges)[slug] == merges[i].toSlug
    ensures slug !in Targets(merges) ==> forall i :: !LastFrom(merges, slug, i)
  {
    if merges != [] {
      var n := |merges| - 1;
      var front := merges[..n];
      TargetIsLast(front, slug);
      if merges[n].fromSlug == slug {
        assert LastFrom(merges, slug, n);
      } else if slug in Targets(front) {
        var i :| LastFrom(front, slug, i) && Targets(front)[slug] == front[i].toSlug;
        assert LastFrom(merges, slug, i);
      } else {
        assert forall i :: LastFrom(merges, slug, i) ==> LastFrom(front, slug, i);
      }
    }
  }

  lemma {:induction false} ResolvesOneHop(merges: seq<SlugMerge>, slug: string)
    ensures Hop(merges, slug, Resolve(Targets(merges), slug))
  {
    TargetIsLast(merges, slug);
  }

  /** A folded producer keeps every column but the three that hold slugs, which hop once; so do the other rows'. */
  lemma {:induction false} FoldedColumn(merges: seq<SlugMerge>, p: Producer, f: Field)
    ensures var after := Get(FoldProducer(Targets(merges), p), f);
      if f.Slug? || f.ParentSlug? || f.BottlerSlug? then Hop(merges, Get(p, f), after) else after == Get(p, f)
  {
    ResolvesOneHop(merges, Get(p, f));
  }

  lemma {:induction false} FoldedReferences(merges: seq<SlugMerge>, alias: Alias, flavor: Flavor, rule: Rule)
    ensures var a := FoldAlias(Targets(merges), alias);
      Hop(merges, alias.producerSlug, a.producerSlug) && a.(producerSlug := alias.producerSlug) == alias
    ensures var s := FoldFlavor(Targets(merges), flavor);
      Hop(merges, flavor.producerSlug, s.producerSlug) && s.(producerSlug := flavor.producerSlug) == flavor
    ensures var r := FoldRule(Targets(merges), rule);
      Hop(merges, rule.producerSlug, r.producerSlug) && r.(producerSlug := rule.producerSlug) == rule
  {
    ResolvesOneHop(merges, alias.producerSlug);
    ResolvesOneHop(merges, flavor.producerSlug);
    ResolvesOneHop(merges, rule.producerSlug);
  }

  // ----- which research counts -----

  /** What a column may hold, where it is not free text. */
  ghost function Vocabulary(lex: Lexicon, f: Field): Option<set<string>> {
    match f
    case Kind => Some(lex.kinds)
    case CountryCode => Some(lex.countries + {""})
    case Region => Some(lex.regions + {""})
    case LegalRegion => Some(lex.legalRegions + {""})
    case DefaultTypeName => Some(lex.types + {""})
    case PeatProfile => Some(lex.peats)
    case _ => None
  }

  ghost predicate InVocabulary(lex: Lexicon, p: Producer) {
    && p.slug != "" && (forall c :: c in p.slug ==> 'a' <= c <= 'z' || '0' <= c <= '9' || c == '-') && p.name != ""
    && forall f: Field :: Vocabulary(lex, f).Some? ==> Get(p, f) in Vocabulary(lex, f).value
  }

  /** The row, but a peat level nobody cited reads as unknown. */
  ghost predicate ReadAs(row: Producer, p: Producer) {
    && (forall f: Field :: !f.PeatProfile? ==> Get(p, f) == Get(row, f))
    && p.peatProfile == if row.sourceUrls == "" then UNKNOWN else row.peatProfile
  }

  lemma UsableIsInVocabulary(lex: Lexicon, p: Producer)
    ensures Usable(lex, p) <==> InVocabulary(lex, p)
  {
    assert forall i :: 0 <= i < |p.slug| ==> p.slug[i] in p.slug;
    if InVocabulary(lex, p) {
      assert Get(p, Kind) in Vocabulary(lex, Kind).value;
      assert Get(p, CountryCode) in Vocabulary(lex, CountryCode).value;
      assert Get(p, Region) in Vocabulary(lex, Region).value;
      assert Get(p, LegalRegion) in Vocabulary(lex, LegalRegion).value;
      assert Get(p, DefaultTypeName) in Vocabulary(lex, DefaultTypeName).value;
      assert Get(p, PeatProfile) in Vocabulary(lex, PeatProfile).value;
    }
  }

  lemma SameColumns(p: Producer, q: Producer)
    requires forall f: Field :: !f.PeatProfile? ==> Get(p, f) == Get(q, f)
    ensures p.(peatProfile := q.peatProfile) == q
  {
    assert Get(p, Slug) == Get(q, Slug) && Get(p, Title) == Get(q, Title) && Get(p, Kind) == Get(q, Kind);
    assert Get(p, CountryCode) == Get(q, CountryCode) && Get(p, Region) == Get(q, Region);
    assert Get(p, LegalRegion) == Get(q, LegalRegion) && Get(p, Owner) == Get(q, Owner);
    assert Get(p, DefaultTypeName) == Get(q, DefaultTypeName) && Get(p, ParentSlug) == Get(q, ParentSlug);
    assert Get(p, BottlerSlug) == Get(q, BottlerSlug) && Get(p, Status) == Get(q, Status);
    assert Get(p, Confidence) == Get(q, Confidence) && Get(p, SourceUrls) == Get(q, SourceUrls);
    assert Get(p, Remark) == Get(q, Remark);
  }

  lemma DemotedIsReadAs(row: Producer, p: Producer)
    ensures p == Demoted(row) <==> ReadAs(row, p)
  {
    if ReadAs(row, p) {
      SameColumns(row, p);
    }
  }

  /** The rows judged fit are exactly those that, read so, keep to the vocabularies. */
  lemma {:induction false} JudgedExactly(lex: Lexicon, rows: seq<Producer>)
    ensures forall p :: p in Judged(lex, rows) <==>
      InVocabulary(lex, p) && exists i :: 0 <= i < |rows| && ReadAs(rows[i], p)
  {
    JudgedAreUsable(lex, rows);
    forall p
      ensures p in Judged(lex, rows) <==> InVocabulary(lex, p) && exists i :: 0 <= i < |rows| && ReadAs(rows[i], p)
    {
      UsableIsInVocabulary(lex, p);
      forall i | 0 <= i < |rows|
        ensures p == Demoted(rows[i]) <==> ReadAs(rows[i], p)
      {
        DemotedIsReadAs(rows[i], p);
      }
    }
  }

  // ----- what a row is worth -----

  ghost predicate Weighed(f: Field) {
    f.CountryCode? || f.Region? || f.LegalRegion? || f.Owner? || f.DefaultTypeName? || f.ParentSlug? || f.BottlerSlug?
  }

  /** Nothing stated is worth nothing. */
  lemma BlankIsWorthless(p: Producer)
    requires p.sourceUrls == "" && p.confidence != "high" && p.peatProfile == UNKNOWN
    requires forall f :: Weighed(f) ==> Get(p, f) == ""
    ensures Score(p) == 0
  {
    assert Get(p, CountryCode) == "" && Get(p, Region) == "" && Get(p, LegalRegion) == "" && Get(p, Owner) == "";
    assert Get(p, DefaultTypeName) == "" && Get(p, ParentSlug) == "" && Get(p, BottlerSlug) == "";
  }

  lemma OneMoreFilled(p: Producer, f: Field, value: string)
    requires Weighed(f) && value != ""
    ensures Filled(With(p, f, value)) == Filled(With(p, f, "")) + 1
  {
  }

  lemma OnlyFilled(p: Producer, f: Field, value: string)
    requires Weighed(f)
    ensures Score(With(p, f, value)) - Filled(With(p, f, value)) == Score(p) - Filled(p)
  {
    var q := With(p, f, value);
    assert q.sourceUrls == p.sourceUrls && q.confidence == p.confidence && q.peatProfile == p.peatProfile;
  }

  /** Filling one of seven columns is worth one. */
  lemma ColumnsAreWorth(p: Producer, f: Field, value: string)
    requires Weighed(f) && value != ""
    ensures Score(With(p, f, value)) == Score(With(p, f, "")) + 1
  {
    OneMoreFilled(p, f, value);
    OnlyFilled(p, f, value);
    OnlyFilled(p, f, "");
  }

  /** Rows that fill as much differ in what their citations and claims are worth. */
  lemma SameFilled(p: Producer, q: Producer)
    requires Filled(p) == Filled(q) && p.sourceUrls == q.sourceUrls
    ensures Score(p) - 2 * One(p.confidence == "high") - 2 * One(p.peatProfile != UNKNOWN)
      == Score(q) - 2 * One(q.confidence == "high") - 2 * One(q.peatProfile != UNKNOWN)
  {
  }

  /** Confidence and a known peat level are worth two each. */
  lemma ClaimsAreWorth(p: Producer, value: string)
    ensures value != "high" ==> Score(With(p, Confidence, "high")) == Score(With(p, Confidence, value)) + 2
    ensures value != UNKNOWN ==> Score(With(p, PeatProfile, value)) == Score(With(p, PeatProfile, UNKNOWN)) + 2
  {
    SameFilled(With(p, Confidence, "high"), With(p, Confidence, value));
    SameFilled(With(p, PeatProfile, value), With(p, PeatProfile, UNKNOWN));
  }

  /** The name, the kind, the status and the note are worth nothing. */
  lemma OthersAreWorthless(p: Producer, f: Field, value: string)
    requires f.Title? || f.Kind? || f.Status? || f.Remark?
    ensures Score(With(p, f, value)) == Score(p)
  {
    var q := With(p, f, value);
    assert Filled(q) == Filled(p) && q.confidence == p.confidence && q.peatProfile == p.peatProfile;
    SameFilled(q, p);
  }

  lemma {:induction false} PartsOfJoined(left: string, right: string)
    ensures Parts(left + " " + right) == Parts(left) + Parts(right)
  {
    if left == "" {
      assert left + " " + right == " " + right;
      assert (" " + right)[1..] == right;
    } else {
      assert (left + " " + right)[1..] == left[1..] + " " + right;
      PartsOfJoined(left[1..], right);
    }
  }

  lemma {:induction false} OnePart(url: string)
    requires ' ' !in url
    ensures Parts(url) == 1
  {
    if url != "" {
      OnePart(url[1..]);
    }
  }

  lemma CitedWorth(p: Producer, urls: string)
    ensures Score(With(p, SourceUrls, urls)) == Score(With(p, SourceUrls, "")) + 3 * Cited(urls)
  {
  }

  /** A citation is worth three, the first as well as each further one. */
  lemma CitationsAreWorth(p: Producer, urls: string, url: string)
    requires url != "" && ' ' !in url
    ensures Score(With(p, SourceUrls, url)) == Score(With(p, SourceUrls, "")) + 3
    ensures urls != "" ==> Score(With(p, SourceUrls, urls + " " + url)) == Score(With(p, SourceUrls, urls)) + 3
  {
    OnePart(url);
    PartsOfJoined(urls, url);
    CitedWorth(p, url);
    CitedWorth(p, urls);
    CitedWorth(p, urls + " " + url);
  }

  // ----- what a curator said last -----

  /** Override `i` gives the field this value, and no later one gives it another. */
  ghost predicate LastSaid(overrides: seq<Override>, slug: string, f: Field, i: int) {
    && 0 <= i < |overrides| && overrides[i].slug == slug && overrides[i].field == f
    && forall j :: i < j < |overrides| ==> overrides[j].slug != slug || overrides[j].field != f
  }

  lemma LastSaidNext(overrides: seq<Override>, slug: string, f: Field, i: int)
    requires overrides != []
    ensures var n := |overrides| - 1;
      LastSaid(overrides, slug, f, i)
      <==> if overrides[n].slug == slug && overrides[n].field == f then i == n else LastSaid(overrides[..n], slug, f, i)
  {
  }

  lemma {:induction false} LastValueIsSaid(overrides: seq<Override>, slug: string, f: Field, i: int)
    requires Overridable(f) && LastSaid(overrides, slug, f, i)
    ensures LastValue(overrides, slug, f) == Some(overrides[i].value)
  {
    var n := |overrides| - 1;
    LastSaidNext(overrides, slug, f, i);
    if i < n {
      LastValueIsSaid(overrides[..n], slug, f, i);
    }
  }

  lemma {:induction false} ValueWasSaid(overrides: seq<Override>, slug: string, f: Field) returns (i: int)
    requires LastValue(overrides, slug, f).Some?
    ensures Overridable(f) && LastSaid(overrides, slug, f, i)
  {
    var n := |overrides| - 1;
    if overrides[n].slug == slug && overrides[n].field == f && Overridable(f) {
      i := n;
    } else {
      i := ValueWasSaid(overrides[..n], slug, f);
    }
    LastSaidNext(overrides, slug, f, i);
  }

  /** A slug is never overridden; any other column takes the value last given for it. */
  lemma {:induction false} LastValueIsLastSaid(overrides: seq<Override>, slug: string, f: Field, value: string)
    ensures LastValue(overrides, slug, f) == Some(value) <==>
      !f.Slug? && !f.Unlisted? && exists i :: LastSaid(overrides, slug, f, i) && overrides[i].value == value
  {
    if LastValue(overrides, slug, f).Some? {
      var i := ValueWasSaid(overrides, slug, f);
      LastValueIsSaid(overrides, slug, f, i);
    }
    if i :| LastSaid(overrides, slug, f, i) && overrides[i].value == value && Overridable(f) {
      LastValueIsSaid(overrides, slug, f, i);
    }
  }

  // ----- which names are kept -----

  /** The scope stored for a stated one: `name` asks for a key long enough, and any other text reads as `brand`. */
  ghost predicate ScopeStored(stated: string, key: string, stored: string) {
    stored ==
    if stated == "lead" || (stated == "name" && |key| >= NAME_ALIAS_MIN_LENGTH) then stated else "brand"
  }

  ghost predicate NamesKey(lex: Lexicon, slugs: set<string>, rows: seq<Alias>, key: string, i: int) {
    0 <= i < |rows| && lex.key(rows[i].key) == key && rows[i].producerSlug in slugs
  }

  lemma SpellsPlainly(lex: Lexicon, slugs: set<string>, rows: seq<Alias>, key: string, i: int)
    ensures Spells(lex, slugs, rows, key, i)
      <==> key != "" && lex.carriesIdentity(key) && NamesKey(lex, slugs, rows, key, i)
  {
  }

  /** An alias is kept for exactly the keys that say something and that some row spells for a producer kept; it names
      the producer of the first such row, with the scope some agreeing row asks for. */
  lemma AliasesKept(lex: Lexicon, slugs: set<string>, rows: seq<Alias>, byKey: map<string, Alias>, key: string)
    requires AliasesSettled(lex, slugs, rows, byKey)
    ensures key in byKey <==>
      key != "" && lex.carriesIdentity(key) && exists i :: NamesKey(lex, slugs, rows, key, i)
    ensures key in byKey ==> exists first, last ::
      && NamesKey(lex, slugs, rows, key, first) && (forall j :: NamesKey(lex, slugs, rows, key, j) ==> first <= j)
      && NamesKey(lex, slugs, rows, key, last) && rows[last].producerSlug == rows[first].producerSlug
      && byKey[key].key == key && byKey[key].producerSlug == rows[first].producerSlug && byKey[key].note == ""
      && ScopeStored(rows[last].scope, key, byKey[key].scope)
  {
    forall i
      ensures Spells(lex, slugs, rows, key, i)
        <==> key != "" && lex.carriesIdentity(key) && NamesKey(lex, slugs, rows, key, i)
    {
      SpellsPlainly(lex, slugs, rows, key, i);
    }
    if key in byKey {
      var first, last :| Settles(lex, slugs, rows, |rows|, key, first, last)
        && byKey[key] == Stored(lex, rows, first, last);
      assert ScopeStored(rows[last].scope, key, byKey[key].scope);
      assert NamesKey(lex, slugs, rows, key, first) && NamesKey(lex, slugs, rows, key, last);
    }
  }

  /** Row `i` says how this producer's whisky tastes of the flavor. */
  ghost predicate SaysHow(lex: Lexicon, rows: seq<Flavor>, slug: string, flavor: string, i: int) {
    0 <= i < |rows| && rows[i].producerSlug == slug && rows[i].flavor == flavor && rows[i].effect in lex.effects
  }

  /** A house style is kept for exactly the producers kept and the known flavors but `peated`, from the last row that
      says how. */
  lemma FlavorsKept(lex: Lexicon, slugs: set<string>, rows: seq<Flavor>, byPair: map<(string, string), Flavor>,
                    slug: string, flavor: string)
    requires FlavorsSettled(lex, slugs, rows, byPair)
    ensures (slug, flavor) in byPair <==>
      && slug in slugs && flavor in lex.flavors && flavor != "peated"
      && exists i :: SaysHow(lex, rows, slug, flavor, i)
    ensures (slug, flavor) in byPair ==> exists i ::
      && SaysHow(lex, rows, slug, flavor, i) && byPair[(slug, flavor)] == rows[i]
      && forall j :: SaysHow(lex, rows, slug, flavor, j) ==> j <= i
  {
    var fit := slug in slugs && flavor in lex.flavors && flavor != "peated";
    assert forall i :: Styles(lex, slugs, rows, (slug, flavor), i) <==> fit && SaysHow(lex, rows, slug, flavor, i);
    if (slug, flavor) in byPair {
      var i :| LastStyle(lex, slugs, rows, |rows|, (slug, flavor), i) && byPair[(slug, flavor)] == rows[i];
      assert SaysHow(lex, rows, slug, flavor, i);
    }
  }

  /** Row `i` is a rule about this pattern: a known peat level and no whole tag, or a whole tag of a known flavor and
      no peat level. */
  ghost predicate RulesOn(lex: Lexicon, rows: seq<Rule>, slug: string, pattern: string, flavor: string, i: int) {
    && 0 <= i < |rows| && rows[i].producerSlug == slug && lex.key(rows[i].pattern) == pattern
    && rows[i].flavor == flavor
    && if rows[i].peatProfile != "" then rows[i].peatProfile in lex.peats && (flavor == "" || rows[i].effect == "")
       else flavor != "" && rows[i].effect != "" && flavor in lex.flavors
  }

  /** A rule is kept for exactly the patterns that say something, for every producer or one kept, from the last row
      that rules on it. */
  lemma RulesKept(lex: Lexicon, slugs: set<string>, rows: seq<Rule>, byKey: map<(string, string, string), Rule>,
                  slug: string, pattern: string, flavor: string)
    requires RulesSettled(lex, slugs, rows, byKey)
    ensures (slug, pattern, flavor) in byKey <==>
      && pattern != "" && slug in slugs + {""}
      && exists i :: RulesOn(lex, rows, slug, pattern, flavor, i)
    ensures (slug, pattern, flavor) in byKey ==> exists i ::
      && RulesOn(lex, rows, slug, pattern, flavor, i)
      && byKey[(slug, pattern, flavor)] == rows[i].(pattern := pattern)
      && forall j :: RulesOn(lex, rows, slug, pattern, flavor, j) ==> j <= i
  {
    var key, fit := (slug, pattern, flavor), pattern != "" && slug in slugs + {""};
    assert forall i :: Rules(lex, slugs, rows, key, i) <==> fit && RulesOn(lex, rows, slug, pattern, flavor, i);
    if key in byKey {
      var i :| LastRule(lex, slugs, rows, |rows|, key, i) && byKey[key] == rows[i].(pattern := key.1);
      assert RulesOn(lex, rows, slug, pattern, flavor, i);
    }
  }

  // ----- the printed file -----

  /** The producer the importing migration makes of a line's fields. */
  function Imported(parts: seq<string>): Producer
    requires |parts| == PRODUCER_FIELDS
  {
    Producer(
      parts[0], parts[1], parts[2], parts[3], parts[4], parts[5], parts[6], parts[7], parts[8], parts[9], parts[10],
      parts[11], parts[12], parts[13], parts[14])
  }

  /** What is imported is what was printed, producer by producer and column by column, tabs and newlines as spaces. */
  lemma ImportedAsPrinted(space: char -> bool, seed: Seed, printed: seq<Producer>, i: nat, f: Field)
    requires space('\t') && forall c :: KebabChar(c) ==> !space(c)
    requires KeptBySlug(seed.producers) && Slugged(seed.producers)
    requires (forall p :: p in printed ==> p.slug in seed.producers) && i < |printed|
    ensures var back := SeedTsv.ReadBack(space, PRODUCER_FIELDS, SeedTsv.WriteTsv(Table(printed)));
      && back.Rows? && |back.rows| == |printed| && |back.rows[i]| == PRODUCER_FIELDS
      && Get(Imported(back.rows[i]), f) == SeedTsv.Clean(Get(printed[i], f))
  {
    ProducerFileReadsBack(space, seed, printed);
    assert SeedTsv.CleanRows(Table(printed))[i] == SeedTsv.CleanRow(Columns(printed[i]));
  }
}
