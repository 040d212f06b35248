/** The merge of the researched knowledge base: agents' rows are folded, scored, corrected and pruned into one
    set of producers with the aliases, flavors and rules that name them. */
module KnowledgeBase {
  import opened Facts

  datatype Producer = Producer(
    slug: string, name: string, kind: string, countryCode: string, region: string, legalRegion: string,
    owner: string, defaultTypeName: string, peatProfile: string, parentSlug: string, bottlerSlug: string,
    status: string, confidence: string, sourceUrls: string, note: string)

  datatype Alias = Alias(key: string, producerSlug: string, scope: string, note: string)

  datatype Flavor = Flavor(producerSlug: string, flavor: string, effect: string, confidence: string, sourceUrls: string,
    note: string)

  /** A rule with no producer is global. */
  datatype Rule = Rule(
    producerSlug: string, pattern: string, matchMode: string, flavor: string, effect: string,
    peatProfile: string, priority: int, sourceUrls: string, note: string)

  datatype SlugMerge = SlugMerge(fromSlug: string, toSlug: string)

  /** A producer column as a curator may name it; `Unlisted` is any text that names none. */
  datatype Field =
    | Slug | Title | Kind | CountryCode | Region | LegalRegion | Owner | DefaultTypeName | PeatProfile
    | ParentSlug | BottlerSlug | Status | Confidence | SourceUrls | Remark | Unlisted

  datatype Override = Override(slug: string, field: Field, value: string)

  /** The closed vocabularies and the helpers whose bodies are not part of this model. */
  datatype Lexicon = Lexicon(
    key: string -> string,
    carriesIdentity: string -> bool,
    gate: Producer -> string,
    kinds: set<string>, countries: set<string>, regions: set<string>, legalRegions: set<string>,
    types: set<string>, peats: set<string>, flavors: set<string>, effects: set<string>)

  const UNKNOWN := "unknown"

  // ----- folding slugs -----

  /** The map of retired slugs; a slug retired twice keeps its last target. */
  function Targets(merges: seq<SlugMerge>): map<string, string> {
    if merges == [] then map[]
    else
      var last := merges[|merges| - 1];
      Targets(merges[..|merges| - 1])[last.fromSlug := last.toSlug]
  }

  /** One hop: the target of a target is not followed. */
  function Resolve(target: map<string, string>, slug: string): string {
    if slug in target then target[slug] else slug
  }

  function FoldProducer(target: map<string, string>, p: Producer): Producer {
    p.(slug := Resolve(target, p.slug), parentSlug := Resolve(target, p.parentSlug),
      bottlerSlug := Resolve(target, p.bottlerSlug))
  }

  // ----- judging rows -----

  /** How many parts splitting at a space yields. */
  function Parts(text: string): nat {
    if text == "" then 1 else (if text[0] == ' ' then 1 else 0) + Parts(text[1..])
  }

  function One(present: bool): nat {
    if present then 1 else 0
  }

  function Cited(urls: string): nat {
    if urls == "" then 0 else Parts(urls)
  }

  function Filled(p: Producer): nat {
    One(p.countryCode != "") + One(p.region != "") + One(p.legalRegion != "") + One(p.owner != "")
    + One(p.defaultTypeName != "") + One(p.parentSlug != "") + One(p.bottlerSlug != "")
  }

  function Score(p: Producer): nat {
    Cited(p.sourceUrls) * 3 + 2 * One(p.confidence == "high") + 2 * One(p.peatProfile != UNKNOWN) + Filled(p)
  }

  /** A peat claim with no citation is demoted. */
  function Demoted(p: Producer): Producer {
    if p.peatProfile == UNKNOWN || p.sourceUrls != "" then p else p.(peatProfile := UNKNOWN)
  }

  predicate KebabChar(c: char) {
    'a' <= c <= 'z' || '0' <= c <= '9' || c == '-'
  }

  predicate Kebab(slug: string) {
    slug != "" && forall i :: 0 <= i < |slug| ==> KebabChar(slug[i])
  }

  predicate Usable(lex: Lexicon, p: Producer) {
    && Kebab(p.slug) && p.name != "" && p.kind in lex.kinds
    && (p.countryCode == "" || p.countryCode in lex.countries)
    && (p.region == "" || p.region in lex.regions)
    && (p.legalRegion == "" || p.legalRegion in lex.legalRegions)
    && (p.defaultTypeName == "" || p.defaultTypeName in lex.types)
    && p.peatProfile in lex.peats
  }

  /** What the judged rows are: the usable ones among the demoted, in order. */
  function Judged(lex: Lexicon, rows: seq<Producer>): seq<Producer> {
    if rows == [] then []
    else
      var last := Demoted(rows[|rows| - 1]);
      Judged(lex, rows[..|rows| - 1]) + if Usable(lex, last) then [last] else []
  }

  lemma {:induction false} JudgedAreUsable(lex: Lexicon, rows: seq<Producer>)
    ensures forall p ::
      p in Judged(lex, rows) <==> Usable(lex, p) && exists i :: 0 <= i < |rows| && p == Demoted(rows[i])
  {
    if rows != [] {
      var front := rows[..|rows| - 1];
      JudgedAreUsable(lex, front);
      forall p | Usable(lex, p) && exists i :: 0 <= i < |rows| && p == Demoted(rows[i])
        ensures p in Judged(lex, rows)
      {
        var i :| 0 <= i < |rows| && p == Demoted(rows[i]);
        assert i < |front| ==> p == Demoted(front[i]);
      }
    }
  }

  method Judge(lex: Lexicon, rows: seq<Producer>) returns (valid: seq<Producer>)
    ensures valid == Judged(lex, rows)
  {
    valid := [];
    for i := 0 to |rows|
      invariant valid == Judged(lex, rows[..i])
    {
      assert rows[..i + 1][..i] == rows[..i];
      var p := Demoted(rows[i]);
      if Usable(lex, p) {
        valid := valid + [p];
      }
    }
    assert rows[..|rows|] == rows;
  }

  // ----- one row per slug -----

  predicate Describes(rows: seq<Producer>, slug: string, i: int) {
    0 <= i < |rows| && rows[i].slug == slug
  }

  /** Row `i` is the earliest of those among the first `n` describing `slug` whose score is maximal. */
  ghost predicate Best(rows: seq<Producer>, n: nat, slug: string, i: int) {
    && Describes(rows, slug, i) && i < n
    && forall j :: Describes(rows, slug, j) && j < n ==>
                     Score(rows[j]) <= Score(rows[i]) && (j < i ==> Score(rows[j]) < Score(rows[i]))
  }

  ghost predicate Disagree(rows: seq<Producer>, n: nat, slug: string, i: int, j: int) {
    Describes(rows, slug, i) && Describes(rows, slug, j) && i < n && j < n && rows[i].peatProfile != rows[j].peatProfile
  }

  /** Two of the first `n` rows state different peat levels for `slug`. */
  ghost predicate Contested(rows: seq<Producer>, n: nat, slug: string) {
    exists i, j :: Disagree(rows, n, slug, i, j)
  }

  lemma StaysContested(rows: seq<Producer>, n: nat, slug: string)
    requires Contested(rows, n, slug)
    ensures Contested(rows, n + 1, slug)
  {
    var i, j :| Disagree(rows, n, slug, i, j);
    assert Disagree(rows, n + 1, slug, i, j);
  }

  /** The merge after `n` rows; `at` says which row each slug's is. */
  ghost predicate Merged(rows: seq<Producer>, n: nat, bySlug: map<string, Producer>, at: map<string, int>)
    requires n <= |rows|
  {
    && at.Keys == bySlug.Keys
    && (forall s :: s in bySlug ==> Best(rows, n, s, at[s]) && bySlug[s] == rows[at[s]])
    && (forall i :: 0 <= i < n ==> rows[i].slug in bySlug)
  }

  ghost predicate Reported(rows: seq<Producer>, n: nat, bySlug: map<string, Producer>, conflicts: seq<string>)
    requires n <= |rows|
  {
    && (forall s :: s in conflicts ==> Contested(rows, n, s))
    && (forall i :: 0 <= i < n && rows[i].slug !in conflicts ==>
         rows[i].slug in bySlug && rows[i].peatProfile == bySlug[rows[i].slug].peatProfile)
  }

  lemma BestSoFar(rows: seq<Producer>, n: nat, slug: string, i: int)
    requires n < |rows|
      && (Best(rows, n, slug, i) || (i == n && rows[n].slug == slug && forall j :: 0 <= j < n ==> rows[j].slug != slug))
    ensures rows[n].slug != slug || i == n || Score(rows[n]) <= Score(rows[i]) ==> Best(rows, n + 1, slug, i)
    ensures rows[n].slug == slug && Score(rows[n]) > Score(rows[i]) ==> Best(rows, n + 1, slug, n)
  {
  }

  lemma OthersStayBest(rows: seq<Producer>, n: nat, bySlug: map<string, Producer>, at: map<string, int>, s: string)
    requires n < |rows| && Merged(rows, n, bySlug, at) && s in bySlug
    requires rows[n].slug != s || Score(rows[n]) <= Score(bySlug[s])
    ensures Best(rows, n + 1, s, at[s]) && bySlug[s] == rows[at[s]]
  {
    BestSoFar(rows, n, s, at[s]);
  }

  lemma NewcomerIsBest(rows: seq<Producer>, n: nat, bySlug: map<string, Producer>, at: map<string, int>)
    requires n < |rows| && Merged(rows, n, bySlug, at)
    requires rows[n].slug !in bySlug || Score(rows[n]) > Score(bySlug[rows[n].slug])
    ensures Best(rows, n + 1, rows[n].slug, n)
  {
    if rows[n].slug in bySlug {
      BestSoFar(rows, n, rows[n].slug, at[rows[n].slug]);
    } else {
      BestSoFar(rows, n, rows[n].slug, n);
    }
  }

  /** A row that wins takes its slug. */
  lemma WinnerMerged(rows: seq<Producer>, n: nat, bySlug: map<string, Producer>, at: map<string, int>)
    requires n < |rows| && Merged(rows, n, bySlug, at)
    requires rows[n].slug !in bySlug || Score(rows[n]) > Score(bySlug[rows[n].slug])
    ensures Merged(rows, n + 1, bySlug[rows[n].slug := rows[n]], at[rows[n].slug := n])
  {
    NewcomerIsBest(rows, n, bySlug, at);
    forall s | s in bySlug && s != rows[n].slug
      ensures Best(rows, n + 1, s, at[s]) && bySlug[s] == rows[at[s]]
    {
      OthersStayBest(rows, n, bySlug, at, s);
    }
  }

  /** A row that does not leaves the merge as it was. */
  lemma LoserMerged(rows: seq<Producer>, n: nat, bySlug: map<string, Producer>, at: map<string, int>)
    requires n < |rows| && Merged(rows, n, bySlug, at)
    requires rows[n].slug in bySlug && Score(rows[n]) <= Score(bySlug[rows[n].slug])
    ensures Merged(rows, n + 1, bySlug, at)
  {
    forall s | s in bySlug
      ensures Best(rows, n + 1, s, at[s]) && bySlug[s] == rows[at[s]]
    {
      OthersStayBest(rows, n, bySlug, at, s);
    }
  }

  /** The map once row `n` is seen: its slug's row is the newcomer's or stays. */
  ghost predicate Updated(rows: seq<Producer>, n: nat, bySlug: map<string, Producer>, after: map<string, Producer>)
    requires n < |rows|
  {
    after == bySlug[rows[n].slug := rows[n]] || (rows[n].slug in bySlug && after == bySlug)
  }

  lemma DisagreementReported(rows: seq<Producer>, n: nat, bySlug: map<string, Producer>, i: int, conflicts: seq<string>,
                             after: map<string, Producer>)
    requires n < |rows| && Reported(rows, n, bySlug, conflicts) && Updated(rows, n, bySlug, after)
    requires Disagree(rows, n + 1, rows[n].slug, i, n)
    ensures Reported(rows, n + 1, after, conflicts + [rows[n].slug])
  {
    forall s | s in conflicts
      ensures Contested(rows, n + 1, s)
    {
      StaysContested(rows, n, s);
    }
  }

  lemma AgreementReported(rows: seq<Producer>, n: nat, bySlug: map<string, Producer>, conflicts: seq<string>,
                          after: map<string, Producer>)
    requires n < |rows| && Reported(rows, n, bySlug, conflicts) && Updated(rows, n, bySlug, after)
    requires rows[n].slug in bySlug ==> bySlug[rows[n].slug].peatProfile == rows[n].peatProfile
    ensures Reported(rows, n + 1, after, conflicts)
  {
    forall s | s in conflicts
      ensures Contested(rows, n + 1, s)
    {
      StaysContested(rows, n, s);
    }
  }

  method MergeProducers(rows: seq<Producer>) returns (bySlug: map<string, Producer>, conflicts: seq<string>)
    ensures forall s :: s in bySlug <==> exists i :: Describes(rows, s, i)
    ensures forall s :: s in bySlug ==> exists i :: Best(rows, |rows|, s, i) && bySlug[s] == rows[i]
    ensures forall s :: s in conflicts <==> Contested(rows, |rows|, s)
  {
    bySlug, conflicts := map[], [];
    ghost var at: map<string, int> := map[];
    for n := 0 to |rows|
      invariant Merged(rows, n, bySlug, at)
      invariant Reported(rows, n, bySlug, conflicts)
    {
      var row := rows[n];
      ghost var before, were, reported := bySlug, at, conflicts;
      if row.slug in bySlug && bySlug[row.slug].peatProfile != row.peatProfile {
        conflicts := conflicts + [row.slug];
      }
      if row.slug !in bySlug || Score(row) > Score(bySlug[row.slug]) {
        WinnerMerged(rows, n, bySlug, at);
        bySlug, at := bySlug[row.slug := row], at[row.slug := n];
      } else {
        LoserMerged(rows, n, bySlug, at);
      }
      if conflicts == reported {
        AgreementReported(rows, n, before, reported, bySlug);
      } else {
        DisagreementReported(rows, n, before, were[row.slug], reported, bySlug);
      }
    }
    MergedAtLast(rows, bySlug, at, conflicts);
  }

  lemma MergedAtLast(rows: seq<Producer>, bySlug: map<string, Producer>, at: map<string, int>, conflicts: seq<string>)
    requires Merged(rows, |rows|, bySlug, at) && Reported(rows, |rows|, bySlug, conflicts)
    ensures forall s :: s in bySlug <==> exists i :: Describes(rows, s, i)
    ensures forall s :: s in bySlug ==> exists i :: Best(rows, |rows|, s, i) && bySlug[s] == rows[i]
    ensures forall s :: s in conflicts <==> Contested(rows, |rows|, s)
  {
    forall s | s in bySlug
      ensures exists i :: Describes(rows, s, i)
      ensures exists i :: Best(rows, |rows|, s, i) && bySlug[s] == rows[i]
    {
      assert Best(rows, |rows|, s, at[s]);
    }
  }

  /** Which row is kept is settled: there is only one earliest best. */
  lemma BestIsOne(rows: seq<Producer>, n: nat, slug: string, i: int, j: int)
    requires Best(rows, n, slug, i) && Best(rows, n, slug, j)
    ensures i == j
  {
  }

  // ----- a curator's corrections -----

  predicate Overridable(f: Field) {
    f != Slug && f != Unlisted
  }

  function Get(p: Producer, f: Field): string {
    match f
    case Slug => p.slug
    case Title => p.name
    case Kind => p.kind
    case CountryCode => p.countryCode
    case Region => p.region
    case LegalRegion => p.legalRegion
    case Owner => p.owner
    case DefaultTypeName => p.defaultTypeName
    case PeatProfile => p.peatProfile
    case ParentSlug => p.parentSlug
    case BottlerSlug => p.bottlerSlug
    case Status => p.status
    case Confidence => p.confidence
    case SourceUrls => p.sourceUrls
    case Remark => p.note
    case Unlisted => ""
  }

  function With(p: Producer, f: Field, value: string): Producer {
    match f
    case Slug | Unlisted => p
    case Title => p.(name := value)
    case Kind => p.(kind := value)
    case CountryCode => p.(countryCode := value)
    case Region => p.(region := value)
    case LegalRegion => p.(legalRegion := value)
    case Owner => p.(owner := value)
    case DefaultTypeName => p.(defaultTypeName := value)
    case PeatProfile => p.(peatProfile := value)
    case ParentSlug => p.(parentSlug := value)
    case BottlerSlug => p.(bottlerSlug := value)
    case Status => p.(status := value)
    case Confidence => p.(confidence := value)
    case SourceUrls => p.(sourceUrls := value)
    case Remark => p.(note := value)
  }

  lemma WithSetsOneField(p: Producer, f: Field, value: string, g: Field)
    requires Overridable(f)
    ensures Get(With(p, f, value), g) == if g == f then value else Get(p, g)
  {
  }

  /** One pass applies the overrides of `status` and the other all the rest. */
  predicate InPass(o: Override, statusOnly: bool) {
    o.field.Status? == statusOnly
  }

  function Overridden(producers: map<string, Producer>, overrides: seq<Override>, statusOnly: bool): map<string,
                      Producer> {
    if overrides == [] then producers
    else
      var o := overrides[|overrides| - 1];
      var before := Overridden(producers, overrides[..|overrides| - 1], statusOnly);
      if InPass(o, statusOnly) && o.slug in before && Overridable(o.field)
      then before[o.slug := With(before[o.slug], o.field, o.value)]
      else before
  }

  /** The last value a curator gave a field, if any. */
  function LastValue(overrides: seq<Override>, slug: string, f: Field): Option<string> {
    if overrides == [] then None
    else
      var o := overrides[|overrides| - 1];
      if o.slug == slug && o.field == f && Overridable(f) then Some(o.value)
      else LastValue(overrides[..|overrides| - 1], slug, f)
  }

  function Or(value: Option<string>, otherwise: string): string {
    if value.Some? then value.value else otherwise
  }

  /** A pass adds and drops no producer, and leaves every field of its kind at the last value given. */
  lemma {:induction false} LastOverrideWins(producers: map<string, Producer>, overrides: seq<Override>,
                                            statusOnly: bool, slug: string, f: Field)
    requires slug in producers
    ensures Overridden(producers, overrides, statusOnly).Keys == producers.Keys
    ensures Get(Overridden(producers, overrides, statusOnly)[slug], f)
      == if f.Status? == statusOnly
         then Or(LastValue(overrides, slug, f), Get(producers[slug], f))
         else Get(producers[slug], f)
  {
    if overrides != [] {
      var front, o := overrides[..|overrides| - 1], overrides[|overrides| - 1];
      LastOverrideWins(producers, front, statusOnly, slug, f);
      if InPass(o, statusOnly) && o.slug == slug && Overridable(o.field) {
        WithSetsOneField(Overridden(producers, front, statusOnly)[slug], o.field, o.value, f);
      }
    }
  }

  // ----- pruning and gating -----

  function Known(slugs: set<string>, slug: string): string {
    if slug != "" && slug !in slugs then "" else slug
  }

  function Pruned(producers: map<string, Producer>): map<string, Producer> {
    map s | s in producers :: producers[s].(
      parentSlug := Known(producers.Keys, producers[s].parentSlug),
      bottlerSlug := Known(producers.Keys, producers[s].bottlerSlug))
  }

  function Gated(lex: Lexicon, producers: map<string, Producer>): map<string, Producer> {
    map s | s in producers :: producers[s].(status := lex.gate(producers[s]))
  }

  /** The corrections of the merged producers, in the order the merge applies them. */
  function Corrected(lex: Lexicon, producers: map<string, Producer>, overrides: seq<Override>): map<string, Producer> {
    Overridden(Gated(lex, Pruned(Overridden(producers, overrides, false))), overrides, true)
  }

  /** Every row is kept under its own slug. */
  ghost predicate KeptBySlug(producers: map<string, Producer>) {
    forall s :: s in producers ==> producers[s].slug == s
  }

  /** Every parent and bottler is empty or a kept producer. */
  ghost predicate ReferencesKept(producers: map<string, Producer>) {
    forall s :: s in producers ==>
      producers[s].parentSlug in producers.Keys + {""} && producers[s].bottlerSlug in producers.Keys + {""}
  }

  /** What the corrections come to, field by field: the curator's last word, else the research; a status falls
      back on the gate's verdict, and a parent or bottler nobody described is cleared wherever it came from. */
  lemma {:induction false} CorrectedField(lex: Lexicon, producers: map<string, Producer>, overrides: seq<Override>,
                                          slug: string, f: Field)
    requires slug in producers
    ensures slug in Overridden(producers, overrides, false)
    ensures Corrected(lex, producers, overrides).Keys == producers.Keys
    ensures var stated := Or(LastValue(overrides, slug, f), Get(producers[slug], f));
      Get(Corrected(lex, producers, overrides)[slug], f)
      == if f.Status?
         then Or(LastValue(overrides, slug, f), lex.gate(Pruned(Overridden(producers, overrides, false))[slug]))
         else if f.ParentSlug? || f.BottlerSlug? then if stated in producers then stated else ""
         else stated
  {
    var plain := Overridden(producers, overrides, false);
    LastOverrideWins(producers, overrides, false, slug, f);
    var gated := Gated(lex, Pruned(plain));
    LastOverrideWins(gated, overrides, true, slug, f);
  }

  lemma CorrectionsCloseReferences(lex: Lexicon, producers: map<string, Producer>, overrides: seq<Override>)
    requires KeptBySlug(producers)
    ensures var after := Corrected(lex, producers, overrides);
      after.Keys == producers.Keys && KeptBySlug(after) && ReferencesKept(after)
  {
    var after := Corrected(lex, producers, overrides);
    if producers == map[] {
      NoneAreAdded(Gated(lex, Pruned(Overridden(producers, overrides, false))), overrides, true);
      NoneAreAdded(producers, overrides, false);
    }
    forall s | s in producers
      ensures after.Keys == producers.Keys && after[s].slug == s
      ensures after[s].parentSlug in after.Keys + {""} && after[s].bottlerSlug in after.Keys + {""}
    {
      CorrectedField(lex, producers, overrides, s, Slug);
      CorrectedField(lex, producers, overrides, s, ParentSlug);
      CorrectedField(lex, producers, overrides, s, BottlerSlug);
      NeverOverridden(overrides, s, Slug);
    }
  }

  lemma {:induction false} NoneAreAdded(producers: map<string, Producer>, overrides: seq<Override>, statusOnly: bool)
    ensures Overridden(producers, overrides, statusOnly).Keys == producers.Keys
  {
    if overrides != [] {
      NoneAreAdded(producers, overrides[..|overrides| - 1], statusOnly);
    }
  }

  lemma {:induction false} NeverOverridden(overrides: seq<Override>, slug: string, f: Field)
    requires !Overridable(f)
    ensures LastValue(overrides, slug, f) == None
  {
    if overrides != [] {
      NeverOverridden(overrides[..|overrides| - 1], slug, f);
    }
  }
}
