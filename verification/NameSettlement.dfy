/** Settling the catalogue's display names: provenance tags come off where the catalogue attests the shorter
    name, then the most common spelling of each group wins. */
module NameSettlement {
  import opened Facts

  /** What is asked of the text library: lower-casing, the spelling key, the tag vocabulary and the tie-break. */
  datatype Speller = Speller(
    lower: string -> string,
    key: string -> string,
    tags: set<string>,
    compare: (string, string) -> int)

  ghost predicate TotalOrder(compare: (string, string) -> int) {
    && (forall a, b :: compare(a, b) == 0 <==> a == b)
    && (forall a, b :: compare(a, b) < 0 <==> compare(b, a) > 0)
    && (forall a, b, c :: compare(a, b) < 0 && compare(b, c) < 0 ==> compare(a, c) < 0)
  }

  type Names = seq<Option<string>>

  // ----- tags -----

  /** `lastIndexOf(' ')`. */
  function LastSpace(text: string): (at: int)
    ensures -1 <= at < |text|
    ensures at >= 0 ==> text[at] == ' '
    ensures ' ' !in text[at + 1..]
  {
    if text == [] then -1
    else if text[|text| - 1] == ' ' then |text| - 1
    else LastSpace(text[..|text| - 1])
  }

  function Attested(speller: Speller, names: Names): set<string> {
    set n | n in names && n.Some? :: speller.lower(n.value)
  }

  /** Whether the last word comes off. */
  predicate Sheds(speller: Speller, attested: set<string>, name: string) {
    var cut := LastSpace(name);
    cut > 0 && speller.lower(name[cut + 1..]) in speller.tags && speller.lower(name[..cut]) in attested
  }

  function Collapse(speller: Speller, attested: set<string>, name: string): string
    decreases |name|
  {
    if Sheds(speller, attested, name) then Collapse(speller, attested, name[..LastSpace(name)]) else name
  }

  /** The name is a shorter one and a last word of the tag vocabulary, and the catalogue has the shorter one in some
      casing. */
  ghost predicate DropsTag(speller: Speller, names: Names, name: string, shorter: string, tag: string) {
    && name == shorter + " " + tag && shorter != "" && ' ' !in tag && speller.lower(tag) in speller.tags
    && exists n :: Some(n) in names && speller.lower(n) == speller.lower(shorter)
  }

  lemma {:induction false} LastSpaceIs(shorter: string, tag: string)
    requires ' ' !in tag
    ensures LastSpace(shorter + " " + tag) == |shorter|
  {
    assert (shorter + " " + tag)[|shorter|] == ' ';
    assert (shorter + " " + tag)[|shorter| + 1..] == tag;
  }

  /** A name collapses one step exactly if it is such a name, and to that shorter one. */
  lemma {:induction false} CollapseStep(speller: Speller, names: Names, name: string)
    ensures Sheds(speller, Attested(speller, names), name)
      <==> exists shorter, tag :: DropsTag(speller, names, name, shorter, tag)
    ensures forall shorter, tag :: DropsTag(speller, names, name, shorter, tag) ==>
      Collapse(speller, Attested(speller, names), name) == Collapse(speller, Attested(speller, names), shorter)
  {
    var attested, cut := Attested(speller, names), LastSpace(name);
    forall shorter, tag | DropsTag(speller, names, name, shorter, tag)
      ensures Sheds(speller, attested, name) && name[..cut] == shorter
    {
      LastSpaceIs(shorter, tag);
      assert name[..cut] == shorter && name[cut + 1..] == tag;
    }
    if Sheds(speller, attested, name) {
      var n :| n in names && n.Some? && speller.lower(n.value) == speller.lower(name[..cut]);
      assert Some(n.value) in names;
      assert name == name[..cut] + " " + name[cut + 1..];
      assert DropsTag(speller, names, name, name[..cut], name[cut + 1..]);
    }
  }

  /** A collapsed name sheds nothing more, and is a name the catalogue attests whenever the name was. */
  lemma {:induction false} CollapseIsDone(speller: Speller, attested: set<string>, name: string)
    ensures !Sheds(speller, attested, Collapse(speller, attested, name))
    ensures speller.lower(name) in attested ==> speller.lower(Collapse(speller, attested, name)) in attested
    decreases |name|
  {
    if Sheds(speller, attested, name) {
      CollapseIsDone(speller, attested, name[..LastSpace(name)]);
    }
  }

  lemma {:induction false} OneCut(speller: Speller, attested: set<string>, name: string)
    ensures Collapse(speller, attested, name)
      == if Sheds(speller, attested, name) then Collapse(speller, attested, name[..LastSpace(name)]) else name
  {
  }

  /** The inner loop: one name at a time, one trailing word at a time. */
  method CollapseOne(speller: Speller, attested: set<string>, name: string) returns (current: string)
    ensures current == Collapse(speller, attested, name)
  {
    current := name;
    var cut := LastSpace(current);
    while cut > 0
      invariant cut == LastSpace(current)
      invariant Collapse(speller, attested, current) == Collapse(speller, attested, name)
      decreases |current|
    {
      OneCut(speller, attested, current);
      var tag, shorter := speller.lower(current[cut + 1..]), current[..cut];
      if tag !in speller.tags || speller.lower(shorter) !in attested {
        return;
      }
      current := shorter;
      cut := LastSpace(current);
    }
    OneCut(speller, attested, current);
  }

  /** The collapse of every name, as one function. */
  function Collapser(speller: Speller, attested: set<string>): string -> string {
    (name: string) => Collapse(speller, attested, name)
  }

  /** The names that collapse, each with its collapse. */
  ghost predicate Shortens(collapse: string -> string, names: Names, tags: map<string, string>) {
    && (forall n :: n in tags <==> Some(n) in names && collapse(n) != n)
    && (forall n :: n in tags ==> tags[n] == collapse(n))
  }

  /** So far as the first `i` names are seen. */
  ghost predicate ShortensSoFar(collapse: string -> string, names: Names, i: nat, tags: map<string, string>)
    requires i <= |names|
  {
    && (forall n :: n in tags ==> Some(n) in names && tags[n] == collapse(n) != n)
    && (forall j :: 0 <= j < i && names[j].Some? && names[j].value !in tags ==>
         collapse(names[j].value) == names[j].value)
  }

  lemma ShortensAll(collapse: string -> string, names: Names, tags: map<string, string>)
    requires ShortensSoFar(collapse, names, |names|, tags)
    ensures Shortens(collapse, names, tags)
  {
  }

  lemma ShortensNext(collapse: string -> string, names: Names, i: nat, tags: map<string, string>)
    requires i < |names| && ShortensSoFar(collapse, names, i, tags)
    ensures names[i].None? ==> ShortensSoFar(collapse, names, i + 1, tags)
    ensures names[i].Some? ==>
      var name := names[i].value;
      ShortensSoFar(collapse, names, i + 1, if collapse(name) != name then tags[name := collapse(name)] else tags)
  {
  }

  method CollapseTags(speller: Speller, names: Names) returns (collapsed: map<string, string>)
    ensures Shortens(Collapser(speller, Attested(speller, names)), names, collapsed)
  {
    var attested := Attested(speller, names);
    ghost var collapse := Collapser(speller, attested);
    collapsed := map[];
    for i := 0 to |names|
      invariant ShortensSoFar(collapse, names, i, collapsed)
    {
      ShortensNext(collapse, names, i, collapsed);
      if names[i].Some? {
        var name := names[i].value;
        var current := CollapseOne(speller, attested, name);
        assert current == collapse(name);
        if current != name {
          collapsed := collapsed[name := current];
        }
      }
    }
    ShortensAll(collapse, names, collapsed);
  }

  // ----- spellings -----

  /** The ranking of two spellings: more listings, then the longer text, then the plain comparison. */
  predicate Ahead(speller: Speller, names: multiset<Option<string>>, a: string, b: string) {
    if names[Some(a)] != names[Some(b)] then names[Some(a)] > names[Some(b)]
    else if |a| != |b| then |a| > |b|
    else speller.compare(a, b) < 0
  }

  /** The spelling that stands for its group. */
  ghost predicate Wins(speller: Speller, names: multiset<Option<string>>, w: string) {
    Some(w) in names &&
    forall n :: Some(n) in names && speller.key(n) == speller.key(w) && n != w ==> Ahead(speller, names, w, n)
  }

  lemma AheadIsTransitive(speller: Speller, names: multiset<Option<string>>, a: string, b: string, c: string)
    requires TotalOrder(speller.compare) && Ahead(speller, names, a, b) && Ahead(speller, names, b, c)
    ensures Ahead(speller, names, a, c)
  {
  }

  lemma AheadIsTotal(speller: Speller, names: multiset<Option<string>>, a: string, b: string)
    requires TotalOrder(speller.compare) && a != b
    ensures Ahead(speller, names, a, b) <==> !Ahead(speller, names, b, a)
  {
    assert speller.compare(a, b) != 0;
  }

  /** Every group has exactly one winner. */
  lemma WinnerExists(speller: Speller, names: multiset<Option<string>>, name: string) returns (w: string)
    requires TotalOrder(speller.compare) && Some(name) in names
    ensures Wins(speller, names, w) && speller.key(w) == speller.key(name)
    ensures forall v :: Wins(speller, names, v) && speller.key(v) == speller.key(name) ==> v == w
  {
    var rest := set o | o in names && o.Some? && speller.key(o.value) == speller.key(name);
    ghost var group := rest;
    w := name;
    while rest != {}
      invariant rest <= group && Some(w) in group
      invariant forall o :: o in group - rest && o.value != w ==> Ahead(speller, names, w, o.value)
      decreases rest
    {
      var o :| o in rest;
      rest := rest - {o};
      if o.value != w && !Ahead(speller, names, w, o.value) {
        AheadIsTotal(speller, names, w, o.value);
        forall p | p in group - rest && p.value != o.value
          ensures Ahead(speller, names, o.value, p.value)
        {
          if p.value != w {
            AheadIsTransitive(speller, names, o.value, w, p.value);
          }
        }
        w := o.value;
      }
    }
    forall n | Some(n) in names && speller.key(n) == speller.key(w) && n != w
      ensures Ahead(speller, names, w, n)
    {
      assert Some(n) in group - rest;
    }
    forall v | Wins(speller, names, v) && speller.key(v) == speller.key(name)
      ensures v == w
    {
      if v != w {
        AheadIsTotal(speller, names, v, w);
      }
    }
  }

  ghost function Winner(speller: Speller, names: multiset<Option<string>>, name: string): (w: string)
    requires TotalOrder(speller.compare) && Some(name) in names
    ensures Wins(speller, names, w) && speller.key(w) == speller.key(name)
    ensures forall v :: Wins(speller, names, v) && speller.key(v) == speller.key(name) ==> v == w
  {
    assert exists w :: Wins(speller, names, w) && speller.key(w) == speller.key(name) by {
      var w := WinnerExists(speller, names, name);
    }
    var w :| Wins(speller, names, w) && speller.key(w) == speller.key(name);
    assert forall v :: Wins(speller, names, v) && speller.key(v) == speller.key(name) ==> v == w by {
      var u := WinnerExists(speller, names, name);
    }
    w
  }

  /** The nested counts agree with the names read so far. */
  ghost predicate Tally(speller: Speller, names: multiset<Option<string>>, counts: map<string, map<string, nat>>) {
    && (forall k :: k in counts ==> counts[k] != map[])
    && (forall k, n :: k in counts && n in counts[k] ==>
         k == speller.key(n) && Some(n) in names && counts[k][n] == names[Some(n)])
    && (forall n :: Some(n) in names ==> speller.key(n) in counts && n in counts[speller.key(n)])
  }

  /** One name counted. */
  function CountOne(speller: Speller, counts: map<string, map<string, nat>>, name: string): map<string, map<string,
                    nat>> {
    var key := speller.key(name);
    var variants := if key in counts then counts[key] else map[];
    counts[key := variants[name := (if name in variants then variants[name] else 0) + 1]]
  }

  lemma TallyStep(speller: Speller, names: multiset<Option<string>>, counts: map<string, map<string, nat>>,
                  name: string)
    requires Tally(speller, names, counts)
    ensures Tally(speller, names + multiset{Some(name)}, CountOne(speller, counts, name))
  {
    var key, after := speller.key(name), CountOne(speller, counts, name);
    assert name in after[key];
    if Some(name) !in names {
      assert key in counts ==> name !in counts[key];
    }
  }

  method CountVariants(speller: Speller, names: Names) returns (counts: map<string, map<string, nat>>)
    ensures Tally(speller, multiset(names), counts)
  {
    counts := map[];
    for i := 0 to |names|
      invariant Tally(speller, multiset(names[..i]), counts)
    {
      assert names[..i + 1] == names[..i] + [names[i]];
      if names[i].Some? {
        var name := names[i].value;
        TallyStep(speller, multiset(names[..i]), counts, name);
        var key := speller.key(name);
        var variants := if key in counts then counts[key] else map[];
        variants := variants[name := (if name in variants then variants[name] else 0) + 1];
        counts := counts[key := variants];
      }
    }
    assert names[..|names|] == names;
  }

  predicate Leading(speller: Speller, names: Names, key: string, n: string) {
    Some(n) in names && speller.key(n) == key
  }

  /** `best` stands for the group of `key`. */
  ghost predicate Leads(speller: Speller, names: Names, key: string, best: string)
  {
    Leading(speller, names, key, best) && Wins(speller, multiset(names), best)
  }

  /** The head of the variants sorted by count, length and plain comparison. */
  method BestVariant(speller: Speller, names: Names, counts: map<string, map<string, nat>>, key: string)
    returns (best: string)
    requires TotalOrder(speller.compare)
    requires Tally(speller, multiset(names), counts) && key in counts
    ensures Leads(speller, names, key, best)
  {
    var variants := counts[key];
    assert variants.Keys != {};
    best := PickOne(variants.Keys);
    var rest := variants.Keys - {best};
    while rest != {}
      invariant rest <= variants.Keys && best in variants
      invariant forall n :: n in variants && n !in rest && n != best ==> Ahead(speller, multiset(names), best, n)
      decreases |rest|
    {
      var n := PickOne(rest);
      rest := rest - {n};
      if n != best {
        if variants[n] > variants[best] || (variants[n] == variants[best] &&
          (|n| > |best| || (|n| == |best| && speller.compare(n, best) < 0))) {
          forall m | m in variants && m !in rest && m != n
            ensures Ahead(speller, multiset(names), n, m)
          {
            if m != best {
              AheadIsTransitive(speller, multiset(names), n, best, m);
            }
          }
          best := n;
        } else {
          AheadIsTotal(speller, multiset(names), n, best);
        }
      }
    }
    assert Wins(speller, multiset(names), best);
  }

  lemma TallyKeys(speller: Speller, names: Names, counts: map<string, map<string, nat>>)
    requires Tally(speller, multiset(names), counts)
    ensures forall k :: k in counts <==> exists n :: Leading(speller, names, k, n)
  {
    forall k | k in counts
      ensures exists n :: Leading(speller, names, k, n)
    {
      var n := SomeMember(counts[k].Keys);
      assert Leading(speller, names, k, n);
    }
  }

  lemma LeadersWin(speller: Speller, names: Names, winners: map<string, string>)
    requires TotalOrder(speller.compare)
    requires forall k :: k in winners ==> Leads(speller, names, k, winners[k])
    requires forall k :: k in winners <==> exists n :: Leading(speller, names, k, n)
    ensures forall k, n :: Leading(speller, names, k, n) ==> winners[k] == Winner(speller, multiset(names), n)
  {
    forall k, n | Leading(speller, names, k, n)
      ensures winners[k] == Winner(speller, multiset(names), n)
    {
      assert Leads(speller, names, k, winners[k]);
    }
  }

  method RankVariants(speller: Speller, names: Names, counts: map<string, map<string, nat>>)
    returns (winners: map<string, string>)
    requires TotalOrder(speller.compare) && Tally(speller, multiset(names), counts)
    ensures winners.Keys == counts.Keys
    ensures forall k :: k in winners ==> Leads(speller, names, k, winners[k])
  {
    winners := map[];
    var rest := counts.Keys;
    while rest != {}
      invariant rest <= counts.Keys && winners.Keys == counts.Keys - rest
      invariant forall k :: k in winners ==> Leads(speller, names, k, winners[k])
      decreases |rest|
    {
      var key := PickOne(rest);
      var best := BestVariant(speller, names, counts, key);
      winners := winners[key := best];
      rest := rest - {key};
    }
  }

  /** The spelling each group should be stored under. */
  method CanonicalSpelling(speller: Speller, names: Names) returns (winners: map<string, string>)
    requires TotalOrder(speller.compare)
    ensures forall k :: k in winners <==> exists n :: Leading(speller, names, k, n)
    ensures forall k, n :: Leading(speller, names, k, n) ==> winners[k] == Winner(speller, multiset(names), n)
  {
    var counts := CountVariants(speller, names);
    winners := RankVariants(speller, names, counts);
    TallyKeys(speller, names, counts);
    LeadersWin(speller, names, winners);
  }
}
