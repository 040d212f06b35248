/** A catalogue on which a run over one store undoes what the catalogue-wide run decided. */
module StoreRunWitness {
  import opened Facts
  import opened NameSettlement
  import opened NameRuns
  import opened StoreRuns

  /** The name's last word is no tag. */
  predicate Untagged(speller: Speller, name: string) {
    var cut := LastSpace(name);
    cut > 0 ==> speller.lower(name[cut + 1..]) !in speller.tags
  }

  /** A bare name, a longer spelling of it, and the bare name with a tag. */
  predicate Spellings(speller: Speller, bare: string, long: string, tagged: string) {
    var cut := LastSpace(tagged);
    && cut > 0 && bare == tagged[..cut] && speller.lower(tagged[cut + 1..]) in speller.tags
    && Untagged(speller, bare) && Untagged(speller, long)
    && speller.lower(bare) != speller.lower(long) && speller.lower(bare) != speller.lower(tagged)
    && speller.key(bare) == speller.key(long) != speller.key(tagged) && |bare| < |long|
  }

  lemma {:induction false} UntaggedStays(speller: Speller, attested: set<string>, name: string)
    requires Untagged(speller, name)
    ensures Collapse(speller, attested, name) == name
  {
  }

  lemma {:induction false} TaggedCollapses(speller: Speller, attested: set<string>, bare: string, long: string,
                                           tagged: string)
    requires Spellings(speller, bare, long, tagged)
    ensures Collapse(speller, attested, tagged) == if speller.lower(bare) in attested then bare else tagged
  {
    UntaggedStays(speller, attested, bare);
  }

  function Others(bare: string, long: string): Names {
    [Some(bare), Some(long), Some(long)]
  }

  /** One tagged row, one bare and two of the longer spelling. */
  predicate FourRows(all: Names, bare: string, long: string, tagged: string) {
    |all| == 4 && all[0] == Some(tagged) && all[1] == Some(bare) && all[2] == all[3] == Some(long)
  }

  lemma {:induction false} RowCollapses(speller: Speller, all: Names, i: nat, name: string)
    requires i < |all| && all[i].Some? && Collapse(speller, Attested(speller, all), all[i].value) == name
    ensures i < |Collapsed(speller, all, [])| && Collapsed(speller, all, [])[i] == Some(name)
  {
    NothingAdded(all);
  }

  lemma WideCollapse(speller: Speller, all: Names, bare: string, long: string, tagged: string)
    requires Spellings(speller, bare, long, tagged) && FourRows(all, bare, long, tagged)
    ensures TwoEach(Collapsed(speller, all, []), bare, long)
  {
    var attested := Attested(speller, all);
    assert speller.lower(bare) in attested by {
      assert Some(bare) in all;
    }
    TaggedCollapses(speller, attested, bare, long, tagged);
    UntaggedStays(speller, attested, bare);
    UntaggedStays(speller, attested, long);
    RowCollapses(speller, all, 0, bare);
    RowCollapses(speller, all, 1, bare);
    RowCollapses(speller, all, 2, long);
    RowCollapses(speller, all, 3, long);
  }

  /** Two listings each, and the longer text decides. */
  predicate TwoEach(names: Names, bare: string, long: string) {
    |names| == 4 && names[0] == names[1] == Some(bare) && names[2] == names[3] == Some(long)
  }

  lemma OneOfTwo(names: Names, bare: string, long: string, i: nat)
    requires TwoEach(names, bare, long) && i < 4
    ensures names[i] == Some(bare) || names[i] == Some(long)
  {
  }

  lemma RowsAreNamed(all: Names, bare: string, long: string, tagged: string, i: nat)
    requires FourRows(all, bare, long, tagged) && i < 4
    ensures all[i].Some?
  {
  }

  lemma LongWins(speller: Speller, names: Names, bare: string, long: string)
    requires TwoEach(names, bare, long) && speller.key(bare) == speller.key(long) && |bare| < |long|
    ensures Wins(speller, multiset(names), long)
  {
    assert names == [Some(bare), Some(bare), Some(long), Some(long)];
  }

  /** Where every row collapses into one group, every row settles on its winner. */
  lemma OneGroup(speller: Speller, all: Names, w: string, i: nat)
    requires TotalOrder(speller.compare) && i < |all| && all[i].Some?
    requires Wins(speller, multiset(Collapsed(speller, all, [])), w)
    requires speller.key(Collapsed(speller, all, [])[i].value) == speller.key(w)
    ensures Settled(speller, all, [])[i] == Some(w)
  {
    WideRow(speller, all, i);
    WinnerIsOne(speller, multiset(Collapsed(speller, all, [])), Settled(speller, all, [])[i].value, w);
  }

  lemma LongTakesAll(speller: Speller, all: Names, bare: string, long: string, i: nat)
    requires TotalOrder(speller.compare) && i < |all| && all[i].Some?
    requires speller.key(bare) == speller.key(long) && |bare| < |long|
    requires TwoEach(Collapsed(speller, all, []), bare, long)
    ensures Settled(speller, all, [])[i] == Some(long)
  {
    var collapsed := Collapsed(speller, all, []);
    LongWins(speller, collapsed, bare, long);
    OneOfTwo(collapsed, bare, long, i);
    OneGroup(speller, all, long, i);
  }

  /** The catalogue-wide run stores the longer spelling everywhere. */
  lemma WideRun(speller: Speller, all: Names, bare: string, long: string, tagged: string, i: nat)
    requires TotalOrder(speller.compare) && Spellings(speller, bare, long, tagged) && FourRows(all, bare, long, tagged)
    requires i < 4
    ensures Settled(speller, all, [])[i] == Some(long)
  {
    WideCollapse(speller, all, bare, long, tagged);
    RowsAreNamed(all, bare, long, tagged, i);
    LongTakesAll(speller, all, bare, long, i);
  }

  lemma BareIsUnseen(speller: Speller, bare: string, long: string, tagged: string, context: Names)
    requires speller.lower(bare) != speller.lower(long) && speller.lower(bare) != speller.lower(tagged)
    requires forall c :: c in context ==> c == Some(long)
    ensures speller.lower(bare) !in Attested(speller, [Some(tagged)] + context)
  {
  }

  lemma {:induction false} TaggedRowCollapses(speller: Speller, tagged: string, context: Names)
    requires Collapse(speller, Attested(speller, [Some(tagged)] + context), tagged) == tagged
    ensures Collapsed(speller, [Some(tagged)], context) == [Some(tagged)]
  {
  }

  lemma OnlyOfItsKey(speller: Speller, long: string, tagged: string, context: Names, w: string)
    requires forall c :: c in context ==> c == Some(long)
    requires Some(w) in [Some(tagged)] + context && speller.key(w) == speller.key(tagged) != speller.key(long)
    ensures w == tagged
  {
  }

  /** A store run that sees only the longer spelling leaves the tag on. */
  lemma TagStays(speller: Speller, bare: string, long: string, tagged: string, context: Names)
    requires TotalOrder(speller.compare) && Spellings(speller, bare, long, tagged)
    requires forall c :: c in context ==> c == Some(long)
    ensures Settled(speller, [Some(tagged)], context)[0] == Some(tagged)
  {
    BareIsUnseen(speller, bare, long, tagged, context);
    TaggedCollapses(speller, Attested(speller, [Some(tagged)] + context), bare, long, tagged);
    TaggedRowCollapses(speller, tagged, context);
    TaggedStands(speller, long, tagged, context);
  }

  lemma TaggedStands(speller: Speller, long: string, tagged: string, context: Names)
    requires TotalOrder(speller.compare) && speller.key(tagged) != speller.key(long)
    requires Collapsed(speller, [Some(tagged)], context) == [Some(tagged)]
    requires forall c :: c in context ==> c == Some(long)
    ensures Settled(speller, [Some(tagged)], context)[0] == Some(tagged)
  {
    SettledRow(speller, [Some(tagged)], context, 0);
    OnlyOfItsKey(speller, long, tagged, context, Settled(speller, [Some(tagged)], context)[0].value);
  }

  /** The store run over the tagged row no longer sees the bare name, and stores the tagged one. */
  lemma StoreRunOverTagged(speller: Speller, bare: string, long: string, tagged: string)
    requires TotalOrder(speller.compare) && Spellings(speller, bare, long, tagged)
    ensures StoreRun(speller, [Some(tagged)], Others(bare, long))[0] == Some(tagged)
  {
    var mine, others := [Some(tagged)], Others(bare, long);
    forall c | c in Context(speller, mine, others)
      ensures c == Some(long)
    {
      var j :| 0 <= j < |others| && c == Context(speller, mine, others)[j];
      WideRun(speller, mine + others, bare, long, tagged, j + 1);
    }
    TagStays(speller, bare, long, tagged, Context(speller, mine, others));
  }

  // ----- "Balblair" -----

  function Compare(a: string, b: string): int {
    if a == "" then (if b == "" then 0 else -1)
    else if b == "" then 1
    else if a[0] != b[0] then (if a[0] < b[0] then -1 else 1)
    else Compare(a[1..], b[1..])
  }

  lemma {:induction false} CompareIsAntisymmetric(a: string, b: string)
    ensures Compare(a, b) == 0 <==> a == b
    ensures Compare(a, b) < 0 <==> Compare(b, a) > 0
  {
    if a != "" && b != "" {
      CompareIsAntisymmetric(a[1..], b[1..]);
      assert a == [a[0]] + a[1..] && b == [b[0]] + b[1..];
    }
  }

  lemma {:induction false} CompareIsTransitive(a: string, b: string, c: string)
    requires Compare(a, b) < 0 && Compare(b, c) < 0
    ensures Compare(a, c) < 0
  {
    if a != "" && b != "" && c != "" && a[0] == b[0] && b[0] == c[0] {
      CompareIsTransitive(a[1..], b[1..], c[1..]);
    }
  }

  lemma CompareIsTotal()
    ensures TotalOrder(Compare)
  {
    forall a, b
      ensures (Compare(a, b) == 0 <==> a == b) && (Compare(a, b) < 0 <==> Compare(b, a) > 0)
    {
      CompareIsAntisymmetric(a, b);
    }
    forall a, b, c | Compare(a, b) < 0 && Compare(b, c) < 0
      ensures Compare(a, c) < 0
    {
      CompareIsTransitive(a, b, c);
    }
  }

  const BARE := "balblair"
  const LONG := "the balblair"
  const TAGGED := "balblair highland"

  /** The spelling key drops the article. */
  function Key(name: string): string {
    if name == LONG then BARE else name
  }

  function Plain(): Speller {
    Speller((name: string) => name, Key, {"highland"}, Compare)
  }

  lemma {:induction false} LastSpaceIs(text: string, at: nat)
    requires at < |text| && text[at] == ' ' && ' ' !in text[at + 1..]
    ensures LastSpace(text) == at
  {
    var found := LastSpace(text);
    assert forall i :: found < i < |text| ==> text[i] == text[found + 1..][i - found - 1];
    assert forall i :: at < i < |text| ==> text[i] == text[at + 1..][i - at - 1];
  }

  lemma BareHasNoSpace()
    ensures LastSpace(BARE) == -1
  {
  }

  lemma LongSplits()
    ensures LastSpace(LONG) == 3 && LONG[4..] == BARE
  {
    LastSpaceIs(LONG, 3);
  }

  lemma TaggedSplits()
    ensures LastSpace(TAGGED) == 8 && TAGGED[..8] == BARE && TAGGED[9..] == "highland"
  {
    LastSpaceIs(TAGGED, 8);
  }

  lemma BalblairSpellings()
    ensures Spellings(Plain(), BARE, LONG, TAGGED)
  {
    BareHasNoSpace();
    LongSplits();
    TaggedSplits();
    assert BARE[0] != "highland"[0] && |BARE| != |LONG| && |BARE| != |TAGGED| && |LONG| != |TAGGED|;
  }

  lemma PlainTagsCount()
    ensures TagsCount(Plain())
  {
    LastSpaceIs(LONG, 3);
    assert LONG[4..] == BARE && |BARE| == |"highland"| && BARE[0] != "highland"[0];
    forall name: string
      ensures TagCounts(Plain(), name)
    {
    }
  }

  /** "Balblair", "The Balblair" twice and "Balblair Highland": the catalogue-wide run stores "The Balblair" four
      times, and the store run over the last row then stores "Balblair Highland". The same holds of any speller
      that tells these names apart as `Spellings` says. */
  lemma StoreRunUndoesTheWideRun() returns (speller: Speller, mine: Names, others: Names)
    ensures TotalOrder(speller.compare) && TagsCount(speller)
    ensures mine == [Some(TAGGED)] && others == [Some(BARE), Some(LONG), Some(LONG)]
    ensures forall i :: 0 <= i < 4 ==> Wide(speller, mine, others)[i] == Some(LONG)
    ensures StoreRun(speller, mine, others)[0] == Some(TAGGED)
  {
    speller, mine, others := Plain(), [Some(TAGGED)], Others(BARE, LONG);
    CompareIsTotal();
    PlainTagsCount();
    BalblairSpellings();
    forall i | 0 <= i < 4
      ensures Wide(speller, mine, others)[i] == Some(LONG)
    {
      WideRun(speller, mine + others, BARE, LONG, TAGGED, i);
    }
    StoreRunOverTagged(speller, BARE, LONG, TAGGED);
  }
}
