/** Source-ranked facts: which of two rows' values a merge keeps.
    A fact is a nullable value together with its nullable provenance column. */
module Facts {

  datatype Option<+T> = None | Some(value: T)

  /** Any element: the choice a query without an ordering makes. */
  method PickOne<T>(s: set<T>) returns (x: T)
    requires s != {}
    ensures x in s
  {
    x :| x in s;
  }

  lemma SomeMember<T>(s: set<T>) returns (x: T)
    requires s != {}
    ensures x in s
  {
    x :| x in s;
  }

  datatype Source = Manual | Kb | Store | Name | Llm | Legacy | Unknown

  datatype Fact<+T> = Fact(value: Option<T>, source: Option<Source>)

  /** The inlined trust order; a missing or unlisted source ranks lowest. */
  function Rank(source: Option<Source>): nat {
    match source
    case Some(Manual) => 60
    case Some(Kb) => 50
    case Some(Store) => 40
    case Some(Name) => 30
    case Some(Llm) => 20
    case Some(Legacy) => 10
    case _ => 0
  }

  predicate ByHand<T>(fact: Fact<T>) {
    fact.source == Some(Manual)
  }

  /** `loserWins`: a gap is filled, a better source wins, a person's value stays. */
  predicate LoserWins<T>(kept: Fact<T>, lost: Fact<T>) {
    && lost.value.Some?
    && !ByHand(kept)
    && (kept.value.None? || Rank(lost.source) > Rank(kept.source))
  }

  /** `loserDecides`: an identity field moves only when a person set it on the losing row. */
  predicate LoserDecides<T>(kept: Fact<T>, lost: Fact<T>) {
    ByHand(lost) && !ByHand(kept)
  }

  function PickTrusted<T>(kept: Fact<T>, lost: Fact<T>): Fact<T> {
    if LoserWins(kept, lost) then lost else kept
  }

  function PickDecided<T>(kept: Fact<T>, lost: Fact<T>): Fact<T> {
    if LoserDecides(kept, lost) then lost else kept
  }

  /** The fact the survivor `group[0]` holds once every other row was folded into it in order. */
  function FoldTrusted<T>(group: seq<Fact<T>>): Fact<T>
    requires group != []
  {
    if |group| == 1 then group[0]
    else PickTrusted(FoldTrusted(group[..|group| - 1]), group[|group| - 1])
  }

  /** The identity field the survivor holds once every other row was folded into it in order. */
  function FoldDecided<T>(group: seq<Fact<T>>): Fact<T>
    requires group != []
  {
    if |group| == 1 then group[0]
    else PickDecided(FoldDecided(group[..|group| - 1]), group[|group| - 1])
  }

  /** The sources from the most trusted down; any other, and none at all, is trusted least. */
  const TRUST := [Manual, Kb, Store, Name, Llm, Legacy]

  /** The source comes in the list ahead of wherever the other comes. */
  ghost predicate Outranks(better: Option<Source>, worse: Option<Source>) {
    exists i :: 0 <= i < |TRUST| && better == Some(TRUST[i]) && forall j :: 0 <= j <= i ==> worse != Some(TRUST[j])
  }

  /** The numbers the statements compare mean that order. */
  lemma RankIsTrust(left: Option<Source>, right: Option<Source>)
    ensures Rank(left) > Rank(right) <==> Outranks(left, right)
  {
    assert TRUST[0] == Manual && TRUST[1] == Kb && TRUST[2] == Store && TRUST[3] == Name && TRUST[4] == Llm
      && TRUST[5] == Legacy;
  }

  /** Row `i` states a value and no row states one from a better source, nor an earlier row from one as good. */
  ghost predicate BestStated<T>(group: seq<Fact<T>>, i: int) {
    && 0 <= i < |group| && group[i].value.Some?
    && (forall j :: 0 <= j < |group| && group[j].value.Some? ==> !Outranks(group[j].source, group[i].source))
    && (forall j :: 0 <= j < i && group[j].value.Some? ==> Outranks(group[i].source, group[j].source))
  }

  /** The same by the numbers. */
  ghost predicate BestRanked<T>(group: seq<Fact<T>>, i: int) {
    && 0 <= i < |group| && group[i].value.Some?
    && (forall j :: 0 <= j < |group| ==> AtMost(group[j], group[i]))
    && (forall j :: 0 <= j < i ==> Below(group[j], group[i]))
  }

  predicate AtMost<T>(fact: Fact<T>, bound: Fact<T>) {
    fact.value.Some? ==> Rank(fact.source) <= Rank(bound.source)
  }

  predicate Below<T>(fact: Fact<T>, bound: Fact<T>) {
    fact.value.Some? ==> Rank(fact.source) < Rank(bound.source)
  }

  lemma BestRankedIsBestStated<T>(group: seq<Fact<T>>, i: int)
    requires BestRanked(group, i)
    ensures BestStated(group, i)
  {
    forall j | 0 <= j < |group| && group[j].value.Some?
      ensures !Outranks(group[j].source, group[i].source)
      ensures j < i ==> Outranks(group[i].source, group[j].source)
    {
      assert AtMost(group[j], group[i]) && (j < i ==> Below(group[j], group[i]));
      RankIsTrust(group[j].source, group[i].source);
      RankIsTrust(group[i].source, group[j].source);
    }
  }

  ghost predicate AnyStated<T>(group: seq<Fact<T>>) {
    exists i :: 0 <= i < |group| && group[i].value.Some?
  }

  /** A person emptied the fact: no value, yet a manual source. */
  predicate ClearedByHand<T>(fact: Fact<T>) {
    fact.value.None? && ByHand(fact)
  }

  /** A hand-set fact on the survivor absorbs everything folded into it, a hand-cleared one included. */
  lemma {:induction false} ManualIsAbsorbing<T>(group: seq<Fact<T>>)
    requires group != [] && ByHand(group[0])
    ensures FoldTrusted(group) == group[0]
  {
    if |group| > 1 {
      ManualIsAbsorbing(group[..|group| - 1]);
    }
  }

  /** A survivor nobody set by hand ends on the first of the best-sourced stated values. */
  lemma {:induction false} FoldFindsBest<T>(group: seq<Fact<T>>) returns (i: int)
    requires group != [] && !ByHand(group[0]) && AnyStated(group)
    ensures BestRanked(group, i) && FoldTrusted(group) == group[i]
  {
    var n := |group| - 1;
    if n == 0 {
      return 0;
    }
    var front := group[..n];
    if AnyStated(front) {
      i := FoldFindsBest(front);
      assert forall j :: 0 <= j < n ==> group[j] == front[j];
      if LoserWins(front[i], group[n]) {
        i := n;
      }
    } else {
      NothingStated(front);
      assert forall j :: 0 <= j < n ==> group[j] == front[j] && front[j].value.None?;
      i := n;
    }
  }

  /** With nothing stated the survivor's fact, source included, is left alone. */
  lemma {:induction false} NothingStated<T>(group: seq<Fact<T>>)
    requires group != [] && !AnyStated(group)
    ensures FoldTrusted(group) == group[0]
  {
    var n := |group| - 1;
    if n > 0 {
      assert forall j :: 0 <= j < n ==> group[j] == group[..n][j];
      NothingStated(group[..n]);
    }
  }

  /** Folding a group with a stated value ends on the first of the best-sourced stated values
      exactly when no person had cleared the fact on the survivor. */
  lemma {:induction false} FoldIsBestStated<T>(group: seq<Fact<T>>)
    requires group != [] && AnyStated(group)
    ensures (exists i :: BestStated(group, i) && FoldTrusted(group) == group[i]) <==> !ClearedByHand(group[0])
  {
    if ByHand(group[0]) {
      ManualIsAbsorbing(group);
      if group[0].value.Some? {
        BestRankedIsBestStated(group, 0);
      }
    } else {
      var i := FoldFindsBest(group);
      BestRankedIsBestStated(group, i);
    }
  }

  /** Trust never falls while folding: what is held after any prefix is stated and sourced at most as
      well as what is held in the end. */
  lemma {:induction false} FoldNeverLosesTrust<T>(group: seq<Fact<T>>, k: int)
    requires 0 < k <= |group| && !ClearedByHand(group[0]) && AnyStated(group[..k])
    ensures !Outranks(FoldTrusted(group[..k]).source, FoldTrusted(group).source)
    ensures FoldTrusted(group[..k]).value.Some? && FoldTrusted(group).value.Some?
  {
    var front := group[..k];
    RankIsTrust(FoldTrusted(front).source, FoldTrusted(group).source);
    var j :| 0 <= j < k && front[j].value.Some?;
    assert group[j] == front[j];
    if ByHand(group[0]) {
      ManualIsAbsorbing(front);
      ManualIsAbsorbing(group);
    } else {
      var m := FoldFindsBest(front);
      var i := FoldFindsBest(group);
      assert front[m] == group[m];
    }
  }

  /** An identity field ends on the first value a person set anywhere in the group, else stays as it was. */
  lemma {:induction false} FoldFindsFirstByHand<T>(group: seq<Fact<T>>)
    requires group != []
    ensures (forall i :: 0 <= i < |group| ==> !ByHand(group[i])) ==> FoldDecided(group) == group[0]
    ensures forall i :: 0 <= i < |group| && ByHand(group[i]) && (forall j :: 0 <= j < i ==> !ByHand(group[j]))
              ==> FoldDecided(group) == group[i]
  {
    var n := |group| - 1;
    if n > 0 {
      var front := group[..n];
      FoldFindsFirstByHand(front);
      assert forall j :: 0 <= j < n ==> group[j] == front[j];
    }
  }

  /** So a group ranked with hand-set values first never changes the survivor's. */
  lemma {:induction false} FirstDecides<T>(group: seq<Fact<T>>)
    requires group != []
    requires ByHand(group[0]) || forall i :: 0 <= i < |group| ==> !ByHand(group[i])
    ensures FoldDecided(group) == group[0]
  {
    FoldFindsFirstByHand(group);
  }
}
