/** The aliases of the researched producers: one per normalised key, the first accepted target with the scope of the
    last row that agrees. */
module KbAliases {
  import opened Facts
  import opened KnowledgeBase

  const BRAND := "brand"
  const LEAD := "lead"
  const SCOPES := {"brand", "name", "lead"}
  const NAME_ALIAS_MIN_LENGTH := 5

  predicate TakesAlias(lex: Lexicon, slugs: set<string>, row: Alias) {
    var key := lex.key(row.key);
    key != "" && lex.carriesIdentity(key) && row.producerSlug in slugs
  }

  /** The scope stored: an unknown one is `brand`, and one too short to match inside a name falls back on it. */
  function ScopeOf(lex: Lexicon, row: Alias): string {
    var scope := if row.scope in SCOPES then row.scope else BRAND;
    if scope != BRAND && scope != LEAD && |lex.key(row.key)| < NAME_ALIAS_MIN_LENGTH then BRAND else scope
  }

  predicate Spells(lex: Lexicon, slugs: set<string>, rows: seq<Alias>, key: string, i: int) {
    0 <= i < |rows| && TakesAlias(lex, slugs, rows[i]) && lex.key(rows[i].key) == key
  }

  /** Row `first` is the first accepted for `key`, and `last` the last that names the same producer. */
  ghost predicate Settles(lex: Lexicon, slugs: set<string>, rows: seq<Alias>, n: nat, key: string, first: int,
                          last: int) {
    && Spells(lex, slugs, rows, key, first) && Spells(lex, slugs, rows, key, last) && first <= last < n
    && rows[last].producerSlug == rows[first].producerSlug
    && (forall j :: Spells(lex, slugs, rows, key, j) ==> first <= j)
    && (forall j :: Spells(lex, slugs, rows, key, j) && last < j < n ==>
         rows[j].producerSlug != rows[first].producerSlug)
  }

  ghost predicate Collide(lex: Lexicon, slugs: set<string>, rows: seq<Alias>, n: nat, key: string, i: int, j: int) {
    Spells(lex, slugs, rows, key, i) && Spells(lex, slugs, rows, key, j) && i < n && j < n
      && rows[i].producerSlug != rows[j].producerSlug
  }

  /** Two of the first `n` rows are accepted for `key` and name different producers. */
  ghost predicate Collides(lex: Lexicon, slugs: set<string>, rows: seq<Alias>, n: nat, key: string) {
    exists i, j :: Collide(lex, slugs, rows, n, key, i, j)
  }

  lemma StillCollides(lex: Lexicon, slugs: set<string>, rows: seq<Alias>, n: nat, key: string)
    requires Collides(lex, slugs, rows, n, key)
    ensures Collides(lex, slugs, rows, n + 1, key)
  {
    var i, j :| Collide(lex, slugs, rows, n, key, i, j);
    assert Collide(lex, slugs, rows, n + 1, key, i, j);
  }

  function Stored(lex: Lexicon, rows: seq<Alias>, first: int, last: int): Alias
    requires 0 <= first < |rows| && 0 <= last < |rows|
  {
    Alias(lex.key(rows[first].key), rows[first].producerSlug, ScopeOf(lex, rows[last]), "")
  }

  /** The merge after `n` rows; `at` says which rows each key's alias comes from. */
  ghost predicate Keyed(lex: Lexicon, slugs: set<string>, rows: seq<Alias>, n: nat, byKey: map<string, Alias>,
                        at: map<string, (int, int)>)
    requires n <= |rows|
  {
    && at.Keys == byKey.Keys
    && (forall k :: k in byKey ==>
         Settles(lex, slugs, rows, n, k, at[k].0, at[k].1) && byKey[k] == Stored(lex, rows, at[k].0, at[k].1))
    && (forall k, i :: Spells(lex, slugs, rows, k, i) && i < n ==> k in byKey)
  }

  ghost predicate CollisionsReported(lex: Lexicon, slugs: set<string>, rows: seq<Alias>, n: nat,
                                     byKey: map<string, Alias>, conflicts: seq<string>)
    requires n <= |rows|
  {
    && (forall k :: k in conflicts ==> Collides(lex, slugs, rows, n, k))
    && (forall k, i :: Spells(lex, slugs, rows, k, i) && i < n && k !in conflicts ==>
         k in byKey && rows[i].producerSlug == byKey[k].producerSlug)
  }

  /** A row of another key, or a refused one, settles nothing. */
  lemma OthersSettle(lex: Lexicon, slugs: set<string>, rows: seq<Alias>, n: nat, key: string, first: int, last: int)
    requires n < |rows| && Settles(lex, slugs, rows, n, key, first, last)
    ensures if !Spells(lex, slugs, rows, key, n) || rows[n].producerSlug != rows[first].producerSlug
            then Settles(lex, slugs, rows, n + 1, key, first, last) else Settles(lex, slugs, rows, n + 1, key, first, n)
  {
  }

  lemma OthersStayKeyed(lex: Lexicon, slugs: set<string>, rows: seq<Alias>, n: nat, byKey: map<string, Alias>,
                        at: map<string, (int, int)>, k: string)
    requires n < |rows| && Keyed(lex, slugs, rows, n, byKey, at) && k in byKey
    requires !Spells(lex, slugs, rows, k, n) || byKey[k].producerSlug != rows[n].producerSlug
    ensures Settles(lex, slugs, rows, n + 1, k, at[k].0, at[k].1) && byKey[k] == Stored(lex, rows, at[k].0, at[k].1)
  {
    OthersSettle(lex, slugs, rows, n, k, at[k].0, at[k].1);
  }

  lemma NewcomerSettles(lex: Lexicon, slugs: set<string>, rows: seq<Alias>, n: nat, byKey: map<string, Alias>,
                        at: map<string, (int, int)>, k: string)
    requires n < |rows| && Keyed(lex, slugs, rows, n, byKey, at) && Spells(lex, slugs, rows, k, n)
    requires k in byKey ==> byKey[k].producerSlug == rows[n].producerSlug
    ensures var first := if k in byKey then at[k].0 else n;
      Settles(lex, slugs, rows, n + 1, k, first, n)
        && Stored(lex, rows, first, n) == Alias(k, rows[n].producerSlug, ScopeOf(lex, rows[n]), "")
  {
    if k in byKey {
      OthersSettle(lex, slugs, rows, n, k, at[k].0, at[k].1);
    }
  }

  /** A refused row, or one that collides, leaves the aliases as they were. */
  lemma RefusedKeyed(lex: Lexicon, slugs: set<string>, rows: seq<Alias>, n: nat, byKey: map<string, Alias>,
                     at: map<string, (int, int)>)
    requires n < |rows| && Keyed(lex, slugs, rows, n, byKey, at)
    requires TakesAlias(lex, slugs, rows[n]) ==>
      var key := lex.key(rows[n].key); key in byKey && byKey[key].producerSlug != rows[n].producerSlug
    ensures Keyed(lex, slugs, rows, n + 1, byKey, at)
  {
    forall k | k in byKey
      ensures Settles(lex, slugs, rows, n + 1, k, at[k].0, at[k].1) && byKey[k] == Stored(lex, rows, at[k].0, at[k].1)
    {
      OthersStayKeyed(lex, slugs, rows, n, byKey, at, k);
    }
  }

  /** An accepted row of a new key, or of the key's own producer, sets the alias. */
  lemma AcceptedKeyed(lex: Lexicon, slugs: set<string>, rows: seq<Alias>, n: nat, byKey: map<string, Alias>,
                      at: map<string, (int, int)>, key: string)
    requires n < |rows| && Keyed(lex, slugs, rows, n, byKey, at) && Spells(lex, slugs, rows, key, n)
    requires key in byKey ==> byKey[key].producerSlug == rows[n].producerSlug
    ensures var taken := Alias(key, rows[n].producerSlug, ScopeOf(lex, rows[n]), "");
      Keyed(lex, slugs, rows, n + 1, byKey[key := taken], at[key := (if key in byKey then at[key].0 else n, n)])
  {
    NewcomerSettles(lex, slugs, rows, n, byKey, at, key);
    forall k | k in byKey && k != key
      ensures Settles(lex, slugs, rows, n + 1, k, at[k].0, at[k].1) && byKey[k] == Stored(lex, rows, at[k].0, at[k].1)
    {
      OthersStayKeyed(lex, slugs, rows, n, byKey, at, k);
    }
  }

  lemma RefusedReported(lex: Lexicon, slugs: set<string>, rows: seq<Alias>, n: nat, byKey: map<string, Alias>,
                        conflicts: seq<string>)
    requires n < |rows| && CollisionsReported(lex, slugs, rows, n, byKey, conflicts) && !TakesAlias(lex, slugs, rows[n])
    ensures CollisionsReported(lex, slugs, rows, n + 1, byKey, conflicts)
  {
    forall k | k in conflicts
      ensures Collides(lex, slugs, rows, n + 1, k)
    {
      StillCollides(lex, slugs, rows, n, k);
    }
  }

  lemma CollisionReported(lex: Lexicon, slugs: set<string>, rows: seq<Alias>, n: nat, byKey: map<string, Alias>, i: int,
                          conflicts: seq<string>, key: string)
    requires n < |rows| && CollisionsReported(lex, slugs, rows, n, byKey, conflicts)
    requires Collide(lex, slugs, rows, n + 1, key, i, n)
    ensures CollisionsReported(lex, slugs, rows, n + 1, byKey, conflicts + [key])
  {
    forall k | k in conflicts
      ensures Collides(lex, slugs, rows, n + 1, k)
    {
      StillCollides(lex, slugs, rows, n, k);
    }
  }

  lemma AcceptedReported(lex: Lexicon, slugs: set<string>, rows: seq<Alias>, n: nat, byKey: map<string, Alias>,
                         conflicts: seq<string>, key: string, taken: Alias)
    requires n < |rows| && CollisionsReported(lex, slugs, rows, n, byKey, conflicts) && Spells(lex, slugs, rows, key, n)
    requires taken.producerSlug == rows[n].producerSlug
      && (key in byKey ==> byKey[key].producerSlug == taken.producerSlug)
    ensures CollisionsReported(lex, slugs, rows, n + 1, byKey[key := taken], conflicts)
  {
    forall k | k in conflicts
      ensures Collides(lex, slugs, rows, n + 1, k)
    {
      StillCollides(lex, slugs, rows, n, k);
    }
  }

  /** The first accepted target is kept, whatever the later rows say; a collision is reported if and only if two
      accepted rows name different producers. */
  method MergeAliases(lex: Lexicon, slugs: set<string>, rows: seq<Alias>)
    returns (byKey: map<string, Alias>, conflicts: seq<string>)
    ensures forall k :: k in byKey <==> exists i :: Spells(lex, slugs, rows, k, i)
    ensures forall k :: k in byKey ==>
      exists first, last ::
        Settles(lex, slugs, rows, |rows|, k, first, last) && byKey[k] == Stored(lex, rows, first, last)
    ensures forall k :: k in conflicts <==> Collides(lex, slugs, rows, |rows|, k)
  {
    byKey, conflicts := map[], [];
    ghost var at: map<string, (int, int)> := map[];
    for n := 0 to |rows|
      invariant Keyed(lex, slugs, rows, n, byKey, at)
      invariant CollisionsReported(lex, slugs, rows, n, byKey, conflicts)
    {
      var row := rows[n];
      var key := lex.key(row.key);
      if TakesAlias(lex, slugs, row) {
        if key in byKey && byKey[key].producerSlug != row.producerSlug {
          RefusedKeyed(lex, slugs, rows, n, byKey, at);
          CollisionReported(lex, slugs, rows, n, byKey, at[key].0, conflicts, key);
          conflicts := conflicts + [key];
        } else {
          AcceptedKeyed(lex, slugs, rows, n, byKey, at, key);
          AcceptedReported(lex, slugs, rows, n, byKey, conflicts, key,
            Alias(key, row.producerSlug, ScopeOf(lex, row), ""));
          at := at[key := (if key in byKey then at[key].0 else n, n)];
          byKey := byKey[key := Alias(key, row.producerSlug, ScopeOf(lex, row), "")];
        }
      } else {
        RefusedKeyed(lex, slugs, rows, n, byKey, at);
        RefusedReported(lex, slugs, rows, n, byKey, conflicts);
      }
    }
    KeyedAtLast(lex, slugs, rows, byKey, at, conflicts);
  }

  lemma KeyedAtLast(lex: Lexicon, slugs: set<string>, rows: seq<Alias>, byKey: map<string, Alias>,
                    at: map<string, (int, int)>, conflicts: seq<string>)
    requires Keyed(lex, slugs, rows, |rows|, byKey, at)
    requires CollisionsReported(lex, slugs, rows, |rows|, byKey, conflicts)
    ensures forall k :: k in byKey <==> exists i :: Spells(lex, slugs, rows, k, i)
    ensures forall k :: k in byKey ==>
      exists first, last ::
        Settles(lex, slugs, rows, |rows|, k, first, last) && byKey[k] == Stored(lex, rows, first, last)
    ensures forall k :: k in conflicts <==> Collides(lex, slugs, rows, |rows|, k)
  {
    forall k | k in byKey
      ensures exists i :: Spells(lex, slugs, rows, k, i)
      ensures exists first, last ::
        Settles(lex, slugs, rows, |rows|, k, first, last) && byKey[k] == Stored(lex, rows, first, last)
    {
      assert Settles(lex, slugs, rows, |rows|, k, at[k].0, at[k].1);
      assert Spells(lex, slugs, rows, k, at[k].0);
    }
  }
}
