/** Which bottlings the brand repair re-signs, said of the rows themselves, and what becomes of all the others and of
    what users and shops own. */
module BrandPlan {
  import opened Facts
  import opened Tables
  import opened LiveCatalogue
  import opened BrandRun

  // ----- which rows are planned -----

  /** The key up to its first bar; a key without one loses its last character. */
  ghost predicate CutAtBar(key: string, cut: string) {
    if '|' in key then cut < key && '|' !in cut && key[|cut|] == '|'
    else cut == if key == "" then "" else key[..|key| - 1]
  }

  /** The signature a brand token makes of the row's name. */
  ghost predicate Signs(naming: Naming, product: Product, brand: string, signature: string) {
    naming.key(product.name.value, brand).Some? && CutAtBar(naming.key(product.name.value, brand).value, signature)
  }

  /** The stored key is this signature and a suffix from its first bar on, and the shop's brand, in its canonical
      spelling, reproduces the signature. */
  ghost predicate Reproduces(naming: Naming, product: Product, signature: string, suffix: string) {
    && product.matchKey == Some(signature + suffix) && '|' !in signature && suffix != "" && suffix[0] == '|'
    && product.brandOrig.Some? && naming.canonical(product.brandOrig.value).Some?
    && Signs(naming, product, naming.canonical(product.brandOrig.value).value, signature)
  }

  /** Then the slug the canonical brand resolves to signs otherwise, and the new key is that before the suffix. */
  ghost predicate Disagrees(naming: Naming, product: Product, signature: string, suffix: string, next: string,
                            to: string) {
    && Reproduces(naming, product, signature, suffix)
    && naming.slug(naming.canonical(product.brandOrig.value).value).Some?
    && Signs(naming, product, naming.slug(naming.canonical(product.brandOrig.value).value).value, next)
    && next != signature && to == next + suffix
  }

  /** The key this row is to carry instead. */
  ghost predicate MustBecome(naming: Naming, product: Product, to: string) {
    exists signature, suffix, next :: Disagrees(naming, product, signature, suffix, next, to)
  }

  lemma {:induction false} BarIsFirst(text: string)
    ensures BarAt(text) == |text| <==> '|' !in text
  {
  }

  lemma CutIsSignature(naming: Naming, product: Product, brand: string, signature: string)
    ensures Signature(naming, product.name.value, brand) == Some(signature)
      <==> Signs(naming, product, brand, signature)
  {
    if naming.key(product.name.value, brand).Some? {
      var key := naming.key(product.name.value, brand).value;
      BarIsFirst(key);
      CutOnce(key, signature);
    }
  }

  lemma {:induction false} CutOnce(key: string, cut: string)
    ensures CutAtBar(key, cut) <==>
      cut == if BarAt(key) < |key| then key[..BarAt(key)] else if key == "" then "" else key[..|key| - 1]
  {
    BarIsFirst(key);
    if '|' in key && CutAtBar(key, cut) {
      assert cut == key[..|cut|];
      assert BarAt(key) == |cut|;
    }
  }

  /** A row is re-signed to exactly the key it must carry instead. */
  lemma PlannedExactly(naming: Naming, product: Product, to: string)
    ensures Resigned(naming, product) == Some(to) <==> MustBecome(naming, product, to)
  {
    if product.matchKey.Some? && product.brandOrig.Some? && naming.canonical(product.brandOrig.value).Some? {
      var key, canonical := product.matchKey.value, naming.canonical(product.brandOrig.value).value;
      BarIsFirst(key);
      SplitAtBar(key);
      forall brand, cut
        ensures Signature(naming, product.name.value, brand) == Some(cut) <==> Signs(naming, product, brand, cut)
      {
        CutIsSignature(naming, product, brand, cut);
      }
      if Resigned(naming, product) == Some(to) {
        var next := Signature(naming, product.name.value, naming.slug(canonical).value).value;
        assert Disagrees(naming, product, key[..BarAt(key)], key[BarAt(key)..], next, to);
      }
      if MustBecome(naming, product, to) {
        var signature, suffix, next :| Disagrees(naming, product, signature, suffix, next, to);
        BarOf(signature, suffix);
        assert key[..BarAt(key)] == signature && key[BarAt(key)..] == suffix;
      }
    }
  }

  lemma {:induction false} SplitAtBar(key: string)
    ensures key == key[..BarAt(key)] + key[BarAt(key)..]
  {
  }

  /** A plan holds, by ascending id, exactly the rows that must carry another key, each with that key. */
  lemma PlanIsExact(naming: Naming, db: Db, plan: seq<Change>)
    requires IsPlan(naming, db, plan)
    ensures forall p, to :: Change(p, to) in plan <==> p in db.products && MustBecome(naming, db.products[p], to)
  {
    forall p, to
      ensures Change(p, to) in plan <==> p in db.products && MustBecome(naming, db.products[p], to)
    {
      if p in db.products {
        PlannedExactly(naming, db.products[p], to);
        if MustBecome(naming, db.products[p], to) {
          var i :| 0 <= i < |plan| && plan[i].id == p;
          assert plan[i] == Change(p, to);
        }
      }
    }
  }

  /** A bottling without a turn keeps its row, and its offers stay on it. */
  lemma {:induction false} UnplannedStays(naming: Naming, db: Db, plan: seq<Change>, p: Id)
    requires Sound(db) && IsPlan(naming, db, plan) && p in db.products
    requires forall i :: 0 <= i < |plan| ==> plan[i].id != p
    ensures var now := Run(db, plan, |plan|);
      && p in now.products && now.products[p] == db.products[p]
      && forall o :: o in db.offers && db.offers[o].product == p ==> o in now.offers && now.offers[o] == db.offers[o]
  {
    RunIsHistory(db, plan);
    RowsAfter(db, plan, StatesOf(db, plan), TargetsOf(db, plan), |plan|, p);
    EverythingLands(db, plan, StatesOf(db, plan), TargetsOf(db, plan), |plan|);
    StaysUntilTurn(plan, TargetsOf(db, plan), |plan|, p);
  }

  /** So a row whose stored signature the shop's brand does not reproduce is left alone. */
  lemma {:induction false} SkippedStays(naming: Naming, db: Db, plan: seq<Change>, p: Id)
    requires Sound(db) && IsPlan(naming, db, plan) && p in db.products
    requires forall signature, suffix :: !Reproduces(naming, db.products[p], signature, suffix)
    ensures var now := Run(db, plan, |plan|);
      && p in now.products && now.products[p] == db.products[p]
      && forall o :: o in db.offers && db.offers[o].product == p ==> o in now.offers && now.offers[o] == db.offers[o]
  {
    forall i | 0 <= i < |plan|
      ensures plan[i].id != p
    {
      PlannedReproduces(naming, db, plan, i);
    }
    UnplannedStays(naming, db, plan, p);
  }

  lemma PlannedReproduces(naming: Naming, db: Db, plan: seq<Change>, i: nat)
    requires IsPlan(naming, db, plan) && i < |plan|
    ensures exists signature, suffix :: Reproduces(naming, db.products[plan[i].id], signature, suffix)
  {
    PlannedExactly(naming, db.products[plan[i].id], plan[i].to);
    var signature, suffix, next :| Disagrees(naming, db.products[plan[i].id], signature, suffix, next, plan[i].to);
  }

  // ----- tags and lists -----

  ghost predicate ListTurn(before: set<Entry>, change: Change, target: Id, next: set<Entry>) {
    if target == change.id then next == before else Repointed(before, change.id, target, next)
  }

  /** A change that merges copies the tags and re-points the users' entries; any other touches neither. */
  ghost predicate OwnedTurn(before: Db, change: Change, target: Id, next: Db) {
    && next.collections == before.collections && next.purchases == before.purchases
    && next.conflicts == before.conflicts && next.aliases == before.aliases
    && (if target == change.id then next.flavors == before.flavors
        else Copied(before.flavors, change.id, target, next.flavors))
    && ListTurn(before.favorites, change, target, next.favorites)
    && ListTurn(before.blacklist, change, target, next.blacklist)
  }

  lemma ApplyOwned(db: Db, change: Change)
    requires change.id in db.products
    ensures OwnedTurn(db, change, Target(db, change), Apply(db, change))
  {
    RepointedExactly(db.favorites, change.id, Target(db, change));
    RepointedExactly(db.blacklist, change.id, Target(db, change));
    CopiedExactly(db.flavors, change.id, Target(db, change));
  }

  ghost predicate OwnedAt(plan: seq<Change>, states: seq<Db>, targets: seq<Id>, k: int) {
    0 <= k < |plan| && k + 1 < |states| && k < |targets| && OwnedTurn(states[k], plan[k], targets[k], states[k + 1])
  }

  ghost predicate OwnedHistory(plan: seq<Change>, states: seq<Db>, targets: seq<Id>) {
    |states| == |plan| + 1 && |targets| == |plan| && forall k :: 0 <= k < |plan| ==> OwnedAt(plan, states, targets, k)
  }

  lemma OwnedFrom(plan: seq<Change>, states: seq<Db>, targets: seq<Id>, k: nat, before: Db, next: Db)
    requires k < |plan| == |targets| && |states| == |plan| + 1 && states[k] == before && states[k + 1] == next
    requires OwnedTurn(before, plan[k], targets[k], next)
    ensures OwnedAt(plan, states, targets, k)
  {
  }

  lemma RunOwnedAt(db: Db, plan: seq<Change>, k: nat)
    requires Sound(db) && Rows(db, plan) && k < |plan|
    ensures OwnedAt(plan, StatesOf(db, plan), TargetsOf(db, plan), k)
  {
    ApplyOwned(Run(db, plan, k), plan[k]);
    OwnedFrom(plan, StatesOf(db, plan), TargetsOf(db, plan), k, Run(db, plan, k), Run(db, plan, k + 1));
  }

  lemma RunIsOwnedHistory(db: Db, plan: seq<Change>)
    requires Sound(db) && Rows(db, plan)
    ensures OwnedHistory(plan, StatesOf(db, plan), TargetsOf(db, plan))
  {
    forall k | 0 <= k < |plan|
      ensures OwnedAt(plan, StatesOf(db, plan), TargetsOf(db, plan), k)
    {
      RunOwnedAt(db, plan, k);
    }
  }

  /** The bottling was where this one's offers stood at some moment up to `k`. */
  ghost predicate Passed(plan: seq<Change>, targets: seq<Id>, k: nat, from: Id, at: Id)
    requires k <= |plan| == |targets|
  {
    exists j :: 0 <= j <= k && Landing(plan, targets, j, from) == at
  }

  lemma PassedLater(plan: seq<Change>, targets: seq<Id>, k: nat, from: Id, at: Id)
    requires k < |plan| == |targets| && ById(plan)
    requires Passed(plan, targets, k, from, at)
    ensures Passed(plan, targets, k + 1, from, at)
    ensures at == plan[k].id ==> Passed(plan, targets, k + 1, from, targets[k])
  {
    var j :| 0 <= j <= k && Landing(plan, targets, j, from) == at;
    if at == plan[k].id {
      StaysAfterTurn(plan, targets, j, k, from, at);
      assert Landing(plan, targets, k + 1, from) == targets[k];
    }
  }

  /** A tag came from one of the start, by the same source. */
  ghost predicate TagFrom(db: Db, plan: seq<Change>, targets: seq<Id>, k: nat, tag: Tag, source: FlavorSource, from: Id)
    requires k <= |plan| == |targets|
  {
    && Tag(from, tag.flavor) in db.flavors && db.flavors[Tag(from, tag.flavor)] == source
    && Passed(plan, targets, k, from, tag.product)
  }

  /** No tag of the start is lost or re-sourced, and each is found where its bottling landed as well. */
  lemma {:induction false} TagsLand(db: Db, plan: seq<Change>, states: seq<Db>, targets: seq<Id>, k: nat, tag: Tag)
    requires OwnedHistory(plan, states, targets) && states[0] == db && k <= |plan| && tag in db.flavors
    ensures tag in states[k].flavors && states[k].flavors[tag] == db.flavors[tag]
    ensures Tag(Landing(plan, targets, k, tag.product), tag.flavor) in states[k].flavors
    decreases k
  {
    if k > 0 {
      TagsLand(db, plan, states, targets, k - 1, tag);
      assert OwnedAt(plan, states, targets, k - 1);
      TagStep(states[k - 1], plan[k - 1], targets[k - 1], states[k], tag);
      TagStep(states[k - 1], plan[k - 1], targets[k - 1], states[k],
        Tag(Landing(plan, targets, k - 1, tag.product), tag.flavor));
    }
  }

  lemma TagStep(before: Db, change: Change, target: Id, next: Db, tag: Tag)
    requires OwnedTurn(before, change, target, next) && tag in before.flavors
    ensures tag in next.flavors && next.flavors[tag] == before.flavors[tag]
    ensures Tag(Rename(tag.product, change.id, target), tag.flavor) in next.flavors
  {
    var moved := Tag(Rename(tag.product, change.id, target), tag.flavor);
    if moved !in before.flavors {
      assert Tag(change.id, moved.flavor) in before.flavors;
    }
  }

  /** Nor is a tag invented. */
  lemma {:induction false} TagsHaveAnOrigin(db: Db, plan: seq<Change>, states: seq<Db>, targets: seq<Id>, k: nat,
                                            tag: Tag) returns (from: Id)
    requires OwnedHistory(plan, states, targets) && states[0] == db && ById(plan) && k <= |plan|
    requires tag in states[k].flavors
    ensures TagFrom(db, plan, targets, k, tag, states[k].flavors[tag], from)
    decreases k
  {
    if k == 0 {
      from := tag.product;
      assert Landing(plan, targets, 0, from) == tag.product;
    } else {
      assert OwnedAt(plan, states, targets, k - 1);
      var at := if tag in states[k - 1].flavors then tag.product else plan[k - 1].id;
      from := TagsHaveAnOrigin(db, plan, states, targets, k - 1, Tag(at, tag.flavor));
      PassedLater(plan, targets, k - 1, from, at);
    }
  }

  // ----- users' entries -----

  ghost predicate ListHistory(plan: seq<Change>, targets: seq<Id>, lists: seq<set<Entry>>) {
    && |lists| == |plan| + 1 && |targets| == |plan|
    && forall k :: 0 <= k < |plan| ==> ListAt(plan, targets, lists, k)
  }

  ghost predicate ListAt(plan: seq<Change>, targets: seq<Id>, lists: seq<set<Entry>>, k: int) {
    0 <= k < |plan| && k < |targets| && k + 1 < |lists| && ListTurn(lists[k], plan[k], targets[k], lists[k + 1])
  }

  /** No entry is invented: each was one of the same user's for a bottling that passed there. */
  lemma {:induction false} EntriesHaveAnOrigin(plan: seq<Change>, targets: seq<Id>, lists: seq<set<Entry>>, k: nat,
                                               e: Entry) returns (from: Id)
    requires ListHistory(plan, targets, lists) && ById(plan) && k <= |plan| && e in lists[k]
    ensures Entry(e.user, from) in lists[0] && Passed(plan, targets, k, from, e.product)
    decreases k
  {
    if k == 0 {
      from := e.product;
      assert Landing(plan, targets, 0, from) == e.product;
    } else {
      assert ListAt(plan, targets, lists, k - 1);
      var at := if e in lists[k - 1] then e.product else plan[k - 1].id;
      from := EntriesHaveAnOrigin(plan, targets, lists, k - 1, Entry(e.user, at));
      PassedLater(plan, targets, k - 1, from, at);
    }
  }

  ghost function FavoritesOf(states: seq<Db>): seq<set<Entry>> {
    seq(|states|, k requires 0 <= k < |states| => states[k].favorites)
  }

  ghost function BlacklistsOf(states: seq<Db>): seq<set<Entry>> {
    seq(|states|, k requires 0 <= k < |states| => states[k].blacklist)
  }

  lemma ListsOfAHistory(plan: seq<Change>, states: seq<Db>, targets: seq<Id>)
    requires OwnedHistory(plan, states, targets)
    ensures ListHistory(plan, targets, FavoritesOf(states)) && ListHistory(plan, targets, BlacklistsOf(states))
  {
    forall k | 0 <= k < |plan|
      ensures ListAt(plan, targets, FavoritesOf(states), k) && ListAt(plan, targets, BlacklistsOf(states), k)
    {
      assert OwnedAt(plan, states, targets, k);
    }
  }

  /** No tag is lost or re-sourced, each is found where its bottling landed too, and none is invented. */
  ghost predicate TagsKept(db: Db, plan: seq<Change>, targets: seq<Id>, now: map<Tag, FlavorSource>)
    requires |plan| == |targets|
  {
    && (forall t :: t in db.flavors ==>
         t in now && now[t] == db.flavors[t] && Tag(Landing(plan, targets, |plan|, t.product), t.flavor) in now)
    && (forall t :: t in now ==> exists from :: TagFrom(db, plan, targets, |plan|, t, now[t], from))
  }

  lemma TagsOverTheRun(db: Db, plan: seq<Change>, states: seq<Db>, targets: seq<Id>)
    requires OwnedHistory(plan, states, targets) && states[0] == db && ById(plan)
    ensures TagsKept(db, plan, targets, states[|plan|].flavors)
  {
    forall t | t in db.flavors
      ensures t in states[|plan|].flavors && states[|plan|].flavors[t] == db.flavors[t]
      ensures Tag(Landing(plan, targets, |plan|, t.product), t.flavor) in states[|plan|].flavors
    {
      TagsLand(db, plan, states, targets, |plan|, t);
    }
    forall t | t in states[|plan|].flavors
      ensures exists from :: TagFrom(db, plan, targets, |plan|, t, states[|plan|].flavors[t], from)
    {
      var from := TagsHaveAnOrigin(db, plan, states, targets, |plan|, t);
    }
  }

  lemma {:induction false} ListOverTheRun(plan: seq<Change>, targets: seq<Id>, lists: seq<set<Entry>>)
    requires ListHistory(plan, targets, lists) && ById(plan)
    ensures forall e :: e in lists[|plan|] ==>
      exists from :: Entry(e.user, from) in lists[0] && Passed(plan, targets, |plan|, from, e.product)
  {
    forall e | e in lists[|plan|]
      ensures exists from :: Entry(e.user, from) in lists[0] && Passed(plan, targets, |plan|, from, e.product)
    {
      var from := EntriesHaveAnOrigin(plan, targets, lists, |plan|, e);
    }
  }

  lemma {:induction false} FirstAndLast(db: Db, plan: seq<Change>)
    requires Sound(db) && Rows(db, plan)
    ensures StatesOf(db, plan)[0] == db && StatesOf(db, plan)[|plan|] == Run(db, plan, |plan|)
  {
  }

  lemma {:induction false} TagsSurviveTheRun(naming: Naming, db: Db, plan: seq<Change>)
    requires Sound(db) && IsPlan(naming, db, plan)
    ensures TagsKept(db, plan, TargetsOf(db, plan), Run(db, plan, |plan|).flavors)
  {
    RunIsOwnedHistory(db, plan);
    FirstAndLast(db, plan);
    TagsOverTheRun(db, plan, StatesOf(db, plan), TargetsOf(db, plan));
  }

  /** Nor is a favourite or a blacklist entry invented by a run. */
  lemma {:induction false} NoEntryIsInvented(naming: Naming, db: Db, plan: seq<Change>)
    requires Sound(db) && IsPlan(naming, db, plan)
    ensures forall e :: e in Run(db, plan, |plan|).favorites ==> exists from ::
      Entry(e.user, from) in db.favorites && Passed(plan, TargetsOf(db, plan), |plan|, from, e.product)
    ensures forall e :: e in Run(db, plan, |plan|).blacklist ==> exists from ::
      Entry(e.user, from) in db.blacklist && Passed(plan, TargetsOf(db, plan), |plan|, from, e.product)
  {
    var states := StatesOf(db, plan);
    RunIsOwnedHistory(db, plan);
    FirstAndLast(db, plan);
    ListsOfAHistory(plan, states, TargetsOf(db, plan));
    ListOverTheRun(plan, TargetsOf(db, plan), FavoritesOf(states));
    ListOverTheRun(plan, TargetsOf(db, plan), BlacklistsOf(states));
  }
}
