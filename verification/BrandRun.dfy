/** The brand repair: keys whose signature reproduces from the shop's brand are re-signed with the producer the
    knowledge base resolves, merging wherever the new key is taken. */
module BrandRun {
  import opened Facts
  import opened Tables
  import opened LiveCatalogue

  /** What the repair asks of the rest of the system: the canonical spelling of a brand, the key a name and a
      brand make, and the slug a canonical brand resolves to. */
  datatype Naming = Naming(
    canonical: string -> Option<string>,
    key: (Option<DisplayName>, string) -> Option<string>,
    slug: string -> Option<string>)

  /** `indexOf('|')`, or the length when there is none. */
  function BarAt(text: string): (at: nat)
    ensures at <= |text| && '|' !in text[..at] && (at < |text| ==> text[at] == '|')
  {
    if text == [] || text[0] == '|' then 0 else 1 + BarAt(text[1..])
  }

  /** The signature of a name and a brand token; `slice(0, -1)` where the key has no suffix. */
  function Signature(naming: Naming, name: Option<DisplayName>, brand: string): (signature: Option<string>)
    ensures signature.Some? ==> '|' !in signature.value
  {
    match naming.key(name, brand)
    case None => None
    case Some(key) =>
      if BarAt(key) < |key| then Some(key[..BarAt(key)])
      else if key == [] then Some([])
      else assert key[..BarAt(key)] == key; Some(key[..|key| - 1])
  }

  /** The key a bottling should carry instead of its own, if any. */
  function Resigned(naming: Naming, product: Product): Option<string> {
    if product.matchKey.None? || product.brandOrig.None? then None
    else
      var key := product.matchKey.value;
      var signature, suffix := key[..BarAt(key)], key[BarAt(key)..];
      var canonical := naming.canonical(product.brandOrig.value);
      if suffix == [] || canonical.None? then None
      else if Signature(naming, product.name.value, canonical.value) != Some(signature) then None
      else
        var slug := naming.slug(canonical.value);
        if slug.None? then None
        else
          var next := Signature(naming, product.name.value, slug.value);
          if next.None? || next.value == signature then None else Some(next.value + suffix)
  }

  datatype Change = Change(id: Id, to: string)

  /** Every bottling whose key the resolver disagrees with, by ascending id. */
  ghost predicate IsPlan(naming: Naming, db: Db, plan: seq<Change>) {
    && (forall i :: 0 <= i < |plan| ==>
         plan[i].id in db.products && Resigned(naming, db.products[plan[i].id]) == Some(plan[i].to))
    && (forall i, j :: 0 <= i < j < |plan| ==> plan[i].id < plan[j].id)
    && (forall p :: p in db.products && Resigned(naming, db.products[p]).Some? ==>
         exists i :: 0 <= i < |plan| && plan[i].id == p)
  }

  // ----- one change -----

  /** The bottling a change merges into: another one that holds the new key at this moment, else itself. */
  ghost function Target(db: Db, change: Change): (target: Id)
    ensures target != change.id ==> Carries(db.products, target, change.to)
    ensures target == change.id ==> forall p :: Carries(db.products, p, change.to) ==>
      p == change.id || Carries(db.products, change.id, change.to)
  {
    var holder := Holder(db.products, change.to);
    if holder.Some? then holder.value else change.id
  }

  function WithKey(products: map<Id, Product>, p: Id, key: Option<string>): map<Id, Product>
    requires p in products
  {
    products[p := products[p].(matchKey := key)]
  }

  ghost function Apply(db: Db, change: Change): Db
    requires change.id in db.products
  {
    if Target(db, change) != change.id then
      FoldOnto(db, change.id, Target(db, change)).(products := WithKey(db.products, change.id, None))
    else db.(products := WithKey(db.products, change.id, Some(change.to)))
  }

  lemma WithKeyKeepsUnique(products: map<Id, Product>, p: Id, key: Option<string>)
    requires UniqueKeys(products) && p in products
    requires key.Some? ==> forall q :: Carries(products, q, key.value) ==> q == p
    ensures UniqueKeys(WithKey(products, p, key))
  {
    var next := WithKey(products, p, key);
    forall q, r | q in next && r in next && q != r && next[q].matchKey.Some?
      ensures next[q].matchKey != next[r].matchKey
    {
      assert key.Some? ==> (Carries(products, q, key.value) ==> q == p) && (Carries(products, r, key.value) ==> r == p);
    }
  }

  lemma FoldOntoKeepsReferences(db: Db, source: Id, target: Id)
    requires Referential(db) && target in db.products
    ensures Referential(FoldOnto(db, source, target))
  {
  }

  lemma ApplyKeepsSound(db: Db, change: Change)
    requires Sound(db) && change.id in db.products
    ensures Sound(Apply(db, change)) && Apply(db, change).products.Keys == db.products.Keys
  {
    var target, next := Target(db, change), Apply(db, change);
    assert next.products.Keys == db.products.Keys;
    if target != change.id {
      WithKeyKeepsUnique(db.products, change.id, None);
      FoldOntoKeepsReferences(db, change.id, target);
    } else {
      assert forall p :: Carries(db.products, p, change.to) ==> p == change.id;
      WithKeyKeepsUnique(db.products, change.id, Some(change.to));
    }
  }

  /** What a change does: offers and entries follow to the target, one row gets its key or gives it up. */
  ghost predicate Law(before: Db, change: Change, target: Id, next: Db) {
    && RowsLaw(before.products, change, target, next.products)
    && next.offers.Keys == before.offers.Keys
    && (forall o :: o in before.offers ==>
          next.offers[o] == before.offers[o].(product := Rename(before.offers[o].product, change.id, target)))
    && (forall e :: e in before.favorites ==> Entry(e.user, Rename(e.product, change.id, target)) in next.favorites)
    && (forall e :: e in before.blacklist ==> Entry(e.user, Rename(e.product, change.id, target)) in next.blacklist)
  }

  ghost predicate RowsLaw(before: map<Id, Product>, change: Change, target: Id, next: map<Id, Product>) {
    && change.id in before
    && next == WithKey(before, change.id, if target != change.id then None else Some(change.to))
    && (target != change.id ==> Carries(before, target, change.to))
    && (target == change.id ==> forall p :: Carries(before, p, change.to) ==> p == change.id)
  }

  lemma ApplyIsLawful(db: Db, change: Change)
    requires Sound(db) && change.id in db.products
    ensures Law(db, change, Target(db, change), Apply(db, change))
  {
    var target := Target(db, change);
    if target != change.id {
      RepointKeeps(db.favorites, change.id, target);
      RepointKeeps(db.blacklist, change.id, target);
    } else {
      assert forall e: Entry :: Entry(e.user, Rename(e.product, change.id, target)) == e;
    }
  }

  lemma RepointKeeps(entries: set<Entry>, loser: Id, survivor: Id)
    requires loser != survivor
    ensures forall e :: e in entries ==>
      Entry(e.user, Rename(e.product, loser, survivor)) in RepointUnheld(entries, loser, survivor)
  {
    forall e | e in entries
      ensures Entry(e.user, Rename(e.product, loser, survivor)) in RepointUnheld(entries, loser, survivor)
    {
      var kept := Entry(e.user, survivor);
      if e.product == loser && kept in entries {
        assert kept in RepointUnheld(entries, loser, survivor);
      }
    }
  }

  /** The plan's rows exist. */
  ghost predicate Rows(db: Db, plan: seq<Change>) {
    forall i :: 0 <= i < |plan| ==> plan[i].id in db.products
  }

  /** The catalogue after the first `k` changes of the plan: keys stay unique and no bottling is deleted. */
  ghost function Run(db: Db, plan: seq<Change>, k: nat): (after: Db)
    requires Sound(db) && k <= |plan| && Rows(db, plan)
    ensures Sound(after) && after.products.Keys == db.products.Keys
    decreases k
  {
    if k == 0 then db
    else
      ApplyKeepsSound(Run(db, plan, k - 1), plan[k - 1]);
      Apply(Run(db, plan, k - 1), plan[k - 1])
  }

  // ----- a run as the history of its states and targets -----

  ghost function StatesOf(db: Db, plan: seq<Change>): seq<Db>
    requires Sound(db) && Rows(db, plan)
  {
    seq(|plan| + 1, k requires 0 <= k <= |plan| => Run(db, plan, k))
  }

  ghost function TargetsOf(db: Db, plan: seq<Change>): seq<Id>
    requires Sound(db) && Rows(db, plan)
  {
    seq(|plan|, k requires 0 <= k < |plan| => Target(Run(db, plan, k), plan[k]))
  }

  ghost predicate Turn(plan: seq<Change>, states: seq<Db>, targets: seq<Id>, k: int) {
    0 <= k < |plan| && k + 1 < |states| && k < |targets| && Law(states[k], plan[k], targets[k], states[k + 1])
  }

  ghost predicate History(db: Db, plan: seq<Change>, states: seq<Db>, targets: seq<Id>) {
    && |states| == |plan| + 1 && |targets| == |plan| && states[0] == db
    && (forall k :: 0 <= k < |plan| ==> Turn(plan, states, targets, k))
  }

  lemma RunIsHistory(db: Db, plan: seq<Change>)
    requires Sound(db) && Rows(db, plan)
    ensures History(db, plan, StatesOf(db, plan), TargetsOf(db, plan))
  {
    forall k | 0 <= k < |plan|
      ensures Turn(plan, StatesOf(db, plan), TargetsOf(db, plan), k)
    {
      RunTurn(db, plan, k);
    }
  }

  lemma RunTurn(db: Db, plan: seq<Change>, k: nat)
    requires Sound(db) && Rows(db, plan) && k < |plan|
    ensures Turn(plan, StatesOf(db, plan), TargetsOf(db, plan), k)
  {
    ApplyIsLawful(Run(db, plan, k), plan[k]);
    TurnFrom(plan, StatesOf(db, plan), TargetsOf(db, plan), k, Run(db, plan, k), Run(db, plan, k + 1));
  }

  lemma TurnFrom(plan: seq<Change>, states: seq<Db>, targets: seq<Id>, k: nat, before: Db, next: Db)
    requires k < |plan| == |targets| && |states| == |plan| + 1 && states[k] == before && states[k + 1] == next
    requires Law(before, plan[k], targets[k], next)
    ensures Turn(plan, states, targets, k)
  {
  }

  // ----- nothing is left to plan -----

  /** A re-signed key no longer reproduces from the shop's brand. */
  lemma ResignedOnce(naming: Naming, product: Product)
    requires Resigned(naming, product).Some?
    ensures Resigned(naming, product.(matchKey := Resigned(naming, product))).None?
  {
    var key, to := product.matchKey.value, Resigned(naming, product).value;
    var slug := naming.slug(naming.canonical(product.brandOrig.value).value).value;
    var next, suffix := Signature(naming, product.name.value, slug).value, key[BarAt(key)..];
    assert to == next + suffix;
    BarOf(next, suffix);
    assert to[..BarAt(to)] == next;
  }

  lemma {:induction false} BarOf(front: string, back: string)
    requires '|' !in front && back != [] && back[0] == '|'
    ensures BarAt(front + back) == |front|
  {
    if front != [] {
      assert (front + back)[1..] == front[1..] + back;
      BarOf(front[1..], back);
    } else {
      assert front + back == back;
    }
  }

  ghost predicate ById(plan: seq<Change>) {
    forall i, j :: 0 <= i < j < |plan| ==> plan[i].id < plan[j].id
  }

  /** Whether a bottling's turn came within the first `k`. */
  ghost predicate Handled(plan: seq<Change>, k: nat, p: Id) {
    exists i :: 0 <= i < k && i < |plan| && plan[i].id == p
  }

  /** A row differs from its start in its key alone, and in that only once its turn came. */
  ghost predicate SameButKey(before: map<Id, Product>, now: map<Id, Product>, p: Id, handled: bool) {
    && p in before && p in now
    && now[p] == before[p].(matchKey := now[p].matchKey)
    && (!handled ==> now[p] == before[p])
  }

  lemma {:induction false} RowsAfter(db: Db, plan: seq<Change>, states: seq<Db>, targets: seq<Id>, k: nat, p: Id)
    requires History(db, plan, states, targets) && k <= |plan| && p in db.products
    ensures SameButKey(db.products, states[k].products, p, Handled(plan, k, p))
    decreases k
  {
    if k > 0 {
      RowsAfter(db, plan, states, targets, k - 1, p);
      assert Turn(plan, states, targets, k - 1);
      assert Handled(plan, k, p) <==> Handled(plan, k - 1, p) || plan[k - 1].id == p;
    }
  }

  /** After its own turn a row's key never changes again: it is gone, or the one planned. */
  lemma {:induction false} KeyAfter(db: Db, plan: seq<Change>, states: seq<Db>, targets: seq<Id>, i: nat, k: nat)
    requires History(db, plan, states, targets) && ById(plan) && i < k <= |plan|
    ensures plan[i].id in states[k].products
    ensures states[k].products[plan[i].id].matchKey == if targets[i] != plan[i].id then None else Some(plan[i].to)
    decreases k
  {
    assert Turn(plan, states, targets, k - 1);
    if i + 1 < k {
      KeyAfter(db, plan, states, targets, i, k - 1);
    }
  }

  /** Whatever the signature, canonicalisation and resolver functions are, a second planning finds nothing. */
  lemma {:induction false} NothingLeftToPlan(naming: Naming, db: Db, plan: seq<Change>)
    requires Sound(db) && IsPlan(naming, db, plan)
    ensures IsPlan(naming, Run(db, plan, |plan|), [])
  {
    RunIsHistory(db, plan);
    forall p | p in db.products
      ensures p in Run(db, plan, |plan|).products && Resigned(naming, Run(db, plan, |plan|).products[p]).None?
    {
      NothingLeftFor(naming, db, plan, StatesOf(db, plan), TargetsOf(db, plan), p);
    }
  }

  lemma NothingLeftFor(naming: Naming, db: Db, plan: seq<Change>, states: seq<Db>, targets: seq<Id>, p: Id)
    requires IsPlan(naming, db, plan) && History(db, plan, states, targets) && p in db.products
    ensures p in states[|plan|].products && Resigned(naming, states[|plan|].products[p]).None?
  {
    RowsAfter(db, plan, states, targets, |plan|, p);
    if Resigned(naming, db.products[p]).Some? {
      var i :| 0 <= i < |plan| && plan[i].id == p;
      KeyAfter(db, plan, states, targets, i, |plan|);
      ResignedOnce(naming, db.products[p]);
    } else {
      assert !Handled(plan, |plan|, p);
    }
  }

  // ----- where everything lands -----

  /** Where a bottling's offers are after `k` changes: merge targets may themselves be moved later. */
  function Landing(plan: seq<Change>, targets: seq<Id>, k: nat, p: Id): Id
    requires k <= |plan| == |targets|
    decreases k
  {
    if k == 0 then p else Rename(Landing(plan, targets, k - 1, p), plan[k - 1].id, targets[k - 1])
  }

  /** No offer is lost, nor any user's entry: each is found where its bottling landed. */
  ghost predicate Landed(db: Db, now: Db, plan: seq<Change>, targets: seq<Id>, k: nat)
    requires k <= |plan| == |targets|
  {
    && now.offers.Keys == db.offers.Keys
    && (forall o :: o in db.offers ==>
         now.offers[o] == db.offers[o].(product := Landing(plan, targets, k, db.offers[o].product)))
    && (forall e :: e in db.favorites ==> Entry(e.user, Landing(plan, targets, k, e.product)) in now.favorites)
    && (forall e :: e in db.blacklist ==> Entry(e.user, Landing(plan, targets, k, e.product)) in now.blacklist)
  }

  lemma {:induction false} EverythingLands(db: Db, plan: seq<Change>, states: seq<Db>, targets: seq<Id>, k: nat)
    requires History(db, plan, states, targets) && k <= |plan|
    ensures Landed(db, states[k], plan, targets, k)
    decreases k
  {
    if k > 0 {
      EverythingLands(db, plan, states, targets, k - 1);
      assert Turn(plan, states, targets, k - 1);
      LandStep(db, states[k - 1], plan, targets, k, states[k]);
    }
  }

  lemma LandStep(db: Db, before: Db, plan: seq<Change>, targets: seq<Id>, k: nat, next: Db)
    requires 0 < k <= |plan| == |targets| && Landed(db, before, plan, targets, k - 1)
    requires Law(before, plan[k - 1], targets[k - 1], next)
    ensures Landed(db, next, plan, targets, k)
  {
    forall e | e in db.favorites
      ensures Entry(e.user, Landing(plan, targets, k, e.product)) in next.favorites
    {
      assert Entry(e.user, Landing(plan, targets, k - 1, e.product)) in before.favorites;
    }
    forall e | e in db.blacklist
      ensures Entry(e.user, Landing(plan, targets, k, e.product)) in next.blacklist
    {
      assert Entry(e.user, Landing(plan, targets, k - 1, e.product)) in before.blacklist;
    }
  }

  ghost predicate Keyed(products: map<Id, Product>, p: Id) {
    p in products && products[p].matchKey.Some?
  }

  /** A keyed bottling always lands on a keyed one, and an unkeyed one stays where it is. */
  lemma {:induction false} LandsOnAKey(db: Db, plan: seq<Change>, states: seq<Db>, targets: seq<Id>, k: nat, p: Id)
    requires History(db, plan, states, targets) && k <= |plan|
    requires forall i :: 0 <= i < |plan| ==> Keyed(db.products, plan[i].id)
    ensures Keyed(db.products, p) ==> Keyed(states[k].products, Landing(plan, targets, k, p))
    ensures !Keyed(db.products, p) ==> Landing(plan, targets, k, p) == p
    decreases k
  {
    if k > 0 {
      LandsOnAKey(db, plan, states, targets, k - 1, p);
      assert Turn(plan, states, targets, k - 1);
    }
  }

  /** Every offer that stood on a keyed bottling still does, and any other offer stays where it was. */
  lemma {:induction false} OffersStayKeyed(naming: Naming, db: Db, plan: seq<Change>, o: OfferId)
    requires Sound(db) && IsPlan(naming, db, plan) && o in db.offers
    ensures var now := Run(db, plan, |plan|);
      && o in now.offers
      && (Keyed(db.products, db.offers[o].product) ==> Keyed(now.products, now.offers[o].product))
      && (!Keyed(db.products, db.offers[o].product) ==> now.offers[o].product == db.offers[o].product)
  {
    RunIsHistory(db, plan);
    EverythingLands(db, plan, StatesOf(db, plan), TargetsOf(db, plan), |plan|);
    LandsOnAKey(db, plan, StatesOf(db, plan), TargetsOf(db, plan), |plan|, db.offers[o].product);
  }

  /** So a bottling merged away ends keyless and empty. */
  lemma {:induction false} MergedAwayIsEmpty(naming: Naming, db: Db, plan: seq<Change>, i: nat)
    requires Sound(db) && IsPlan(naming, db, plan) && i < |plan| && TargetsOf(db, plan)[i] != plan[i].id
    ensures var now := Run(db, plan, |plan|);
      !Keyed(now.products, plan[i].id) && forall o :: o in now.offers ==> now.offers[o].product != plan[i].id
  {
    RunIsHistory(db, plan);
    EmptyWithoutKey(db, plan, StatesOf(db, plan), TargetsOf(db, plan), i);
  }

  lemma EmptyWithoutKey(db: Db, plan: seq<Change>, states: seq<Db>, targets: seq<Id>, i: nat)
    requires History(db, plan, states, targets) && ById(plan) && i < |plan| && targets[i] != plan[i].id
    requires forall j :: 0 <= j < |plan| ==> Keyed(db.products, plan[j].id)
    ensures !Keyed(states[|plan|].products, plan[i].id)
    ensures forall o :: o in states[|plan|].offers ==> states[|plan|].offers[o].product != plan[i].id
  {
    KeyAfter(db, plan, states, targets, i, |plan|);
    EverythingLands(db, plan, states, targets, |plan|);
    forall o | o in db.offers
      ensures states[|plan|].offers[o].product != plan[i].id
    {
      LandsOnAKey(db, plan, states, targets, |plan|, db.offers[o].product);
    }
  }

  // ----- who survives where keys converge -----

  /** Before its own turn a bottling's offers land where they stand. */
  lemma {:induction false} StaysUntilTurn(plan: seq<Change>, targets: seq<Id>, k: nat, p: Id)
    requires k <= |plan| == |targets| && !Handled(plan, k, p)
    ensures Landing(plan, targets, k, p) == p
    decreases k
  {
    if k > 0 {
      assert !Handled(plan, k - 1, p) && plan[k - 1].id != p;
      StaysUntilTurn(plan, targets, k - 1, p);
    }
  }

  lemma {:induction false} StaysAfterTurn(plan: seq<Change>, targets: seq<Id>, from: nat, k: nat, p: Id, q: Id)
    requires from <= k <= |plan| == |targets| && Landing(plan, targets, from, p) == q
    requires forall i :: from <= i < k ==> plan[i].id != q
    ensures Landing(plan, targets, k, p) == q
    decreases k
  {
    if from < k {
      StaysAfterTurn(plan, targets, from, k - 1, p, q);
    }
  }

  /** Nobody holds the key before the first of the bottlings that converge on it has its turn. */
  lemma {:induction false} KeyStaysFree(db: Db, plan: seq<Change>, states: seq<Db>, targets: seq<Id>, k: nat,
                                        key: string)
    requires History(db, plan, states, targets) && k <= |plan|
    requires (forall p :: !Carries(db.products, p, key)) && forall i :: 0 <= i < k ==> plan[i].to != key
    ensures forall p :: !Carries(states[k].products, p, key)
    decreases k
  {
    if k > 0 {
      KeyStaysFree(db, plan, states, targets, k - 1, key);
      assert Turn(plan, states, targets, k - 1);
      forall p
        ensures !Carries(states[k].products, p, key)
      {
        assert !Carries(states[k - 1].products, p, key);
      }
    }
  }

  /** When no bottling holds the key beforehand, the smallest id among those that converge on it survives: it ends
      carrying the key, and every offer of the others ends on it. */
  lemma {:induction false} SmallestIdSurvives(naming: Naming, db: Db, plan: seq<Change>, first: nat, i: nat)
    requires Sound(db) && IsPlan(naming, db, plan) && first <= i < |plan| && plan[first].to == plan[i].to
    requires (forall j :: 0 <= j < first ==> plan[j].to != plan[i].to) && forall p ::
      !Carries(db.products, p, plan[i].to)
    ensures var now := Run(db, plan, |plan|);
      && Carries(now.products, plan[first].id, plan[i].to)
      && Landing(plan, TargetsOf(db, plan), |plan|, plan[i].id) == plan[first].id
  {
    RunIsHistory(db, plan);
    ConvergesOnFirst(db, plan, StatesOf(db, plan), TargetsOf(db, plan), first, i);
  }

  lemma {:induction false} ConvergesOnFirst(db: Db, plan: seq<Change>, states: seq<Db>, targets: seq<Id>, first: nat,
                                            i: nat)
    requires History(db, plan, states, targets) && ById(plan) && first <= i < |plan| && plan[first].to == plan[i].to
    requires UniqueKeys(states[i].products)
    requires (forall j :: 0 <= j < first ==> plan[j].to != plan[i].to) && forall p ::
      !Carries(db.products, p, plan[i].to)
    ensures Carries(states[|plan|].products, plan[first].id, plan[i].to)
    ensures Landing(plan, targets, |plan|, plan[i].id) == plan[first].id
  {
    var key := plan[i].to;
    KeyStaysFree(db, plan, states, targets, first, key);
    assert Turn(plan, states, targets, first) && Turn(plan, states, targets, i);
    assert targets[first] == plan[first].id by {
      assert !Carries(states[first].products, targets[first], key);
    }
    KeyAfter(db, plan, states, targets, first, |plan|);
    StaysUntilTurn(plan, targets, i, plan[i].id);
    if first < i {
      KeyAfter(db, plan, states, targets, first, i);
      assert Carries(states[i].products, plan[first].id, key);
    }
    assert targets[i] == plan[first].id;
    StaysAfterTurn(plan, targets, i + 1, |plan|, plan[i].id, plan[first].id);
  }
}
