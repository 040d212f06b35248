/** The brand repair over the live tables: planned first, then applied change by change, each looked up live. */
module BrandRegroupRun {
  import opened Facts
  import opened Tables
  import opened LiveCatalogue
  import opened BrandRun
  import opened BrandPlan

  method Least(ids: set<Id>) returns (least: Id)
    requires ids != {}
    ensures least in ids && forall p :: p in ids ==> least <= p
  {
    least := PickOne(ids);
    var rest := ids - {least};
    while rest != {}
      invariant rest <= ids && least in ids && forall p :: p in ids ==> p in rest || least <= p
      decreases |rest|
    {
      var p := PickOne(rest);
      if p < least {
        least := p;
      }
      rest := rest - {p};
    }
  }

  /** The keys the resolver wants instead. */
  ghost function Wanted(naming: Naming, products: map<Id, Product>): map<Id, string> {
    map p | p in products && Resigned(naming, products[p]).Some? :: Resigned(naming, products[p]).value
  }

  /** The plan of every wanted change but the rest's, all of whose ids come later. */
  ghost predicate PlannedBut(wanted: map<Id, string>, plan: seq<Change>, rest: set<Id>) {
    && ById(plan)
    && (forall i :: 0 <= i < |plan| ==> plan[i].id in wanted && wanted[plan[i].id] == plan[i].to)
    && (forall i, p :: 0 <= i < |plan| && p in rest ==> plan[i].id < p)
    && (forall p | p in wanted && p !in rest :: Plans(plan, p))
  }

  ghost predicate Plans(plan: seq<Change>, p: Id) {
    exists i :: 0 <= i < |plan| && plan[i].id == p
  }

  lemma PlansMore(plan: seq<Change>, change: Change, p: Id)
    ensures Plans(plan + [change], p) <==> Plans(plan, p) || change.id == p
  {
    assert (plan + [change])[|plan|] == change;
    assert forall i :: 0 <= i < |plan| ==> (plan + [change])[i] == plan[i];
  }

  lemma PlannedNext(wanted: map<Id, string>, plan: seq<Change>, rest: set<Id>, p: Id)
    requires PlannedBut(wanted, plan, rest) && p in rest && forall q :: q in rest ==> p <= q
    ensures PlannedBut(wanted, if p in wanted then plan + [Change(p, wanted[p])] else plan, rest - {p})
  {
    if p in wanted {
      forall q | q in wanted && q !in rest - {p}
        ensures Plans(plan + [Change(p, wanted[p])], q)
      {
        PlansMore(plan, Change(p, wanted[p]), q);
      }
    }
  }

  lemma PlannedInFull(naming: Naming, db: Db, plan: seq<Change>)
    requires PlannedBut(Wanted(naming, db.products), plan, {})
    ensures IsPlan(naming, db, plan)
  {
    forall p | p in db.products && Resigned(naming, db.products[p]).Some?
      ensures exists i :: 0 <= i < |plan| && plan[i].id == p
    {
      assert Plans(plan, p);
    }
  }

  class BrandRegroup {
    const naming: Naming

    constructor (naming: Naming)
      ensures this.naming == naming
    {
      this.naming := naming;
    }

    /** Works out every key that would change, by ascending id, without writing anything. */
    method Plan(c: Catalogue) returns (plan: seq<Change>)
      ensures IsPlan(naming, c.Snapshot(), plan)
      ensures forall p, to :: Change(p, to) in plan <==> p in c.products && MustBecome(naming, c.products[p], to)
    {
      plan := [];
      var rest := c.products.Keys;
      ghost var wanted := Wanted(naming, c.products);
      while rest != {}
        invariant rest <= c.products.Keys && PlannedBut(wanted, plan, rest)
        decreases |rest|
      {
        var p := Least(rest);
        var next := Resigned(naming, c.products[p]);
        PlannedNext(wanted, plan, rest, p);
        rest := rest - {p};
        if next.Some? {
          plan := plan + [Change(p, next.value)];
        }
      }
      PlannedInFull(naming, c.Snapshot(), plan);
      PlanIsExact(naming, c.Snapshot(), plan);
    }

    /** Re-signs one key, or merges into whoever holds it by now. */
    method ApplyChange(c: Catalogue, change: Change)
      requires Sound(c.Snapshot()) && change.id in c.products
      modifies c
      ensures c.Snapshot() == Apply(old(c.Snapshot()), change)
    {
      var twin := c.FindByKey(change.to);
      if twin.Some? {
        assert Carries(c.products, twin.value, change.to);
      } else {
        assert forall p :: !Carries(c.products, p, change.to);
      }
      ghost var target := Target(c.Snapshot(), change);
      assert target == if twin.Some? then twin.value else change.id;
      if twin.Some? && twin.value != change.id {
        var moved := c.UpdateOffers(change.id, twin.value);
        c.flavors := CopyFlavors(c.flavors, change.id, twin.value);
        c.favorites := RepointUnheld(c.favorites, change.id, twin.value);
        c.blacklist := RepointUnheld(c.blacklist, change.id, twin.value);
        c.SetKey(change.id, None);
      } else {
        c.SetKey(change.id, Some(change.to));
      }
    }

    /** Applies the plan, looking each new key up in the tables as they are by then. */
    method Regroup(c: Catalogue, plan: seq<Change>)
      requires Sound(c.Snapshot()) && Rows(c.Snapshot(), plan)
      modifies c
      ensures c.Snapshot() == Run(old(c.Snapshot()), plan, |plan|)
    {
      ghost var before := c.Snapshot();
      for i := 0 to |plan|
        invariant c.Snapshot() == Run(before, plan, i)
      {
        ApplyChange(c, plan[i]);
      }
    }

    /** The whole repair: the check that would abort it is unreachable. */
    method Up(c: Catalogue) returns (committed: bool, plan: seq<Change>)
      requires Sound(c.Snapshot())
      modifies c
      ensures committed && IsPlan(naming, old(c.Snapshot()), plan)
      ensures c.Snapshot() == Run(old(c.Snapshot()), plan, |plan|)
      ensures IsPlan(naming, c.Snapshot(), [])
      ensures forall p, to :: p in c.products ==> !MustBecome(naming, c.products[p], to)
    {
      ghost var before := c.Snapshot();
      plan := Plan(c);
      Regroup(c, plan);
      NothingLeftToPlan(naming, before, plan);
      PlanIsExact(naming, c.Snapshot(), []);
      var left := Plan(c);
      PlannedRowDisagrees(naming, c.Snapshot(), left);
      committed := left == [];
    }
  }

  lemma PlannedRowDisagrees(naming: Naming, db: Db, plan: seq<Change>)
    requires IsPlan(naming, db, plan)
    ensures plan != [] ==> exists p :: p in db.products && Resigned(naming, db.products[p]).Some?
  {
    if plan != [] {
      assert Resigned(naming, db.products[plan[0].id]).Some?;
    }
  }
}
