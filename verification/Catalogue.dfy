/** The live tables. One method is one SQL statement of the repairs; a constraint the database
    would enforce by raising is a precondition, so a caller that verifies can never raise it. */
module LiveCatalogue {
  import opened Facts
  import opened Tables

  // ----- what single statements compute -----

  /** `UPDATE … SET "productId" = survivor … AND NOT EXISTS (an entry the user already has)`. */
  function RepointUnheld(entries: set<Entry>, loser: Id, survivor: Id): set<Entry> {
    set e | e in entries ::
      if e.product == loser && Entry(e.user, survivor) !in entries then Entry(e.user, survivor) else e
  }

  function DropEntries(entries: set<Entry>, product: Id): set<Entry> {
    set e | e in entries && e.product != product
  }

  /** `INSERT … SELECT … ON CONFLICT DO UPDATE SET source = CASE …`; the loser's own tags stay. */
  function UpsertFlavors(flavors: map<Tag, FlavorSource>, loser: Id, survivor: Id): map<Tag, FlavorSource> {
    flavors + map t | t in (set u | u in flavors.Keys && u.product == loser :: Tag(survivor, u.flavor)) ::
      if t in flavors then BetterTag(flavors[t], flavors[Tag(loser, t.flavor)]) else flavors[Tag(loser, t.flavor)]
  }

  /** `INSERT … SELECT … ON CONFLICT DO NOTHING`. */
  function CopyFlavors(flavors: map<Tag, FlavorSource>, loser: Id, survivor: Id): map<Tag, FlavorSource> {
    (map t | t in (set u | u in flavors.Keys && u.product == loser :: Tag(survivor, u.flavor)) ::
      flavors[Tag(loser, t.flavor)]) + flavors
  }

  /** `INSERT … SELECT … ON CONFLICT DO UPDATE SET "seenCount" = …`; the loser's own rows stay. */
  function UpsertConflicts(conflicts: map<ConflictKey, Conflict>, loser: Id, survivor: Id): map<ConflictKey, Conflict> {
    conflicts + map k | k in (set u | u in conflicts.Keys && u.product == loser :: AtProduct(u, survivor)) ::
      if k in conflicts
        then JoinConflicts(conflicts[k], conflicts[AtProduct(k, loser)]) else conflicts[AtProduct(k, loser)]
  }

  ghost predicate Carries(products: map<Id, Product>, p: Id, key: string) {
    p in products && products[p].matchKey == Some(key)
  }

  ghost function Holder(products: map<Id, Product>, key: string): (holder: Option<Id>)
    ensures holder.Some? ==> Carries(products, holder.value, key)
    ensures holder.None? ==> forall p :: !Carries(products, p, key)
  {
    if exists p :: Carries(products, p, key) then
      var p :| Carries(products, p, key);
      Some(p)
    else None
  }

  /** The offers and the lists of a bottling follow it; the emptied row and its tags stay. */
  function FoldOnto(db: Db, source: Id, target: Id): Db {
    db.(offers := MoveOffers(db.offers, source, target),
        flavors := CopyFlavors(db.flavors, source, target),
        favorites := RepointUnheld(db.favorites, source, target),
        blacklist := RepointUnheld(db.blacklist, source, target))
  }

  function DropConflicts(conflicts: map<ConflictKey, Conflict>, product: Id): map<ConflictKey, Conflict> {
    map k | k in conflicts && k.product != product :: conflicts[k]
  }

  function DropAliasesOf(aliases: map<string, Id>, product: Id): map<string, Id> {
    map k | k in aliases && aliases[k] != product :: aliases[k]
  }

  /** Each user with an entry for either bottling has one for the survivor, and one left for the other exactly if there
      were two; no other entry changes. */
  ghost predicate Repointed(before: set<Entry>, loser: Id, survivor: Id, next: set<Entry>) {
    && (forall user ::
         Entry(user, survivor) in next <==> Entry(user, survivor) in before || Entry(user, loser) in before)
    && (loser != survivor ==> forall user ::
         Entry(user, loser) in next <==> Entry(user, survivor) in before && Entry(user, loser) in before)
    && (forall e: Entry :: e.product != loser && e.product != survivor ==> (e in next <==> e in before))
  }

  lemma RepointedExactly(entries: set<Entry>, loser: Id, survivor: Id)
    ensures Repointed(entries, loser, survivor, RepointUnheld(entries, loser, survivor))
  {
    var next := RepointUnheld(entries, loser, survivor);
    forall user
      ensures Entry(user, survivor) in next <==> Entry(user, survivor) in entries || Entry(user, loser) in entries
    {
      if Entry(user, survivor) in entries {
        assert Entry(user, survivor) in next;
      } else if Entry(user, loser) in entries {
        assert Entry(user, survivor) in next;
      }
    }
  }

  /** The survivor gains the loser's tags it lacked, from the same source; every tag there was stays as it was. */
  ghost predicate Copied(before: map<Tag, FlavorSource>, loser: Id, survivor: Id, next: map<Tag, FlavorSource>) {
    && (forall t :: t in before ==> t in next && next[t] == before[t])
    && (forall t :: t in next && t !in before <==>
         t !in before && t.product == survivor && Tag(loser, t.flavor) in before)
    && (forall t :: t in next && t !in before ==> next[t] == before[Tag(loser, t.flavor)])
  }

  lemma CopiedExactly(flavors: map<Tag, FlavorSource>, loser: Id, survivor: Id)
    ensures Copied(flavors, loser, survivor, CopyFlavors(flavors, loser, survivor))
  {
  }

  lemma RepointThenDrop(entries: set<Entry>, loser: Id, survivor: Id)
    requires loser != survivor
    ensures DropEntries(RepointUnheld(entries, loser, survivor), loser) == MoveEntries(entries, loser, survivor)
  {
    var moved := RepointUnheld(entries, loser, survivor);
    forall e | e in MoveEntries(entries, loser, survivor)
      ensures e in DropEntries(moved, loser)
    {
      var d :| d in entries && e == Entry(d.user, Rename(d.product, loser, survivor));
      if d.product == loser && e in entries {
        assert e in moved;
      }
    }
  }

  lemma UpsertThenDropFlavors(flavors: map<Tag, FlavorSource>, loser: Id, survivor: Id)
    requires loser != survivor
    ensures DropFlavors(UpsertFlavors(flavors, loser, survivor), loser) == MoveFlavors(flavors, loser, survivor)
  {
    var left, right := DropFlavors(UpsertFlavors(flavors, loser, survivor), loser),
      MoveFlavors(flavors, loser, survivor);
    forall t
      ensures t in left <==> t in right
    {
      if t in right {
        var u :| u in flavors.Keys && t == Tag(Rename(u.product, loser, survivor), u.flavor);
      }
      if t in flavors {
        assert Tag(Rename(t.product, loser, survivor), t.flavor) in right;
      }
    }
  }

  lemma UpsertThenDropConflicts(conflicts: map<ConflictKey, Conflict>, loser: Id, survivor: Id)
    requires loser != survivor
    ensures DropConflicts(UpsertConflicts(conflicts, loser, survivor), loser)
      == MoveConflicts(conflicts, loser, survivor)
  {
    var left, right := DropConflicts(UpsertConflicts(conflicts, loser, survivor), loser),
      MoveConflicts(conflicts, loser, survivor);
    forall k
      ensures k in left <==> k in right
    {
      if k in right {
        var u :| u in conflicts.Keys && k == AtProduct(u, Rename(u.product, loser, survivor));
      }
      if k in conflicts {
        assert AtProduct(k, Rename(k.product, loser, survivor)) in right;
      }
    }
  }

  // ----- the tables in place -----

  class Catalogue {
    var products: map<Id, Product>
    var offers: map<OfferId, Offer>
    var favorites: set<Entry>
    var blacklist: set<Entry>
    var collections: map<CollectionId, Entry>
    var purchases: map<PurchaseId, CollectionId>
    var flavors: map<Tag, FlavorSource>
    var conflicts: map<ConflictKey, Conflict>
    var aliases: map<string, Id>
    var nextId: Id

    constructor (db: Db)
      ensures Snapshot() == db
    {
      products, offers := db.products, db.offers;
      favorites, blacklist := db.favorites, db.blacklist;
      collections, purchases := db.collections, db.purchases;
      flavors, conflicts, aliases := db.flavors, db.conflicts, db.aliases;
      nextId := db.nextId;
    }

    function Snapshot(): Db
      reads this
    {
      Db(products, offers, favorites, blacklist, collections, purchases, flavors, conflicts, aliases, nextId)
    }

    /** Rolls the transaction back. */
    method Restore(db: Db)
      modifies this
      ensures Snapshot() == db
    {
      products, offers := db.products, db.offers;
      favorites, blacklist := db.favorites, db.blacklist;
      collections, purchases := db.collections, db.purchases;
      flavors, conflicts, aliases := db.flavors, db.conflicts, db.aliases;
      nextId := db.nextId;
    }

    /** `SELECT id FROM product WHERE "matchKey" = $1`. */
    method FindByKey(key: string) returns (holder: Option<Id>)
      ensures holder.Some? ==> holder.value in products && products[holder.value].matchKey == Some(key)
      ensures holder.None? ==> forall p :: p in products ==> products[p].matchKey != Some(key)
    {
      var holders := set p | p in products && products[p].matchKey == Some(key);
      if holders == {} {
        assert forall p :: p in products && products[p].matchKey == Some(key) ==> p in holders;
        return None;
      }
      var p := PickOne(holders);
      return Some(p);
    }

    method SetKey(product: Id, key: Option<string>)
      requires product in products
      requires forall p :: p in products && p != product && key.Some? ==> products[p].matchKey != key  // unique index
      modifies this`products
      ensures products == old(products)[product := old(products)[product].(matchKey := key)]
    {
      products := products[product := products[product].(matchKey := key)];
    }

    method UpdateOffers(loser: Id, survivor: Id) returns (moved: nat)
      modifies this`offers
      ensures offers == MoveOffers(old(offers), loser, survivor)
      ensures moved == |set o | o in old(offers) && old(offers)[o].product == loser|
    {
      moved := |set o | o in offers && offers[o].product == loser|;
      offers := MoveOffers(offers, loser, survivor);
    }

    /** `DELETE FROM product`: restricted by offers and collection rows, cascading to everything else. */
    method DeleteProduct(product: Id)
      requires forall o :: o in offers ==> offers[o].product != product        // ON DELETE RESTRICT
      requires forall c :: c in collections ==> collections[c].product != product  // ON DELETE RESTRICT
      modifies this`products, this`favorites, this`blacklist, this`flavors, this`conflicts, this`aliases
      ensures products == old(products) - {product}
      ensures favorites == DropEntries(old(favorites), product) && blacklist == DropEntries(old(blacklist), product)
      ensures flavors == DropFlavors(old(flavors), product) && conflicts == DropConflicts(old(conflicts), product)
      ensures aliases == DropAliasesOf(old(aliases), product)
    {
      products := products - {product};
      favorites := DropEntries(favorites, product);
      blacklist := DropEntries(blacklist, product);
      flavors := DropFlavors(flavors, product);
      conflicts := DropConflicts(conflicts, product);
      aliases := DropAliasesOf(aliases, product);
    }

    /** The earliest created bottling among the candidates, ids breaking ties. */
    method Earliest(candidates: set<Id>) returns (first: Id)
      requires candidates != {} && candidates <= products.Keys
      ensures first in candidates
      ensures forall p :: p in candidates ==>
        products[first].createdAt < products[p].createdAt
          || (products[first].createdAt == products[p].createdAt && first <= p)
    {
      first := PickOne(candidates);
      var rest := candidates - {first};
      while rest != {}
        invariant rest <= candidates && first in candidates
        invariant forall p :: p in candidates - rest ==>
          products[first].createdAt < products[p].createdAt
            || (products[first].createdAt == products[p].createdAt && first <= p)
        decreases |rest|
      {
        var p := PickOne(rest);
        if products[p].createdAt < products[first].createdAt
          || (products[p].createdAt == products[first].createdAt && p < first) {
          first := p;
        }
        rest := rest - {p};
      }
    }
  }
}
