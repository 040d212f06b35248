/** The catalogue's tables as values, the statements one merge runs over them, and what a snapshot must satisfy. */
module Tables {
  import opened Facts

  type Id = int
  type UserId = int
  type OfferId = int
  type CollectionId = int
  type PurchaseId = int

  /** A display name with what the identity expression and the token fold read from it. */
  datatype DisplayName = DisplayName(text: string, identity: string, words: set<string>)

  /** Who made a bottling; the three columns move together. */
  datatype Maker = Maker(producerId: Option<int>, bottlerId: Option<int>, source: Option<Source>)

  datatype Product = Product(
    matchKey: Option<string>,
    name: Fact<DisplayName>,
    age: Fact<int>,
    volumeMl: Fact<int>,
    abv: Fact<int>,
    typeId: Fact<int>,
    countryId: Fact<int>,
    maker: Maker,
    brandOrig: Option<string>,
    lastLlmFlavorAt: Option<int>,
    flavorsCuratedAt: Option<int>,
    createdAt: int)

  /** An age a listing's raw name can state. */
  type Age = n: int | 1 <= n <= 60 witness 1

  /** A store offer with the age its raw name states; no statement ever rewrites the raw name. */
  datatype Offer = Offer(product: Id, inStock: bool, stated: Option<Age>)

  /** A user's pair with a bottling: a favourite, a blacklist entry or a collection row. */
  datatype Entry = Entry(user: UserId, product: Id)

  datatype FlavorSource = ManualTag | KbTag | LlmTag | ScrapeTag | OtherTag

  datatype Tag = Tag(product: Id, flavor: int)

  datatype ConflictKey = ConflictKey(product: Id, store: int, attribute: string)

  datatype Claim = Claim(stored: Option<string>, claimed: Option<string>, source: Option<Source>,
    resolvedAt: Option<int>)

  datatype Conflict = Conflict(claim: Claim, seenCount: int, firstSeenAt: int, lastSeenAt: int)

  /** A snapshot of every table, and the generator of the next, always larger, row id. */
  datatype Db = Db(
    products: map<Id, Product>,
    offers: map<OfferId, Offer>,
    favorites: set<Entry>,
    blacklist: set<Entry>,
    collections: map<CollectionId, Entry>,
    purchases: map<PurchaseId, CollectionId>,
    flavors: map<Tag, FlavorSource>,
    conflicts: map<ConflictKey, Conflict>,
    aliases: map<string, Id>,
    nextId: Id)

  // ----- one row into another -----

  function Rename(product: Id, loser: Id, survivor: Id): Id {
    if product == loser then survivor else product
  }

  function Coalesce<T>(first: Option<T>, second: Option<T>): Option<T> {
    if first.Some? then first else second
  }

  function Greatest(left: Option<int>, right: Option<int>): Option<int> {
    if left.None? then right
    else if right.None? then left
    else if left.value < right.value then right else left
  }

  predicate MakerWins(kept: Maker, lost: Maker) {
    && kept.source != Some(Manual)
    && (lost.source == Some(Manual) || (kept.producerId.None? && lost.producerId.Some?))
  }

  /** The facts of a kept row after the vanishing row's were folded in; the key is not a fact. */
  function MergeFacts(kept: Product, lost: Product): Product {
    Product(
      kept.matchKey,
      PickDecided(kept.name, lost.name),
      PickDecided(kept.age, lost.age),
      PickDecided(kept.volumeMl, lost.volumeMl),
      PickTrusted(kept.abv, lost.abv),
      PickTrusted(kept.typeId, lost.typeId),
      PickTrusted(kept.countryId, lost.countryId),
      if MakerWins(kept.maker, lost.maker) then lost.maker else kept.maker,
      Coalesce(kept.brandOrig, lost.brandOrig),
      Greatest(kept.lastLlmFlavorAt, lost.lastLlmFlavorAt),
      Greatest(kept.flavorsCuratedAt, lost.flavorsCuratedAt),
      kept.createdAt)
  }

  /** The survivor's whole row after a merge: the facts, and the loser's key when it had none. */
  function MergeRow(kept: Product, lost: Product): Product {
    MergeFacts(kept, lost).(matchKey := Coalesce(kept.matchKey, lost.matchKey))
  }

  function MoveOffers(offers: map<OfferId, Offer>, loser: Id, survivor: Id): map<OfferId, Offer> {
    map o | o in offers :: offers[o].(product := Rename(offers[o].product, loser, survivor))
  }

  /** The entries with the vanishing bottling read as the kept one. */
  function MoveEntries(entries: set<Entry>, loser: Id, survivor: Id): set<Entry> {
    set e | e in entries :: Entry(e.user, Rename(e.product, loser, survivor))
  }

  predicate Holds(collections: map<CollectionId, Entry>, user: UserId, product: Id) {
    exists c :: c in collections && collections[c] == Entry(user, product)
  }

  /** A collection row of the loser whose user already holds the survivor. */
  predicate Doubled(collections: map<CollectionId, Entry>, c: CollectionId, loser: Id, survivor: Id) {
    c in collections && collections[c].product == loser && Holds(collections, collections[c].user, survivor)
  }

  function MoveCollections(collections: map<CollectionId, Entry>, loser: Id, survivor: Id): map<CollectionId, Entry> {
    map c | c in collections && !Doubled(collections, c, loser, survivor) ::
      Entry(collections[c].user, Rename(collections[c].product, loser, survivor))
  }

  /** No user holds one bottling twice. */
  ghost predicate UniqueEntries(collections: map<CollectionId, Entry>) {
    forall c, d :: c in collections && d in collections && c != d ==> collections[c] != collections[d]
  }

  /** The one row in which a user holds a bottling. */
  function RowHolding(collections: map<CollectionId, Entry>, user: UserId, product: Id): (c: CollectionId)
    requires UniqueEntries(collections) && Holds(collections, user, product)
    ensures c in collections && collections[c] == Entry(user, product)
  {
    var c :| c in collections && collections[c] == Entry(user, product);
    c
  }

  function MovePurchases(collections: map<CollectionId, Entry>, purchases: map<PurchaseId, CollectionId>, loser: Id,
                         survivor: Id)
    : map<PurchaseId, CollectionId>
    requires UniqueEntries(collections)
  {
    map p | p in purchases ::
      if Doubled(collections, purchases[p], loser, survivor)
      then RowHolding(collections, collections[purchases[p]].user, survivor)
      else purchases[p]
  }

  function TagRank(source: FlavorSource): nat {
    match source
    case ManualTag => 40
    case KbTag => 30
    case LlmTag => 20
    case ScrapeTag => 10
    case OtherTag => 0
  }

  function BetterTag(kept: FlavorSource, lost: FlavorSource): FlavorSource {
    if TagRank(lost) > TagRank(kept) then lost else kept
  }

  /** Every tag of the two rows under the survivor, one both carry under the better source. */
  function MoveFlavors(flavors: map<Tag, FlavorSource>, loser: Id, survivor: Id): map<Tag, FlavorSource> {
    map t | t in (set u | u in flavors.Keys :: Tag(Rename(u.product, loser, survivor), u.flavor)) ::
      if t.product == survivor && Tag(loser, t.flavor) in flavors
      then if t in flavors then BetterTag(flavors[t], flavors[Tag(loser, t.flavor)]) else flavors[Tag(loser, t.flavor)]
      else flavors[t]
  }

  function DropFlavors(flavors: map<Tag, FlavorSource>, product: Id): map<Tag, FlavorSource> {
    map t | t in flavors && t.product != product :: flavors[t]
  }

  function JoinConflicts(kept: Conflict, lost: Conflict): Conflict {
    Conflict(
      kept.claim,
      kept.seenCount + lost.seenCount,
      if lost.firstSeenAt < kept.firstSeenAt then lost.firstSeenAt else kept.firstSeenAt,
      if kept.lastSeenAt < lost.lastSeenAt then lost.lastSeenAt else kept.lastSeenAt)
  }

  function AtProduct(key: ConflictKey, product: Id): ConflictKey {
    ConflictKey(product, key.store, key.attribute)
  }

  function MoveConflicts(conflicts: map<ConflictKey, Conflict>, loser: Id, survivor: Id): map<ConflictKey, Conflict> {
    map k | k in (set u | u in conflicts.Keys :: AtProduct(u, Rename(u.product, loser, survivor))) ::
      if k.product == survivor && AtProduct(k, loser) in conflicts
      then if k in conflicts
        then JoinConflicts(conflicts[k], conflicts[AtProduct(k, loser)]) else conflicts[AtProduct(k, loser)]
      else conflicts[k]
  }

  function MoveAliases(aliases: map<string, Id>, loser: Id, survivor: Id): map<string, Id> {
    map k | k in aliases :: Rename(aliases[k], loser, survivor)
  }

  /** The aliases after the loser's own key was retired, unless the survivor adopted it. */
  function RetireInto(aliases: map<string, Id>, lost: Product, kept: Product, survivor: Id): map<string, Id> {
    if lost.matchKey.Some? && kept.matchKey.Some? then aliases[lost.matchKey.value := survivor] else aliases
  }

  /** A whole merge of two distinct live rows. */
  function MergeInto(db: Db, loser: Id, survivor: Id): Db
    requires loser in db.products && survivor in db.products && loser != survivor
    requires UniqueEntries(db.collections)
  {
    var lost, kept := db.products[loser], db.products[survivor];
    Db(
      (db.products - {loser})[survivor := MergeRow(kept, lost)],
      MoveOffers(db.offers, loser, survivor),
      MoveEntries(db.favorites, loser, survivor),
      MoveEntries(db.blacklist, loser, survivor),
      MoveCollections(db.collections, loser, survivor),
      MovePurchases(db.collections, db.purchases, loser, survivor),
      MoveFlavors(if ResetsTags(kept, lost) then DropFlavors(db.flavors, survivor) else db.flavors, loser, survivor),
      MoveConflicts(db.conflicts, loser, survivor),
      RetireInto(MoveAliases(db.aliases, loser, survivor), lost, kept, survivor),
      db.nextId)
  }

  /** Curated tags replace uncurated ones. */
  predicate ResetsTags(kept: Product, lost: Product) {
    lost.flavorsCuratedAt.Some? && kept.flavorsCuratedAt.None?
  }

  // ----- what every snapshot satisfies -----

  /** The unique index on the key. */
  ghost predicate UniqueKeys(products: map<Id, Product>) {
    forall p, q :: p in products && q in products && p != q && products[p].matchKey.Some?
      ==> products[p].matchKey != products[q].matchKey
  }

  ghost predicate OffersLive(offers: map<OfferId, Offer>, live: set<Id>) {
    forall o :: o in offers ==> offers[o].product in live
  }

  ghost predicate EntriesLive(entries: set<Entry>, live: set<Id>) {
    forall e :: e in entries ==> e.product in live
  }

  ghost predicate CollectionsLive(collections: map<CollectionId, Entry>, live: set<Id>) {
    forall c :: c in collections ==> collections[c].product in live
  }

  ghost predicate PurchasesLive(purchases: map<PurchaseId, CollectionId>, collections: map<CollectionId, Entry>) {
    forall p :: p in purchases ==> purchases[p] in collections
  }

  ghost predicate TagsLive(flavors: map<Tag, FlavorSource>, live: set<Id>) {
    forall t :: t in flavors ==> t.product in live
  }

  ghost predicate ConflictsLive(conflicts: map<ConflictKey, Conflict>, live: set<Id>) {
    forall k :: k in conflicts ==> k.product in live
  }

  ghost predicate AliasesLive(aliases: map<string, Id>, live: set<Id>) {
    forall k :: k in aliases ==> aliases[k] in live
  }

  /** Every foreign key resolves, and the id generator is ahead of every row. */
  ghost predicate Referential(db: Db) {
    && OffersLive(db.offers, db.products.Keys)
    && EntriesLive(db.favorites, db.products.Keys)
    && EntriesLive(db.blacklist, db.products.Keys)
    && CollectionsLive(db.collections, db.products.Keys)
    && PurchasesLive(db.purchases, db.collections)
    && TagsLive(db.flavors, db.products.Keys)
    && ConflictsLive(db.conflicts, db.products.Keys)
    && AliasesLive(db.aliases, db.products.Keys)
    && (forall p :: p in db.products ==> p < db.nextId)
  }

  /** What the schema enforces after every statement. */
  ghost predicate Sound(db: Db) {
    Referential(db) && UniqueKeys(db.products) && UniqueEntries(db.collections)
  }

  /** No retired key is also a live one. */
  ghost predicate ClashFree(db: Db) {
    forall p :: p in db.products && db.products[p].matchKey.Some? ==> db.products[p].matchKey.value !in db.aliases
  }

  /** The bottling a key lands on: the retired keys are consulted ahead of the live ones. */
  ghost predicate Answers(db: Db, key: string, product: Id) {
    if key in db.aliases then db.aliases[key] == product
    else product in db.products && db.products[product].matchKey == Some(key)
  }

  /** The (user, bottling) pairs of the collection table. */
  ghost function Held(db: Db): set<Entry> {
    set c | c in db.collections :: db.collections[c]
  }

  /** Whose purchase it is, and of which bottling. */
  ghost function EntryOf(db: Db, purchase: PurchaseId): Entry
    requires purchase in db.purchases && db.purchases[purchase] in db.collections
  {
    db.collections[db.purchases[purchase]]
  }

  // ----- what one merge keeps -----

  lemma MergeKeepsUniqueKeys(db: Db, loser: Id, survivor: Id)
    requires UniqueKeys(db.products) && loser in db.products && survivor in db.products && loser != survivor
    requires UniqueEntries(db.collections)
    ensures UniqueKeys(MergeInto(db, loser, survivor).products)
  {
  }

  lemma MoveKeepsUniqueEntries(collections: map<CollectionId, Entry>, loser: Id, survivor: Id)
    requires UniqueEntries(collections)
    ensures UniqueEntries(MoveCollections(collections, loser, survivor))
  {
    var next := MoveCollections(collections, loser, survivor);
    forall c, d | c in next && d in next && c != d
      ensures next[c] != next[d]
    {
      assert !Doubled(collections, c, loser, survivor) && !Doubled(collections, d, loser, survivor);
      assert collections[c] != collections[d];
    }
  }

  /** A moved purchase still names a collection row that was kept. */
  lemma MoveKeepsPurchases(collections: map<CollectionId, Entry>, c: CollectionId, loser: Id, survivor: Id)
    requires UniqueEntries(collections) && c in collections && loser != survivor
    ensures Doubled(collections, c, loser, survivor) ==>
      RowHolding(collections, collections[c].user, survivor) in MoveCollections(collections, loser, survivor)
  {
  }

  lemma MoveKeepsReferences(db: Db, loser: Id, survivor: Id)
    requires Referential(db) && survivor in db.products && loser != survivor && UniqueEntries(db.collections)
    ensures var live := db.products.Keys - {loser};
      && OffersLive(MoveOffers(db.offers, loser, survivor), live)
      && EntriesLive(MoveEntries(db.favorites, loser, survivor), live)
      && EntriesLive(MoveEntries(db.blacklist, loser, survivor), live)
      && CollectionsLive(MoveCollections(db.collections, loser, survivor), live)
      && AliasesLive(MoveAliases(db.aliases, loser, survivor), live)
      && ConflictsLive(MoveConflicts(db.conflicts, loser, survivor), live)
  {
  }

  lemma MoveKeepsTagsLive(flavors: map<Tag, FlavorSource>, live: set<Id>, loser: Id, survivor: Id)
    requires TagsLive(flavors, live) && survivor in live && loser != survivor
    ensures TagsLive(MoveFlavors(flavors, loser, survivor), live - {loser})
  {
  }

  lemma MoveKeepsPurchasesLive(db: Db, loser: Id, survivor: Id)
    requires UniqueEntries(db.collections) && PurchasesLive(db.purchases, db.collections) && loser != survivor
    ensures PurchasesLive(MovePurchases(db.collections, db.purchases, loser, survivor),
      MoveCollections(db.collections, loser, survivor))
  {
    forall p | p in db.purchases
      ensures MovePurchases(db.collections, db.purchases, loser, survivor)[p]
        in MoveCollections(db.collections, loser, survivor)
    {
      MoveKeepsPurchases(db.collections, db.purchases[p], loser, survivor);
    }
  }

  /** No foreign key dangles, no key and no holding is doubled: the constraints hold again after a merge. */
  lemma MergeKeepsSound(db: Db, loser: Id, survivor: Id)
    requires Sound(db) && loser in db.products && survivor in db.products && loser != survivor
    ensures Sound(MergeInto(db, loser, survivor))
  {
    var next := MergeInto(db, loser, survivor);
    assert next.products.Keys == db.products.Keys - {loser};
    MergeKeepsUniqueKeys(db, loser, survivor);
    MoveKeepsUniqueEntries(db.collections, loser, survivor);
    MoveKeepsReferences(db, loser, survivor);
    MoveKeepsPurchasesLive(db, loser, survivor);
    MoveKeepsTagsLive(if ResetsTags(db.products[survivor], db.products[loser])
      then DropFlavors(db.flavors, survivor) else db.flavors,
      db.products.Keys, loser, survivor);
  }

  /** Each user's pairs are renamed, none is lost and none invented. */
  lemma MergeMovesHoldings(db: Db, loser: Id, survivor: Id)
    requires Sound(db) && loser in db.products && survivor in db.products && loser != survivor
    ensures Held(MergeInto(db, loser, survivor)) == MoveEntries(Held(db), loser, survivor)
  {
    var next := MergeInto(db, loser, survivor);
    forall e | e in MoveEntries(Held(db), loser, survivor)
      ensures e in Held(next)
    {
      var c :| c in db.collections
        && e == Entry(db.collections[c].user, Rename(db.collections[c].product, loser, survivor));
      if Doubled(db.collections, c, loser, survivor) {
        var k := RowHolding(db.collections, db.collections[c].user, survivor);
        assert k in next.collections && next.collections[k] == e;
      } else {
        assert c in next.collections && next.collections[c] == e;
      }
    }
  }

  /** Each purchase keeps its owner and follows its bottling. */
  lemma MergeMovesPurchases(db: Db, loser: Id, survivor: Id, purchase: PurchaseId)
    requires Sound(db) && loser in db.products && survivor in db.products && loser != survivor
    requires purchase in db.purchases
    ensures var next := MergeInto(db, loser, survivor);
      && purchase in next.purchases && next.purchases[purchase] in next.collections
      && EntryOf(next, purchase)
         == Entry(EntryOf(db, purchase).user, Rename(EntryOf(db, purchase).product, loser, survivor))
  {
  }

  lemma MergeKeepsClashFree(db: Db, loser: Id, survivor: Id)
    requires Sound(db) && ClashFree(db) && loser in db.products && survivor in db.products && loser != survivor
    ensures ClashFree(MergeInto(db, loser, survivor))
  {
  }

  /** Every key lands where it landed before, with the vanishing row read as the kept one. */
  lemma MergeKeepsAnswers(db: Db, loser: Id, survivor: Id, key: string, product: Id)
    requires Sound(db) && ClashFree(db) && loser in db.products && survivor in db.products && loser != survivor
    ensures Answers(MergeInto(db, loser, survivor), key, product)
      <==> exists p :: Answers(db, key, p) && product == Rename(p, loser, survivor)
  {
    if key in db.aliases {
      MergeKeepsAliasAnswer(db, loser, survivor, key);
      assert Answers(db, key, db.aliases[key]);
    } else {
      MergeKeepsLiveAnswer(db, loser, survivor, key, product);
      if Answers(MergeInto(db, loser, survivor), key, product) {
        var p := if db.products[loser].matchKey == Some(key) then loser else product;
        assert Answers(db, key, p);
      }
    }
  }

  lemma MergeKeepsAliasAnswer(db: Db, loser: Id, survivor: Id, key: string)
    requires ClashFree(db) && loser in db.products && survivor in db.products && loser != survivor
    requires UniqueEntries(db.collections) && key in db.aliases
    ensures var next := MergeInto(db, loser, survivor);
      key in next.aliases && next.aliases[key] == Rename(db.aliases[key], loser, survivor)
  {
  }

  lemma MergeKeepsLiveAnswer(db: Db, loser: Id, survivor: Id, key: string, product: Id)
    requires UniqueKeys(db.products) && UniqueEntries(db.collections)
    requires loser in db.products && survivor in db.products && loser != survivor && key !in db.aliases
    ensures Answers(MergeInto(db, loser, survivor), key, product) <==>
      if db.products[loser].matchKey == Some(key) then product == survivor
      else product in db.products && product != loser && db.products[product].matchKey == Some(key)
  {
  }
}
