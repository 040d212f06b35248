# Catalogue repairs, name settlement, knowledge-base merge and load ladder

A Dafny model of the parts of the whisky catalogue that rewrite data in bulk and must not lose any of it, with
proofs of what every run keeps. `dafny verify dfyconfig.toml` checks all of it.

**Three repairs of one catalogue.** `Catalogue.dfy` holds the live tables as a class whose methods are single SQL
statements; `Tables.dfy` is the same state as a value, with one merge as a function on it.

- *Duplicate merge* (`Facts`, `MergeRun`, `GroupFold`, `DuplicatePasses`, `DuplicateEffects`, `DuplicateMerge`). A run
  is the log of its steps: folds, cleared facts, forgotten keys. `MergeRun` proves what any log keeps: user lists are
  exact images, keys follow, conflicts are conserved. `GroupFold` proves what one ranked group becomes, by column.
  `DuplicatePasses` says which log each pass appends, and `DuplicateEffects` what that comes to in the tables: which row
  a group keeps, which rows it takes in, what a curated correction and the sweep leave. The class `DuplicateMerge` runs
  the passes over the live tables.
- *Age regroup* (`MatchKey`, `AgeRun`, `AgeTheorems`, `AgeOrders`, `AgeAgain`, `AgeRows`, `AgeRegroup`). Groups are
  loaded once and handled in any order while their own steps move offers between the bottlings later groups stand for.
  The abort at the end is characterised exactly, for every order together and for each one given, a second run is shown
  to be idle under a condition on the start, and `AgeRows` says what each row ends as and what a new one is made of.
- *Brand regroup* (`BrandRun`, `BrandPlan`, `BrandRegroup`). Keys are re-signed from a plan, each target looked up in
  the live table. Signature, canonicalisation and resolver are arbitrary functions; which rows are planned is exact.

**Name settlement** (`NameSettlement`, `NameRuns`, `StoreRuns`). Provenance tags come off where the catalogue attests
the shorter name, then each spelling group takes its most listed spelling. The result is independent of row order, and
without a context the two passes are idempotent on names. (The script run again starts from the shops' raw texts, so it
repeats the same passes on the same names.) `StoreRuns` compares a one-store run with the catalogue-wide run before it.

**Knowledge-base merge** (`KnowledgeBase`, `KbAliases`, `KbMerge`, `KbSeed`, `SeedTsv`). Agents' rows are folded,
scored, corrected, pruned and deduplicated in place. The output is closed under its references, `KbSeed` says exactly
which rows are in it, and the printed producer file is undone by the importer.

**Load ladder** (`LoadLadder`). The load script drops every count not above zero, lays the rest out as a schedule and
searches it for the step of an instant; the observer's summary divides, over the whole list. The two are compared at
every instant.

Where a promise fails, the condition is exact and a case is given:

- no twins after the duplicate merge: `GroupFold.BarcodeGroupTwins`, exact for a group, which `DuplicateMerge.Up` traces
  over a whole run, case `Witnesses.BarcodePassAborts`;
- no bottling of two ages after the age regroup: `AgeTheorems.AbortsOnlyByClash` and `AgeOrders.MixesExactly`, case
  `Witnesses.AgeRepairAborts`;
- a retired key still answers: `MergeRun.ForgettingAKey`;
- a one-store run does not undo a catalogue-wide run, as `scripts/clean-product-names.ts:347-353` and
  `src/core/product/product.repository.ts:1720-1723` have it: `StoreRuns.StoreRunUndoesNothing`, case
  `StoreRunWitness.StoreRunUndoesTheWideRun`;
- merged rules meet the table's constraint: `KbMergeRun.SeedRulesMeetCheck`, case `KbMergeRun.PeatRuleNamingAFlavor`;
- the summary names the step the load script was in: `LoadLadder.SameStep` and `LoadLadder.PlateauThroughout`, case
  `LoadLadder.DroppedZero`.

Where code and documentation disagree the model follows the code. `scripts/kb-merge.interfaces.ts:212-216` says both
sides of an alias collision are dropped; `scripts/kb-merge.ts:560-568` keeps the first target. `foldSlugs` follows one
hop (`scripts/kb-merge.ts:748-750`), so a slug folded into a retired one still names a retired one.

The schema facts assumed of every starting state are those of the tables: the unique match key
(`migrations/1786450000000-product-canonical-split.ts:417-418`), one collection row per user and bottling with
deletion restricted (`migrations/1788712477687-user-collection.ts:38-49`), aliases that cascade
(`migrations/1788723253818-product-match-alias.ts:19-38`), and foreign keys that resolve. In the age repair the stated
age of a listing is what the name reader extracts, a whole number from 1 to 60.

## Model

| member | source | states |
|---|---|---|
| `Facts.ManualIsAbsorbing` | migrations/1788723300000-product-duplicate-merge.ts:99-110 | a value a person set on the survivor, or the emptiness a person left there, is what the fold of any group ends with |
| `Facts.RankIsTrust` | migrations/1788723300000-product-duplicate-merge.ts:93-105 | the numbers the statements compare mean one order of trust: a person, the knowledge base, a shop's page, a name, a model, the legacy value, then anything else |
| `Facts.FoldIsBestStated` | migrations/1788723300000-product-duplicate-merge.ts:99-133 | folding a ranked group leaves the first of the best-sourced stated values, if and only if no person had cleared the fact on the survivor |
| `Facts.NothingStated` | migrations/1788723300000-product-duplicate-merge.ts:99-133 | where no row states a value, folding leaves the survivor's own emptiness and its source |
| `Facts.FoldNeverLosesTrust` | migrations/1788723300000-product-duplicate-merge.ts:99-133 | trust never falls along a fold: what a prefix of the group settled on is sourced at most as well as the end result |
| `Facts.FoldFindsFirstByHand` | migrations/1788723300000-product-duplicate-merge.ts:112-133 | name, age and volume end on the first value a person set anywhere in the group, else stay the survivor's |
| `Tables.MergeKeepsSound` | migrations/1788723300000-product-duplicate-merge.ts:833-877 | one merge keeps every foreign key, the unique match key and the unique (user, bottling) collection pair |
| `Tables.MergeMovesHoldings` | migrations/1788723300000-product-duplicate-merge.ts:921-951 | one merge renames each user's collection pairs, losing none and inventing none |
| `Tables.MergeMovesPurchases` | migrations/1788723300000-product-duplicate-merge.ts:921-951 | one merge leaves each purchase with its owner, on the image of its bottling |
| `Tables.MergeKeepsAnswers` | migrations/1788723300000-product-duplicate-merge.ts:963-996 | from a clash-free state a key answers, alias first and then live key, with the image of the bottling it answered with |
| `Tables.MergeKeepsClashFree` | migrations/1788723300000-product-duplicate-merge.ts:963-996 | a merge never makes a retired key a live one |
| `LiveCatalogue.RepointThenDrop` | migrations/1788723300000-product-duplicate-merge.ts:894-909 | the guarded re-point followed by the delete is exactly the renaming of the user list, however the users overlap |
| `LiveCatalogue.UpsertThenDropFlavors` | migrations/1788723300000-product-duplicate-merge.ts:173-183 | the flavour upsert plus the cascade of the delete moves every tag and keeps the better source of a doubled one |
| `LiveCatalogue.UpsertThenDropConflicts` | migrations/1788723300000-product-duplicate-merge.ts:185-198 | the conflict upsert plus the cascade sums counts and spans dates per store and attribute |
| `LiveCatalogue.RepointedExactly` | migrations/1788290342697-brand-canonical-regroup.ts:364-382 | after the guarded re-point alone each user with an entry for either bottling has one for the target, and one left for the source exactly if there were two |
| `LiveCatalogue.CopiedExactly` | migrations/1788290342697-brand-canonical-regroup.ts:357-362 | the copy gives the target exactly the source's tags it lacked, from the same sources, and changes no tag there was |
| `MergeRun.RedirectsAreTheGone` | migrations/1788723300000-product-duplicate-merge.ts:812-877 | over any run the redirect map's keys are exactly the rows folded away, and every starting row resolves to a live one |
| `MergeRun.RedirectHop` | migrations/1788723300000-product-duplicate-merge.ts:812-821 | following one redirect shortens the chain by one and does not change where it ends: the map is a forest |
| `MergeRun.UserListsAreImages` | migrations/1788723300000-product-duplicate-merge.ts:889-951 | after any chain of merges favourites, blacklist and collection pairs are exactly the image of their start under the redirects, pairs unique |
| `MergeRun.PurchasesKeepTheirOwner` | migrations/1788723300000-product-duplicate-merge.ts:921-951 | over any run no purchase is lost, each keeps its owner and lands on the image of its bottling |
| `MergeRun.CollectionRowsStay` | migrations/1788723300000-product-duplicate-merge.ts:921-951 | every collection row left is one of the start on its bottling's image, and where a user held both bottlings the row of the one not folded away stays |
| `MergeRun.OffersFollow` | migrations/1788723300000-product-duplicate-merge.ts:863-867 | over any run no offer is lost and each changes only in standing on the image of its bottling |
| `MergeRun.KeysFollow` | migrations/1788723300000-product-duplicate-merge.ts:963-996 | from a clash-free start retired keys stay apart from live ones, live keys stay unique, and every key not forgotten on purpose answers with exactly the images of what it answered |
| `MergeRun.ForgettingAKey` | migrations/1788723300000-product-duplicate-merge.ts:650-655 | after a fold that leaves no alias the loser's key answers with nothing, unless the survivor had no key and adopted it |
| `MergeRun.CurationSurvives` | migrations/1788723300000-product-duplicate-merge.ts:164 | the row a curated row is folded into is curated, over any run |
| `MergeRun.CurationHasAnOrigin` | migrations/1788723300000-product-duplicate-merge.ts:164 | curation at the end comes from a curated row of the start that resolves there |
| `MergeRun.TagsSurvive` | migrations/1788723300000-product-duplicate-merge.ts:853-860 | a tag is neither lost nor demoted over a run unless its row's image at some fold is an uncurated survivor taking in a curated loser |
| `MergeRun.CuratedIsNeverReset` | migrations/1788723300000-product-duplicate-merge.ts:853-860 | that never happens to a row that was curated, nor to one whose bottling takes in no curated row |
| `MergeRun.TagsHaveAnOrigin` | migrations/1788723300000-product-duplicate-merge.ts:173-183 | each tag at the end was carried, from that very source, by a row of the start that resolves to its bottling and was never reset |
| `MergeRun.TagsEndExactly` | migrations/1788723300000-product-duplicate-merge.ts:853-860 | over any run a bottling ends with a tag if and only if a row folded into it carried the tag and was never reset |
| `MergeRun.ConflictsAreConserved` | migrations/1788723300000-product-duplicate-merge.ts:185-198 | over any run a bottling's conflict row exists exactly when one of its origins had one, sums their sightings and spans their dates |
| `MergeRun.ClaimsStay` | migrations/1788723300000-product-duplicate-merge.ts:185-198 | a bottling never folded away keeps what its own conflict claimed, whatever is folded into it |
| `GroupFold.FoldGroupRows` | migrations/1788723300000-product-duplicate-merge.ts:770-788 | a live ranked group always folds: its later rows are gone, its first carries the fold of all of them, no other row changed |
| `GroupFold.FoldedFactsAreBest` | migrations/1788723300000-product-duplicate-merge.ts:146-168 | in the catalogue after a group, strength, type and country of the survivor are the best-sourced of the group exactly when nobody had cleared them |
| `GroupFold.FoldRowsKeyAndBrand` | migrations/1788723300000-product-duplicate-merge.ts:973-989 | the survivor ends with the first key the group's rows carry and, as line 162 has it, the first brand text they state |
| `GroupFold.FoldRowsMaker` | migrations/1788723300000-product-duplicate-merge.ts:135-161 | producer, bottler and their source come together from one row: the first whose maker a person set, else the first that names a producer, else the survivor |
| `GroupFold.FoldRowsStamps` | migrations/1788723300000-product-duplicate-merge.ts:163-164 | both flavour stamps end as the latest any row of the group carries, and the creation date is the survivor's |
| `GroupFold.FoldedRest` | migrations/1788723300000-product-duplicate-merge.ts:770-788 | in the catalogue after a group, the survivor's maker, stamps, key, brand text and creation date are just those |
| `GroupFold.SurvivorKeepsItsName` | migrations/1788723300000-product-duplicate-merge.ts:63-76 | because the ranking puts a person's name first, folding a group never changes the survivor's name |
| `GroupFold.IdentityGroupKeepsIdentities` | migrations/1788723300000-product-duplicate-merge.ts:666-682 | folding a group of one identity leaves every live row's identity as it was |
| `GroupFold.CompatibleIsEitherSubset` | migrations/1788723300000-product-duplicate-merge.ts:407-418 | the compatibility of two names is symmetric and holds exactly when either word set lies within the other, both non-empty |
| `GroupFold.BarcodeMergeTwins` | migrations/1788723300000-product-duplicate-merge.ts:691-728 | a barcode merge leaves no twins if and only if it does not move a person's age onto a name and volume already taken at that age |
| `GroupFold.BarcodeGroupKeepsIdentities` | migrations/1788723300000-product-duplicate-merge.ts:691-728 | a barcode group leaves every live row's identity as it was if and only if the first age a person set in it, if any, is the survivor's own |
| `GroupFold.BarcodeGroupTwins` | migrations/1788723300000-product-duplicate-merge.ts:691-728 | a whole barcode group makes twins if and only if it ends on a person's age other than the survivor's, at which a row outside the group carries the survivor's name and volume |
| `GroupFold.TwinsComeFromTakenAges` | migrations/1788723300000-product-duplicate-merge.ts:691-728 | in any catalogue without twins a barcode group makes some only at a fold that moves a person's age onto a name and volume taken at that age |
| `Witnesses.BarcodePassAborts` | migrations/1788723300000-product-duplicate-merge.ts:1062-1068 | a concrete catalogue with offers, two of its rows sharing a barcode, on which the repair's own log leaves twins that survive the sweep |
| `DuplicateEffects.RankedAsStated` | migrations/1788723300000-product-duplicate-merge.ts:60-78 | the rows of a group come by a name set by hand, then number of offers, then offers in stock, then holding a key, then creation, then id |
| `DuplicateEffects.IdentityGroupKeepsFirst` | migrations/1788723300000-product-duplicate-merge.ts:666-682 | an identity group keeps the first of its ranked rows, loses the others and touches no row outside it |
| `DuplicateEffects.PassFoldsOneWhisky` | migrations/1788723300000-product-duplicate-merge.ts:707-711 | whatever the barcode groups, every fold of their pass joins two live rows of one known volume whose names are one identity or one's significant words all among the other's |
| `DuplicateEffects.BarcodeGroupTakes` | migrations/1788723300000-product-duplicate-merge.ts:701-727 | a barcode group loses exactly those of its later ranked rows that are so alike to its first; its other rows, and all rows outside it, stay |
| `DuplicateEffects.CuratedFoldLeaves` | migrations/1788723300000-product-duplicate-merge.ts:609-658 | a curated correction removes the one row and changes no third; a cleared row adds no age or strength; its key answers with the survivor, or with nothing where its alias is not kept and the survivor had a key |
| `DuplicateEffects.SweptExactly` | migrations/1788723300000-product-duplicate-merge.ts:1004-1017 | the sweep leaves exactly the bottlings an offer, a collection, a favourite or a blacklist entry names, as they were, and touches nothing anyone owns |
| `DuplicatePasses.SweepKeeps` | migrations/1788723300000-product-duplicate-merge.ts:1004-1017 | the orphan sweep breaks no reference, makes no twins or clashes, and forgets exactly the keys that answered with an orphan |
| `DuplicatePasses.RunKeepsFootprint` | migrations/1788723300000-product-duplicate-merge.ts:1025-1060 | the number of offers and purchases is the same after any run, so the footprint check cannot fire |
| `DuplicateMergeRun.DuplicateMerge.Resolve` | migrations/1788723300000-product-duplicate-merge.ts:812-821 | the walk over the redirects terminates on the live image of the planned id |
| `DuplicateMergeRun.DuplicateMerge.MoveUserLists` | migrations/1788723300000-product-duplicate-merge.ts:889-910 | two statements per list leave it renamed |
| `DuplicateMergeRun.DuplicateMerge.MoveCollection` | migrations/1788723300000-product-duplicate-merge.ts:921-951 | three statements leave each user one row and every purchase on it; the delete cascades to no purchase |
| `DuplicateMergeRun.DuplicateMerge.Merge` | migrations/1788723300000-product-duplicate-merge.ts:833-877 | the statements together are the merge of the specification, logged and redirected; it fails exactly when a row is missing, and reports how many offers moved |
| `DuplicateMergeRun.DuplicateMerge.Ranked` | migrations/1788723300000-product-duplicate-merge.ts:797-804 | stale planned ids yield exactly the live rows they resolve to, each once, in the order the tables give: hand-set name, offers, stock, key, creation, id |
| `DuplicateMergeRun.DuplicateMerge.FoldGroup` | migrations/1788723300000-product-duplicate-merge.ts:770-788 | folds the later rows into the first in order; no merge of it meets a missing row or itself |
| `DuplicateMergeRun.DuplicateMerge.MergeIdentityGroups` | migrations/1788723300000-product-duplicate-merge.ts:666-682 | runs every identity group in turn and leaves no two named rows with one name, volume and age; no identity changes |
| `DuplicatePasses.PassTwins` | migrations/1788723300000-product-duplicate-merge.ts:691-728 | over all the barcode groups, planned ids resolved as rows go, twins appear only if some fold of the pass moved a person's age onto a taken name and volume |
| `DuplicatePasses.RunKeepsNoAgeByHand` | migrations/1788723300000-product-duplicate-merge.ts:112-133 | where no age was set by hand no run sets one, so no fold can move one |
| `DuplicateMergeRun.DuplicateMerge.MergeBarcodeGroups` | migrations/1788723300000-product-duplicate-merge.ts:691-728 | each group folds exactly the rows its best live row may take in, every fold joins rows alike in volume and name, and if twins appear a fold of this pass moved a person's age onto a taken name and volume |
| `DuplicateMergeRun.DuplicateMerge.FoldByIdentity` | migrations/1788723300000-product-duplicate-merge.ts:609-658 | folds the earliest rows of two identities when both exist apart, clearing facts and forgetting the key as asked, and otherwise changes nothing |
| `DuplicateMergeRun.DuplicateMerge.SweepOrphans` | migrations/1788723300000-product-duplicate-merge.ts:1004-1017 | deletes exactly the bottlings nothing a user or a shop owns names |
| `DuplicateMergeRun.DuplicateMerge.Up` | migrations/1788723300000-product-duplicate-merge.ts:433-458 | the passes run in order and an abort restores everything; the footprint check never fires, and from a clash-free start the repair aborts only if a barcode fold moved a person's age onto a name and volume already taken at it |
| `MatchKey.RekeySetsOnlyTheAge` | migrations/1788282762781-age-regroup-cyrillic-yo.ts:121-136 | re-signing changes the age read back and nothing else of the key |
| `MatchKey.RekeyIsInjective` | migrations/1788282762781-age-regroup-cyrillic-yo.ts:134-136 | two re-signed keys agree exactly when the rest of the key and the age do |
| `MatchKey.KeyForm` | migrations/1788282762781-age-regroup-cyrillic-yo.ts:121-125 | a key carries an age exactly if it ends in `|a` and at least one digit, can be read so in one way only, and states the number those digits write |
| `AgeRun.SplitGrows` | migrations/1788282762781-age-regroup-cyrillic-yo.ts:245-275 | a split deletes no bottling, re-keys none, loses no offer, and puts each offer that states another age on the bottling of that age |
| `AgeRun.SettleGrows` | migrations/1788282762781-age-regroup-cyrillic-yo.ts:288-307 | settling deletes and re-keys nothing and moves exactly the source's offers to the twin, if there is one |
| `AgeRun.StepRows` | migrations/1788282762781-age-regroup-cyrillic-yo.ts:198-213 | a step rewrites no row but its group's own and creates bottlings only by splitting, of the same whisky |
| `AgeRows.RowsAtTheEnd` | migrations/1788282762781-age-regroup-cyrillic-yo.ts:198-307 | over a whole run in any order a bottling's row changes in its age alone, and exactly how is decided at its own turn: a split without key age drops an age nobody set, a bottling that agrees on another age and has no twin fills an empty one |
| `AgeRows.OthersAtTheEnd` | migrations/1788282762781-age-regroup-cyrillic-yo.ts:198-215 | a bottling without offers or without an age in its key is not changed at all |
| `AgeRows.NewBottlings` | migrations/1788282762781-age-regroup-cyrillic-yo.ts:437-448 | every bottling a run adds carries the mixed row's name, volume, strength, type, country and maker, no brand text and no flavour stamps, and stores, as read from a name, the very age its key states |
| `AgeRows.RunOwned` | migrations/1788282762781-age-regroup-cyrillic-yo.ts:324-360 | only a bottling that goes to a twin takes tags and users' entries along, copied and re-pointed exactly; no tag is ever lost |
| `AgeTheorems.NoClashNoMix` | migrations/1788282762781-age-regroup-cyrillic-yo.ts:198-215 | without a clash no order of the groups ends with a bottling of two stated ages, though groups are loaded once and steps change each other's rows |
| `AgeTheorems.ClashAborts` | migrations/1788282762781-age-regroup-cyrillic-yo.ts:198-215 | every order that handles the giver of a clash before the bottling that disowns its key ends mixed |
| `AgeTheorems.AbortsOnlyByClash` | migrations/1788282762781-age-regroup-cyrillic-yo.ts:463-476 | the final check is out of reach in every order if and only if no bottling disowns its key while another holds an offer that key claims |
| `AgeTheorems.NoDisowningNoAbort` | migrations/1788282762781-age-regroup-cyrillic-yo.ts:198-215 | if no bottling with a non-zero key age has all its stated ages equal to one different age, no order aborts |
| `AgeOrders.MixesExactly` | migrations/1788282762781-age-regroup-cyrillic-yo.ts:198-215 | a given order aborts if and only if a bottling that disowns its key meets an offer the key claims: the offer's holder comes first, or the disowned bottling has no twin to go to at its turn |
| `Witnesses.AgeRepairAborts` | migrations/1788282762781-age-regroup-cyrillic-yo.ts:463-476 | a concrete two-bottling catalogue and an order of its groups on which the repair aborts |
| `AgeAgain.RunSettles` | migrations/1788282762781-age-regroup-cyrillic-yo.ts:198-307 | after a run over agreeing ages every stated age stands where a further run would leave it |
| `AgeAgain.SecondRunChangesNothing` | migrations/1788282762781-age-regroup-cyrillic-yo.ts:198-307 | when every bottling keyed with an age agrees with its key, a second run in any order changes nothing at all |
| `AgeRegroupRun.AgeRegroup.Load` | migrations/1788282762781-age-regroup-cyrillic-yo.ts:159-189 | loads exactly the offers of the bottlings whose key carries an age, one group a bottling |
| `AgeRegroupRun.AgeRegroup.StatedAges` | migrations/1788282762781-age-regroup-cyrillic-yo.ts:144-150 | tells whether two stated ages differ, and otherwise the one age the key does not carry |
| `AgeRegroupRun.AgeRegroup.EnsureBottling` | migrations/1788282762781-age-regroup-cyrillic-yo.ts:422-450 | returns the one bottling of the key; if there was none, a new one of the source's facts but its own key and stated age, and no other row changes |
| `AgeRegroupRun.AgeRegroup.SplitGroup` | migrations/1788282762781-age-regroup-cyrillic-yo.ts:245-275 | the loop over the group's offers is the split of the specification |
| `AgeRegroupRun.AgeRegroup.SettleSingleAge` | migrations/1788282762781-age-regroup-cyrillic-yo.ts:288-307 | folds onto the twin or stamps the age, never both |
| `AgeRegroupRun.AgeRegroup.Up` | migrations/1788282762781-age-regroup-cyrillic-yo.ts:198-216 | commits the run over the loaded plan, exactly when in that order no bottling that disowns its key meets an offer the key claims, else restores everything; it commits whenever there is no such pair at all |
| `BrandRun.ResignedOnce` | migrations/1788290342697-brand-canonical-regroup.ts:222-262 | a re-signed key no longer reproduces from the shop's brand, whatever the signature and resolver are |
| `BrandPlan.PlanIsExact` | migrations/1788290342697-brand-canonical-regroup.ts:222-262 | a row is planned if and only if its key has a suffix, the shop's brand in canonical spelling signs its name with the stored signature, and the slug it resolves to signs it otherwise; the new key keeps the suffix |
| `BrandPlan.SkippedStays` | migrations/1788290342697-brand-canonical-regroup.ts:238-240 | a bottling whose stored signature the shop's brand does not reproduce keeps its row and its offers through the whole run |
| `BrandPlan.TagsSurviveTheRun` | migrations/1788290342697-brand-canonical-regroup.ts:357-362 | over a whole run no tag is lost or re-sourced, each is found where its bottling landed as well, and each at the end came from one of the start by that source |
| `BrandPlan.NoEntryIsInvented` | migrations/1788290342697-brand-canonical-regroup.ts:364-382 | each favourite and blacklist entry at the end was the same user's for a bottling whose offers stood there at some moment |
| `BrandRun.NothingLeftToPlan` | migrations/1788290342697-brand-canonical-regroup.ts:151-165 | after regrouping, a second planning is empty, so the abort is unreachable |
| `BrandRun.KeyAfter` | migrations/1788290342697-brand-canonical-regroup.ts:279-299 | after its own turn a planned row's key never changes again: it is gone, or the one planned |
| `BrandRun.EverythingLands` | migrations/1788290342697-brand-canonical-regroup.ts:347-389 | every offer lands where the chain of targets leads and every favourite and blacklist entry is carried there, though targets move later in the run |
| `BrandRun.OffersStayKeyed` | migrations/1788290342697-brand-canonical-regroup.ts:279-299 | an offer that started on a keyed bottling ends on a keyed one; any other stays where it was |
| `BrandRun.MergedAwayIsEmpty` | migrations/1788290342697-brand-canonical-regroup.ts:347-389 | a bottling merged away ends without a key and without an offer |
| `BrandRun.SmallestIdSurvives` | migrations/1788290342697-brand-canonical-regroup.ts:279-299 | when no row holds a target key beforehand the smallest id among those converging on it ends holding it, and the others land there |
| `BrandRegroupRun.BrandRegroup.Plan` | migrations/1788290342697-brand-canonical-regroup.ts:209-265 | plans, by ascending id, exactly the bottlings whose stored signature the shop's brand reproduces and the resolved slug does not, each with the new signature before its untouched suffix |
| `BrandRegroupRun.BrandRegroup.ApplyChange` | migrations/1788290342697-brand-canonical-regroup.ts:285-298 | looks the key up in the live table and merges or re-signs as the specification's change does |
| `BrandRegroupRun.BrandRegroup.Up` | migrations/1788290342697-brand-canonical-regroup.ts:151-165 | always commits, with the state after the plan and nothing left to plan |
| `NameSettlement.CollapseIsDone` | scripts/clean-product-names.ts:233-245 | a collapsed name sheds nothing more and stays a name the catalogue attests |
| `NameSettlement.CollapseStep` | scripts/clean-product-names.ts:225-241 | a name loses its last word exactly if that word is a tag and the rest, in some casing, is a name the catalogue holds |
| `NameSettlement.CollapseOne` | scripts/clean-product-names.ts:233-245 | the loop over trailing words computes the collapse |
| `NameSettlement.CollapseTags` | scripts/clean-product-names.ts:220-253 | maps exactly the names that collapse, each to its collapse |
| `NameSettlement.WinnerExists` | scripts/clean-product-names.ts:195-201 | under a total tie-break every spelling group has one and only one winner |
| `NameSettlement.CountVariants` | scripts/clean-product-names.ts:181-191 | the nested counts hold every name once under its key with the number of its listings |
| `NameSettlement.CanonicalSpelling` | scripts/clean-product-names.ts:178-204 | each group's key maps to the one spelling that beats every other of the group by listings, length and comparison |
| `NameRuns.Settle` | scripts/clean-product-names.ts:429-440 | the two passes composed are the settling of the specification |
| `NameRuns.SettledRow` | scripts/clean-product-names.ts:429-440 | each row takes the winner of its collapsed name's group, a collapsed or context name whose lower-cased form was attested |
| `NameRuns.OneSpellingPerGroup` | scripts/clean-product-names.ts:429-440 | two rows end with one spelling exactly when their collapsed names fold to one key |
| `NameRuns.PassesAreIdempotent` | scripts/clean-product-names.ts:429-440 | the two passes over names they have settled change none, if no context name sheds a tag |
| `NameRuns.WidePassesAreIdempotent` | scripts/clean-product-names.ts:429-440 | without a context the two passes are idempotent on any names |
| `NameRuns.RowOrderDoesNotMatter` | scripts/clean-product-names.ts:166-177 | what a name becomes depends on the bags of names, not on the order of the rows |
| `StoreRuns.StoreRunUndoesNothing` | scripts/clean-product-names.ts:347-353 | a store run after a catalogue-wide run over the same names leaves every bottling it covers as that run stored it if and only if each covered name still finds attested the shorter names its tags were dropped for |
| `StoreRuns.LostNameMoves` | scripts/clean-product-names.ts:347-353 | the very bottling whose shorter name is no longer attested is stored otherwise than before |
| `StoreRunWitness.StoreRunUndoesTheWideRun` | scripts/clean-product-names.ts:347-353 | a concrete catalogue of four names and a speller on which the store run undoes the catalogue-wide one |
| `KnowledgeBase.JudgedAreUsable` | scripts/kb-merge.ts:1027-1036 | the rows kept for merging are exactly the demoted rows that pass every check |
| `KbSeed.JudgedExactly` | scripts/kb-merge.ts:310-385 | the rows judged fit are exactly those with a kebab-case slug and a name whose six closed columns keep to their vocabularies, an uncited peat level read as unknown |
| `KbSeed.ColumnsAreWorth` | scripts/kb-merge.ts:396-411 | filling one of seven columns raises a row's score by one |
| `KbSeed.ClaimsAreWorth` | scripts/kb-merge.ts:396-411 | high confidence and a known peat level count two each |
| `KbSeed.OthersAreWorthless` | scripts/kb-merge.ts:396-411 | the name, the kind, the status and the note do not count |
| `KbSeed.CitationsAreWorth` | scripts/kb-merge.ts:396-411 | each citation counts three, the first and every further one |
| `KnowledgeBase.MergeProducers` | scripts/kb-merge.ts:425-456 | keeps for each slug the earliest row of maximal score and reports a peat conflict if and only if two of its rows state different levels |
| `KnowledgeBase.BestIsOne` | scripts/kb-merge.ts:425-456 | which row is the earliest of maximal score is settled: there is only one |
| `KnowledgeBase.LastOverrideWins` | scripts/kb-merge.ts:787-818 | a pass leaves each field of its kind at the last value given for it, touches no other and drops no producer |
| `KbSeed.LastValueIsLastSaid` | scripts/kb-merge.ts:787-818 | the value a correction settles on is that of the last override of the producer's column; a slug is never overridden |
| `KnowledgeBase.CorrectedField` | scripts/kb-merge.ts:1038-1052 | field by field what the corrections come to: the last override, else the research; the gate's verdict for an unstated status; cleared references |
| `KnowledgeBase.CorrectionsCloseReferences` | scripts/kb-merge.ts:1038-1052 | parents and bottlers are empty or kept producers through overrides, pruning, gate and late status overrides |
| `KbAliases.MergeAliases` | scripts/kb-merge.ts:500-574 | keeps the first accepted target of each key with the scope of the last agreeing row, and reports a collision if and only if two accepted rows differ |
| `KbMergeRun.MergeFlavors` | scripts/kb-merge.ts:588-630 | keeps the last accepted row of each producer and flavor, never `peated` |
| `KbMergeRun.MergeRules` | scripts/kb-merge.ts:639-695 | keeps the last accepted rule of each producer, normalised pattern and flavor |
| `KbSeed.AliasesKept` | scripts/kb-merge.ts:505-570 | an alias is in the seed for exactly the keys that carry identity and that some row spells for a kept producer; it names the first such row's producer, with the scope an agreeing row asks for, `name` only from the length floor on |
| `KbSeed.FlavorsKept` | scripts/kb-merge.ts:595-627 | a house style is in the seed for exactly the kept producers and known flavors but `peated` some row states an effect for, from the last such row |
| `KbSeed.RulesKept` | scripts/kb-merge.ts:646-692 | a rule is in the seed for exactly the non-empty patterns, global or of a kept producer, some row rules on as peat or as a tag but not both, from the last such row |
| `KbMergeRun.SeedRulesMeetCheck` | migrations/1787850500000-kb-schema.ts:166-172 | a rule of the merged seed meets the table's constraint if and only if it is no peat rule naming a flavor or an effect |
| `KbMergeRun.PeatRuleNamingAFlavor` | scripts/kb-merge.ts:639-695 | a concrete research row that the merge keeps and the table's constraint refuses |
| `KbMergeRun.ChosenAreSlugged` | scripts/kb-merge.ts:310-318 | every producer kept stands under its own kebab-case slug |
| `KbMergeRun.FoldingIsComplete` | scripts/kb-merge.ts:748-750 | the slugs rows name after folding are none of them retired if and only if no slug they named is folded into a retired one: only one hop is followed |
| `KbSeed.FoldedColumn` | scripts/kb-merge.ts:748-756 | folding a producer row leaves every column but slug, parent and bottler as it was, and reads each of those as the target of the last decision that retires it |
| `KbSeed.FoldedReferences` | scripts/kb-merge.ts:758-768 | folding an alias, flavor or rule row changes its producer alone, to the target of the last decision that retires it |
| `KbMergeRun.KbMerge.FoldSlugs` | scripts/kb-merge.ts:734-776 | rewrites every producer, alias, flavor and rule row in place, one hop; no row of the four tables names a retired slug if and only if none was folded into a retired one |
| `KbMergeRun.KbMerge.ApplyOverrides` | scripts/kb-merge.ts:787-818 | the in-place loop is the overriding of the specification |
| `KbMergeRun.KbMerge.PruneReferences` | scripts/kb-merge.ts:468-483 | the in-place loop clears exactly the references to producers not kept |
| `KbMergeRun.KbMerge.Merge` | scripts/kb-merge.ts:1025-1067 | whatever agents and curator wrote, the seed is closed under its references; it says which row each producer, alias, flavor and rule comes from |
| `KbMergeRun.ProducerFileReadsBack` | migrations/1787851000000-kb-seed-producer.ts:111-133 | whatever order the producers are printed in, the importer reads every row back with only tabs and newlines changed |
| `KbSeed.ImportedAsPrinted` | migrations/1787851000000-kb-seed-producer.ts:62-100 | every producer is imported with each column as printed, tabs and newlines as spaces, whatever order they are printed in |
| `SeedTsv.SplitUndoesJoin` | scripts/kb-merge.ts:930-936 | splitting undoes joining when no part holds the separator |
| `SeedTsv.ReadsWhatWasWritten` | migrations/1787851000000-kb-seed-producer.ts:111-133 | for any rows of any width the importer's result, error line included, is decided row by row |
| `SeedTsv.RoundTrip` | migrations/1787851000000-kb-seed-producer.ts:111-133 | rows of the importer's width come back exactly, tabs and newlines as spaces, if and only if every row has a field that is not blank |
| `SeedTsv.ExactRoundTrip` | scripts/kb-merge.ts:930-936 | the very table comes back, character by character, if and only if no row is blank and no field holds a tab or a newline |
| `SeedTsv.Read` | migrations/1787851000000-kb-seed-producer.ts:111-133 | the loop returns the parse of the specification or throws with the line and field count of the first malformed line |
| `LoadLadder.ScheduleIsCumulative` | loadtest/whisky-users.js:227-232 | the reduction lays the stages end to end from zero |
| `LoadLadder.KeptIsAllPositive` | loadtest/whisky-users.js:43-46 | the filter keeps every count above zero as often as it was given and no other |
| `LoadLadder.FindDivides` | loadtest/whisky-users.js:344-356 | on one and the same ladder, searching the schedule from any start finds the step the division names, but for a zero target's label |
| `LoadLadder.SameStep` | loadtest/observer-summary.js:83-94 | when a ladder is run the load script and the observer agree at an instant if and only if the run has started and the counts the script kept have, at that step, the count the whole list has there |
| `LoadLadder.SameStepThroughout` | loadtest/whisky-users.js:43-46 | over a whole run of a ladder they agree if and only if every count of the list is above zero or the steps take no time |
| `LoadLadder.PlateauThroughout` | loadtest/whisky-users.js:206-219 | when no count is kept and the plateau runs, they agree throughout if and only if the steps take no time and neither side has anything to label but the ramp-down |
| `LoadLadder.DroppedZero` | loadtest/whisky-users.js:43-46 | on `50,0,100` the script is at 100 while the observer says 0, and ramps down while the observer says 100 |

## Left out

- DuplicateMergeRun.DuplicateMerge.Up: that a barcode fold took an age is necessary for the abort, not sufficient; a later fold or the sweep may remove the twin. It is exact for one merge and for one group.
- AgeAgain.SecondRunChangesNothing: assumes keys write their age without leading zeros, as the key builder does; `x|a0` and `x|a00` would be two ageless bottlings of one whisky.
- NameRuns.PassesAreIdempotent: with a context it asks that no context name sheds a tag, which is sufficient only; no run of the script takes settled names as its rows.
- StoreRuns.StoreRunUndoesNothing: both runs resolve the same names for the same bottlings; the only-if half assumes that dropping a tag shortens the spelling key, as it does for keys that keep letters and digits.
- LoadLadder.PlateauThroughout: for a plateau of a number of users not below zero, the only ones the load tool accepts. Left out are the observer's own default ladder for an empty list, and infinite counts.
- BrandRun.EverythingLands: favourites and blacklist entries are carried to the landing, but the emptied source may keep its own, as the code leaves them.
- The SQL engine, transactions and query plans: a statement is one atomic update of maps and sets, and a throw leaves the state as it was before the run.
- Barcodes: the barcode pass takes its groups as given, any groups; how listings yield barcodes is not part of this model.
- Regular expressions, Unicode and locale rules: a display name carries its identity and its significant words, a listing the age it states, and lower-casing, spelling key, alias key, signature and trimming are arbitrary functions; `localeCompare` is assumed a total order.
- `src/utils/kb-gate.util.ts`: the gate's verdict is an arbitrary function of the row.
- The respelling of `Casc` and the one-off goodwine and Arran lists; of the curated steps only the fold of two identities is kept.
- Price snapshots, which no statement of the three repairs touches, though the footprint check counts them.
- Generated row ids are a growing counter, and integers are unbounded: a key age beyond the exact range of a JavaScript number is not modelled.
- Report lines and counters, other than moved offers, peat conflicts and alias collisions; the origin label of a research row is part of those lines only.
- The textual names of the overridable columns, which the model has as an enumeration, and the tab that joins composite keys in the flavor and rule maps, which are tuples here.
- The extraction of a display name from a listing and its language-model pass: settlement starts from the resolved names.
- UTF-8 encoding of the seed file and rounding of durations: text is a sequence of characters and time is real.
- File reading, command lines, network access and the other importers.
