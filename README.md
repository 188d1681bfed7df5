# Cookidoo account move, modelled in Dafny

This project models the bookkeeping core of a three-command tool. The tool moves a Cookidoo (Thermomix recipe platform) account's saved recipes into a new set of collections:

- **export** (`exporter.py`) lists the account's managed collections and custom collections and writes one JSON document: every recipe id, the favourites, and each non-empty collection's ids under a `[Managed] ` or `[Custom] ` name.
- **import** (`importer.py`, `classifier.py`, `collections.py`) reads that document and runs four steps:
  - it fetches each recipe's details;
  - it has a language model classify every recipe into a season and a dish type, in batches of 20;
  - it files each recipe into a legacy collection named `"<emoji> <Season> > <DishType>"`;
  - it saves its progress in a state file, so that a run resumed on the same export skips the work already done.
- **organize** (`organizer.py`) runs three stages over the legacy collections:
  - it flattens them into English single-level collections, one per dish type;
  - it removes the managed "Ideas sencillas" recipes from the custom collections;
  - it deletes the legacy collections.

  It also keeps its own resumable state.

The taxonomy and the persisted records live in `models.py`.

## Modules

**Library modules**
- `Wrappers`: `Option`, and `Outcome`, which is either a returned value or a raised exception. It also holds the folds of loops over per-item outcomes.
- `Dicts`: Python's insertion-ordered dicts, as association sequences.
- `Seqs`: concatenation and batching helpers.
- `Text`: splitting, joining, stripping, and sorted sets of strings.
- `Json`: JSON values.

**Models**
- `Models`: the enumerations, the translation table, the name builders, and the `to_dict`/`from_dict` pairs.

**The platform**
- `Remote` covers four things:
  - the platform's collection records;
  - paginated listings;
  - the chapter-by-chapter recipe ids;
  - the `Gateway` class. Every changing call goes through it. It logs the call and decides whether the call succeeds from the calls issued before.
- `Regions`: the region table and `get_cookidoo_config`.
- `Resume`: the decision, shared by both pipelines, to take up a saved state only for the same export file.

**The pipelines**
- `Collections`: the `CollectionManager` class and its two caches (name → id, and id → members), plus `organize_recipes_into_collections`.
- `Classifier`: fence extraction, item validation, and the batch loop.
- `Importer`: the pending filters, the ingredient summary, the fetch and classification bookkeeping, the dry-run grouping, and the `RecipeImporter` class.
- `TwoLevelNames`: a hand-written matcher for the legacy-name pattern. It follows the regex engine's greedy backtracking and Python's `$`.
- `OrganizeStates`: the organizer's state and its JSON form.
- `Organizer`: the `CollectionOrganizer` class and its three stages.
- `Exporter`: the aggregation of the export document.

**How the model is built**
- State that the source mutates is held in class fields, in `CollectionManager`, `RecipeImporter`, `CollectionOrganizer` and `Gateway`.
- Each loop is a method proved against a function that states its result.
- Python sets are Dafny sets. Wherever the source iterates over a set or turns one into a list, the model uses ascending order.

## Model

| member | source | states |
|---|---|---|
| Models.SeasonOf | src/cookido_agent/models.py:13-19 | `Season(v)` accepts exactly the four Spanish values and gives the member whose value it is |
| Models.DishTypeOf | src/cookido_agent/models.py:33-44 | `DishType(v)` accepts exactly the nine Spanish values and gives the member whose value it is |
| Models.EnumValuesRoundTrip | src/cookido_agent/models.py:13-44 | every season and dish type value reads back as the member it came from |
| Models.EnumValuesReadBack | src/cookido_agent/models.py:13-44 | the same round trip, for all members at once |
| Models.GetCollectionName | src/cookido_agent/models.py:174-182 | the name starts with the season's emoji and ends with the dish type's value; `TwoLevelNames.ParseCollectionName` reads it back as the pair |
| Models.TranslateDishType | src/cookido_agent/models.py:75-77 | the translation table; `UntranslateDishType` and `TranslationIsBijective` show it is one-to-one and onto |
| Models.Season.Emoji | src/cookido_agent/models.py:21-30 | the emoji of each season; `SeasonEmojisDistinct` shows no two seasons share one |
| Models.GetFlatCollectionName | src/cookido_agent/models.py:185-191 | the flat collection name is the English value of the translated dish type; `FlatNamesDistinct` shows that different dish types get different names, and `Organizer.FlatNameNotTwoLevel` that no such name reads as a legacy two-level name |
| Models.UntranslateDishType | src/cookido_agent/models.py:62-77 | every English dish type is the translation of some Spanish one (the table is onto) |
| Models.TranslationIsBijective | src/cookido_agent/models.py:62-77 | translating and then reading the table backwards gives the Spanish dish type back (the table is one-to-one) |
| Models.SeasonEmojisDistinct | src/cookido_agent/models.py:21-30 | different seasons have different emojis and different values |
| Models.FlatNamesDistinct | src/cookido_agent/models.py:185-191 | different dish types get different flat collection names |
| Models.RecipeClassification.Lookup | src/cookido_agent/models.py:90-98 | each key of `to_dict` reads back its own value |
| Models.RecipeClassification.LookupWithoutConfidence | src/cookido_agent/models.py:90-98 | without its last entry the dict still reads back the first four keys and lacks "confidence" |
| Models.ClassificationKeysDistinct | src/cookido_agent/models.py:92-98 | the five keys `to_dict` writes are pairwise distinct |
| Models.ClassificationFromDict | src/cookido_agent/models.py:100-109 | `from_dict` succeeds only on a dict whose id and name are strings and whose season and dish type are valid values, and carries those over |
| Models.ClassificationRoundTrip | src/cookido_agent/models.py:90-109 | `from_dict(c.to_dict()) == c` |
| Models.ClassificationDefaultConfidence | src/cookido_agent/models.py:108 | a stored classification without "confidence" reads back with 0.8 |
| Models.RecipeDetails.Lookup | src/cookido_agent/models.py:120-126 | each key of `to_dict` reads back its own value |
| Models.DetailsFromDict | src/cookido_agent/models.py:128-135 | `from_dict` succeeds exactly when the three keys hold strings, and the result writes back those three values |
| Models.DetailsRoundTrip | src/cookido_agent/models.py:120-135 | `from_dict(r.to_dict()) == r` |
| Models.ImportState.Lookup | src/cookido_agent/models.py:152-160 | each key of `to_dict` reads back its own value |
| Models.StateKeysDistinct | src/cookido_agent/models.py:154-160 | the five keys `to_dict` writes are pairwise distinct |
| Models.AsODict | src/cookido_agent/models.py:167-169 | a JSON object read as a map keeps its keys, in order |
| Models.AsODictMapValues | src/cookido_agent/models.py:152-171 | a map written with `g` and read with an inverse `f` reads back as it was |
| Models.ImportStateFromDict | src/cookido_agent/models.py:162-171 | `from_dict` succeeds only with a string "export_file", which it keeps |
| Models.ImportStateRoundTrip | src/cookido_agent/models.py:152-171 | `from_dict(s.to_dict()) == s`, the assigned set surviving set -> list -> set |
| Models.StateFieldsReadBack | src/cookido_agent/models.py:152-171 | the three maps of a written state read back as they were |
| Models.ImportStateDefaults | src/cookido_agent/models.py:165-171 | missing optional keys read as empty maps and an empty set |
| Classifier.RecipeLines | src/cookido_agent/classifier.py:84-87 | one prompt line per recipe of the batch, line i being recipe i's `- <id>: <name> (ingredients: <summary>)` |
| Classifier.Prompt | src/cookido_agent/classifier.py:83-89 | the instructions, the header line, and the recipe lines joined by newlines; `PromptLists` states what the prompt holds |
| Classifier.PromptLists | src/cookido_agent/classifier.py:83-89 | the prompt starts with the instructions, and every recipe of the batch has its line somewhere in it |
| Classifier.FenceFrom | src/cookido_agent/classifier.py:104 | finds the first closing fence at or after a position, and reports none only when there is none |
| Classifier.ReplyText | src/cookido_agent/classifier.py:99-106 | a reply that does not start with a fence is only stripped |
| Classifier.FencedJsonReply | src/cookido_agent/classifier.py:102-106 | a reply fenced as "```json" gives its stripped body |
| Classifier.FencedPlainReply | src/cookido_agent/classifier.py:102-106 | a reply fenced without a language tag gives its stripped body |
| Classifier.FencedFirst | src/cookido_agent/classifier.py:104 | the lazy group stops at the first closing fence |
| Classifier.FenceFromFinds | src/cookido_agent/classifier.py:104 | a fence with none before it is the one found |
| Classifier.UnclosedFence | src/cookido_agent/classifier.py:102-106 | a reply that opens a fence and never closes it is used stripped, as it is |
| Classifier.NameOfHas | src/cookido_agent/classifier.py:117-127 | an id has a name exactly when a recipe of the batch has that id, and the name is that recipe's |
| Classifier.ItemResult | src/cookido_agent/classifier.py:119-137 | an item raises exactly when it is not an object or its id is unhashable; it is kept exactly when its id is in the batch and its season and dish type are valid, and then carries that recipe's id and name, the item's season and dish type, and its confidence or 0.8 |
| Classifier.Validated | src/cookido_agent/classifier.py:115-139 | the classifications the validation loop collects; `ValidatedAppend`, `ValidatedRaises`, `ValidatedKeeps` and `ValidatedSound` state what they are |
| Classifier.ValidatedAppend | src/cookido_agent/classifier.py:116-139 | the items of a reply are checked one after the other: two parts give the results of the first followed by those of the second, and an exception stops the loop |
| Classifier.ValidatedSingle | src/cookido_agent/classifier.py:119-137 | one item gives its own result |
| Classifier.ValidatedRaises | src/cookido_agent/classifier.py:119-137 | checking the reply raises exactly when one of its items raises |
| Classifier.ValidatedKeeps | src/cookido_agent/classifier.py:116-139 | a classification is returned exactly when some item gives it |
| Classifier.ValidatedSound | src/cookido_agent/classifier.py:121-127 | every returned classification is of a recipe of the batch, under that recipe's name |
| Classifier.ValidateItems | src/cookido_agent/classifier.py:116-139 | the loop over the reply's items computes the checked results |
| Classifier.ReplyItems | src/cookido_agent/classifier.py:119 | a JSON array is iterated item by item |
| Classifier.BatchResult | src/cookido_agent/classifier.py:68-139 | the result of `classify_batch`; `EmptyBatch`, `UndecodableReply` and `BatchSound` state its cases, and `ClassifyBatch` is proved to compute it |
| Classifier.EmptyBatch | src/cookido_agent/classifier.py:80-81 | an empty batch gives nothing and makes no request |
| Classifier.UndecodableReply | src/cookido_agent/classifier.py:108-113 | a reply that is not JSON gives no classifications instead of raising |
| Classifier.BatchSound | src/cookido_agent/classifier.py:68-139 | every classification of a batch is of a recipe of that batch, under its name |
| Classifier.ClassifyBatch | src/cookido_agent/classifier.py:68-139 | `classify_batch` as a method: its result is the batch result |
| Classifier.SuccessesSnoc | src/cookido_agent/classifier.py:168-176 | a batch that raises is skipped; one that returns adds its results |
| Classifier.SuccessesAll | src/cookido_agent/classifier.py:168-176 | when no batch raises, every batch's results are reported, in order |
| Classifier.SuccessesFrom | src/cookido_agent/classifier.py:168-176 | every reported list is the result of one of the batches |
| Classifier.ChunkMember | src/cookido_agent/classifier.py:158-159 | every recipe of a batch is one of the recipes given |
| Classifier.ReportedSound | src/cookido_agent/classifier.py:158-176 | every reported classification is of a recipe of one of the batches, under its name |
| Classifier.AllSound | src/cookido_agent/classifier.py:141-178 | every classification `classify_all` returns is of one of the recipes given, under its name |
| Classifier.ClassifyAll | src/cookido_agent/classifier.py:141-178 | the batch loop reports the results of the batches that did not raise, in order, and returns them concatenated |
| Seqs.Chunks | src/cookido_agent/classifier.py:158-159 | every batch has between 1 and `size` recipes |
| Seqs.ChunksCount | src/cookido_agent/classifier.py:156 | there are `(len + size - 1) // size` batches |
| Seqs.ChunkAt | src/cookido_agent/classifier.py:158-159 | batch `k` is the slice starting at `k * size` |
| Seqs.ChunksConcat | src/cookido_agent/classifier.py:158-159 | the batches glued together give the recipes back, in order |
| Seqs.ChunksFull | src/cookido_agent/classifier.py:158-159 | every batch but the last is full |
| Seqs.SplitChunks | src/cookido_agent/classifier.py:158-159 | the slicing loop computes the batches |
| Collections.LoadAllValid | src/cookido_agent/collections.py:39-49 | loading keeps names unique and every cached id non-empty |
| Collections.LoadAllNames | src/cookido_agent/collections.py:41-45 | after loading, a name is cached exactly when it was before or some listed collection with a display name and an id carries it |
| Collections.LoadAllLastWins | src/cookido_agent/collections.py:45 | the last listed collection under a name decides the id cached for it |
| Collections.LoadAllMembers | src/cookido_agent/collections.py:48-49 | a loaded collection's member set is the set of its recipe ids, unless a later collection has the same id |
| Collections.LoadAll | src/cookido_agent/collections.py:39-49 | the caches after loading a listing in order; `LoadAllValid`, `LoadAllNames`, `LoadAllLastWins` and `LoadAllMembers` state what they hold |
| Collections.AfterCreate | src/cookido_agent/collections.py:84-87 | the caches after a create; `AfterCreateCaches` states what they hold |
| Collections.EnsureReply | src/cookido_agent/collections.py:76-89 | the answer of `ensure_collection`: the cached id on a hit, otherwise the create's reported id or the raise; `EnsureCollection` is proved to give it |
| Collections.AfterCreateCaches | src/cookido_agent/collections.py:84-89 | a create that reports a non-empty id caches it under the name with no members; otherwise nothing changes |
| Collections.Fresh | src/cookido_agent/collections.py:109 | the kept ids are exactly those of the list not already in the collection |
| Collections.AddCallsAt | src/cookido_agent/collections.py:118-124 | the i-th add call carries the i-th batch |
| Collections.AfterAddMembers | src/cookido_agent/collections.py:118-127 | adding touches only the target's member set, which gains exactly the recipes of the batches whose call succeeded |
| Collections.ProgressStep | src/cookido_agent/collections.py:118-130 | each turn of the batch loop logs one call, commits the batch only when the call succeeds and counts its recipes then |
| Collections.AddedCountBound | src/cookido_agent/collections.py:116-131 | the count returned is at most the number of recipes submitted, and equal to it when every call succeeds |
| Collections.AddBatchesShape | src/cookido_agent/collections.py:115-119 | the batches are slices of 1 to 50 recipes that glue back into the filtered list |
| Collections.AddBatchesFresh | src/cookido_agent/collections.py:106-119 | no batch holds a recipe already known to be in the collection |
| Collections.FreshOfKnown | src/cookido_agent/collections.py:109-112 | when every id is already known, nothing is submitted |
| Collections.AddIdempotent | src/cookido_agent/collections.py:106-127 | adding the same recipes again after all batches succeeded submits nothing |
| Collections.IssuedSends | src/cookido_agent/collections.py:105-127 | after the add, each recipe of the list was already known in the target or sent to it in one of the add calls |
| Collections.EnsureTraced | src/cookido_agent/collections.py:80-87 | a get-or-create keeps every known member traceable to the listing or to an add call |
| Collections.AddTraced | src/cookido_agent/collections.py:105-127 | an add keeps every known member traceable to the listing or to an add call, and leaves each recipe of the list listed in the target or sent to it |
| Collections.FirstNameOf | src/cookido_agent/collections.py:154-158 | the name found maps to the id, and none is found only when no name does |
| Collections.FindNameOf | src/cookido_agent/collections.py:154-158 | the scan stops at the first name mapped to the id |
| Collections.FirstNameOfAt | src/cookido_agent/collections.py:155-158 | the first entry with the id is the one found |
| Collections.AfterDeleteCaches | src/cookido_agent/collections.py:159-163 | a delete drops the first name mapped to the id and the id's member set, keeping every other member set |
| Collections.AfterRemoveRecipeCaches | src/cookido_agent/collections.py:190-191 | removing a recipe drops it from the target's member set only |
| Collections.CollectionManager.constructor | src/cookido_agent/collections.py:21-25 | a new manager starts with empty caches |
| Collections.CollectionManager.LoadExistingCollections | src/cookido_agent/collections.py:27-54 | the caches become those after loading every listed page in order |
| Collections.CollectionManager.LoadPage | src/cookido_agent/collections.py:40-49 | one page is loaded collection by collection |
| Collections.CollectionManager.LoadCollection | src/cookido_agent/collections.py:41-49 | one listed collection is cached when it has a display name and an id |
| Collections.CollectionManager.EnsureCollection | src/cookido_agent/collections.py:67-89 | a cached name answers its id with no call; otherwise one create call is made, its id is returned (or its exception raised) and cached when non-empty |
| Collections.CollectionManager.AddRecipesToCollection | src/cookido_agent/collections.py:91-131 | the recipes not yet known are submitted in batches of 50; the caches gain the accepted batches and the count is their size; names are unchanged |
| Collections.CollectionManager.SubmitBatches | src/cookido_agent/collections.py:118-130 | the batch loop leaves the log, caches and count the batches determine |
| Collections.CollectionManager.SubmitOne | src/cookido_agent/collections.py:119-129 | one turn of the batch loop keeps the loop's progress |
| Collections.CollectionManager.AddBatch | src/cookido_agent/collections.py:120-129 | one add call, whose success alone commits the batch |
| Collections.CollectionManager.GetCollectionId | src/cookido_agent/collections.py:133-135 | an id is returned exactly when the name is cached, and it is the cached one |
| Collections.CollectionManager.IsRecipeInCollection | src/cookido_agent/collections.py:137-139 | true exactly when the recipe is in the cached member set |
| Collections.CollectionManager.DeleteCollection | src/cookido_agent/collections.py:141-168 | one remove call; on success the caches forget the collection, on failure nothing changes and the answer is false |
| Collections.CollectionManager.RemoveRecipeFromCollection | src/cookido_agent/collections.py:170-198 | one remove call; on success the recipe leaves the cached member set, on failure nothing changes |
| Collections.GroupName | src/cookido_agent/collections.py:227-233 | a group name appears only when the classification has a season and a dish type |
| Collections.GroupNameOf | src/cookido_agent/collections.py:227-233 | a classification is filed exactly when its season and dish type are member values, and then under their collection name |
| Collections.FilingOf | src/cookido_agent/collections.py:223-233 | each classification in order, with the group it is filed under |
| Collections.MemberIds | src/cookido_agent/collections.py:223-231 | no assigned recipe is grouped again |
| Collections.MemberIdsHas | src/cookido_agent/collections.py:223-231 | an id is in a group exactly when some classification files it there and it is not yet assigned |
| Collections.GroupsAt | src/cookido_agent/collections.py:222-233 | each group lists exactly the ids filed under its name, in classification order, and a name nothing is filed under has no group |
| Collections.GroupRecipes | src/cookido_agent/collections.py:222-233 | the first loop computes those groups |
| Collections.Listing | src/cookido_agent/collections.py:239-256 | the callback receives each name with its own group |
| Collections.UnionOfHas | src/cookido_agent/collections.py:251 | an id was assigned by the loop exactly when some processed group holds it |
| Collections.UnionOfGroups | src/cookido_agent/collections.py:239-258 | over all groups the assigned ids are exactly the untaken filed ids |
| Collections.ListedIsGrouped | src/cookido_agent/collections.py:239-251 | every id handed to the callback is a grouped id |
| Collections.GroupedIsListed | src/cookido_agent/collections.py:239-251 | every grouped id is handed to the callback |
| Collections.OrganizedStep | src/cookido_agent/collections.py:246-256 | one group processed adds its name to the created map, its ids to the assigned set and one callback |
| Collections.OrganizeGroup | src/cookido_agent/collections.py:246-250 | the answer is `ensure_collection`'s for the caches and log before the call; when it returns, the add runs as `add_recipes_to_collection` does from the caches and log the get-or-create left, and every recipe of the group was already known in the target or sent to it |
| Collections.GroupIdFor | src/cookido_agent/collections.py:246-247 | the id stored for a group name is the listed id of that name, or else the id its successful create reported |
| Collections.FilledStep | src/cookido_agent/collections.py:239-256 | one more group keeps every earlier group's stored id and sent recipes, and the names still to come read as listed |
| Collections.OrganizeRecipesIntoCollections | src/cookido_agent/collections.py:201-258 | groups are processed in ascending name order with one callback each; on return every group was processed, the created map's keys are the group names, each name maps to the id the listing had for it or else to the id its create reported, each recipe of a group was in that collection's listing or sent to it in an add call, and the assigned set is the old one plus every grouped id |
| Regions.GetCookidooConfig | src/cookido_agent/organizer.py:73-89 | a region is configured exactly when it is in the table, with its own site; any other raises the error naming the available regions |
| Regions.RegionLookup | src/cookido_agent/organizer.py:39-89 | every listed region gets exactly its own row of the table |
| Regions.AvailableText | src/cookido_agent/organizer.py:76-77 | the error lists "es, de, fr, it, uk, us" |
| Regions.CountryCodes | src/cookido_agent/organizer.py:39-70 | each site's country code is its region code |
| OrganizeStates.OrganizeStateFromDict | src/cookido_agent/organizer.py:115-132 | a state read back carries the file's export file, its flattened set and its removals |
| OrganizeStates.RemovedFromJson | src/cookido_agent/organizer.py:119-124 | removals in the old list format read as none |
| OrganizeStates.OrganizeStateRoundTrip | src/cookido_agent/organizer.py:103-132 | reading back a written state gives the same state: sets survive the list conversion, maps keep keys and values |
| OrganizeStates.OrganizeStateOldFormat | src/cookido_agent/organizer.py:119-122 | a state file whose removals are a list reads back with no removals and everything else as written |
| OrganizeStates.OrganizeStateDefaults | src/cookido_agent/organizer.py:126-132 | missing optional keys read as empty sets and maps |
| OrganizeStates.ResumeOrganizeState | src/cookido_agent/organizer.py:161-174 | a state saved for the same export file is taken up again as it was |
| OrganizeStates.OtherExportStartsFresh | src/cookido_agent/organizer.py:168-174 | a state saved for another export file is ignored |
| Resume.LoadState | src/cookido_agent/organizer.py:161-174 | a state for the same export file is read (or raises when unreadable as a state); otherwise the fresh state, except that a document that is not an object raises |
| TwoLevelNames.AlternativeAt | src/cookido_agent/organizer.py:34-36 | the alternation finds only a season word that occurs there |
| TwoLevelNames.GroupStart | src/cookido_agent/organizer.py:34-36 | the trailing group `(.+)$` reaches the end of the name |
| TwoLevelNames.FindMatchSound | src/cookido_agent/organizer.py:34-36 | what the search finds is a match of the whole pattern |
| TwoLevelNames.FindMatchFirst | src/cookido_agent/organizer.py:34-36 | the search finds a match whenever there is one, and no match the engine tries earlier exists |
| TwoLevelNames.MatchDetermined | src/cookido_agent/organizer.py:34-36 | a match is fixed by where its leading `.+` and its second group begin |
| TwoLevelNames.MatchFromComplete | src/cookido_agent/organizer.py:34-36 | the greedy backtracking reaches every match |
| TwoLevelNames.ParseTwoLevelName | src/cookido_agent/organizer.py:199-219 | a name parses exactly when the pattern matches and its second group is a dish type's value; the result is the matched season word and that dish type |
| TwoLevelNames.FindMatchOfName | src/cookido_agent/organizer.py:199-212 | on a name "<emoji> <season> > <dish>" the search takes the emoji, the season word and the dish as its parts |
| TwoLevelNames.ParseCollectionName | src/cookido_agent/organizer.py:199-219 | every name the importer creates parses back to its own season word and dish type |
| TwoLevelNames.NoSeasonPrefix | src/cookido_agent/organizer.py:34-36 | no dish type's value starts with a season word |
| Organizer.TwoLevelHasArrow | src/cookido_agent/organizer.py:34-36 | every legacy name has a `>` in it |
| Organizer.FlatNameNotTwoLevel | src/cookido_agent/organizer.py:275-290 | the English collection names are not legacy names, so creating them never adds a legacy entry |
| Organizer.ManagedLookup | src/cookido_agent/organizer.py:181-197 | managed recipes found are the set of ids listed under the managed key of the export's collections |
| Organizer.ManagedLookupOf | src/cookido_agent/organizer.py:187-191 | an export listing the managed ids gives exactly that set |
| Organizer.ManagedLookupMissing | src/cookido_agent/organizer.py:187-197 | an export without collections gives none |
| Organizer.LegacyEntriesHas | src/cookido_agent/organizer.py:256-263 | an entry is selected exactly when it is in the cache, its id is not yet done and its name is a legacy name |
| Organizer.LegacyEntriesNone | src/cookido_agent/organizer.py:256-267 | with every legacy id done, nothing is selected |
| Organizer.LegacyEntriesDone | src/cookido_agent/organizer.py:256-263 | once the selected ids are done, every legacy id of the cache is done and a second selection is empty |
| Organizer.SelectLegacy | src/cookido_agent/organizer.py:256-263 | the selection loop computes the legacy entries not yet done, in cache order |
| Organizer.LegacyPairsPut | src/cookido_agent/organizer.py:290 | caching a non-legacy name leaves the legacy entries as they were |
| Organizer.LegacyEntriesArePairs | src/cookido_agent/organizer.py:355-361 | what the delete stage selects is a legacy entry of the cache |
| Organizer.FlattenedStep | src/cookido_agent/organizer.py:274-298 | each flattened entry adds its id to the flattened set and at most its English name to the created map |
| Organizer.FlattenedIsWithin | src/cookido_agent/organizer.py:274-298 | when the stage stops, only planned ids are flattened and only their English names created |
| Organizer.Record | src/cookido_agent/organizer.py:341-343 | recording removals adds them to that collection's set only |
| Organizer.RecordTwice | src/cookido_agent/organizer.py:341-343 | recording in two steps is recording the union |
| Organizer.RemoveCallsAt | src/cookido_agent/organizer.py:338-339 | the j-th removal call is for the j-th recipe |
| Organizer.RemovalsOnAppend | src/cookido_agent/organizer.py:310-346 | the removals of two runs of calls are those of each |
| Organizer.PassRecipes | src/cookido_agent/organizer.py:310-337 | only managed recipes the cache has in the collection and not yet recorded are removed from it |
| Organizer.NothingManaged | src/cookido_agent/organizer.py:304-305 | with no managed recipes the stage does nothing |
| Organizer.RemovingStep | src/cookido_agent/organizer.py:310-346 | each entry passed keeps the stage's invariant: only managed recipes of eligible collections removed, each of them a member of its collection and not yet recorded as removed from it when the stage started; member sets only shrink, exactly the successes are recorded, and the passed collections are covered |
| Organizer.PassCovers | src/cookido_agent/organizer.py:320-346 | after a pass every managed recipe of the collection was recorded before, removed now or refused |
| Organizer.CoveredStep | src/cookido_agent/organizer.py:310-346 | coverage of the collections passed survives the pass over the next one |
| Organizer.RemovalStep | src/cookido_agent/organizer.py:338-344 | each removal logs one call, and a success is recorded and leaves the cache |
| Organizer.AfterDeletesMembers | src/cookido_agent/organizer.py:369-378 | a collection whose delete succeeded is gone from the cache, and the others keep their members |
| Organizer.DeletionStep | src/cookido_agent/organizer.py:369-378 | each delete logs one call, and a success is recorded in the state and the cache |
| Organizer.DeletedWereFlattened | src/cookido_agent/organizer.py:237-244 | a legacy collection the delete stage deletes had been flattened |
| Organizer.CollectionOrganizer.constructor | src/cookido_agent/organizer.py:138-159 | a new organizer has its export file, configuration, mode and state, and no managed recipes |
| Organizer.CollectionOrganizer.LoadManagedRecipes | src/cookido_agent/organizer.py:181-197 | the managed recipes become those the export lists, or are kept when it lists none |
| Organizer.CollectionOrganizer.Flatten | src/cookido_agent/organizer.py:249-300 | each legacy entry not yet flattened is flattened in cache order; on return all of them are flattened; a dry run changes nothing; legacy entries of the cache are kept |
| Organizer.CollectionOrganizer.FlattenOne | src/cookido_agent/organizer.py:274-298 | an empty legacy collection is only marked; otherwise its English target is got or created, recorded and the legacy id marked, the legacy recipes are submitted to the target in add batches, each one already known there or sent, and a create that raises changes nothing |
| Organizer.CollectionOrganizer.MoveRecipes | src/cookido_agent/organizer.py:289-298 | the target is got or created and recorded and the legacy id marked; the log and caches are those of `add_recipes_to_collection` for the recipes in ascending order, and every recipe was already known in the target or sent to it |
| Organizer.AddRecipeSet | src/cookido_agent/organizer.py:294 | the add call for a legacy collection's recipes leaves the cached names alone, issues exactly the batches `add_recipes_to_collection` sends for them, and afterwards every one of those recipes was already known in the target or was sent to it |
| Organizer.CollectionOrganizer.RemoveManagedRecipes | src/cookido_agent/organizer.py:302-346 | the stage's invariant holds over the whole snapshot from the caches and state at the start: every call removes a managed recipe that was then a member of an eligible collection and not recorded as removed from it, exactly the successes are recorded, and every managed member left in an eligible collection is recorded or had its removal refused; the names are unchanged and the log only grows |
| Organizer.CollectionOrganizer.RemoveTurns | src/cookido_agent/organizer.py:310-346 | the loop over the snapshot of the cache, in cache order, carries the stage's invariant from the first entry to the last, leaving the cached names alone |
| Organizer.CollectionOrganizer.RemoveTurn | src/cookido_agent/organizer.py:310-346 | one entry of the snapshot keeps the stage's invariant |
| Organizer.CollectionOrganizer.RemoveFromCollection | src/cookido_agent/organizer.py:312-346 | the managed recipes of one collection are removed one by one |
| Organizer.CollectionOrganizer.RemoveRecipes | src/cookido_agent/organizer.py:338-346 | the removal loop over one collection's recipes |
| Organizer.CollectionOrganizer.RemoveOne | src/cookido_agent/organizer.py:339-344 | one removal, recorded when it succeeds |
| Organizer.CollectionOrganizer.DeleteOldCollections | src/cookido_agent/organizer.py:348-380 | every legacy entry not yet deleted is deleted in cache order and each success recorded; a dry run changes nothing |
| Organizer.CollectionOrganizer.DeleteOne | src/cookido_agent/organizer.py:375-378 | one delete, recorded when it succeeds |
| Organizer.CollectionOrganizer.Run | src/cookido_agent/organizer.py:221-247 | an export lookup that raises changes nothing; a dry run changes no state and makes no call; after a run that returns every listed legacy collection is flattened and only flattened ones were deleted |
| Organizer.NewOrganizer | src/cookido_agent/organizer.py:138-174 | an organizer is made exactly when the region is known and the state file loads, with that configuration and state |
| Remote.DisplayName | src/cookido_agent/collections.py:43 | a collection's display name is its name when that is non-empty, otherwise its title when it has one (even an empty one), and the fallback only when it has neither; the exporter uses it with the fallback "Unknown" and the collection cache with "" |
| Remote.RefIds | src/cookido_agent/collections.py:62-64 | the ids kept are exactly those of the entries that have one |
| Remote.ChaptersIdsMember | src/cookido_agent/collections.py:56-65 | an id is listed exactly when some entry of some chapter with recipes carries it |
| Remote.ExtractRecipeIds | src/cookido_agent/exporter.py:50-62 | the chapter and recipe loops collect a collection's ids in order |
| Remote.PageCount | src/cookido_agent/collections.py:36-39 | the number of pages the loop fetches: the count's `total_pages`, 1 when the count carries none, and no pages for a negative total, as `range` gives; `FetchAllPages` fetches exactly that many |
| Remote.PagesMember | src/cookido_agent/exporter.py:34-47 | an item is listed exactly when one of the pages holds it |
| Remote.PagesPrefix | src/cookido_agent/exporter.py:43-45 | later pages only add items at the end |
| Remote.FetchAllPages | src/cookido_agent/exporter.py:34-47 | the page loop returns every page's items in page order |
| Remote.Gateway.OutcomesAt | src/cookido_agent/collections.py:120-129 | each call's outcome is decided by the log as it stood when it was issued |
| Remote.Gateway.OutcomesAppend | src/cookido_agent/collections.py:118-131 | calls issued in two runs succeed as they would in one |
| Remote.Gateway.Issue | src/cookido_agent/collections.py:150-151 | one call is logged and its success is the platform's answer |
| Remote.Gateway.Create | src/cookido_agent/collections.py:82-84 | a create call is logged and answers the reported id or raises |
| Importer.IngredientItems | src/cookido_agent/importer.py:233-239 | the ingredient list the summary reads: `ingredients` when truthy, else `recipeIngredientGroups` when truthy, else nothing, and a value that is not a list gives no items; `TokensFromFirstItems` bounds what is taken from it |
| Importer.SubTokens | src/cookido_agent/importer.py:251-253 | a group gives at most one token per sub-item |
| Importer.ItemTokens | src/cookido_agent/importer.py:242-253 | one item gives at most five tokens |
| Importer.ItemParts | src/cookido_agent/importer.py:240 | only the first ten items are examined, each for its own tokens |
| Importer.SubTokensFrom | src/cookido_agent/importer.py:251-253 | a group token is exactly the text before the first comma of a sub-item that has a text |
| Importer.GroupTokens | src/cookido_agent/importer.py:249-253 | the tokens of a group come from its first five sub-items |
| Importer.TokensFromFirstItems | src/cookido_agent/importer.py:233-253 | there are at most fifty tokens, and every token comes from one of the first ten items |
| Importer.Summary | src/cookido_agent/importer.py:228-255 | the ingredient summary; `SummaryMeaning` states what it is |
| Importer.SummaryMeaning | src/cookido_agent/importer.py:255 | the summary is "No ingredients found" exactly when the joined first eight tokens are empty, and otherwise those tokens joined by ", " |
| Importer.SubItemTokens | src/cookido_agent/importer.py:251-253 | the inner loop computes the group's tokens |
| Importer.ItemTokensOf | src/cookido_agent/importer.py:241-253 | the outer loop's body computes one item's tokens |
| Importer.SummarizeIngredients | src/cookido_agent/importer.py:228-255 | the loops compute the summary |
| Importer.PendingFetch | src/cookido_agent/importer.py:184-186 | at most as many pending ids as listed |
| Importer.PendingFetchHas | src/cookido_agent/importer.py:184-186 | an id is pending exactly when the export lists it and it is not fetched |
| Importer.PendingFetchAppend | src/cookido_agent/importer.py:184-186 | pending ids keep the export's order |
| Importer.FetchOne | src/cookido_agent/importer.py:205-221 | a successful fetch stores the recipe's record under its id and nothing else changes; a failed one changes nothing |
| Importer.FetchAllGet | src/cookido_agent/importer.py:198-224 | after the loop an id fetched successfully holds its record and every other key what it held |
| Importer.FetchStage | src/cookido_agent/importer.py:184-224 | the stage keeps every recipe fetched before, and afterwards every listed id whose fetch succeeds is fetched |
| Importer.FetchedReadsBack | src/cookido_agent/importer.py:209-214 | the stored record reads back as the recipe it was made from, whose id is the fetched id |
| Importer.PendingOutcomes | src/cookido_agent/importer.py:260-264 | one outcome per fetched record |
| Importer.PendingClassificationRaises | src/cookido_agent/importer.py:260-264 | building the list raises exactly when an unclassified record is not a valid recipe record |
| Importer.PendingClassificationHas | src/cookido_agent/importer.py:260-264 | otherwise it holds exactly the recipes of the unclassified records |
| Importer.LastFor | src/cookido_agent/importer.py:276-277 | the last result for a recipe is one of the results, for that recipe |
| Importer.LastForHas | src/cookido_agent/importer.py:276-277 | a recipe has a last result exactly when it has a result |
| Importer.MergeGet | src/cookido_agent/importer.py:276-277 | last write wins: a recipe with results holds its last one, every other key what it held |
| Importer.MergeAppend | src/cookido_agent/importer.py:275-283 | merging two batches one after the other is merging their results together |
| Importer.NewlyClassified | src/cookido_agent/importer.py:257-283 | a recipe the stage adds was fetched and not yet classified |
| Importer.ClassificationsKept | src/cookido_agent/importer.py:275-283 | the classification stage removes no classification |
| Importer.DryFilingOf | src/cookido_agent/importer.py:325-333 | each classification with its collection name and the recipe's display name |
| Importer.AddEntry | src/cookido_agent/importer.py:333-335 | an entry with a group name appends its display name to that group only; one without is skipped |
| Importer.DryGroupsGet | src/cookido_agent/importer.py:324-335 | each group holds the display names of the recipes filed under it, in order |
| Importer.DryGroupsKeys | src/cookido_agent/importer.py:324-335 | a group exists exactly when some recipe is filed under it |
| Importer.FiledUnderHas | src/cookido_agent/importer.py:325-333 | the names of a group are those of the entries that carry it |
| Importer.DryRunGroups | src/cookido_agent/importer.py:324-335 | the grouping loop computes the groups |
| Importer.ExportIds | src/cookido_agent/importer.py:148-153 | no ids exactly for a missing "all_recipes" or an empty string, list or object; `null`, a boolean or a number raises in `len`; a non-empty list of ids comes from the export's "all_recipes" |
| Importer.ExportIdsOfList | src/cookido_agent/importer.py:148 | an export listing ids gives exactly those ids |
| Importer.ResumeImportState | src/cookido_agent/importer.py:120-134 | a state saved for the same export file is taken up again as it was |
| Importer.OtherExportStartsFresh | src/cookido_agent/importer.py:128-134 | a state saved for another export file is ignored |
| Importer.RecipeImporter.constructor | src/cookido_agent/importer.py:95-118 | a new importer has its export file, configuration, mode and state |
| Importer.RecipeImporter.FetchRecipeDetails | src/cookido_agent/importer.py:177-226 | the fetched records become those after fetching each pending id in turn; nothing else changes |
| Importer.RecipeImporter.OnBatchComplete | src/cookido_agent/importer.py:275-278 | the batch's results are stored in turn |
| Importer.RecipeImporter.OnBatches | src/cookido_agent/importer.py:275-283 | the callbacks store the results of all reported batches in order |
| Importer.RecipeImporter.ClassifyRecipes | src/cookido_agent/importer.py:257-288 | the stage raises exactly when building the pending list does, and then changes nothing; otherwise the results of the batches that did not raise are merged |
| Importer.RecipeImporter.OrganizeRecipes | src/cookido_agent/importer.py:290-315 | a raise changes nothing; otherwise the created collections are merged into the state, each group name now holding the listed id of its collection or the id its create reported, each grouped recipe was listed there or sent to it, other names keep their ids, and the assigned set becomes the returned one |
| Importer.RecipeImporter.Run | src/cookido_agent/importer.py:141-175 | an export that raises (including a `null`, boolean or number "all_recipes", whose `len` raises) changes nothing and raises; one that lists no ids changes nothing and returns; a dry run creates and assigns nothing; fetched records and classifications are kept, every listed id whose fetch succeeds is fetched, and the assigned set only grows |
| Importer.CreatedDistinct | src/cookido_agent/collections.py:236-247 | the returned map has no repeated names |
| Importer.CreatedKeys | src/cookido_agent/importer.py:304 | after the update the names are the old ones and the new ones, other names keep their ids |
| Importer.NewImporter | src/cookido_agent/importer.py:95-134 | an importer is made exactly when the region is known and the state file loads, with that configuration and state |
| Exporter.SpanishConfig | src/cookido_agent/exporter.py:20-31 | the Spanish configuration is the region table's "es" row |
| Exporter.IdLists | src/cookido_agent/exporter.py:105-117 | each collection's recipe ids, in listing order |
| Exporter.IdsOfHas | src/cookido_agent/exporter.py:105-118 | an id is collected exactly when some listed collection carries it |
| Exporter.FileOne | src/cookido_agent/exporter.py:111-122 | a collection with recipes is stored under its prefixed display name; one without is skipped |
| Exporter.LastListedHas | src/cookido_agent/exporter.py:111-122 | a name has an entry exactly when some collection with recipes has that name |
| Exporter.FiledGet | src/cookido_agent/exporter.py:111-122 | each name holds the ids of the last collection with recipes under that name |
| Exporter.AllRecipesListed | src/cookido_agent/exporter.py:100-129 | "all_recipes" is sorted, without repeats, and holds exactly the ids of every managed or custom collection |
| Exporter.FavoritesListed | src/cookido_agent/exporter.py:100-130 | "favorites" is sorted, without repeats, and holds exactly the ids of the managed collections |
| Exporter.CollectionsListed | src/cookido_agent/exporter.py:102-122 | every managed or custom collection with recipes has an entry under its prefixed name |
| Exporter.CollectionsSound | src/cookido_agent/exporter.py:102-122 | every entry is the ids of a managed or custom collection under its prefixed name |
| Exporter.KindsApart | src/cookido_agent/exporter.py:113-122 | a managed and a custom collection are never stored under the same name |
| Exporter.ExportFields | src/cookido_agent/exporter.py:126-132 | the document has its five keys, read back as the timestamp, "es-ES", the two id lists and the collections |
| Exporter.ImporterReadsAllRecipes | src/cookido_agent/exporter.py:129 | the importer reads the export's "all_recipes" back as written |
| Exporter.OrganizerReadsManaged | src/cookido_agent/organizer.py:187-191 | the organizer reads the ids of the exported managed collection back as a set |
| Exporter.OrganizerReadsExportedManaged | src/cookido_agent/exporter.py:111-113 | a managed collection named "Ideas sencillas", the last with recipes under that name, is what the organizer later removes |
| Exporter.ListManaged | src/cookido_agent/exporter.py:104-113 | the managed loop collects the favourites list, the id set and the managed entries |
| Exporter.ListCustom | src/cookido_agent/exporter.py:116-122 | the custom loop adds the custom ids and entries |
| Exporter.ExportRecipes | src/cookido_agent/exporter.py:65-132 | the document is the export of every listed page of managed and custom collections |

## Left out

**Outside the model**
- All I/O is left out: reading and writing the state and export files, `print` output (including the dry-run and final summaries), `asyncio.sleep` delays, login, sessions, and the command-line `main` functions with their environment variables and exit codes. The documents read or written are plain values. A state file is `Resume.SavedFile`, and its resume and round-trip properties are proved on that value.
- The platform client is not modelled:
  - read-only answers are parameters: the page count, the page listing (`fetchPage`) and the recipe details (`fetch`);
  - a recipe fetch is a deterministic function of the id, and `None` stands for a fetch that raises;
  - changing calls go through `Remote.Gateway`, whose `accepts` and `reportedId` oracles stand for the platform.
- The language model is the parameter `respond`, and `json.loads` is the parameter `decode`.
  - `RecipeClassifier.__init__`, its API key and its client are not modelled.
  - The instruction text of the prompt is the parameter `instructions`.
- The `exported_at` timestamp is a parameter, because it comes from the clock.
- Confidence values are reals, and the model does no float arithmetic on them.

**Simplifications**
- Python's set iteration order is hash order. Everywhere the source uses it, the model fixes ascending order: `list(recipes)` in the flatten stage, the removal loop, and sets written to JSON.
- Attribute probing with `getattr`/`hasattr` becomes typed records with optional fields.
  - An attribute that is present is assumed to have the expected type. For example, a list is a list and a `text` is a string.
  - `Remote.DisplayName`: a `title` attribute that exists but holds `None` is not modelled. It is read as missing.
- JSON types are approximated. Numbers are reals, and a value of an unexpected type (a non-string id, say) makes the reading function answer `None` or `Raised` where Python might carry the value on.
- `Importer.ExportIds`: a non-empty string or object, or a list holding a non-string, under "all_recipes" raises in the model. The source would go on with whatever it iterates.
- `Classifier.ReplyText`: Python's regex engine is not modelled in general. The model characterises the one fence pattern by hand, through `FenceFrom`.
- `TwoLevelNames.ParseTwoLevelName` covers the one legacy pattern only. It does not model general regex matching.

**Ordering and exceptions**
- `Organizer.CollectionOrganizer.Flatten`: the stage's contract does not restate that each legacy collection's recipes were sent to its English collection. `FlattenOne` states it for each entry, relative to the caches and log the entry starts from. A stage-wide statement would depend on those intermediate caches, since a later create may report an id already in use and so reset a member set.
- `Importer.RecipeImporter.ClassifyRecipes`: the batch callback's effect is applied after `classify_all` returns, as the merge of the reported batches in order. This gives the same state, because the callback only writes `classifications`. An exception raised by the callback itself is not modelled.
- `Collections.OrganizeRecipesIntoCollections`: the importer's callback only saves the state, so the model returns the callback's arguments instead of calling anything.
- Among the changing remote calls, only `add_custom_collection` can raise through to the caller, and the model gives it `Raised`. The source catches the failures of the add, remove and delete calls, and the model turns them into a `false` outcome. Read-only calls are parameters. A listing that raises is not modelled, and a recipe fetch that raises, which the source catches, is `None`.

**Not part of this model**
- `debug_collections.py`.
- The organizer's `_print_summary`.
