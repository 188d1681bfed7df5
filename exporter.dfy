/** The exporter: every recipe saved on the Spanish Cookidoo site, read from
    the managed (subscribed official) collections and the custom (user
    created) ones, written as one JSON document that the import and the
    organize pipelines later read. */
module Exporter {
  import opened Wrappers
  import opened Seqs
  import opened Dicts
  import opened Json
  import opened Text
  import opened Remote
  import opened Regions
  import Importer
  import Organizer

  /** `get_spanish_config`: the client configuration for cookidoo.es. */
  function SpanishConfig(email: string, password: string): (r: CookidooConfig)
    ensures GetCookidooConfig(email, password, "es") == Configured(r)
  {
    CookidooConfig(email, password, Localization("es", "es-ES", "https://cookidoo.es/foundation/es-ES"))
  }

  /** The locale the document names. */
  const Locale: string := "es-ES"

  const ManagedPrefix: string := "[Managed] "
  const CustomPrefix: string := "[Custom] "

  /** The name a collection is listed under when it has neither a name nor a
      title. */
  const Unknown: string := "Unknown"

  // ---------------------------------------------------------------------
  // What the export holds

  /** The recipe ids of each collection, in order. */
  function IdLists(cs: seq<Collection>): (r: seq<seq<string>>)
    ensures |r| == |cs| && forall i | 0 <= i < |cs| :: r[i] == RecipeIds(cs[i])
  {
    seq(|cs|, i requires 0 <= i < |cs| => RecipeIds(cs[i]))
  }

  /** The ids of the collections one collection after the other, as
      `favorite_ids` collects them. */
  function IdsIn(cs: seq<Collection>): seq<string> {
    Concat(IdLists(cs))
  }

  /** The recipe ids of a sequence of collections, as a set. */
  function IdsOf(cs: seq<Collection>): set<string> {
    Elements(IdsIn(cs))
  }

  /** An id is collected exactly when one of the collections lists it. */
  lemma {:induction false} IdsOfHas(cs: seq<Collection>, x: string)
    ensures x in IdsOf(cs) <==> exists i | 0 <= i < |cs| :: x in RecipeIds(cs[i])
  {
    ConcatMember(IdLists(cs), x);
    if x in IdsOf(cs) {
      var i :| 0 <= i < |cs| && x in IdLists(cs)[i];
    }
  }

  /** `collections_data[prefix + name] = recipe_ids` for a collection with
      recipes; one without recipes is not listed. */
  function FileOne(d: ODict<seq<string>>, c: Collection, prefix: string): (r: ODict<seq<string>>)
    ensures forall k ::
      Get(r, k) == if RecipeIds(c) != [] && k == prefix + DisplayName(c, Unknown) then Some(RecipeIds(c)) else Get(d, k)
  {
    if RecipeIds(c) != [] then Put(d, prefix + DisplayName(c, Unknown), RecipeIds(c)) else d
  }

  /** `collections_data` after the collections `cs`, in turn. */
  function Filed(d: ODict<seq<string>>, cs: seq<Collection>, prefix: string): ODict<seq<string>> {
    if |cs| == 0 then d else FileOne(Filed(d, cs[..|cs| - 1], prefix), cs[|cs| - 1], prefix)
  }

  /** The last collection with recipes listed under key `k`. */
  function LastListed(cs: seq<Collection>, prefix: string, k: string): (r: Option<Collection>)
    ensures r.Some? ==> r.value in cs && RecipeIds(r.value) != [] && k == prefix + DisplayName(r.value, Unknown)
  {
    if |cs| == 0 then None
    else
      var c := cs[|cs| - 1];
      if RecipeIds(c) != [] && k == prefix + DisplayName(c, Unknown) then Some(c)
      else LastListed(cs[..|cs| - 1], prefix, k)
  }

  /** A key is listed exactly when some collection with recipes has that
      name. */
  lemma {:induction false} LastListedHas(cs: seq<Collection>, prefix: string, k: string)
    ensures LastListed(cs, prefix, k).Some? <==>
      exists i | 0 <= i < |cs| :: RecipeIds(cs[i]) != [] && k == prefix + DisplayName(cs[i], Unknown)
    decreases |cs|
  {
    if |cs| > 0 {
      var init := cs[..|cs| - 1];
      LastListedHas(init, prefix, k);
      if LastListed(init, prefix, k).Some? {
        var i :| 0 <= i < |init| && RecipeIds(init[i]) != [] && k == prefix + DisplayName(init[i], Unknown);
        assert cs[i] == init[i];
      }
      if LastListed(cs, prefix, k).None? {
        forall i | 0 <= i < |cs| ensures !(RecipeIds(cs[i]) != [] && k == prefix + DisplayName(cs[i], Unknown)) {
          if i < |init| {
            assert cs[i] == init[i];
          }
        }
      }
    }
  }

  /** Last write wins: a key holds the ids of the last collection listed under
      it, and every other key what it held before. */
  lemma {:induction false} FiledGet(d: ODict<seq<string>>, cs: seq<Collection>, prefix: string, k: string)
    ensures Get(Filed(d, cs, prefix), k) ==
      match LastListed(cs, prefix, k)
      case Some(c) => Some(RecipeIds(c))
      case None => Get(d, k)
    decreases |cs|
  {
    if |cs| > 0 {
      FiledGet(d, cs[..|cs| - 1], prefix, k);
    }
  }

  /** The document `export_recipes` returns. */
  datatype Export = Export(
    exportedAt: string,
    allRecipes: seq<string>,
    favorites: seq<string>,
    collections: ODict<seq<string>>)
  {
    /** The JSON object written to the export file. */
    function ToJson(): Json.Value {
      Obj([("exported_at", Str(exportedAt)),
           ("locale", Str(Locale)),
           ("all_recipes", Arr(Strs(allRecipes))),
           ("favorites", Arr(Strs(favorites))),
           ("collections", Obj(MapValues(collections, IdList)))])
    }
  }

  function IdList(ids: seq<string>): Json.Value {
    Arr(Strs(ids))
  }

  /** The export of the listed managed and custom collections, stamped with
      the time `exportedAt`. */
  function ExportOf(exportedAt: string, managed: seq<Collection>, custom: seq<Collection>): Export {
    Export(exportedAt,
           SortedSet(IdsOf(managed) + IdsOf(custom)),
           SortedSet(IdsOf(managed)),
           Filed(Filed([], managed, ManagedPrefix), custom, CustomPrefix))
  }

  // ---------------------------------------------------------------------
  // What the export promises

  /** "all_recipes" lists every recipe of every collection, each once, in
      ascending order. */
  lemma AllRecipesListed(exportedAt: string, managed: seq<Collection>, custom: seq<Collection>, x: string)
    ensures var e := ExportOf(exportedAt, managed, custom);
      && (x in e.allRecipes <==>
           (exists i | 0 <= i < |managed| :: x in RecipeIds(managed[i])) ||
           (exists i | 0 <= i < |custom| :: x in RecipeIds(custom[i])))
      && Ascending(e.allRecipes)
      && (forall i, j | 0 <= i < j < |e.allRecipes| :: e.allRecipes[i] != e.allRecipes[j])
  {
    IdsOfHas(managed, x);
    IdsOfHas(custom, x);
    SortedSetAscending(IdsOf(managed) + IdsOf(custom));
    SortedSetDistinct(IdsOf(managed) + IdsOf(custom));
  }

  /** "favorites" lists the recipes of the managed collections, each once, in
      ascending order, and each of them is in "all_recipes". */
  lemma FavoritesListed(exportedAt: string, managed: seq<Collection>, custom: seq<Collection>, x: string)
    ensures var e := ExportOf(exportedAt, managed, custom);
      && (x in e.favorites <==> exists i | 0 <= i < |managed| :: x in RecipeIds(managed[i]))
      && Ascending(e.favorites)
      && (forall i, j | 0 <= i < j < |e.favorites| :: e.favorites[i] != e.favorites[j])
      && (forall y | y in e.favorites :: y in e.allRecipes)
  {
    IdsOfHas(managed, x);
    SortedSetAscending(IdsOf(managed));
    SortedSetDistinct(IdsOf(managed));
  }

  /** "collections" maps "[Custom] name" to the ids of the last custom
      collection of that name with recipes, "[Managed] name" likewise for the
      managed ones, and lists nothing else. */
  lemma CollectionsListed(exportedAt: string, managed: seq<Collection>, custom: seq<Collection>, k: string)
    ensures Get(ExportOf(exportedAt, managed, custom).collections, k) ==
      match LastListed(custom, CustomPrefix, k)
      case Some(c) => Some(RecipeIds(c))
      case None =>
        match LastListed(managed, ManagedPrefix, k)
        case Some(c) => Some(RecipeIds(c))
        case None => None
  {
    FiledGet(Filed([], managed, ManagedPrefix), custom, CustomPrefix, k);
    FiledGet([], managed, ManagedPrefix, k);
  }

  /** Every listed collection has recipes, all of them in "all_recipes", and
      is named after a collection with its kind in front. */
  lemma CollectionsSound(exportedAt: string, managed: seq<Collection>, custom: seq<Collection>, k: string)
    requires Get(ExportOf(exportedAt, managed, custom).collections, k).Some?
    ensures var ids := Get(ExportOf(exportedAt, managed, custom).collections, k).value;
      && ids != []
      && (forall x | x in ids :: x in ExportOf(exportedAt, managed, custom).allRecipes)
      && ((exists i | 0 <= i < |managed| :: k == ManagedPrefix + DisplayName(managed[i], Unknown)) ||
          (exists i | 0 <= i < |custom| :: k == CustomPrefix + DisplayName(custom[i], Unknown)))
  {
    CollectionsListed(exportedAt, managed, custom, k);
    var source := if LastListed(custom, CustomPrefix, k).Some? then custom else managed;
    var c := if LastListed(custom, CustomPrefix, k).Some? then LastListed(custom, CustomPrefix, k).value
             else LastListed(managed, ManagedPrefix, k).value;
    var i :| 0 <= i < |source| && source[i] == c;
    forall x | x in RecipeIds(c) ensures x in IdsOf(managed) + IdsOf(custom) {
      IdsOfHas(source, x);
    }
  }

  /** A custom collection is never listed under a managed key. */
  lemma KindsApart(name: string, k: string)
    requires StartsWith(k, ManagedPrefix)
    ensures k != CustomPrefix + name
  {
    assert k[1] == 'M';
    assert (CustomPrefix + name)[1] == 'C';
  }

  // ---------------------------------------------------------------------
  // The two pipelines read the export back

  /** The document's five keys read back as its timestamp, "es-ES", the
      two id lists and the collections. */
  lemma ExportFields(e: Export)
    ensures Get(e.ToJson().fields, "exported_at") == Some(Str(e.exportedAt))
    ensures Get(e.ToJson().fields, "locale") == Some(Str("es-ES"))
    ensures Get(e.ToJson().fields, "all_recipes") == Some(Arr(Strs(e.allRecipes)))
    ensures Get(e.ToJson().fields, "favorites") == Some(Arr(Strs(e.favorites)))
    ensures Get(e.ToJson().fields, "collections") == Some(Obj(MapValues(e.collections, IdList)))
  {
    var fields := e.ToJson().fields;
    assert Keys(fields) == ExportKeys;
    ExportKeysLookup(fields, 0);
    ExportKeysLookup(fields, 1);
    ExportKeysLookup(fields, 2);
    ExportKeysLookup(fields, 3);
    ExportKeysLookup(fields, 4);
  }

  /** The keys of the export document, in the order it writes them. */
  const ExportKeys: seq<string> := ["exported_at", "locale", "all_recipes", "favorites", "collections"]

  lemma ExportKeysLookup<V>(d: ODict<V>, i: nat)
    requires Keys(d) == ExportKeys && i < |d|
    ensures Get(d, d[i].0) == Some(d[i].1)
  {
    ExportKeysDistinct();
    forall j | 0 <= j < i ensures d[j].0 != d[i].0 {
      assert d[j].0 == Keys(d)[j] && d[i].0 == Keys(d)[i];
    }
    GetAt(d, i);
  }

  lemma ExportKeysDistinct()
    ensures forall i, j | 0 <= i < j < |ExportKeys| :: ExportKeys[i] != ExportKeys[j]
  {
    var lengths := [11, 6, 11, 9, 11];
    assert forall i | 0 <= i < 5 :: |ExportKeys[i]| == lengths[i];
    assert ExportKeys[0][0] == 'e' && ExportKeys[2][0] == 'a' && ExportKeys[4][0] == 'c';
  }

  /** The import pipeline finds exactly the ids of "all_recipes". */
  lemma ImporterReadsAllRecipes(e: Export)
    ensures Importer.ExportIds(e.ToJson()) == Returned(e.allRecipes)
  {
    ExportFields(e);
    Importer.ExportIdsOfList(e.ToJson().fields, e.allRecipes);
  }

  /** The organize pipeline finds the ids listed under its managed key, or no
      managed recipes when the key is not listed. */
  lemma OrganizerReadsManaged(e: Export)
    ensures Organizer.ManagedLookup(e.ToJson()) ==
      match Get(e.collections, Organizer.ManagedKey)
      case Some(ids) => Returned(Some(Elements(ids)))
      case None => Returned(None)
  {
    ExportFields(e);
    var v := Get(e.collections, Organizer.ManagedKey);
    if v.Some? {
      AsStringsStrs(v.value);
    }
  }

  /** For an export of the platform's collections, those are the recipes of
      the last managed collection of that name that has any. */
  lemma OrganizerReadsExportedManaged(exportedAt: string, managed: seq<Collection>, custom: seq<Collection>)
    ensures Organizer.ManagedLookup(ExportOf(exportedAt, managed, custom).ToJson()) ==
      match LastListed(managed, ManagedPrefix, Organizer.ManagedKey)
      case Some(c) => Returned(Some(Elements(RecipeIds(c))))
      case None => Returned(None)
  {
    OrganizerReadsManaged(ExportOf(exportedAt, managed, custom));
    CollectionsListed(exportedAt, managed, custom, Organizer.ManagedKey);
    if LastListed(custom, CustomPrefix, Organizer.ManagedKey).Some? {
      var c := LastListed(custom, CustomPrefix, Organizer.ManagedKey).value;
      KindsApart(DisplayName(c, Unknown), Organizer.ManagedKey);
    }
  }

  // ---------------------------------------------------------------------
  // The export loop

  lemma FiledSnoc(d: ODict<seq<string>>, cs: seq<Collection>, prefix: string, i: nat)
    requires i < |cs|
    ensures Filed(d, cs[..i + 1], prefix) == FileOne(Filed(d, cs[..i], prefix), cs[i], prefix)
  {
    assert cs[..i + 1][..i] == cs[..i];
  }

  /** The loop over the managed collections: their ids, one collection after
      the other, as a list and as a set, and each one with recipes listed
      under "[Managed] name". */
  method ListManaged(managed: seq<Collection>)
      returns (favoriteIds: seq<string>, allIds: set<string>, collections: ODict<seq<string>>)
    ensures favoriteIds == IdsIn(managed) && allIds == IdsOf(managed)
    ensures collections == Filed([], managed, ManagedPrefix)
  {
    ghost var parts := IdLists(managed);
    favoriteIds, allIds, collections := [], {}, [];
    for i := 0 to |managed|
      invariant favoriteIds == Concat(parts[..i]) && allIds == Elements(favoriteIds)
      invariant collections == Filed([], managed[..i], ManagedPrefix)
    {
      ConcatSnoc(parts, i);
      FiledSnoc([], managed, ManagedPrefix, i);
      var ids := ExtractRecipeIds(managed[i]);
      ElementsAppend(favoriteIds, ids);
      favoriteIds := favoriteIds + ids;
      allIds := allIds + Elements(ids);
      var name := DisplayName(managed[i], Unknown);
      if ids != [] {
        collections := Put(collections, ManagedPrefix + name, ids);
      }
    }
    assert parts[..|managed|] == parts;
    assert managed[..|managed|] == managed;
  }

  /** The loop over the custom collections: their ids added to the set, and
      each one with recipes listed under "[Custom] name". */
  method ListCustom(custom: seq<Collection>, allIds0: set<string>, collections0: ODict<seq<string>>)
      returns (allIds: set<string>, collections: ODict<seq<string>>)
    ensures allIds == allIds0 + IdsOf(custom)
    ensures collections == Filed(collections0, custom, CustomPrefix)
  {
    ghost var parts := IdLists(custom);
    allIds, collections := allIds0, collections0;
    for j := 0 to |custom|
      invariant allIds == allIds0 + Elements(Concat(parts[..j]))
      invariant collections == Filed(collections0, custom[..j], CustomPrefix)
    {
      ConcatSnoc(parts, j);
      FiledSnoc(collections0, custom, CustomPrefix, j);
      var ids := ExtractRecipeIds(custom[j]);
      ElementsAppend(Concat(parts[..j]), ids);
      allIds := allIds + Elements(ids);
      var name := DisplayName(custom[j], Unknown);
      if ids != [] {
        collections := Put(collections, CustomPrefix + name, ids);
      }
    }
    assert parts[..|custom|] == parts;
    assert custom[..|custom|] == custom;
  }

  /** `export_recipes` once logged in: the two paginated listings are read,
      then the managed collections and the custom ones are walked in turn.
      The clock reading is `exportedAt`. */
  method ExportRecipes(exportedAt: string, managedPages: Option<int>, managedPage: nat -> seq<Collection>,
                       customPages: Option<int>, customPage: nat -> seq<Collection>) returns (e: Export)
    ensures e == ExportOf(exportedAt, AllPages(managedPages, managedPage), AllPages(customPages, customPage))
  {
    var managed := FetchAllPages(managedPages, managedPage);
    var custom := FetchAllPages(customPages, customPage);
    var favoriteIds, allIds, collections := ListManaged(managed);
    allIds, collections := ListCustom(custom, allIds, collections);
    e := Export(exportedAt, SortedSet(allIds), SortedSet(Elements(favoriteIds)), collections);
  }
}
