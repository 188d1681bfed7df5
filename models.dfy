/** The fixed taxonomy (seasons, Spanish and English dish types), the two
    collection-name formats, and the records the pipelines persist as JSON. */
module Models {
  import opened Wrappers
  import opened Dicts
  import opened Json

  datatype Season = Spring | Summer | Autumn | Winter {
    /** The enumeration's value, in Spanish. */
    function Value(): string {
      match this
      case Spring => "Primavera"
      case Summer => "Verano"
      case Autumn => "Otoño"
      case Winter => "Invierno"
    }

    /** Cherry blossom, sun, fallen leaf, snowflake. */
    function Emoji(): string {
      match this
      case Spring => "\U{1F338}"
      case Summer => "\U{2600}\U{FE0F}"
      case Autumn => "\U{1F342}"
      case Winter => "\U{2744}\U{FE0F}"
    }
  }

  /** `Season(v)`: the member whose value is `v`; `None` is Python's `ValueError`. */
  function SeasonOf(v: Json.Value): (r: Option<Season>)
    ensures r.Some? ==> v == Str(r.value.Value())
  {
    match v
    case Str("Primavera") => Some(Spring)
    case Str("Verano") => Some(Summer)
    case Str("Otoño") => Some(Autumn)
    case Str("Invierno") => Some(Winter)
    case _ => None
  }

  datatype DishType = Sopas | Ensaladas | Carnes | Pescados | Pastas | Arroces | Postres | Panes | Salsas {
    function Value(): string {
      match this
      case Sopas => "Sopas"
      case Ensaladas => "Ensaladas"
      case Carnes => "Carnes"
      case Pescados => "Pescados"
      case Pastas => "Pastas"
      case Arroces => "Arroces"
      case Postres => "Postres"
      case Panes => "Panes"
      case Salsas => "Salsas"
    }
  }

  /** `DishType(v)`; `None` is Python's `ValueError`. */
  function DishTypeOf(v: Json.Value): (r: Option<DishType>)
    ensures r.Some? ==> v == Str(r.value.Value())
  {
    match v
    case Str("Sopas") => Some(Sopas)
    case Str("Ensaladas") => Some(Ensaladas)
    case Str("Carnes") => Some(Carnes)
    case Str("Pescados") => Some(Pescados)
    case Str("Pastas") => Some(Pastas)
    case Str("Arroces") => Some(Arroces)
    case Str("Postres") => Some(Postres)
    case Str("Panes") => Some(Panes)
    case Str("Salsas") => Some(Salsas)
    case _ => None
  }

  datatype DishTypeEN = Soups | Salads | Meats | Seafood | Pasta | RiceDishes | Desserts | Breads | Sauces {
    function Value(): string {
      match this
      case Soups => "Soups"
      case Salads => "Salads"
      case Meats => "Meats"
      case Seafood => "Seafood"
      case Pasta => "Pasta"
      case RiceDishes => "Rice Dishes"
      case Desserts => "Desserts"
      case Breads => "Breads"
      case Sauces => "Sauces"
    }
  }

  /** The translation table from Spanish to English dish types. */
  function TranslateDishType(spanish: DishType): DishTypeEN {
    match spanish
    case Sopas => Soups
    case Ensaladas => Salads
    case Carnes => Meats
    case Pescados => Seafood
    case Pastas => Pasta
    case Arroces => RiceDishes
    case Postres => Desserts
    case Panes => Breads
    case Salsas => Sauces
  }

  /** The legacy two-level name, e.g. "🌸 Primavera > Sopas": the season's
      emoji first and the dish type's value last. */
  function GetCollectionName(season: Season, dishType: DishType): (r: string)
    ensures |r| == |season.Emoji()| + |season.Value()| + |dishType.Value()| + 4
    ensures r[..|season.Emoji()|] == season.Emoji()
    ensures r[|r| - |dishType.Value()|..] == dishType.Value()
  {
    season.Emoji() + " " + season.Value() + " > " + dishType.Value()
  }

  /** The flat name: the English dish type alone, e.g. "Seafood". */
  function GetFlatCollectionName(dishType: DishType): (r: string)
    ensures r == TranslateDishType(dishType).Value()
  {
    TranslateDishType(dishType).Value()
  }

  // ---------------------------------------------------------------------
  // Properties of the taxonomy

  /** The enumeration values read back as the members they came from. */
  lemma EnumValuesRoundTrip(s: Season, d: DishType)
    ensures SeasonOf(Str(s.Value())) == Some(s)
    ensures DishTypeOf(Str(d.Value())) == Some(d)
  {
  }

  /** The same, for every member at once. */
  lemma EnumValuesReadBack()
    ensures forall s: Season :: SeasonOf(Str(s.Value())) == Some(s)
    ensures forall d: DishType :: DishTypeOf(Str(d.Value())) == Some(d)
  {
    forall s: Season, d: DishType ensures SeasonOf(Str(s.Value())) == Some(s) && DishTypeOf(Str(d.Value())) == Some(d) {
      EnumValuesRoundTrip(s, d);
    }
  }

  /** The table read backwards: the Spanish dish type of an English one. */
  function UntranslateDishType(english: DishTypeEN): (r: DishType)
    ensures TranslateDishType(r) == english
  {
    match english
    case Soups => Sopas
    case Salads => Ensaladas
    case Meats => Carnes
    case Seafood => Pescados
    case Pasta => Pastas
    case RiceDishes => Arroces
    case Desserts => Postres
    case Breads => Panes
    case Sauces => Salsas
  }

  /** The translation is a bijection: `UntranslateDishType` undoes it, so no two
      Spanish dish types share an English one, and (by the ensures of
      `UntranslateDishType`) every English one is reached. */
  lemma TranslationIsBijective(d: DishType)
    ensures UntranslateDishType(TranslateDishType(d)) == d
  {
  }

  /** The four emojis are pairwise distinct, and so are the season values. */
  lemma SeasonEmojisDistinct(s1: Season, s2: Season)
    requires s1 != s2
    ensures s1.Emoji() != s2.Emoji()
    ensures s1.Value() != s2.Value()
  {
  }

  /** Different dish types get different flat collections. */
  lemma FlatNamesDistinct(d1: DishType, d2: DishType)
    requires d1 != d2
    ensures GetFlatCollectionName(d1) != GetFlatCollectionName(d2)
  {
    TranslationIsBijective(d1);
    TranslationIsBijective(d2);
  }

  // ---------------------------------------------------------------------
  // Persisted records

  /** What `data.get("confidence", 0.8)` gives when the key is missing. */
  const DefaultConfidence: Json.Value := Num(0.8)

  /** A classification; `confidence` is kept as the JSON value it was given. */
  datatype RecipeClassification = RecipeClassification(
    recipeId: string,
    recipeName: string,
    season: Season,
    dishType: DishType,
    confidence: Json.Value)
  {
    function ToDict(): Dict {
      [("recipe_id", Str(recipeId)),
       ("recipe_name", Str(recipeName)),
       ("season", Str(season.Value())),
       ("dish_type", Str(dishType.Value())),
       ("confidence", confidence)]
    }

    /** The same dict without its last entry, "confidence". */
    lemma LookupWithoutConfidence(i: nat)
      requires i < 4
      ensures Get(ToDict()[..4], ToDict()[i].0) == Some(ToDict()[i].1)
      ensures Get(ToDict()[..4], "confidence") == None
    {
      assert Keys(ToDict()) == ClassificationKeys;
      ClassificationKeysFront(ToDict(), i);
      ClassificationKeysLast(ToDict());
    }

    /** Each key of the dict reads back its own entry. */
    lemma Lookup(i: nat)
      requires i < |ToDict()|
      ensures Get(ToDict(), ToDict()[i].0) == Some(ToDict()[i].1)
    {
      assert Keys(ToDict()) == ClassificationKeys;
      ClassificationKeysLookup(ToDict(), i);
    }
  }

  /** The keys `RecipeClassification.to_dict` writes, in its order. */
  const ClassificationKeys: seq<string> := ["recipe_id", "recipe_name", "season", "dish_type", "confidence"]

  lemma ClassificationKeysLookup(d: Dict, i: nat)
    requires Keys(d) == ClassificationKeys && i < |d|
    ensures Get(d, d[i].0) == Some(d[i].1)
  {
    ClassificationKeysDistinct();
    GetAt(d, i);
  }

  lemma ClassificationKeysFront(d: Dict, i: nat)
    requires Keys(d) == ClassificationKeys && i < 4
    ensures Get(d[..4], d[i].0) == Some(d[i].1)
  {
    ClassificationKeysDistinct();
    var front := d[..4];
    assert forall j | 0 <= j < 4 :: front[j] == d[j];
    GetAt(front, i);
  }

  lemma ClassificationKeysLast(d: Dict)
    requires Keys(d) == ClassificationKeys
    ensures Get(d[..4], "confidence") == None
  {
    ClassificationKeysDistinct();
    var front := d[..4];
    forall j | 0 <= j < 4 ensures front[j].0 != ClassificationKeys[4] {
      assert front[j] == d[j];
    }
    GetMissing(front, ClassificationKeys[4]);
  }

  lemma ClassificationKeysDistinct()
    ensures forall i, j | 0 <= i < j < |ClassificationKeys| :: ClassificationKeys[i] != ClassificationKeys[j]
  {
    var lengths := [9, 11, 6, 9, 10];
    assert forall i | 0 <= i < 5 :: |ClassificationKeys[i]| == lengths[i];
    assert ClassificationKeys[0][0] == 'r' && ClassificationKeys[3][0] == 'd';
  }

  /** `RecipeClassification.from_dict`; `None` is a raised `KeyError` or
      `ValueError` (or, for the two strings, a value that is not a string). */
  function ClassificationFromDict(data: Dict): (r: Option<RecipeClassification>)
    ensures r.Some? ==>
      && Get(data, "recipe_id") == Some(Str(r.value.recipeId))
      && Get(data, "recipe_name") == Some(Str(r.value.recipeName))
      && Get(data, "season") == Some(Str(r.value.season.Value()))
      && Get(data, "dish_type") == Some(Str(r.value.dishType.Value()))
      && r.value.confidence == Get(data, "confidence").GetOr(DefaultConfidence)
  {
    match (GetStr(data, "recipe_id"), GetStr(data, "recipe_name"), Get(data, "season"), Get(data, "dish_type"))
    case (Some(id), Some(name), Some(sv), Some(dv)) =>
      (match (SeasonOf(sv), DishTypeOf(dv))
       case (Some(season), Some(dishType)) =>
         Some(RecipeClassification(id, name, season, dishType, Get(data, "confidence").GetOr(DefaultConfidence)))
       case _ => None)
    case _ => None
  }

  lemma ClassificationRoundTrip(c: RecipeClassification)
    ensures ClassificationFromDict(c.ToDict()) == Some(c)
  {
    c.Lookup(0); c.Lookup(1); c.Lookup(2); c.Lookup(3); c.Lookup(4);
    EnumValuesRoundTrip(c.season, c.dishType);
  }

  /** A stored classification without a confidence reads back with 0.8. */
  lemma ClassificationDefaultConfidence(c: RecipeClassification)
    ensures ClassificationFromDict(c.ToDict()[..4]) == Some(c.(confidence := DefaultConfidence))
  {
    c.LookupWithoutConfidence(0);
    c.LookupWithoutConfidence(1);
    c.LookupWithoutConfidence(2);
    c.LookupWithoutConfidence(3);
    EnumValuesRoundTrip(c.season, c.dishType);
  }

  datatype RecipeDetails = RecipeDetails(recipeId: string, name: string, ingredientsSummary: string)
  {
    function ToDict(): Dict {
      [("recipe_id", Str(recipeId)),
       ("name", Str(name)),
       ("ingredients_summary", Str(ingredientsSummary))]
    }

    /** Each key of the dict reads back its own entry. */
    lemma Lookup(i: nat)
      requires i < |ToDict()|
      ensures Get(ToDict(), ToDict()[i].0) == Some(ToDict()[i].1)
    {
      GetAt(ToDict(), i);
    }
  }

  /** `RecipeDetails.from_dict`; `None` is a raised `KeyError` (or a value
      that is not a string). */
  function DetailsFromDict(data: Dict): (r: Option<RecipeDetails>)
    ensures r.Some? <==>
      && Get(data, "recipe_id").Some? && Get(data, "recipe_id").value.Str?
      && Get(data, "name").Some? && Get(data, "name").value.Str?
      && Get(data, "ingredients_summary").Some? && Get(data, "ingredients_summary").value.Str?
    ensures r.Some? ==> r.value.ToDict() == [("recipe_id", Get(data, "recipe_id").value),
                                              ("name", Get(data, "name").value),
                                              ("ingredients_summary", Get(data, "ingredients_summary").value)]
  {
    match (GetStr(data, "recipe_id"), GetStr(data, "name"), GetStr(data, "ingredients_summary"))
    case (Some(id), Some(name), Some(summary)) => Some(RecipeDetails(id, name, summary))
    case _ => None
  }

  lemma DetailsRoundTrip(r: RecipeDetails)
    ensures DetailsFromDict(r.ToDict()) == Some(r)
  {
    r.Lookup(0); r.Lookup(1); r.Lookup(2);
  }

  // ---------------------------------------------------------------------
  // Import state

  /** Progress of the import pipeline, bound to one export file. The two
      recipe maps hold the dicts written by `to_dict` of the records above. */
  datatype ImportState = ImportState(
    exportFile: string,
    fetchedRecipes: ODict<Dict>,
    classifications: ODict<Dict>,
    createdCollections: ODict<Option<string>>,
    assignedRecipes: set<string>)
  {
    function ToDict(): Dict {
      [("export_file", Str(exportFile)),
       ("fetched_recipes", Obj(MapValues(fetchedRecipes, ObjValue))),
       ("classifications", Obj(MapValues(classifications, ObjValue))),
       ("created_collections", Obj(MapValues(createdCollections, IdValue))),
       ("assigned_recipes", SetValue(assignedRecipes))]
    }

    /** Each key of the dict reads back its own entry. */
    lemma Lookup(i: nat)
      requires i < |ToDict()|
      ensures Get(ToDict(), ToDict()[i].0) == Some(ToDict()[i].1)
    {
      assert Keys(ToDict()) == StateKeys;
      StateKeysLookup(ToDict(), i);
    }
  }

  /** The keys `ImportState.to_dict` writes, in its order. */
  const StateKeys: seq<string> := ["export_file", "fetched_recipes", "classifications", "created_collections", "assigned_recipes"]

  lemma StateKeysLookup(d: Dict, i: nat)
    requires Keys(d) == StateKeys && i < |d|
    ensures Get(d, d[i].0) == Some(d[i].1)
  {
    StateKeysDistinct();
    GetAt(d, i);
  }

  lemma StateKeysDistinct()
    ensures forall i, j | 0 <= i < j < |StateKeys| :: StateKeys[i] != StateKeys[j]
  {
    var lengths := [11, 15, 15, 19, 16];
    assert forall i | 0 <= i < 5 :: |StateKeys[i]| == lengths[i];
    assert StateKeys[1][0] == 'f' && StateKeys[2][0] == 'c';
  }

  /** `ImportState(export_file=f)`: nothing done yet. */
  function FreshImportState(exportFile: string): ImportState {
    ImportState(exportFile, [], [], [], {})
  }

  /** The values of a JSON object, each read back by `f`; `None` if one fails. */
  function AsODict<W>(fields: Dict, f: Json.Value -> Option<W>): (r: Option<ODict<W>>)
    ensures r.Some? ==> Keys(r.value) == Keys(fields)
  {
    if |fields| == 0 then Some([])
    else match (f(fields[0].1), AsODict(fields[1..], f))
      case (Some(w), Some(rest)) => Some([(fields[0].0, w)] + rest)
      case _ => None
  }

  lemma {:induction false} AsODictMapValues<W>(d: ODict<W>, g: W -> Json.Value, f: Json.Value -> Option<W>)
    requires forall w :: f(g(w)) == Some(w)
    ensures AsODict(MapValues(d, g), f) == Some(d)
    decreases |d|
  {
    if |d| > 0 {
      AsODictMapValues(d[1..], g, f);
      assert MapValues(d, g)[1..] == MapValues(d[1..], g);
      assert d == [d[0]] + d[1..];
    }
  }

  function ObjValue(d: Dict): Json.Value {
    Obj(d)
  }

  function AsDict(v: Json.Value): Option<Dict> {
    if v.Obj? then Some(v.fields) else None
  }

  /** `data.get(key, {})` read as a JSON object whose values `f` accepts. */
  function OptionalODict<W>(data: Dict, key: string, f: Json.Value -> Option<W>): Option<ODict<W>> {
    var v := Get(data, key);
    if v.None? then Some([])
    else if v.value.Obj? then AsODict(v.value.fields, f)
    else None
  }

  /** `ImportState.from_dict`. `None` is the `KeyError` of a missing
      "export_file", or a field of another JSON type than the state's. */
  function ImportStateFromDict(data: Dict): (r: Option<ImportState>)
    ensures r.Some? ==> Get(data, "export_file") == Some(Str(r.value.exportFile))
  {
    match GetStr(data, "export_file")
    case Some(f) =>
      (match (OptionalODict(data, "fetched_recipes", AsDict),
              OptionalODict(data, "classifications", AsDict),
              OptionalODict(data, "created_collections", AsId),
              Get(data, "assigned_recipes"))
       case (Some(fetched), Some(classified), Some(created), None) =>
         Some(ImportState(f, fetched, classified, created, {}))
       case (Some(fetched), Some(classified), Some(created), Some(v)) =>
         (match AsSet(v)
          case Some(ids) => Some(ImportState(f, fetched, classified, created, ids))
          case None => None)
       case _ => None)
    case None => None
  }

  /** `ImportState.from_dict(s.to_dict()) == s`, the assigned set surviving the
      set -> list -> set conversion. */
  lemma ImportStateRoundTrip(s: ImportState)
    ensures ImportStateFromDict(s.ToDict()) == Some(s)
  {
    s.Lookup(0);
    StateFieldsReadBack(s);
    s.Lookup(4);
    SetValueRoundTrip(s.assignedRecipes);
  }

  /** The three maps of a written state read back as they were. */
  lemma StateFieldsReadBack(s: ImportState)
    ensures OptionalODict(s.ToDict(), "fetched_recipes", AsDict) == Some(s.fetchedRecipes)
    ensures OptionalODict(s.ToDict(), "classifications", AsDict) == Some(s.classifications)
    ensures OptionalODict(s.ToDict(), "created_collections", AsId) == Some(s.createdCollections)
  {
    s.Lookup(1);
    AsODictMapValues(s.fetchedRecipes, ObjValue, AsDict);
    s.Lookup(2);
    AsODictMapValues(s.classifications, ObjValue, AsDict);
    s.Lookup(3);
    IdValueRoundTrip();
    AsODictMapValues(s.createdCollections, IdValue, AsId);
  }

  /** Missing optional keys read as empty maps and an empty set. */
  lemma ImportStateDefaults(f: string)
    ensures ImportStateFromDict([("export_file", Str(f))]) == Some(FreshImportState(f))
  {
  }
}
