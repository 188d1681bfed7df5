/** The import pipeline: the recipes listed in an export are fetched from the
    platform, classified by the language model into a season and a dish
    type, and filed into collections named after both. Progress is kept in
    an `ImportState`, so that a run resumed on the same export skips the
    recipes already fetched and classified. */
module Importer {
  import opened Wrappers
  import opened Seqs
  import opened Dicts
  import opened Json
  import opened Text
  import opened Models
  import opened Remote
  import opened Collections
  import opened Regions
  import opened Resume
  import opened Classifier

  // ---------------------------------------------------------------------
  // Ingredient summaries

  /** An entry of a recipe's ingredient list as the platform client returns
      it: a plain string, or an object with whichever of the attributes
      `text`, `name` and `ingredients` (a nested group) it has. */
  datatype Ingredient =
    | Plain(s: string)
    | Entry(text: Option<string>, name: Option<string>, ingredients: Option<seq<Ingredient>>)

  /** What `getattr(details, attribute, None)` gives for an ingredient
      attribute: nothing, a list, or another value, truthy or not. */
  datatype Attribute = Absent | List(items: seq<Ingredient>) | Other(truthy: bool)

  /** The recipe details `get_recipe_details` returns, as far as the importer
      reads them: the name, and the attributes `ingredients` and
      `recipeIngredientGroups`. */
  datatype FetchedRecipe = FetchedRecipe(name: Option<string>, ingredients: Attribute, groups: Attribute)

  predicate Truthy(a: Attribute) {
    match a
    case Absent => false
    case List(items) => |items| > 0
    case Other(t) => t
  }

  /** Top-level items examined, sub-items examined per group, and tokens
      kept in the summary. */
  const MaxItems: nat := 10
  const MaxSubItems: nat := 5
  const MaxTokens: nat := 8

  const NoIngredients: string := "No ingredients found"

  /** `details.ingredients or details.recipeIngredientGroups or []`, of which
      only a list is read. */
  function IngredientItems(d: FetchedRecipe): seq<Ingredient> {
    var chosen := if Truthy(d.ingredients) then d.ingredients else if Truthy(d.groups) then d.groups else List([]);
    if chosen.List? then chosen.items else []
  }

  /** The tokens of the sub-items of a group: the text before the first
      comma of each that has a `text`. */
  function SubTokens(subs: seq<Ingredient>): (r: seq<string>)
    ensures |r| <= |subs|
  {
    if |subs| == 0 then []
    else
      var sub := subs[|subs| - 1];
      SubTokens(subs[..|subs| - 1]) + if sub.Entry? && sub.text.Some? then [BeforeComma(sub.text.value)] else []
  }

  /** What one top-level item contributes: the text before the first comma
      of its `text`, else its `name` whole, else (a string) the text before
      its first comma, else the tokens of the first sub-items of its group. */
  function ItemTokens(item: Ingredient): (r: seq<string>)
    ensures |r| <= MaxSubItems
  {
    match item
    case Plain(s) => [BeforeComma(s)]
    case Entry(text, name, group) =>
      if text.Some? then [BeforeComma(text.value)]
      else if name.Some? then [name.value]
      else if group.Some? then SubTokens(Take(group.value, MaxSubItems))
      else []
  }

  /** What each of the items examined contributes, in order. */
  function ItemParts(d: FetchedRecipe): (r: seq<seq<string>>)
    ensures |r| == Min(MaxItems, |IngredientItems(d)|)
    ensures forall i | 0 <= i < |r| :: r[i] == ItemTokens(IngredientItems(d)[i])
  {
    var top := Take(IngredientItems(d), MaxItems);
    seq(|top|, i requires 0 <= i < |top| => ItemTokens(top[i]))
  }

  /** The `ingredients` list `_summarize_ingredients` builds. */
  function Tokens(d: FetchedRecipe): seq<string> {
    Concat(ItemParts(d))
  }

  /** `_summarize_ingredients(details)`: the first tokens joined by ", ", or
      the fallback text when that is empty. */
  function Summary(d: FetchedRecipe): string {
    var joined := Join(", ", Take(Tokens(d), MaxTokens));
    if joined == "" then NoIngredients else joined
  }

  /** A group token is the text before the first comma of a sub-item. */
  lemma {:induction false} SubTokensFrom(subs: seq<Ingredient>, t: string)
    ensures t in SubTokens(subs) <==>
      exists k | 0 <= k < |subs| :: subs[k].Entry? && subs[k].text.Some? && t == BeforeComma(subs[k].text.value)
    decreases |subs|
  {
    if |subs| > 0 {
      var init := subs[..|subs| - 1];
      SubTokensFrom(init, t);
      if t in SubTokens(subs) {
        if t in SubTokens(init) {
          var k :| 0 <= k < |init| && init[k].Entry? && init[k].text.Some? && t == BeforeComma(init[k].text.value);
          assert subs[k] == init[k];
        }
      } else {
        forall k | 0 <= k < |subs| ensures !(subs[k].Entry? && subs[k].text.Some? && t == BeforeComma(subs[k].text.value)) {
          if k < |init| {
            assert subs[k] == init[k];
          }
        }
      }
    }
  }

  /** The tokens of a group come from its first five sub-items, each cut at its
      first comma. */
  lemma GroupTokens(subs: seq<Ingredient>, t: string)
    requires t in ItemTokens(Entry(None, None, Some(subs)))
    ensures exists k | 0 <= k < Min(MaxSubItems, |subs|) ::
      subs[k].Entry? && subs[k].text.Some? && t == BeforeComma(subs[k].text.value) && ',' !in t
  {
    var first := Take(subs, MaxSubItems);
    SubTokensFrom(first, t);
    var k :| 0 <= k < |first| && first[k].Entry? && first[k].text.Some? && t == BeforeComma(first[k].text.value);
    assert first[k] == subs[k];
  }

  /** Only the first ten items are read: every token comes from one of them,
      and there are at most fifty. */
  lemma TokensFromFirstItems(d: FetchedRecipe)
    ensures |Tokens(d)| <= MaxSubItems * MaxItems
    ensures forall t | t in Tokens(d) ::
      exists i | 0 <= i < Min(MaxItems, |IngredientItems(d)|) :: t in ItemTokens(IngredientItems(d)[i])
  {
    var parts := ItemParts(d);
    ConcatLength(parts, MaxSubItems);
    forall t | t in Tokens(d)
      ensures exists i | 0 <= i < Min(MaxItems, |IngredientItems(d)|) :: t in ItemTokens(IngredientItems(d)[i])
    {
      ConcatMember(parts, t);
      var i :| 0 <= i < |parts| && t in parts[i];
    }
  }

  /** The summary is the fallback text exactly when there is no token or a
      single empty one; otherwise it joins at most eight tokens. */
  lemma SummaryMeaning(d: FetchedRecipe)
    ensures Tokens(d) == [] || Tokens(d) == [""] ==> Summary(d) == NoIngredients
    ensures Tokens(d) != [] && Tokens(d) != [""] ==>
      Summary(d) == Join(", ", Take(Tokens(d), MaxTokens)) && |Take(Tokens(d), MaxTokens)| <= MaxTokens
  {
    var kept := Take(Tokens(d), MaxTokens);
    JoinEmpty(", ", kept);
    if |Tokens(d)| >= 2 {
      assert |kept| >= 2;
    } else if |Tokens(d)| == 1 {
      assert kept == Tokens(d);
    }
  }

  lemma SubTokensSnoc(subs: seq<Ingredient>, k: nat)
    requires k < |subs|
    ensures SubTokens(subs[..k + 1]) ==
      SubTokens(subs[..k]) + if subs[k].Entry? && subs[k].text.Some? then [BeforeComma(subs[k].text.value)] else []
  {
    assert subs[..k + 1][..k] == subs[..k];
  }

  /** The inner loop of `_summarize_ingredients`, over the sub-items of a
      group. */
  method SubItemTokens(subs: seq<Ingredient>) returns (tokens: seq<string>)
    ensures tokens == SubTokens(subs)
  {
    tokens := [];
    for k := 0 to |subs|
      invariant tokens == SubTokens(subs[..k])
    {
      SubTokensSnoc(subs, k);
      if subs[k].Entry? && subs[k].text.Some? {
        tokens := tokens + [BeforeComma(subs[k].text.value)];
      }
    }
    assert subs[..|subs|] == subs;
  }

  /** The body of the outer loop of `_summarize_ingredients`, for one item. */
  method ItemTokensOf(item: Ingredient) returns (tokens: seq<string>)
    ensures tokens == ItemTokens(item)
  {
    if item.Plain? {
      tokens := [BeforeComma(item.s)];
    } else if item.text.Some? {
      tokens := [BeforeComma(item.text.value)];
    } else if item.name.Some? {
      tokens := [item.name.value];
    } else if item.ingredients.Some? {
      tokens := SubItemTokens(Take(item.ingredients.value, MaxSubItems));
    } else {
      tokens := [];
    }
  }

  /** `_summarize_ingredients`. */
  method SummarizeIngredients(d: FetchedRecipe) returns (summary: string)
    ensures summary == Summary(d)
  {
    var top := Take(IngredientItems(d), MaxItems);
    ghost var parts := ItemParts(d);
    var tokens: seq<string> := [];
    for i := 0 to |top|
      invariant tokens == Concat(parts[..i])
    {
      ConcatSnoc(parts, i);
      var more := ItemTokensOf(top[i]);
      tokens := tokens + more;
    }
    assert parts[..|top|] == parts;
    var joined := Join(", ", Take(tokens, MaxTokens));
    summary := if joined == "" then NoIngredients else joined;
  }

  // ---------------------------------------------------------------------
  // Fetching

  /** The export's ids not yet fetched, in export order. */
  function PendingFetch(ids: seq<string>, fetched: ODict<Dict>): (r: seq<string>)
    ensures |r| <= |ids|
  {
    if |ids| == 0 then []
    else PendingFetch(ids[..|ids| - 1], fetched) + if ids[|ids| - 1] in Keys(fetched) then [] else [ids[|ids| - 1]]
  }

  /** An id is pending exactly when the export lists it and it is not fetched. */
  lemma {:induction false} PendingFetchHas(ids: seq<string>, fetched: ODict<Dict>, x: string)
    ensures x in PendingFetch(ids, fetched) <==> x in ids && x !in Keys(fetched)
    decreases |ids|
  {
    if |ids| > 0 {
      var init := ids[..|ids| - 1];
      PendingFetchHas(init, fetched, x);
      assert ids == init + [ids[|ids| - 1]];
    }
  }

  /** Pending ids keep the export's order. */
  lemma {:induction false} PendingFetchAppend(a: seq<string>, b: seq<string>, fetched: ODict<Dict>)
    ensures PendingFetch(a + b, fetched) == PendingFetch(a, fetched) + PendingFetch(b, fetched)
    decreases |b|
  {
    if |b| == 0 {
      assert a + b == a;
    } else {
      var init := b[..|b| - 1];
      assert a + b == (a + init) + [b[|b| - 1]];
      assert (a + b)[..|a + b| - 1] == a + init;
      PendingFetchAppend(a, init, fetched);
    }
  }

  /** The record kept for a fetched recipe; the name falls back to the id. */
  function FetchedDetails(id: string, d: FetchedRecipe): RecipeDetails {
    RecipeDetails(id, d.name.GetOr(id), Summary(d))
  }

  /** `fetched_recipes` after fetching `id`; `fetch` gives `None` for a fetch
      that raises, which is skipped. */
  function FetchOne(fetched: ODict<Dict>, id: string, fetch: string -> Option<FetchedRecipe>): (r: ODict<Dict>)
    ensures forall k :: Get(r, k) == if k == id && fetch(id).Some? then Some(FetchedDetails(id, fetch(id).value).ToDict()) else Get(fetched, k)
  {
    match fetch(id)
    case None => fetched
    case Some(d) => Put(fetched, id, FetchedDetails(id, d).ToDict())
  }

  /** `fetched_recipes` after fetching `ids` in turn. */
  function FetchAll(fetched: ODict<Dict>, ids: seq<string>, fetch: string -> Option<FetchedRecipe>): ODict<Dict> {
    if |ids| == 0 then fetched else FetchOne(FetchAll(fetched, ids[..|ids| - 1], fetch), ids[|ids| - 1], fetch)
  }

  lemma FetchAllSnoc(fetched: ODict<Dict>, ids: seq<string>, i: nat, fetch: string -> Option<FetchedRecipe>)
    requires i < |ids|
    ensures FetchAll(fetched, ids[..i + 1], fetch) == FetchOne(FetchAll(fetched, ids[..i], fetch), ids[i], fetch)
  {
    assert ids[..i + 1][..i] == ids[..i];
  }

  /** A fetched id holds the record of its details, every other key what it
      held before: a failed fetch changes nothing and nothing is removed. */
  lemma {:induction false} FetchAllGet(fetched: ODict<Dict>, ids: seq<string>, fetch: string -> Option<FetchedRecipe>, k: string)
    ensures Get(FetchAll(fetched, ids, fetch), k) ==
      if k in ids && fetch(k).Some? then Some(FetchedDetails(k, fetch(k).value).ToDict()) else Get(fetched, k)
    decreases |ids|
  {
    if |ids| > 0 {
      var init, id := ids[..|ids| - 1], ids[|ids| - 1];
      FetchAllGet(fetched, init, fetch, k);
      assert ids == init + [id];
    }
  }

  /** The fetch stage keeps every recipe fetched before, and afterwards every
      listed id whose fetch succeeds is fetched, its record naming that id. */
  lemma FetchStage(fetched: ODict<Dict>, ids: seq<string>, fetch: string -> Option<FetchedRecipe>)
    ensures var after := FetchAll(fetched, PendingFetch(ids, fetched), fetch);
      && (forall k | k in Keys(fetched) :: Get(after, k) == Get(fetched, k))
      && (forall k | k in ids && fetch(k).Some? :: k in Keys(after))
      && (forall k | k in ids && k !in Keys(fetched) && fetch(k).Some? ::
           Get(after, k) == Some(FetchedDetails(k, fetch(k).value).ToDict()))
  {
    var pending := PendingFetch(ids, fetched);
    var after := FetchAll(fetched, pending, fetch);
    forall k | k in Keys(fetched) ensures Get(after, k) == Get(fetched, k) {
      PendingFetchHas(ids, fetched, k);
      FetchAllGet(fetched, pending, fetch, k);
    }
    forall k | k in ids && fetch(k).Some? ensures k in Keys(after) {
      PendingFetchHas(ids, fetched, k);
      FetchAllGet(fetched, pending, fetch, k);
    }
    forall k | k in ids && k !in Keys(fetched) && fetch(k).Some?
      ensures Get(after, k) == Some(FetchedDetails(k, fetch(k).value).ToDict())
    {
      PendingFetchHas(ids, fetched, k);
      FetchAllGet(fetched, pending, fetch, k);
    }
  }

  /** The stored record reads back as the recipe it was made from, whose
      `recipe_id` is the id fetched. */
  lemma FetchedReadsBack(id: string, d: FetchedRecipe)
    ensures DetailsFromDict(FetchedDetails(id, d).ToDict()) == Some(FetchedDetails(id, d))
    ensures FetchedDetails(id, d).recipeId == id
  {
    DetailsRoundTrip(FetchedDetails(id, d));
  }

  // ---------------------------------------------------------------------
  // Classifying

  /** What each fetched entry gives the pending list: nothing when it is
      classified, its details otherwise, or `Raised` for the `KeyError` of a
      record that `RecipeDetails.from_dict` cannot read. */
  function PendingOutcomes(fetched: ODict<Dict>, classifications: ODict<Dict>): (r: seq<Outcome<Option<RecipeDetails>>>)
    ensures |r| == |fetched|
  {
    seq(|fetched|, i requires 0 <= i < |fetched| =>
      if fetched[i].0 in Keys(classifications) then Returned(None)
      else match DetailsFromDict(fetched[i].1)
        case None => Raised
        case Some(r) => Returned(Some(r)))
  }

  /** The fetched recipes not yet classified, in fetch order. */
  function PendingClassification(fetched: ODict<Dict>, classifications: ODict<Dict>): Outcome<seq<RecipeDetails>> {
    Collect(PendingOutcomes(fetched, classifications))
  }

  /** Building the list raises exactly when an unclassified record is not
      readable. */
  lemma PendingClassificationRaises(fetched: ODict<Dict>, classifications: ODict<Dict>)
    ensures PendingClassification(fetched, classifications).Raised? <==>
      exists i | 0 <= i < |fetched| :: fetched[i].0 !in Keys(classifications) && DetailsFromDict(fetched[i].1).None?
  {
    var outs := PendingOutcomes(fetched, classifications);
    CollectRaises(outs);
    if PendingClassification(fetched, classifications).Raised? {
      var i :| 0 <= i < |outs| && outs[i].Raised?;
    } else {
      forall i | 0 <= i < |fetched| && fetched[i].0 !in Keys(classifications)
        ensures DetailsFromDict(fetched[i].1).Some?
      {
        assert !outs[i].Raised?;
      }
    }
  }

  /** Otherwise it holds exactly the details of the unclassified records. */
  lemma PendingClassificationHas(fetched: ODict<Dict>, classifications: ODict<Dict>, x: RecipeDetails)
    requires PendingClassification(fetched, classifications).Returned?
    ensures x in PendingClassification(fetched, classifications).value <==>
      exists i | 0 <= i < |fetched| :: fetched[i].0 !in Keys(classifications) && DetailsFromDict(fetched[i].1) == Some(x)
  {
    var outs := PendingOutcomes(fetched, classifications);
    CollectKeeps(outs, x);
    if x in PendingClassification(fetched, classifications).value {
      var i :| 0 <= i < |outs| && outs[i] == Returned(Some(x));
    } else {
      forall i | 0 <= i < |fetched| && fetched[i].0 !in Keys(classifications)
        ensures DetailsFromDict(fetched[i].1) != Some(x)
      {
        assert outs[i] != Returned(Some(x));
      }
    }
  }

  /** `classifications` after `classifications[c.recipe_id] = c.to_dict()`
      for each result in turn. */
  function Merge(classifications: ODict<Dict>, results: seq<RecipeClassification>): ODict<Dict> {
    if |results| == 0 then classifications
    else
      var c := results[|results| - 1];
      Put(Merge(classifications, results[..|results| - 1]), c.recipeId, c.ToDict())
  }

  /** The last result for recipe `id`. */
  function LastFor(results: seq<RecipeClassification>, id: string): (r: Option<RecipeClassification>)
    ensures r.Some? ==> r.value in results && r.value.recipeId == id
  {
    if |results| == 0 then None
    else if results[|results| - 1].recipeId == id then Some(results[|results| - 1])
    else LastFor(results[..|results| - 1], id)
  }

  /** A recipe has a last result exactly when it has a result. */
  lemma {:induction false} LastForHas(results: seq<RecipeClassification>, id: string)
    ensures LastFor(results, id).Some? <==> exists i | 0 <= i < |results| :: results[i].recipeId == id
    decreases |results|
  {
    if |results| > 0 {
      var init := results[..|results| - 1];
      LastForHas(init, id);
      if LastFor(init, id).Some? && results[|results| - 1].recipeId != id {
        var i :| 0 <= i < |init| && init[i].recipeId == id;
        assert results[i] == init[i];
      }
      if LastFor(results, id).None? {
        forall i | 0 <= i < |results| ensures results[i].recipeId != id {
          if i < |init| {
            assert results[i] == init[i];
          }
        }
      }
    }
  }

  /** Last write wins: a recipe with results holds its last one, and every
      other recipe what it held before, so nothing is ever removed. */
  lemma {:induction false} MergeGet(classifications: ODict<Dict>, results: seq<RecipeClassification>, id: string)
    ensures Get(Merge(classifications, results), id) ==
      match LastFor(results, id)
      case Some(c) => Some(c.ToDict())
      case None => Get(classifications, id)
    decreases |results|
  {
    if |results| > 0 {
      MergeGet(classifications, results[..|results| - 1], id);
    }
  }

  lemma MergeBatchSnoc(classifications: ODict<Dict>, reported: seq<seq<RecipeClassification>>, j: nat)
    requires j < |reported|
    ensures Merge(classifications, Concat(reported[..j + 1])) == Merge(Merge(classifications, Concat(reported[..j])), reported[j])
  {
    assert reported[..j + 1] == reported[..j] + [reported[j]];
    ConcatAppend(reported[..j], [reported[j]]);
    ConcatSingle(reported[j]);
    MergeAppend(classifications, Concat(reported[..j]), reported[j]);
  }

  /** Merging the results of two batches one after the other. */
  lemma {:induction false} MergeAppend(classifications: ODict<Dict>, a: seq<RecipeClassification>, b: seq<RecipeClassification>)
    ensures Merge(classifications, a + b) == Merge(Merge(classifications, a), b)
    decreases |b|
  {
    if |b| == 0 {
      assert a + b == a;
    } else {
      var init := b[..|b| - 1];
      assert (a + b)[..|a + b| - 1] == a + init;
      assert (a + b)[|a + b| - 1] == b[|b| - 1];
      MergeAppend(classifications, a, init);
    }
  }

  lemma MergeSnoc(classifications: ODict<Dict>, results: seq<RecipeClassification>, k: nat)
    requires k < |results|
    ensures Merge(classifications, results[..k + 1]) ==
      Put(Merge(classifications, results[..k]), results[k].recipeId, results[k].ToDict())
  {
    assert results[..k + 1][..k] == results[..k];
  }

  /** What the classification stage merges: every result of the batches of
      the unclassified recipes that did not raise. */
  function Classified(fetched: ODict<Dict>, classifications: ODict<Dict>, instructions: string,
                      respond: string -> Outcome<string>, decode: string -> Option<Json.Value>): seq<RecipeClassification>
    requires PendingClassification(fetched, classifications).Returned?
  {
    Concat(Successes(Chunks(PendingClassification(fetched, classifications).value, Classifier.BatchSize), instructions, respond, decode))
  }

  /** A recipe the stage adds is one that was fetched and not classified,
      and it is filed under the id its fetched record names. */
  lemma NewlyClassified(fetched: ODict<Dict>, classifications: ODict<Dict>, instructions: string,
                        respond: string -> Outcome<string>, decode: string -> Option<Json.Value>, id: string)
    requires PendingClassification(fetched, classifications).Returned?
    requires Get(classifications, id).None?
    requires Get(Merge(classifications, Classified(fetched, classifications, instructions, respond, decode)), id).Some?
    ensures exists i | 0 <= i < |fetched| ::
      && fetched[i].0 !in Keys(classifications)
      && DetailsFromDict(fetched[i].1).Some? && DetailsFromDict(fetched[i].1).value.recipeId == id
  {
    var pending := PendingClassification(fetched, classifications).value;
    var results := Classified(fetched, classifications, instructions, respond, decode);
    MergeGet(classifications, results, id);
    var c := LastFor(results, id).value;
    AllSound(pending, instructions, respond, decode, c);
    var j :| 0 <= j < |pending| && pending[j].recipeId == c.recipeId && pending[j].name == c.recipeName;
    PendingClassificationHas(fetched, classifications, pending[j]);
  }

  // ---------------------------------------------------------------------
  // Dry run

  /** `fetched_recipes.get(recipe_id, {}).get("name", recipe_id)`. */
  function DisplayNameOf(fetched: ODict<Dict>, id: string): Json.Value {
    Get(Get(fetched, id).GetOr([]), "name").GetOr(Str(id))
  }

  /** Each classification's collection name (`None` when its season or
      dish type is missing or invalid, which is skipped) with the recipe's
      display name. */
  function DryFilingOf(classifications: ODict<Dict>, fetched: ODict<Dict>): (r: seq<(Option<string>, Json.Value)>)
    ensures |r| == |classifications|
    ensures forall i | 0 <= i < |r| :: r[i] == (GroupName(classifications[i].1), DisplayNameOf(fetched, classifications[i].0))
  {
    seq(|classifications|, i requires 0 <= i < |classifications| =>
      (GroupName(classifications[i].1), DisplayNameOf(fetched, classifications[i].0)))
  }

  /** `groups.setdefault(name, []).append(recipe_name)`, skipped without a
      name. */
  function AddEntry(g: ODict<seq<Json.Value>>, e: (Option<string>, Json.Value)): (r: ODict<seq<Json.Value>>)
    ensures forall name :: name in Keys(r) <==> name in Keys(g) || e.0 == Some(name)
    ensures forall name ::
      Get(r, name).GetOr([]) == Get(g, name).GetOr([]) + if e.0 == Some(name) then [e.1] else []
  {
    if e.0.None? then g else Put(g, e.0.value, Get(g, e.0.value).GetOr([]) + [e.1])
  }

  /** The groups of the dry-run summary, one entry after the other. */
  function DryGroups(fs: seq<(Option<string>, Json.Value)>): ODict<seq<Json.Value>> {
    if |fs| == 0 then [] else AddEntry(DryGroups(fs[..|fs| - 1]), fs[|fs| - 1])
  }

  /** The display names filed under `name`, in order. */
  function FiledUnder(fs: seq<(Option<string>, Json.Value)>, name: string): seq<Json.Value> {
    if |fs| == 0 then []
    else FiledUnder(fs[..|fs| - 1], name) + if fs[|fs| - 1].0 == Some(name) then [fs[|fs| - 1].1] else []
  }

  /** A group holds the display names of the recipes filed under it, in
      the order of the classifications. */
  lemma {:induction false} DryGroupsGet(fs: seq<(Option<string>, Json.Value)>, name: string)
    ensures Get(DryGroups(fs), name).GetOr([]) == FiledUnder(fs, name)
    decreases |fs|
  {
    if |fs| > 0 {
      DryGroupsGet(fs[..|fs| - 1], name);
    }
  }

  /** A group is listed exactly when some recipe is filed under it. */
  lemma {:induction false} DryGroupsKeys(fs: seq<(Option<string>, Json.Value)>, name: string)
    ensures name in Keys(DryGroups(fs)) <==> FiledUnder(fs, name) != []
    decreases |fs|
  {
    if |fs| > 0 {
      DryGroupsKeys(fs[..|fs| - 1], name);
    }
  }

  /** The names filed under a group are those of the entries that carry it. */
  lemma {:induction false} FiledUnderHas(fs: seq<(Option<string>, Json.Value)>, name: string, x: Json.Value)
    ensures x in FiledUnder(fs, name) <==> exists i | 0 <= i < |fs| :: fs[i] == (Some(name), x)
    decreases |fs|
  {
    if |fs| > 0 {
      var init := fs[..|fs| - 1];
      FiledUnderHas(init, name, x);
      if x in FiledUnder(fs, name) {
        if x in FiledUnder(init, name) {
          var i :| 0 <= i < |init| && init[i] == (Some(name), x);
          assert fs[i] == init[i];
        }
      } else {
        forall i | 0 <= i < |fs| ensures fs[i] != (Some(name), x) {
          if i < |init| {
            assert fs[i] == init[i];
          }
        }
      }
    }
  }

  lemma DryGroupsSnoc(fs: seq<(Option<string>, Json.Value)>, i: nat)
    requires i < |fs|
    ensures DryGroups(fs[..i + 1]) == AddEntry(DryGroups(fs[..i]), fs[i])
  {
    assert fs[..i + 1][..i] == fs[..i];
  }

  /** The grouping loop of `_print_dry_run_summary`. */
  method DryRunGroups(classifications: ODict<Dict>, fetched: ODict<Dict>) returns (groups: ODict<seq<Json.Value>>)
    ensures groups == DryGroups(DryFilingOf(classifications, fetched))
  {
    ghost var fs := DryFilingOf(classifications, fetched);
    groups := [];
    for i := 0 to |classifications|
      invariant groups == DryGroups(fs[..i])
    {
      DryGroupsSnoc(fs, i);
      var name := GroupName(classifications[i].1);
      if name.Some? {
        var recipeName := DisplayNameOf(fetched, classifications[i].0);
        groups := Put(groups, name.value, Get(groups, name.value).GetOr([]) + [recipeName]);
      }
      assert groups == AddEntry(DryGroups(fs[..i]), fs[i]);
    }
    assert fs[..|classifications|] == fs;
  }

  // ---------------------------------------------------------------------
  // The export

  /** `export_data.get("all_recipes", [])`, whose `len` the progress message
      takes before the emptiness test. A missing key and the empty string,
      list and object give no ids (nothing to import); `null`, a boolean or
      a number has no `len`, so the message raises; a list of strings gives
      its ids; any other value, and a document that is not an object, is
      `Raised`. */
  function ExportIds(exportData: Json.Value): (r: Outcome<seq<string>>)
    ensures r == Returned([]) <==>
      exportData.Obj? && Get(exportData.fields, "all_recipes") in {None, Some(Str("")), Some(Arr([])), Some(Obj([]))}
    ensures r.Returned? && r.value != [] ==>
      exportData.Obj? && Get(exportData.fields, "all_recipes") == Some(Arr(Strs(r.value)))
    ensures exportData.Obj? && Get(exportData.fields, "all_recipes").Some? ==>
      var v := Get(exportData.fields, "all_recipes").value;
      v.Null? || v.Bool? || v.Num? ==> r.Raised?
  {
    if !exportData.Obj? then Raised
    else
      match Get(exportData.fields, "all_recipes")
      case None => Returned([])
      case Some(v) =>
        if v == Str("") || v == Arr([]) || v == Obj([]) then Returned([])
        else if v.Arr? && AsStrings(v.items).Some? then Returned(AsStrings(v.items).value)
        else Raised
  }

  /** The ids an export lists are read back as written. */
  lemma ExportIdsOfList(fields: Dict, ids: seq<string>)
    requires Get(fields, "all_recipes") == Some(Arr(Strs(ids)))
    ensures ExportIds(Obj(fields)) == Returned(ids)
  {
    AsStringsStrs(ids);
  }

  // ---------------------------------------------------------------------
  // The importer

  /** `_load_state` of the importer. */
  function LoadImportState(exportFile: string, saved: SavedFile): Outcome<ImportState> {
    LoadState(exportFile, saved, ImportStateFromDict, FreshImportState(exportFile))
  }

  /** A state saved for the same export file is taken up again as it was. */
  lemma ResumeImportState(s: ImportState)
    ensures LoadImportState(s.exportFile, Document(Obj(s.ToDict()))) == Returned(s)
  {
    s.Lookup(0);
    ImportStateRoundTrip(s);
  }

  /** A state saved for another export file is ignored. */
  lemma OtherExportStartsFresh(f: string, s: ImportState)
    requires s.exportFile != f
    ensures LoadImportState(f, Document(Obj(s.ToDict()))) == Returned(FreshImportState(f))
  {
    s.Lookup(0);
  }

  class RecipeImporter {
    const exportFile: string
    const config: CookidooConfig
    const dryRun: bool
    var state: ImportState

    /** `__init__` once the configuration is built and the state loaded. */
    constructor (exportFile: string, config: CookidooConfig, dryRun: bool, state: ImportState)
      ensures this.exportFile == exportFile && this.config == config && this.dryRun == dryRun
      ensures this.state == state
    {
      this.exportFile := exportFile;
      this.config := config;
      this.dryRun := dryRun;
      this.state := state;
    }

    /** `_fetch_recipe_details`: each pending id in turn; a fetch that raises
        is skipped. */
    method FetchRecipeDetails(recipeIds: seq<string>, fetch: string -> Option<FetchedRecipe>)
      modifies this
      ensures state == old(state).(fetchedRecipes :=
        FetchAll(old(state).fetchedRecipes, PendingFetch(recipeIds, old(state).fetchedRecipes), fetch))
    {
      var pending := PendingFetch(recipeIds, state.fetchedRecipes);
      if |pending| == 0 {
        return;
      }
      ghost var fetched0 := state.fetchedRecipes;
      for i := 0 to |pending|
        invariant state == old(state).(fetchedRecipes := FetchAll(fetched0, pending[..i], fetch))
      {
        FetchAllSnoc(fetched0, pending, i, fetch);
        var id := pending[i];
        var details := fetch(id);
        if details.Some? {
          var summary := SummarizeIngredients(details.value);
          var record := RecipeDetails(id, details.value.name.GetOr(id), summary);
          state := state.(fetchedRecipes := Put(state.fetchedRecipes, id, record.ToDict()));
        }
        assert state.fetchedRecipes == FetchOne(FetchAll(fetched0, pending[..i], fetch), id, fetch);
      }
      assert pending[..|pending|] == pending;
    }

    /** `on_batch_complete`: the results of one batch are stored in turn. */
    method OnBatchComplete(results: seq<RecipeClassification>)
      modifies this
      ensures state == old(state).(classifications := Merge(old(state).classifications, results))
    {
      ghost var classifications0 := state.classifications;
      for k := 0 to |results|
        invariant state == old(state).(classifications := Merge(classifications0, results[..k]))
      {
        MergeSnoc(classifications0, results, k);
        var c := results[k];
        state := state.(classifications := Put(state.classifications, c.recipeId, c.ToDict()));
      }
      assert results[..|results|] == results;
    }

    /** The callback called after each batch in turn. */
    method OnBatches(reported: seq<seq<RecipeClassification>>)
      modifies this
      ensures state == old(state).(classifications := Merge(old(state).classifications, Concat(reported)))
    {
      ghost var classifications0 := state.classifications;
      for j := 0 to |reported|
        invariant state == old(state).(classifications := Merge(classifications0, Concat(reported[..j])))
      {
        MergeBatchSnoc(classifications0, reported, j);
        OnBatchComplete(reported[j]);
      }
      assert reported[..|reported|] == reported;
    }

    /** `_classify_recipes`: the unclassified recipes go to `classify_all`,
        whose callback merges each batch that did not raise. Building the
        pending list can raise. */
    method ClassifyRecipes(instructions: string, respond: string -> Outcome<string>,
                           decode: string -> Option<Json.Value>) returns (r: Outcome<()>)
      modifies this
      ensures r.Raised? <==> PendingClassification(old(state).fetchedRecipes, old(state).classifications).Raised?
      ensures r.Raised? ==> state == old(state)
      ensures r.Returned? ==> state == old(state).(classifications := Merge(old(state).classifications,
        Classified(old(state).fetchedRecipes, old(state).classifications, instructions, respond, decode)))
    {
      var pending := PendingClassification(state.fetchedRecipes, state.classifications);
      if pending.Raised? {
        return Raised;
      }
      r := Returned(());
      if |pending.value| == 0 {
        return;
      }
      var all, reported := ClassifyAll(pending.value, instructions, respond, decode);
      OnBatches(reported);
    }

    /** `_organize_recipes`: the returned collections are merged into
        `created_collections` and the returned assigned set replaces the old
        one; an exception of the organizing leaves the state as it was. */
    method OrganizeRecipes(gateway: Gateway, totalPages: Option<int>, fetchPage: nat -> seq<Collection>)
        returns (r: Outcome<()>)
      modifies this, gateway
      ensures r.Raised? ==> state == old(state)
      ensures r.Returned? ==>
        var groups := Groups(FilingOf(old(state).classifications), old(state).assignedRecipes);
        && state.exportFile == old(state).exportFile
        && state.fetchedRecipes == old(state).fetchedRecipes
        && state.classifications == old(state).classifications
        && state.assignedRecipes ==
             old(state).assignedRecipes + GroupedIds(FilingOf(old(state).classifications), old(state).assignedRecipes)
        && (forall k :: k in Keys(state.createdCollections) <==>
              k in Keys(old(state).createdCollections) || k in Keys(groups))
        && (forall k | k !in Keys(groups) :: Get(state.createdCollections, k) == Get(old(state).createdCollections, k))
      ensures r.Returned? ==>
        var groups := Groups(FilingOf(old(state).classifications), old(state).assignedRecipes);
        var loaded := LoadAll(Caches([], map[]), AllPages(totalPages, fetchPage));
        forall n | n in Keys(groups) ::
          && Get(state.createdCollections, n).Some?
          && IdFor(gateway, loaded, old(gateway.log), gateway.log, n, Get(state.createdCollections, n).value)
          && forall x | x in Get(groups, n).GetOr([]) ::
               x in loaded.Members(Get(state.createdCollections, n).value)
               || Submitted(old(gateway.log), gateway.log, Get(state.createdCollections, n).value, x)
    {
      var result, completed := OrganizeRecipesIntoCollections(gateway, state.classifications, state.assignedRecipes,
                                                               totalPages, fetchPage);
      if result.Raised? {
        return Raised;
      }
      var created := result.value.0;
      ghost var groups := Groups(FilingOf(state.classifications), state.assignedRecipes);
      SortedSetDistinct(KeySet(groups));
      CreatedDistinct(created, SortedSet(KeySet(groups)));
      CreatedKeys(state.createdCollections, created, KeySet(groups));
      ghost var names := SortedSet(KeySet(groups));
      forall n | n in Keys(groups) ensures Get(Update(state.createdCollections, created), n) == Get(created, n)
        && exists j | 0 <= j < |names| :: names[j] == n
      {
        assert n in names;
      }
      state := state.(createdCollections := Update(state.createdCollections, created), assignedRecipes := result.value.1);
      r := Returned(());
    }

    /** `run` once the export is loaded and the client logged in: the
        listed recipes are fetched, the fetched ones classified, and then
        either filed into collections or, in a dry run, only grouped for the
        summary. Afterwards nothing fetched or classified before is lost,
        every listed recipe whose fetch succeeds is fetched, and a dry run
        leaves the platform and the collection bookkeeping alone. */
    method Run(gateway: Gateway, exportData: Json.Value, fetch: string -> Option<FetchedRecipe>, instructions: string,
               respond: string -> Outcome<string>, decode: string -> Option<Json.Value>,
               totalPages: Option<int>, fetchPage: nat -> seq<Collection>) returns (r: Outcome<()>)
      modifies this, gateway
      ensures ExportIds(exportData).Raised? ==> r.Raised? && state == old(state) && gateway.log == old(gateway.log)
      ensures ExportIds(exportData) == Returned([]) ==> r.Returned? && state == old(state) && gateway.log == old(gateway.log)
      ensures dryRun ==>
        && gateway.log == old(gateway.log)
        && state.createdCollections == old(state).createdCollections
        && state.assignedRecipes == old(state).assignedRecipes
      ensures state.exportFile == old(state).exportFile
      ensures forall k | k in Keys(old(state).fetchedRecipes) :: Get(state.fetchedRecipes, k) == Get(old(state).fetchedRecipes, k)
      ensures ExportIds(exportData).Returned? ==>
        forall id | id in ExportIds(exportData).value && fetch(id).Some? :: id in Keys(state.fetchedRecipes)
      ensures forall k | k in Keys(old(state).classifications) :: k in Keys(state.classifications)
      ensures r.Returned? && !dryRun ==> old(state).assignedRecipes <= state.assignedRecipes
    {
      var ids := ExportIds(exportData);
      if ids.Raised? {
        return Raised;
      }
      if |ids.value| == 0 {
        return Returned(());
      }
      FetchStage(state.fetchedRecipes, ids.value, fetch);
      FetchRecipeDetails(ids.value, fetch);
      ghost var s1 := state;
      r := ClassifyRecipes(instructions, respond, decode);
      if r.Raised? {
        return;
      }
      ClassificationsKept(s1.fetchedRecipes, s1.classifications, instructions, respond, decode);
      if !dryRun {
        r := OrganizeRecipes(gateway, totalPages, fetchPage);
      } else {
        var groups := DryRunGroups(state.classifications, state.fetchedRecipes);
      }
    }
  }

  /** The names of the returned map are the listed group names, which are
      distinct. */
  lemma CreatedDistinct(created: ODict<Option<string>>, names: seq<string>)
    requires Keys(created) == names && forall i, j | 0 <= i < j < |names| :: names[i] != names[j]
    ensures Distinct(created)
  {
    forall i, j | 0 <= i < j < |created| ensures created[i].0 != created[j].0 {
      assert Keys(created)[i] == created[i].0 && Keys(created)[j] == created[j].0;
    }
  }

  lemma CreatedKeys(old_created: ODict<Option<string>>, created: ODict<Option<string>>, names: set<string>)
    requires Distinct(created) && Keys(created) == SortedSet(names)
    ensures forall k :: k in Keys(Update(old_created, created)) <==> k in Keys(old_created) || k in names
    ensures forall k | k !in names :: Get(Update(old_created, created), k) == Get(old_created, k)
    ensures forall k | k in names :: Get(Update(old_created, created), k) == Get(created, k)
  {
    forall k ensures k in Keys(Update(old_created, created)) <==> k in Keys(old_created) || k in names {
      UpdateGet(old_created, created, k);
    }
    forall k ensures Get(Update(old_created, created), k) == if k in names then Get(created, k) else Get(old_created, k) {
      UpdateGet(old_created, created, k);
    }
  }

  /** The classification stage removes no classification. */
  lemma ClassificationsKept(fetched: ODict<Dict>, classifications: ODict<Dict>, instructions: string,
                            respond: string -> Outcome<string>, decode: string -> Option<Json.Value>)
    requires PendingClassification(fetched, classifications).Returned?
    ensures forall k | k in Keys(classifications) ::
      k in Keys(Merge(classifications, Classified(fetched, classifications, instructions, respond, decode)))
  {
    forall k | k in Keys(classifications)
      ensures k in Keys(Merge(classifications, Classified(fetched, classifications, instructions, respond, decode)))
    {
      MergeGet(classifications, Classified(fetched, classifications, instructions, respond, decode), k);
    }
  }

  /** `RecipeImporter.__init__`: the region is looked up first (an unknown one
      raises), then the state file is read. The language model's key is not
      part of this model. */
  method NewImporter(exportFile: string, email: string, password: string, region: string, dryRun: bool,
                     saved: SavedFile) returns (r: Outcome<RecipeImporter>)
    ensures r.Returned? <==>
      GetCookidooConfig(email, password, region).Configured? && LoadImportState(exportFile, saved).Returned?
    ensures r.Returned? ==>
      && fresh(r.value)
      && r.value.exportFile == exportFile && r.value.dryRun == dryRun
      && r.value.config == GetCookidooConfig(email, password, region).config
      && r.value.state == LoadImportState(exportFile, saved).value
  {
    var config := GetCookidooConfig(email, password, region);
    if config.UnknownRegion? {
      return Raised;
    }
    var loaded := LoadImportState(exportFile, saved);
    if loaded.Raised? {
      return Raised;
    }
    var importer := new RecipeImporter(exportFile, config.config, dryRun, loaded.value);
    r := Returned(importer);
  }
}
