/** Handling of the language model's answers: the reply text is taken out
    of a Markdown code fence, each item of the decoded list is checked
    against the batch and the enumerations, and the recipes are classified
    in consecutive batches of 20. The model and `json.loads` are parameters:
    `respond` answers a prompt (or raises), `decode` gives the document a
    text holds (or `None` for a `JSONDecodeError`). */
module Classifier {
  import opened Wrappers
  import opened Seqs
  import opened Dicts
  import opened Json
  import opened Text
  import opened Models

  /** `BATCH_SIZE`: recipes per request. */
  const BatchSize: nat := 20

  const Fence: string := "```"

  // ---------------------------------------------------------------------
  // The prompt

  /** The line `- <id>: <name> (ingredients: <summary>)` of one recipe. */
  function RecipeLine(r: RecipeDetails): string {
    "- " + r.recipeId + ": " + r.name + " (ingredients: " + r.ingredientsSummary + ")"
  }

  /** One line per recipe, in the batch's order. */
  function RecipeLines(recipes: seq<RecipeDetails>): (r: seq<string>)
    ensures |r| == |recipes|
    ensures forall i | 0 <= i < |r| :: r[i] == RecipeLine(recipes[i])
  {
    if |recipes| == 0 then [] else RecipeLines(recipes[..|recipes| - 1]) + [RecipeLine(recipes[|recipes| - 1])]
  }

  /** The prompt of one batch: the fixed instructions, then the recipes one
      per line. */
  function Prompt(instructions: string, recipes: seq<RecipeDetails>): string {
    instructions + "\n\nRecipes to classify:\n" + Join("\n", RecipeLines(recipes))
  }

  /** The prompt starts with the instructions, and every recipe of the
      batch has its line in it. */
  lemma PromptLists(instructions: string, recipes: seq<RecipeDetails>, i: nat)
    requires i < |recipes|
    ensures StartsWith(Prompt(instructions, recipes), instructions)
    ensures exists k: nat :: HasAt(Prompt(instructions, recipes), k, RecipeLine(recipes[i]))
  {
    var tail := "\n\nRecipes to classify:\n";
    var lines := RecipeLines(recipes);
    var body := Join("\n", lines);
    assert Prompt(instructions, recipes) == instructions + (tail + body);
    StartsWithPrefix(instructions, tail + body);
    assert lines[i] == RecipeLine(recipes[i]);
    JoinHas("\n", lines, i);
    var k: nat :| HasAt(body, k, lines[i]);
    HasAtPrepend(instructions + tail, body, k, lines[i]);
  }

  // ---------------------------------------------------------------------
  // The code fence

  /** The first position at or after `i` where a fence starts. */
  function FenceFrom(s: string, i: nat): (r: Option<nat>)
    requires i <= |s|
    ensures r.Some? ==> i <= r.value < |s| && HasAt(s, r.value, Fence)
    ensures r.Some? ==> forall j | i <= j < r.value :: !HasAt(s, j, Fence)
    ensures r.None? ==> forall j | i <= j <= |s| :: !HasAt(s, j, Fence)
    decreases |s| - i
  {
    if HasAt(s, i, Fence) then Some(i)
    else if i == |s| then None
    else FenceFrom(s, i + 1)
  }

  /** `re.search(r"```(?:json)?\s*([\s\S]*?)\s*```", s).group(1).strip()`
      for a text that starts with a fence; `None` when the search fails.
      The opening fence at 0, followed by "json" when it is there, begins
      the match, the lazy group runs to the first closing fence after it,
      and the white space the two `\s*` take is what `strip` removes
      anyway. A match starting later would need a closing fence after
      position 3, which makes the match at 0 succeed first. */
  function FencedBody(s: string): (r: Option<string>)
    requires StartsWith(s, Fence)
  {
    var open := if HasAt(s, 3, "json") then 7 else 3;
    match FenceFrom(s, open)
    case None => None
    case Some(close) => Some(Strip(s[open..close]))
  }

  /** The text `classify_batch` decodes: the stripped reply, replaced by the
      body of its code fence when it starts with one that is closed. */
  function ReplyText(reply: string): (r: string)
    ensures !StartsWith(Strip(reply), Fence) ==> r == Strip(reply)
  {
    var text := Strip(reply);
    if StartsWith(text, Fence) then
      match FencedBody(text)
      case Some(body) => body
      case None => text
    else text
  }

  /** A body fenced as "```json ... ```" is read back as the stripped body. */
  lemma FencedJsonReply(body: string)
    requires '`' !in body
    ensures ReplyText(Fence + "json" + body + Fence) == Strip(body)
  {
    var s := Fence + "json" + body + Fence;
    StripUnchanged(s);
    assert s[..3] == Fence && s[3..7] == "json";
    FencedFirst(s, 7, body);
  }

  /** So is a body fenced without the "json" tag. */
  lemma FencedPlainReply(body: string)
    requires '`' !in body && !StartsWith(body, "json")
    ensures ReplyText(Fence + body + Fence) == Strip(body)
  {
    var s := Fence + body + Fence;
    StripUnchanged(s);
    assert s[..3] == Fence;
    assert !HasAt(s, 3, "json") by {
      if |body| >= 4 {
        assert s[3..7] == body[..4];
      } else if |s| >= 7 {
        assert s[3..7][|body|] == '`';
      }
    }
    FencedFirst(s, 3, body);
  }

  /** In `s[..open] + body + "```"` with no backtick in `body`, the first
      fence from `open` is the closing one. */
  lemma FencedFirst(s: string, open: nat, body: string)
    requires '`' !in body && open <= |s| && s[open..] == body + Fence
    ensures FenceFrom(s, open) == Some(open + |body|)
  {
    var close := open + |body|;
    assert HasAt(s, close, Fence) by {
      assert s[close..close + 3] == s[open..][|body|..] == Fence;
    }
    forall j | open <= j < close ensures !HasAt(s, j, Fence) {
      assert s[j] == body[j - open];
    }
    FenceFromFinds(s, open, close);
  }

  lemma {:induction false} FenceFromFinds(s: string, i: nat, close: nat)
    requires i <= close < |s| && HasAt(s, close, Fence)
    requires forall j | i <= j < close :: !HasAt(s, j, Fence)
    ensures FenceFrom(s, i) == Some(close)
    decreases close - i
  {
    if i < close {
      FenceFromFinds(s, i + 1, close);
    }
  }

  /** An opened fence that is never closed leaves the stripped reply as it is. */
  lemma UnclosedFence(reply: string)
    requires StartsWith(Strip(reply), Fence)
    requires forall j | 3 <= j <= |Strip(reply)| :: !HasAt(Strip(reply), j, Fence)
    ensures ReplyText(reply) == Strip(reply)
  {
  }

  // ---------------------------------------------------------------------
  // Checking the items of a reply

  /** `recipe_map[id].name` of `{r.recipe_id: r for r in recipes}`: the name
      of the last recipe of the batch with that id. */
  function NameOf(recipes: seq<RecipeDetails>, id: string): (r: Option<string>)
  {
    if |recipes| == 0 then None
    else if recipes[|recipes| - 1].recipeId == id then Some(recipes[|recipes| - 1].name)
    else NameOf(recipes[..|recipes| - 1], id)
  }

  /** An id has a name exactly when a recipe of the batch has that id, and
      the name is that recipe's. */
  lemma {:induction false} NameOfHas(recipes: seq<RecipeDetails>, id: string)
    ensures NameOf(recipes, id).Some? <==> exists i | 0 <= i < |recipes| :: recipes[i].recipeId == id
    ensures NameOf(recipes, id).Some? ==>
      exists i | 0 <= i < |recipes| :: recipes[i].recipeId == id && recipes[i].name == NameOf(recipes, id).value
    decreases |recipes|
  {
    if |recipes| > 0 {
      var init := recipes[..|recipes| - 1];
      NameOfHas(init, id);
      if exists i | 0 <= i < |init| :: init[i].recipeId == id {
        var i :| 0 <= i < |init| && init[i].recipeId == id;
        assert recipes[i] == init[i];
      }
      if NameOf(init, id).Some? && recipes[|recipes| - 1].recipeId != id {
        var i :| 0 <= i < |init| && init[i].recipeId == id && init[i].name == NameOf(init, id).value;
        assert recipes[i] == init[i];
      }
      if exists i | 0 <= i < |recipes| :: recipes[i].recipeId == id {
        var i :| 0 <= i < |recipes| && recipes[i].recipeId == id;
        if i < |init| {
          assert init[i] == recipes[i];
        }
      }
    }
  }

  /** One item of the reply. It raises exactly when `c.get` fails on an
      item that is not an object, or its id is a list or an object, which
      cannot be looked up in a dict. It is kept exactly when its id is a
      string of the batch and its season and dish type are valid, and then
      the classification is of that recipe, under its name, with the item's
      season, dish type and confidence (0.8 when missing). Otherwise it is
      dropped (`None`). */
  function ItemResult(item: Json.Value, recipes: seq<RecipeDetails>): (r: Outcome<Option<RecipeClassification>>)
    ensures r.Raised? <==>
      !item.Obj? || (Get(item.fields, "id").Some? && (Get(item.fields, "id").value.Arr? || Get(item.fields, "id").value.Obj?))
    ensures r.Returned? && r.value.Some? <==>
      && item.Obj?
      && Get(item.fields, "id").Some? && Get(item.fields, "id").value.Str?
      && NameOf(recipes, Get(item.fields, "id").value.s).Some?
      && Get(item.fields, "season").Some? && SeasonOf(Get(item.fields, "season").value).Some?
      && Get(item.fields, "dish_type").Some? && DishTypeOf(Get(item.fields, "dish_type").value).Some?
    ensures r.Returned? && r.value.Some? ==>
      var c := r.value.value;
      && Get(item.fields, "id") == Some(Str(c.recipeId))
      && NameOf(recipes, c.recipeId) == Some(c.recipeName)
      && Get(item.fields, "season") == Some(Str(c.season.Value()))
      && Get(item.fields, "dish_type") == Some(Str(c.dishType.Value()))
      && c.confidence == Get(item.fields, "confidence").GetOr(DefaultConfidence)
  {
    if !item.Obj? then Raised
    else
      var id := Get(item.fields, "id");
      if id.Some? && (id.value.Arr? || id.value.Obj?) then Raised
      else if id.None? || !id.value.Str? || NameOf(recipes, id.value.s).None? then Returned(None)
      else
        var sv, dv := Get(item.fields, "season"), Get(item.fields, "dish_type");
        if sv.Some? && dv.Some? && SeasonOf(sv.value).Some? && DishTypeOf(dv.value).Some? then
          Returned(Some(RecipeClassification(id.value.s, NameOf(recipes, id.value.s).value,
                                             SeasonOf(sv.value).value, DishTypeOf(dv.value).value,
                                             Get(item.fields, "confidence").GetOr(DefaultConfidence))))
        else Returned(None)
  }

  /** What each item of the reply gives, in order. */
  function ItemResults(items: seq<Json.Value>, recipes: seq<RecipeDetails>): (r: seq<Outcome<Option<RecipeClassification>>>)
    ensures |r| == |items|
  {
    seq(|items|, i requires 0 <= i < |items| => ItemResult(items[i], recipes))
  }

  /** The classifications the validation loop collects from `items`. */
  function Validated(items: seq<Json.Value>, recipes: seq<RecipeDetails>): Outcome<seq<RecipeClassification>> {
    Collect(ItemResults(items, recipes))
  }

  /** The items of two parts of a reply, one after the other: the surviving
      classifications keep the order of the reply. */
  lemma ValidatedAppend(a: seq<Json.Value>, b: seq<Json.Value>, recipes: seq<RecipeDetails>)
    ensures Validated(a + b, recipes) ==
      match (Validated(a, recipes), Validated(b, recipes))
      case (Returned(x), Returned(y)) => Returned(x + y)
      case _ => Raised
  {
    ItemResultsAppend(a, b, recipes);
    CollectAppend(ItemResults(a, recipes), ItemResults(b, recipes));
  }

  lemma ItemResultsAppend(a: seq<Json.Value>, b: seq<Json.Value>, recipes: seq<RecipeDetails>)
    ensures ItemResults(a + b, recipes) == ItemResults(a, recipes) + ItemResults(b, recipes)
  {
    var left, right := ItemResults(a, recipes), ItemResults(b, recipes);
    var whole := ItemResults(a + b, recipes);
    forall i | 0 <= i < |a| ensures whole[i] == left[i] {
      assert (a + b)[i] == a[i];
    }
    forall i | 0 <= i < |b| ensures whole[|a| + i] == right[i] {
      assert (a + b)[|a| + i] == b[i];
    }
    assert whole == left + right;
  }

  /** A single item contributes its own classification, if any. */
  lemma ValidatedSingle(item: Json.Value, recipes: seq<RecipeDetails>)
    ensures Validated([item], recipes) ==
      match ItemResult(item, recipes)
      case Raised => Raised
      case Returned(None) => Returned([])
      case Returned(Some(c)) => Returned([c])
  {
    assert ItemResults([item], recipes) == [ItemResult(item, recipes)];
    CollectSingle(ItemResult(item, recipes));
  }

  /** A reply raises exactly when one of its items does. */
  lemma ValidatedRaises(items: seq<Json.Value>, recipes: seq<RecipeDetails>)
    ensures Validated(items, recipes).Raised? <==> exists i | 0 <= i < |items| :: ItemResult(items[i], recipes).Raised?
  {
    var outs := ItemResults(items, recipes);
    CollectRaises(outs);
    if Validated(items, recipes).Raised? {
      var i :| 0 <= i < |outs| && outs[i].Raised?;
      assert ItemResult(items[i], recipes) == outs[i];
    } else {
      forall i | 0 <= i < |items| ensures !ItemResult(items[i], recipes).Raised? {
        assert ItemResult(items[i], recipes) == outs[i];
      }
    }
  }

  /** Otherwise a classification is kept exactly when an item gives it. */
  lemma ValidatedKeeps(items: seq<Json.Value>, recipes: seq<RecipeDetails>, c: RecipeClassification)
    requires Validated(items, recipes).Returned?
    ensures c in Validated(items, recipes).value <==>
      exists i | 0 <= i < |items| :: ItemResult(items[i], recipes) == Returned(Some(c))
  {
    var outs := ItemResults(items, recipes);
    CollectKeeps(outs, c);
    if c in Validated(items, recipes).value {
      var i :| 0 <= i < |outs| && outs[i] == Returned(Some(c));
      assert ItemResult(items[i], recipes) == outs[i];
    } else {
      forall i | 0 <= i < |items| ensures ItemResult(items[i], recipes) != Returned(Some(c)) {
        assert ItemResult(items[i], recipes) == outs[i];
      }
    }
  }

  /** Every kept classification names a recipe of the batch by its own name. */
  lemma ValidatedSound(items: seq<Json.Value>, recipes: seq<RecipeDetails>, c: RecipeClassification)
    requires Validated(items, recipes).Returned? && c in Validated(items, recipes).value
    ensures NameOf(recipes, c.recipeId) == Some(c.recipeName)
  {
    ValidatedKeeps(items, recipes, c);
    var i :| 0 <= i < |items| && ItemResult(items[i], recipes) == Returned(Some(c));
  }

  /** The validation loop of `classify_batch`. */
  method ValidateItems(items: seq<Json.Value>, recipes: seq<RecipeDetails>) returns (r: Outcome<seq<RecipeClassification>>)
    ensures r == Validated(items, recipes)
  {
    ghost var outs := ItemResults(items, recipes);
    var results := [];
    assert outs[..0] == [];
    for i := 0 to |items|
      invariant Collect(outs[..i]) == Returned(results)
    {
      CollectSnoc(outs, i);
      var one := ItemResult(items[i], recipes);
      if one.Raised? {
        CollectRaisedStays(outs, i + 1);
        return Raised;
      }
      if one.value.Some? {
        results := results + [one.value.value];
      }
    }
    assert outs[..|items|] == outs;
    r := Returned(results);
  }

  // ---------------------------------------------------------------------
  // One batch

  /** What iterating over the decoded document gives: a list's items; no
      items for an empty object or string; `Raised` otherwise (the keys or
      characters of a non-empty one have no `get`, and the other values are
      not iterable). */
  function ReplyItems(doc: Json.Value): (r: Outcome<seq<Json.Value>>)
    ensures doc.Arr? ==> r == Returned(doc.items)
  {
    match doc
    case Arr(items) => Returned(items)
    case Obj(fields) => if |fields| == 0 then Returned([]) else Raised
    case Str(s) => if |s| == 0 then Returned([]) else Raised
    case _ => Raised
  }

  /** `classify_batch`: no request for an empty batch; a request that raises
      raises; a reply that does not decode gives no classifications. */
  function BatchResult(recipes: seq<RecipeDetails>, instructions: string, respond: string -> Outcome<string>,
                       decode: string -> Option<Json.Value>): Outcome<seq<RecipeClassification>>
  {
    if |recipes| == 0 then Returned([])
    else
      match respond(Prompt(instructions, recipes))
      case Raised => Raised
      case Returned(reply) =>
        match decode(ReplyText(reply))
        case None => Returned([])
        case Some(doc) =>
          match ReplyItems(doc)
          case Raised => Raised
          case Returned(items) => Validated(items, recipes)
  }

  /** An empty batch gives nothing, whatever the model would answer. */
  lemma EmptyBatch(instructions: string, respond: string -> Outcome<string>, decode: string -> Option<Json.Value>)
    ensures BatchResult([], instructions, respond, decode) == Returned([])
  {
  }

  /** A reply that does not decode gives no classifications. */
  lemma UndecodableReply(recipes: seq<RecipeDetails>, instructions: string, respond: string -> Outcome<string>,
                         decode: string -> Option<Json.Value>)
    requires |recipes| > 0 && respond(Prompt(instructions, recipes)).Returned?
    requires decode(ReplyText(respond(Prompt(instructions, recipes)).value)).None?
    ensures BatchResult(recipes, instructions, respond, decode) == Returned([])
  {
  }

  /** Every classification of a batch is of one of its recipes, under that
      recipe's name. */
  lemma BatchSound(recipes: seq<RecipeDetails>, instructions: string, respond: string -> Outcome<string>,
                   decode: string -> Option<Json.Value>, c: RecipeClassification)
    requires BatchResult(recipes, instructions, respond, decode).Returned?
    requires c in BatchResult(recipes, instructions, respond, decode).value
    ensures exists i | 0 <= i < |recipes| :: recipes[i].recipeId == c.recipeId && recipes[i].name == c.recipeName
  {
    var reply := respond(Prompt(instructions, recipes)).value;
    var items := ReplyItems(decode(ReplyText(reply)).value).value;
    ValidatedSound(items, recipes, c);
    NameOfHas(recipes, c.recipeId);
  }

  /** `classify_batch`, the method. */
  method ClassifyBatch(recipes: seq<RecipeDetails>, instructions: string, respond: string -> Outcome<string>,
                       decode: string -> Option<Json.Value>) returns (r: Outcome<seq<RecipeClassification>>)
    ensures r == BatchResult(recipes, instructions, respond, decode)
  {
    if |recipes| == 0 {
      return Returned([]);
    }
    var response := respond(Prompt(instructions, recipes));
    if response.Raised? {
      return Raised;
    }
    var doc := decode(ReplyText(response.value));
    if doc.None? {
      return Returned([]);
    }
    var items := ReplyItems(doc.value);
    if items.Raised? {
      return Raised;
    }
    r := ValidateItems(items.value, recipes);
  }

  // ---------------------------------------------------------------------
  // All batches

  /** What each batch gives, in order. */
  function BatchResults(batches: seq<seq<RecipeDetails>>, instructions: string, respond: string -> Outcome<string>,
                        decode: string -> Option<Json.Value>): (r: seq<Outcome<seq<RecipeClassification>>>)
    ensures |r| == |batches|
  {
    seq(|batches|, k requires 0 <= k < |batches| => BatchResult(batches[k], instructions, respond, decode))
  }

  /** The results of the batches that did not raise, in order: what
      `on_batch_complete` is called with, one call per batch. */
  function Successes(batches: seq<seq<RecipeDetails>>, instructions: string, respond: string -> Outcome<string>,
                     decode: string -> Option<Json.Value>): (r: seq<seq<RecipeClassification>>)
    ensures |r| <= |batches|
  {
    Kept(BatchResults(batches, instructions, respond, decode))
  }

  lemma SuccessesSnoc(done: seq<seq<RecipeDetails>>, batch: seq<RecipeDetails>, instructions: string,
                      respond: string -> Outcome<string>, decode: string -> Option<Json.Value>)
    ensures Successes(done + [batch], instructions, respond, decode) ==
      Successes(done, instructions, respond, decode) +
      match BatchResult(batch, instructions, respond, decode)
      case Raised => []
      case Returned(results) => [results]
  {
    assert BatchResults(done + [batch], instructions, respond, decode) ==
      BatchResults(done, instructions, respond, decode) + [BatchResult(batch, instructions, respond, decode)];
    KeptSnoc(BatchResults(done, instructions, respond, decode), BatchResult(batch, instructions, respond, decode));
  }

  /** When no batch raises, every batch is reported. */
  lemma {:induction false} SuccessesAll(batches: seq<seq<RecipeDetails>>, instructions: string,
                     respond: string -> Outcome<string>, decode: string -> Option<Json.Value>)
    requires forall k | 0 <= k < |batches| :: BatchResult(batches[k], instructions, respond, decode).Returned?
    ensures |Successes(batches, instructions, respond, decode)| == |batches|
    ensures forall k | 0 <= k < |batches| ::
      Successes(batches, instructions, respond, decode)[k] == BatchResult(batches[k], instructions, respond, decode).value
  {
    KeptAll(BatchResults(batches, instructions, respond, decode));
  }

  /** Every reported result is the result of one batch that did not raise. */
  lemma {:induction false} SuccessesFrom(batches: seq<seq<RecipeDetails>>, instructions: string,
                      respond: string -> Outcome<string>, decode: string -> Option<Json.Value>, k: nat)
    requires k < |Successes(batches, instructions, respond, decode)|
    ensures exists j | 0 <= j < |batches| ::
      BatchResult(batches[j], instructions, respond, decode) == Returned(Successes(batches, instructions, respond, decode)[k])
  {
    var outs := BatchResults(batches, instructions, respond, decode);
    KeptFrom(outs, k);
    var j :| 0 <= j < |outs| && outs[j] == Returned(Kept(outs)[k]);
    assert BatchResult(batches[j], instructions, respond, decode) == outs[j];
  }

  /** An element of a slice is an element of the sequence sliced. */
  lemma ChunkMember<T>(xs: seq<T>, size: nat, j: nat, m: nat)
    requires size > 0 && j < |Chunks(xs, size)| && m < |Chunks(xs, size)[j]|
    ensures Chunks(xs, size)[j][m] in xs
  {
    ChunksConcat(xs, size);
    ConcatMember(Chunks(xs, size), Chunks(xs, size)[j][m]);
  }

  /** Every reported classification is of a recipe of one of the batches,
      under that recipe's name. */
  lemma {:induction false} ReportedSound(batches: seq<seq<RecipeDetails>>, instructions: string, respond: string -> Outcome<string>,
                      decode: string -> Option<Json.Value>, c: RecipeClassification)
    requires c in Concat(Successes(batches, instructions, respond, decode))
    ensures exists j, m | 0 <= j < |batches| && 0 <= m < |batches[j]| ::
      batches[j][m].recipeId == c.recipeId && batches[j][m].name == c.recipeName
  {
    var reported := Successes(batches, instructions, respond, decode);
    ConcatMember(reported, c);
    var k :| 0 <= k < |reported| && c in reported[k];
    SuccessesFrom(batches, instructions, respond, decode, k);
    var j :| 0 <= j < |batches| && BatchResult(batches[j], instructions, respond, decode) == Returned(reported[k]);
    BatchSound(batches[j], instructions, respond, decode, c);
  }

  /** Every classification `classify_all` reports is of one of the recipes
      it was given, under that recipe's name. */
  lemma {:induction false} AllSound(recipes: seq<RecipeDetails>, instructions: string, respond: string -> Outcome<string>,
                 decode: string -> Option<Json.Value>, c: RecipeClassification)
    requires c in Concat(Successes(Chunks(recipes, BatchSize), instructions, respond, decode))
    ensures exists i | 0 <= i < |recipes| :: recipes[i].recipeId == c.recipeId && recipes[i].name == c.recipeName
  {
    var batches := Chunks(recipes, BatchSize);
    ReportedSound(batches, instructions, respond, decode, c);
    var j, m :| 0 <= j < |batches| && 0 <= m < |batches[j]| &&
      batches[j][m].recipeId == c.recipeId && batches[j][m].name == c.recipeName;
    ChunkMember(recipes, BatchSize, j, m);
    var i :| 0 <= i < |recipes| && recipes[i] == batches[j][m];
  }

  /** `classify_all`: the recipes in consecutive slices of `BatchSize`; the
      results of the slices that did not raise, concatenated, and the list
      of what `on_batch_complete` received. */
  method ClassifyAll(recipes: seq<RecipeDetails>, instructions: string, respond: string -> Outcome<string>,
                     decode: string -> Option<Json.Value>)
      returns (all: seq<RecipeClassification>, reported: seq<seq<RecipeClassification>>)
    ensures reported == Successes(Chunks(recipes, BatchSize), instructions, respond, decode)
    ensures all == Concat(reported)
  {
    all, reported := [], [];
    ghost var done: seq<seq<RecipeDetails>> := [];
    var i := 0;
    while i < |recipes|
      invariant 0 <= i <= |recipes|
      invariant Chunks(recipes, BatchSize) == done + Chunks(recipes[i..], BatchSize)
      invariant reported == Successes(done, instructions, respond, decode)
      invariant all == Concat(reported)
      decreases |recipes| - i
    {
      var hi := Min(i + BatchSize, |recipes|);
      var batch := recipes[i..hi];
      AllStep(recipes, i, done, reported, instructions, respond, decode);
      var results := ClassifyBatch(batch, instructions, respond, decode);
      if results.Returned? {
        all := all + results.value;
        reported := reported + [results.value];
      }
      done := done + [batch];
      i := hi;
    }
    assert done + Chunks(recipes[|recipes|..], BatchSize) == done;
  }

  /** One slice of `classify_all`'s loop. */
  lemma AllStep(recipes: seq<RecipeDetails>, i: nat, done: seq<seq<RecipeDetails>>, reported: seq<seq<RecipeClassification>>,
                instructions: string, respond: string -> Outcome<string>, decode: string -> Option<Json.Value>)
    requires i < |recipes| && Chunks(recipes, BatchSize) == done + Chunks(recipes[i..], BatchSize)
    requires reported == Successes(done, instructions, respond, decode)
    ensures var hi := Min(i + BatchSize, |recipes|);
      var batch, result := recipes[i..hi], BatchResult(recipes[i..hi], instructions, respond, decode);
      var reported' := reported + (if result.Returned? then [result.value] else []);
      && Chunks(recipes, BatchSize) == (done + [batch]) + Chunks(recipes[hi..], BatchSize)
      && reported' == Successes(done + [batch], instructions, respond, decode)
      && Concat(reported') == Concat(reported) + (if result.Returned? then result.value else [])
  {
    var hi := Min(i + BatchSize, |recipes|);
    var batch := recipes[i..hi];
    ChunksStep(recipes, BatchSize, i);
    assert done + Chunks(recipes[i..], BatchSize) == (done + [batch]) + Chunks(recipes[hi..], BatchSize);
    SuccessesSnoc(done, batch, instructions, respond, decode);
    var result := BatchResult(batch, instructions, respond, decode);
    if result.Returned? {
      ConcatAppend(reported, [result.value]);
      ConcatSingle(result.value);
    } else {
      assert reported + [] == reported;
      assert Concat(reported) + [] == Concat(reported);
    }
  }
}
