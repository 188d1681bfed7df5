/** The collection manager: a client-side cache of the user's custom
    collections (name -> id, and id -> the recipe ids known to be in it) kept
    in step with the calls it makes to the platform. */
module Collections {
  import opened Wrappers
  import opened Seqs
  import opened Dicts
  import opened Remote
  import opened Json
  import opened Models
  import opened Text

  /** Recipes are added at most this many per call. */
  const BatchSize: nat := 50

  /** The manager's two caches. Member sets are keyed by the id exactly as the
      caller passed it, which may be an absent id (`None`). */
  datatype Caches = Caches(names: ODict<string>, members: map<Option<string>, set<string>>)
  {
    /** `_collection_recipes.get(id, set())`. */
    function Members(id: Option<string>): set<string> {
      if id in members then members[id] else {}
    }

    /** Names are unique (a dict) and every cached id is non-empty. */
    predicate Valid() {
      Distinct(names) && forall i | 0 <= i < |names| :: names[i].1 != ""
    }
  }

  // ---------------------------------------------------------------------
  // Loading the existing collections

  /** A listed collection is cached only when its display name and its id are
      both non-empty. */
  predicate Cacheable(col: Collection) {
    DisplayName(col, "") != "" && col.id.Some? && col.id.value != ""
  }

  function LoadOne(c: Caches, col: Collection): Caches {
    if Cacheable(col) then
      Caches(Put(c.names, DisplayName(col, ""), col.id.value),
             c.members[col.id := Elements(RecipeIds(col))])
    else c
  }

  /** The caches after loading `cols` in order, later entries overwriting. */
  function LoadAll(c: Caches, cols: seq<Collection>): Caches {
    if |cols| == 0 then c else LoadOne(LoadAll(c, cols[..|cols| - 1]), cols[|cols| - 1])
  }

  lemma LoadAllSnoc(c: Caches, a: seq<Collection>, col: Collection)
    ensures LoadAll(c, a + [col]) == LoadOne(LoadAll(c, a), col)
  {
    assert (a + [col])[..|a|] == a;
  }

  lemma {:induction false} LoadAllAppend(c: Caches, a: seq<Collection>, b: seq<Collection>)
    ensures LoadAll(c, a + b) == LoadAll(LoadAll(c, a), b)
    decreases |b|
  {
    if |b| == 0 {
      assert a + b == a;
    } else {
      assert (a + b)[..|a + b| - 1] == a + b[..|b| - 1];
      LoadAllAppend(c, a, b[..|b| - 1]);
    }
  }

  /** Loading keeps the caches well formed. */
  lemma {:induction false} LoadAllValid(c: Caches, cols: seq<Collection>)
    requires c.Valid()
    ensures LoadAll(c, cols).Valid()
    decreases |cols|
  {
    if |cols| > 0 {
      var before := LoadAll(c, cols[..|cols| - 1]);
      LoadAllValid(c, cols[..|cols| - 1]);
      var col := cols[|cols| - 1];
      if Cacheable(col) {
        DistinctPut(before.names, DisplayName(col, ""), col.id.value);
        var after := Put(before.names, DisplayName(col, ""), col.id.value);
        forall i | 0 <= i < |after| ensures after[i].1 != "" {
          assert Get(after, after[i].0).Some? by {
            assert after[i].0 == Keys(after)[i];
          }
          GetOfDistinct(after, i);
        }
      }
    }
  }

  /** In a dict without repeated keys, every entry is what its key reads. */
  lemma GetOfDistinct<V>(d: ODict<V>, i: nat)
    requires Distinct(d) && i < |d|
    ensures Get(d, d[i].0) == Some(d[i].1)
  {
    GetAt(d, i);
  }

  /** After loading, a name is cached exactly when it was before or some
      cacheable listed collection carries it. */
  lemma {:induction false} LoadAllNames(c: Caches, cols: seq<Collection>, name: string)
    ensures name in Keys(LoadAll(c, cols).names) <==>
      name in Keys(c.names) || exists k | 0 <= k < |cols| :: Cacheable(cols[k]) && DisplayName(cols[k], "") == name
    decreases |cols|
  {
    if |cols| > 0 {
      var init := cols[..|cols| - 1];
      LoadAllNames(c, init, name);
      assert forall k | 0 <= k < |init| :: init[k] == cols[k];
    }
  }

  /** The last cacheable collection listed under a name decides its id. */
  lemma {:induction false} LoadAllLastWins(c: Caches, cols: seq<Collection>, k: nat)
    requires k < |cols| && Cacheable(cols[k])
    requires forall j | k < j < |cols| :: Cacheable(cols[j]) ==> DisplayName(cols[j], "") != DisplayName(cols[k], "")
    ensures Get(LoadAll(c, cols).names, DisplayName(cols[k], "")) == cols[k].id
    decreases |cols|
  {
    if k < |cols| - 1 {
      var init := cols[..|cols| - 1];
      assert init[k] == cols[k];
      LoadAllLastWins(c, init, k);
    }
  }

  /** A loaded collection's member set is its recipe ids, unless a later
      listed collection has the same id. */
  lemma {:induction false} LoadAllMembers(c: Caches, cols: seq<Collection>, k: nat)
    requires k < |cols| && Cacheable(cols[k])
    requires forall j | k < j < |cols| :: Cacheable(cols[j]) ==> cols[j].id != cols[k].id
    ensures LoadAll(c, cols).Members(cols[k].id) == Elements(RecipeIds(cols[k]))
    decreases |cols|
  {
    if k < |cols| - 1 {
      var init := cols[..|cols| - 1];
      assert init[k] == cols[k];
      LoadAllMembers(c, init, k);
    }
  }

  // ---------------------------------------------------------------------
  // Get or create

  /** The caches after a create whose answer was `reply`: only a non-empty
      reported id is cached, with an empty member set. */
  function AfterCreate(c: Caches, name: string, reply: Outcome<Option<string>>): Caches {
    if reply.Returned? && reply.value.Some? && reply.value.value != "" then
      Caches(Put(c.names, name, reply.value.value), c.members[reply.value := {}])
    else c
  }

  /** What `ensure_collection(name)` answers, given the cached names and the
      log before the call: the cached id, or the platform's answer to a
      create. */
  function EnsureReply(g: Gateway, names: ODict<string>, log: seq<Call>, name: string): Outcome<Option<string>> {
    if name in Keys(names) then Returned(Get(names, name))
    else if g.accepts(log, CreateCollection(name)) then Returned(g.reportedId(log, name))
    else Raised
  }

  /** The caches after `ensure_collection(name)` answered `reply`. */
  function AfterEnsure(c: Caches, name: string, reply: Outcome<Option<string>>): Caches {
    if name in Keys(c.names) then c else AfterCreate(c, name, reply)
  }

  /** The log after `ensure_collection(name)`: a create is issued exactly on
      a cache miss. */
  function EnsureLog(names: ODict<string>, log: seq<Call>, name: string): seq<Call> {
    if name in Keys(names) then log else log + [CreateCollection(name)]
  }

  /** A create that reports an id makes the next lookup of the name a hit on
      that id, with no known members; every other name reads as before. A
      create that raises or reports no usable id changes nothing. */
  lemma AfterCreateCaches(c: Caches, name: string, reply: Outcome<Option<string>>)
    requires c.Valid()
    ensures AfterCreate(c, name, reply).Valid()
    ensures reply.Returned? && reply.value.Some? && reply.value.value != "" ==>
      && Get(AfterCreate(c, name, reply).names, name) == reply.value
      && AfterCreate(c, name, reply).Members(reply.value) == {}
      && forall n | n != name :: Get(AfterCreate(c, name, reply).names, n) == Get(c.names, n)
    ensures !(reply.Returned? && reply.value.Some? && reply.value.value != "") ==> AfterCreate(c, name, reply) == c
  {
    if reply.Returned? && reply.value.Some? && reply.value.value != "" {
      var after := Put(c.names, name, reply.value.value);
      DistinctPut(c.names, name, reply.value.value);
      forall i | 0 <= i < |after| ensures after[i].1 != "" {
        assert after[i].0 == Keys(after)[i];
        GetOfDistinct(after, i);
      }
    }
  }

  // ---------------------------------------------------------------------
  // Adding recipes

  /** `[rid for rid in ids if rid not in existing]`. */
  function Fresh(ids: seq<string>, existing: set<string>): (r: seq<string>)
    ensures |r| <= |ids|
    ensures forall x :: x in r <==> x in ids && x !in existing
  {
    if |ids| == 0 then []
    else
      var init := Fresh(ids[..|ids| - 1], existing);
      var last := ids[|ids| - 1];
      assert forall x :: x in ids <==> x in ids[..|ids| - 1] || x == last;
      init + (if last in existing then [] else [last])
  }

  /** One add call per batch, in order. */
  function AddCalls(id: Option<string>, batches: seq<seq<string>>): (r: seq<Call>)
    ensures |r| == |batches|
  {
    if |batches| == 0 then []
    else AddCalls(id, batches[..|batches| - 1]) + [AddRecipes(id, batches[|batches| - 1])]
  }

  lemma {:induction false} AddCallsAt(id: Option<string>, batches: seq<seq<string>>, i: nat)
    requires i < |batches|
    ensures AddCalls(id, batches)[i] == AddRecipes(id, batches[i])
    decreases |batches|
  {
    var init := batches[..|batches| - 1];
    if i < |init| {
      AddCallsAt(id, init, i);
      assert init[i] == batches[i];
    }
  }

  /** One batch, committed to the member set only when its call succeeded. */
  function AddStep(c: Caches, id: Option<string>, batch: seq<string>, ok: bool): Caches {
    if ok then Caches(c.names, c.members[id := c.Members(id) + Elements(batch)]) else c
  }

  function AfterAdd(c: Caches, id: Option<string>, batches: seq<seq<string>>, oks: seq<bool>): Caches
    requires |oks| == |batches|
  {
    if |batches| == 0 then c
    else AddStep(AfterAdd(c, id, batches[..|batches| - 1], oks[..|oks| - 1]), id,
                 batches[|batches| - 1], oks[|oks| - 1])
  }

  /** Extending the batches by one extends each of the three by one step. */
  lemma AfterAddSnoc(c: Caches, id: Option<string>, done: seq<seq<string>>, oks: seq<bool>, batch: seq<string>, ok: bool)
    requires |oks| == |done|
    ensures AfterAdd(c, id, done + [batch], oks + [ok]) == AddStep(AfterAdd(c, id, done, oks), id, batch, ok)
    ensures AddedCount(done + [batch], oks + [ok]) == AddedCount(done, oks) + (if ok then |batch| else 0)
    ensures AddCalls(id, done + [batch]) == AddCalls(id, done) + [AddRecipes(id, batch)]
  {
    assert (done + [batch])[..|done|] == done;
    assert (oks + [ok])[..|oks|] == oks;
  }

  /** The number of recipes in the batches that succeeded. */
  function AddedCount(batches: seq<seq<string>>, oks: seq<bool>): nat
    requires |oks| == |batches|
  {
    if |batches| == 0 then 0
    else AddedCount(batches[..|batches| - 1], oks[..|oks| - 1])
         + (if oks[|oks| - 1] then |batches[|batches| - 1]| else 0)
  }

  /** Adding touches only the target's member set, which gains exactly the
      recipes of the batches that succeeded. */
  lemma {:induction false} AfterAddMembers(c: Caches, id: Option<string>, batches: seq<seq<string>>, oks: seq<bool>)
    requires |oks| == |batches|
    ensures AfterAdd(c, id, batches, oks).names == c.names
    ensures forall x :: x in AfterAdd(c, id, batches, oks).Members(id) <==>
      x in c.Members(id) || exists i | 0 <= i < |batches| :: oks[i] && x in batches[i]
    ensures forall other | other != id :: AfterAdd(c, id, batches, oks).Members(other) == c.Members(other)
    decreases |batches|
  {
    if |batches| > 0 {
      var n := |batches| - 1;
      AfterAddMembers(c, id, batches[..n], oks[..n]);
      assert forall i | 0 <= i < n :: batches[..n][i] == batches[i] && oks[..n][i] == oks[i];
    }
  }

  /** After the batches `done` were issued one by one after `log0`, starting
      from the caches `c0`: the log holds their calls, the caches hold the
      batches that were accepted, and `added` counts their recipes. */
  predicate Progress(g: Gateway, c0: Caches, log0: seq<Call>, id: Option<string>, done: seq<seq<string>>,
                     view: Caches, log: seq<Call>, added: nat)
  {
    && log == log0 + AddCalls(id, done)
    && view == AfterAdd(c0, id, done, g.Outcomes(log0, AddCalls(id, done)))
    && added == AddedCount(done, g.Outcomes(log0, AddCalls(id, done)))
  }

  /** The batches `done` were issued one by one after `log0` and the caches
      took the ones accepted: `Progress` without the count. */
  predicate Issued(g: Gateway, c0: Caches, log0: seq<Call>, id: Option<string>, done: seq<seq<string>>,
                   view: Caches, log: seq<Call>)
  {
    && log == log0 + AddCalls(id, done)
    && view == AfterAdd(c0, id, done, g.Outcomes(log0, AddCalls(id, done)))
  }

  /** One more batch, as the loop of `AddRecipesToCollection` takes it. */
  lemma ProgressStep(g: Gateway, c0: Caches, log0: seq<Call>, id: Option<string>, done: seq<seq<string>>,
                     view: Caches, log: seq<Call>, added: nat, batch: seq<string>, ok: bool)
    requires Progress(g, c0, log0, id, done, view, log, added)
    requires ok == g.accepts(log, AddRecipes(id, batch))
    ensures Progress(g, c0, log0, id, done + [batch], AddStep(view, id, batch, ok),
                     log + [AddRecipes(id, batch)], added + (if ok then |batch| else 0))
  {
    var calls, call := AddCalls(id, done), AddRecipes(id, batch);
    var oks := g.Outcomes(log0, calls);
    AfterAddSnoc(c0, id, done, oks, batch, ok);
    assert AddCalls(id, done + [batch]) == calls + [call];
    g.OutcomesSnoc(log0, calls, call);
    assert g.Outcomes(log0, calls + [call]) == oks + [ok];
    assert log + [call] == log0 + (calls + [call]);
  }

  /** The count reported never exceeds the number of recipes submitted, and
      equals it when every batch succeeded. */
  lemma {:induction false} AddedCountBound(batches: seq<seq<string>>, oks: seq<bool>)
    requires |oks| == |batches|
    ensures AddedCount(batches, oks) <= |Concat(batches)|
    ensures (forall i | 0 <= i < |oks| :: oks[i]) ==> AddedCount(batches, oks) == |Concat(batches)|
    decreases |batches|
  {
    if |batches| > 0 {
      var n := |batches| - 1;
      AddedCountBound(batches[..n], oks[..n]);
      assert forall i | 0 <= i < n :: oks[..n][i] == oks[i];
    }
  }

  /** The batches submitted for `ids` given the known members. */
  function AddBatches(c: Caches, id: Option<string>, ids: seq<string>): seq<seq<string>> {
    Chunks(Fresh(ids, c.Members(id)), BatchSize)
  }

  /** The batches are consecutive slices of at most 50 that glue back into the
      filtered list. */
  lemma AddBatchesShape(c: Caches, id: Option<string>, ids: seq<string>)
    ensures Concat(AddBatches(c, id, ids)) == Fresh(ids, c.Members(id))
    ensures forall i | 0 <= i < |AddBatches(c, id, ids)| ::
      0 < |AddBatches(c, id, ids)[i]| <= BatchSize
  {
    ChunksConcat(Fresh(ids, c.Members(id)), BatchSize);
  }

  /** No batch holds a recipe already known to be in the target. */
  lemma AddBatchesFresh(c: Caches, id: Option<string>, ids: seq<string>, i: nat, x: string)
    requires i < |AddBatches(c, id, ids)| && x in AddBatches(c, id, ids)[i]
    ensures x in ids && x !in c.Members(id)
  {
    var batches := AddBatches(c, id, ids);
    AddBatchesShape(c, id, ids);
    ConcatMember(batches, x);
    assert x in Concat(batches);
  }

  /** Filtering against a set that already holds every id leaves nothing. */
  lemma {:induction false} FreshOfKnown(ids: seq<string>, existing: set<string>)
    requires forall x | x in ids :: x in existing
    ensures Fresh(ids, existing) == []
    decreases |ids|
  {
    if |ids| > 0 {
      var init := ids[..|ids| - 1];
      assert forall x | x in init :: x in ids;
      FreshOfKnown(init, existing);
      assert ids[|ids| - 1] in ids;
    }
  }

  /** Adding the same recipes again after every batch succeeded submits
      nothing. */
  lemma AddIdempotent(c: Caches, id: Option<string>, ids: seq<string>, oks: seq<bool>)
    requires |oks| == |AddBatches(c, id, ids)|
    requires forall i | 0 <= i < |oks| :: oks[i]
    ensures AddBatches(AfterAdd(c, id, AddBatches(c, id, ids), oks), id, ids) == []
  {
    var batches := AddBatches(c, id, ids);
    var after := AfterAdd(c, id, batches, oks);
    AfterAddMembers(c, id, batches, oks);
    AddBatchesShape(c, id, ids);
    forall x | x in ids ensures x in after.Members(id) {
      if x !in c.Members(id) {
        ConcatMember(batches, x);
      }
    }
    FreshOfKnown(ids, after.Members(id));
  }

  // ---------------------------------------------------------------------
  // Deleting

  /** The first cached name whose id is `id`. */
  function FirstNameOf(names: ODict<string>, id: string): (r: Option<string>)
    ensures r.Some? ==> (r.value, id) in names
    ensures r.None? ==> forall i | 0 <= i < |names| :: names[i].1 != id
  {
    if |names| == 0 then None
    else if names[0].1 == id then Some(names[0].0)
    else FirstNameOf(names[1..], id)
  }

  /** The scan of `delete_collection` for the name to drop: the first entry,
      in insertion order, whose id is `id`. */
  method FindNameOf(names: ODict<string>, id: string) returns (found: Option<string>)
    ensures found == FirstNameOf(names, id)
  {
    found := None;
    var i := 0;
    while i < |names| && found.None?
      invariant 0 <= i <= |names|
      invariant FirstNameOf(names, id) == if found.Some? then found else FirstNameOf(names[i..], id)
      decreases |names| - i, if found.None? then 1 else 0
    {
      assert names[i..][1..] == names[i + 1..];
      if names[i].1 == id {
        found := Some(names[i].0);
      }
      i := i + 1;
    }
  }

  lemma {:induction false} FirstNameOfAt(names: ODict<string>, id: string, i: nat)
    requires i < |names| && names[i].1 == id
    requires forall j | 0 <= j < i :: names[j].1 != id
    ensures FirstNameOf(names, id) == Some(names[i].0)
    decreases i
  {
    if i > 0 {
      FirstNameOfAt(names[1..], id, i - 1);
    }
  }

  /** The caches after a successful delete: the first name mapped to the id is
      dropped unless it is empty, and so is the id's member set. */
  function AfterDelete(c: Caches, id: string): Caches {
    var name := FirstNameOf(c.names, id);
    Caches(if name.Some? && name.value != "" then Remove(c.names, name.value) else c.names,
           c.members - {Some(id)})
  }

  lemma AfterDeleteCaches(c: Caches, id: string)
    requires c.Valid()
    ensures AfterDelete(c, id).Valid()
    ensures Some(id) !in AfterDelete(c, id).members
    ensures forall other | other != Some(id) :: AfterDelete(c, id).Members(other) == c.Members(other)
    ensures FirstNameOf(c.names, id).Some? && FirstNameOf(c.names, id).value != "" ==>
      forall n :: Get(AfterDelete(c, id).names, n) ==
        if n == FirstNameOf(c.names, id).value then None else Get(c.names, n)
    ensures FirstNameOf(c.names, id).None? ==> AfterDelete(c, id).names == c.names
  {
    var name := FirstNameOf(c.names, id);
    if name.Some? && name.value != "" {
      var after := Remove(c.names, name.value);
      DistinctRemove(c.names, name.value);
      forall i | 0 <= i < |after| ensures after[i].1 != "" {
        assert after[i].0 == Keys(after)[i];
        GetOfDistinct(after, i);
        GetInDistinct(c.names, after[i].0);
      }
    }
  }

  /** In a dict without repeated keys, what a key reads is an entry. */
  lemma GetInDistinct<V>(d: ODict<V>, k: string)
    requires Distinct(d) && Get(d, k).Some?
    ensures exists i | 0 <= i < |d| :: d[i] == (k, Get(d, k).value)
  {
  }

  // ---------------------------------------------------------------------
  // Removing one recipe

  function AfterRemoveRecipe(c: Caches, id: string, recipe: string): Caches {
    if Some(id) in c.members then
      Caches(c.names, c.members[Some(id) := c.members[Some(id)] - {recipe}])
    else c
  }

  lemma AfterRemoveRecipeCaches(c: Caches, id: string, recipe: string)
    ensures AfterRemoveRecipe(c, id, recipe).names == c.names
    ensures AfterRemoveRecipe(c, id, recipe).Members(Some(id)) == c.Members(Some(id)) - {recipe}
    ensures forall other | other != Some(id) ::
      AfterRemoveRecipe(c, id, recipe).Members(other) == c.Members(other)
  {
  }

  // ---------------------------------------------------------------------
  // The manager

  class CollectionManager {
    const gateway: Gateway
    var names: ODict<string>
    var members: map<Option<string>, set<string>>

    function View(): Caches
      reads this
    {
      Caches(names, members)
    }

    constructor (gateway: Gateway)
      ensures this.gateway == gateway && View() == Caches([], map[])
    {
      this.gateway := gateway;
      names := [];
      members := map[];
    }

    /** `load_existing_collections`: every page of the listing, merged into
        the caches in listing order. */
    method LoadExistingCollections(totalPages: Option<int>, fetchPage: nat -> seq<Collection>)
      requires View().Valid()
      modifies this
      ensures View() == LoadAll(old(View()), AllPages(totalPages, fetchPage))
      ensures View().Valid()
    {
      var n := PageCount(totalPages);
      for page := 0 to n
        invariant View() == LoadAll(old(View()), Pages(fetchPage, page))
      {
        LoadAllAppend(old(View()), Pages(fetchPage, page), fetchPage(page));
        LoadPage(fetchPage(page));
      }
      LoadAllValid(old(View()), AllPages(totalPages, fetchPage));
    }

    /** The listing of one page, merged in order. */
    method LoadPage(cols: seq<Collection>)
      modifies this
      ensures View() == LoadAll(old(View()), cols)
    {
      for j := 0 to |cols|
        invariant View() == LoadAll(old(View()), cols[..j])
      {
        PrefixSnoc(cols, j);
        LoadAllSnoc(old(View()), cols[..j], cols[j]);
        LoadCollection(cols[j]);
      }
      assert cols[..|cols|] == cols;
    }

    /** One listed collection: cached when it has a name and an id. */
    method LoadCollection(col: Collection)
      modifies this
      ensures View() == LoadOne(old(View()), col)
    {
      var name := DisplayName(col, "");
      if name != "" && col.id.Some? && col.id.value != "" {
        names := Put(names, name, col.id.value);
        var ids := ExtractRecipeIds(col);
        members := members[col.id := Elements(ids)];
      }
    }

    /** `ensure_collection`: the cached id of `name`, or the id the platform
        reports for a new collection of that name. */
    method EnsureCollection(name: string) returns (r: Outcome<Option<string>>)
      requires View().Valid()
      modifies this, gateway
      ensures View().Valid()
      ensures r == EnsureReply(gateway, old(names), old(gateway.log), name)
      ensures name in Keys(old(names)) ==>
        && r == Returned(Get(old(names), name))
        && View() == old(View()) && gateway.log == old(gateway.log)
      ensures name !in Keys(old(names)) ==>
        && gateway.log == old(gateway.log) + [CreateCollection(name)]
        && r == (if gateway.accepts(old(gateway.log), CreateCollection(name))
                 then Returned(gateway.reportedId(old(gateway.log), name)) else Raised)
        && View() == AfterCreate(old(View()), name, r)
      ensures View() == AfterEnsure(old(View()), name, r) && gateway.log == EnsureLog(old(names), old(gateway.log), name)
    {
      if name in Keys(names) {
        return Returned(Get(names, name));
      }
      r := gateway.Create(name);
      AfterCreateCaches(View(), name, r);
      if r.Returned? && r.value.Some? && r.value.value != "" {
        names := Put(names, name, r.value.value);
        members := members[r.value := {}];
      }
    }

    /** `add_recipes_to_collection`: submits the recipes not yet known to be in
        the target, in batches of 50, and commits each batch that succeeds. */
    method AddRecipesToCollection(id: Option<string>, ids: seq<string>) returns (added: nat)
      modifies this, gateway
      ensures Progress(gateway, old(View()), old(gateway.log), id, AddBatches(old(View()), id, ids), View(), gateway.log, added)
      ensures names == old(names)
    {
      var pending := Fresh(ids, View().Members(id));
      if |pending| == 0 {
        return 0;
      }
      var batches := SplitChunks(pending, BatchSize);
      added := SubmitBatches(id, batches);
      AfterAddMembers(old(View()), id, batches, gateway.Outcomes(old(gateway.log), AddCalls(id, batches)));
    }

    /** The batch loop of `add_recipes_to_collection`, over the slices already
        cut. */
    method SubmitBatches(id: Option<string>, batches: seq<seq<string>>) returns (added: nat)
      modifies this, gateway
      ensures Progress(gateway, old(View()), old(gateway.log), id, batches, View(), gateway.log, added)
    {
      added := 0;
      assert batches[..0] == [];
      for k := 0 to |batches|
        invariant Progress(gateway, old(View()), old(gateway.log), id, batches[..k], View(), gateway.log, added)
      {
        PrefixSnoc(batches, k);
        added := SubmitOne(old(View()), old(gateway.log), id, batches[..k], batches[k], added);
      }
      assert batches[..|batches|] == batches;
    }

    /** One turn of the batch loop: `batch` is submitted after the batches
        `done`, and counted when it succeeds. */
    method SubmitOne(ghost c0: Caches, ghost log0: seq<Call>, id: Option<string>, ghost done: seq<seq<string>>,
                     batch: seq<string>, added0: nat) returns (added: nat)
      requires Progress(gateway, c0, log0, id, done, View(), gateway.log, added0)
      modifies this, gateway
      ensures Progress(gateway, c0, log0, id, done + [batch], View(), gateway.log, added)
    {
      ghost var view, log := View(), gateway.log;
      var ok := AddBatch(id, batch);
      added := added0;
      if ok {
        added := added + |batch|;
      }
      ProgressStep(gateway, c0, log0, id, done, view, log, added0, batch, ok);
    }

    /** The body of the batch loop of `add_recipes_to_collection`: the call,
        and the cache update when it did not raise. */
    method AddBatch(id: Option<string>, batch: seq<string>) returns (ok: bool)
      modifies this, gateway
      ensures gateway.log == old(gateway.log) + [AddRecipes(id, batch)]
      ensures ok == gateway.accepts(old(gateway.log), AddRecipes(id, batch))
      ensures View() == AddStep(old(View()), id, batch, ok)
    {
      ok := gateway.Issue(AddRecipes(id, batch));
      if ok {
        members := members[id := View().Members(id) + Elements(batch)];
      }
    }

    /** `get_collection_id`. */
    function GetCollectionId(name: string): (r: Option<string>)
      reads this
      ensures r.Some? <==> name in Keys(names)
      ensures r.Some? ==> (name, r.value) in names
    {
      Get(names, name)
    }

    /** `is_recipe_in_collection`. */
    function IsRecipeInCollection(id: Option<string>, recipe: string): (r: bool)
      reads this
      ensures r <==> id in members && recipe in members[id]
    {
      recipe in View().Members(id)
    }

    /** `delete_collection`: on success the caches forget the collection; on
        failure they are unchanged and the answer is `false`. */
    method DeleteCollection(id: string) returns (ok: bool)
      requires View().Valid()
      modifies this, gateway
      ensures View().Valid()
      ensures gateway.log == old(gateway.log) + [RemoveCollection(id)]
      ensures ok == gateway.accepts(old(gateway.log), RemoveCollection(id))
      ensures View() == if ok then AfterDelete(old(View()), id) else old(View())
    {
      ok := gateway.Issue(RemoveCollection(id));
      if !ok {
        return;
      }
      AfterDeleteCaches(View(), id);
      var found := FindNameOf(names, id);
      if found.Some? && found.value != "" {
        names := Remove(names, found.value);
      }
      members := members - {Some(id)};
    }

    /** `remove_recipe_from_collection`. */
    method RemoveRecipeFromCollection(id: string, recipe: string) returns (ok: bool)
      modifies this, gateway
      ensures gateway.log == old(gateway.log) + [RemoveRecipe(id, recipe)]
      ensures ok == gateway.accepts(old(gateway.log), RemoveRecipe(id, recipe))
      ensures View() == if ok then AfterRemoveRecipe(old(View()), id, recipe) else old(View())
    {
      ok := gateway.Issue(RemoveRecipe(id, recipe));
      if ok && Some(id) in members {
        members := members[Some(id) := members[Some(id)] - {recipe}];
      }
    }
  }

  // ---------------------------------------------------------------------
  // Organizing classified recipes into collections

  /** The legacy collection a classification is filed under; `None` when its
      season or dish type is missing (`KeyError`) or not one of the
      enumeration's values (`ValueError`). */
  function GroupName(cl: Dict): (r: Option<string>)
    ensures r.Some? ==> Get(cl, "season").Some? && Get(cl, "dish_type").Some?
  {
    var sv, dv := Get(cl, "season"), Get(cl, "dish_type");
    if sv.Some? && dv.Some? && SeasonOf(sv.value).Some? && DishTypeOf(dv.value).Some? then
      Some(GetCollectionName(SeasonOf(sv.value).value, DishTypeOf(dv.value).value))
    else None
  }

  /** A classification is filed exactly when its season and dish type are
      the values of members, and then under their collection name. */
  lemma GroupNameOf(cl: Dict)
    ensures GroupName(cl).Some? <==> exists s: Season, d: DishType ::
      Get(cl, "season") == Some(Str(s.Value())) && Get(cl, "dish_type") == Some(Str(d.Value()))
    ensures forall s: Season, d: DishType |
      Get(cl, "season") == Some(Str(s.Value())) && Get(cl, "dish_type") == Some(Str(d.Value())) ::
      GroupName(cl) == Some(GetCollectionName(s, d))
  {
    EnumValuesReadBack();
    if GroupName(cl).Some? {
      var s, d := SeasonOf(Get(cl, "season").value).value, DishTypeOf(Get(cl, "dish_type").value).value;
      assert Get(cl, "season") == Some(Str(s.Value())) && Get(cl, "dish_type") == Some(Str(d.Value()));
    }
  }

  /** Each classified recipe's id with the collection it is filed under. */
  type Filing = seq<(string, Option<string>)>

  function FilingOf(cls: ODict<Dict>): (r: Filing)
    ensures |r| == |cls| && forall i | 0 <= i < |cls| :: r[i] == (cls[i].0, GroupName(cls[i].1))
  {
    if |cls| == 0 then []
    else FilingOf(cls[..|cls| - 1]) + [(cls[|cls| - 1].0, GroupName(cls[|cls| - 1].1))]
  }

  /** The entry files its recipe under `name`, and the recipe is not taken. */
  predicate Filed(entry: (string, Option<string>), taken: set<string>, name: string) {
    entry.0 !in taken && entry.1 == Some(name)
  }

  /** The ids filed under `name`, in classification order. */
  function MemberIds(fs: Filing, taken: set<string>, name: string): (r: seq<string>)
    ensures forall x | x in r :: x !in taken
  {
    if |fs| == 0 then []
    else MemberIds(fs[..|fs| - 1], taken, name) + (if Filed(fs[|fs| - 1], taken, name) then [fs[|fs| - 1].0] else [])
  }

  /** An id is filed under `name` exactly when some entry files it there. */
  lemma {:induction false} MemberIdsHas(fs: Filing, taken: set<string>, name: string, x: string)
    ensures x in MemberIds(fs, taken, name) <==> exists i | 0 <= i < |fs| :: fs[i].0 == x && Filed(fs[i], taken, name)
    decreases |fs|
  {
    if |fs| > 0 {
      var init, last := fs[..|fs| - 1], fs[|fs| - 1];
      var rest := if Filed(last, taken, name) then [last.0] else [];
      assert MemberIds(fs, taken, name) == MemberIds(init, taken, name) + rest;
      MemberIdsHas(init, taken, name, x);
      if x in MemberIds(fs, taken, name) {
        if x in MemberIds(init, taken, name) {
          var i :| 0 <= i < |init| && init[i].0 == x && Filed(init[i], taken, name);
          assert fs[i] == init[i];
        } else {
          assert fs[|fs| - 1].0 == x && Filed(fs[|fs| - 1], taken, name);
        }
      }
      if exists i | 0 <= i < |fs| :: fs[i].0 == x && Filed(fs[i], taken, name) {
        var i :| 0 <= i < |fs| && fs[i].0 == x && Filed(fs[i], taken, name);
        if i < |init| {
          assert init[i] == fs[i];
          assert x in MemberIds(init, taken, name);
        } else {
          assert x in rest;
        }
      }
    }
  }

  /** The groups of the first loop of `organize_recipes_into_collections`,
      grown with `setdefault(name, []).append(id)`. */
  function Groups(fs: Filing, taken: set<string>): ODict<seq<string>>
  {
    if |fs| == 0 then []
    else
      var g := Groups(fs[..|fs| - 1], taken);
      var (rid, name) := fs[|fs| - 1];
      if rid in taken || name.None? then g
      else Put(g, name.value, Get(g, name.value).GetOr([]) + [rid])
  }

  /** Each group lists exactly the ids filed under its name, in
      classification order, and a name nothing is filed under has no group. */
  lemma {:induction false} GroupsAt(fs: Filing, taken: set<string>, name: string)
    ensures Get(Groups(fs, taken), name) ==
      if MemberIds(fs, taken, name) == [] then None else Some(MemberIds(fs, taken, name))
    decreases |fs|
  {
    if |fs| > 0 {
      GroupsAt(fs[..|fs| - 1], taken, name);
      GroupsLast(fs, taken, name);
    }
  }

  /** What the last entry adds to the group `name` and to its ids. */
  lemma GroupsLast(fs: Filing, taken: set<string>, name: string)
    requires |fs| > 0
    ensures var init, rid := fs[..|fs| - 1], fs[|fs| - 1].0;
      if Filed(fs[|fs| - 1], taken, name) then
        && Get(Groups(fs, taken), name) == Some(Get(Groups(init, taken), name).GetOr([]) + [rid])
        && MemberIds(fs, taken, name) == MemberIds(init, taken, name) + [rid]
      else
        && Get(Groups(fs, taken), name) == Get(Groups(init, taken), name)
        && MemberIds(fs, taken, name) == MemberIds(init, taken, name)
  {
  }

  /** Every id that some group lists: the untaken ids filed somewhere. */
  function GroupedIds(fs: Filing, taken: set<string>): set<string> {
    set i | 0 <= i < |fs| && fs[i].0 !in taken && fs[i].1.Some? :: fs[i].0
  }

  /** The callback's arguments for the groups `names`, in that order. */
  function Listing(groups: ODict<seq<string>>, names: seq<string>): (r: seq<(string, seq<string>)>)
    ensures |r| == |names| && forall j | 0 <= j < |names| :: r[j] == (names[j], Get(groups, names[j]).GetOr([]))
  {
    if |names| == 0 then []
    else Listing(groups, names[..|names| - 1]) + [(names[|names| - 1], Get(groups, names[|names| - 1]).GetOr([]))]
  }

  /** The ids of all the listed groups, together. */
  function UnionOf(listing: seq<(string, seq<string>)>): set<string>
  {
    if |listing| == 0 then {} else UnionOf(listing[..|listing| - 1]) + Elements(listing[|listing| - 1].1)
  }

  lemma {:induction false} UnionOfHas(listing: seq<(string, seq<string>)>, x: string)
    ensures x in UnionOf(listing) <==> exists j | 0 <= j < |listing| :: x in listing[j].1
    decreases |listing|
  {
    if |listing| > 0 {
      var init := listing[..|listing| - 1];
      UnionOfHas(init, x);
      if x in UnionOf(init) {
        var j :| 0 <= j < |init| && x in init[j].1;
        assert listing[j] == init[j];
      }
      if exists j | 0 <= j < |listing| :: x in listing[j].1 {
        var j :| 0 <= j < |listing| && x in listing[j].1;
        if j < |init| {
          assert init[j] == listing[j];
        }
      }
    }
  }

  /** Taken over all the groups, in name order, the union is the grouped ids. */
  lemma UnionOfGroups(fs: Filing, taken: set<string>)
    ensures UnionOf(Listing(Groups(fs, taken), SortedSet(KeySet(Groups(fs, taken))))) == GroupedIds(fs, taken)
  {
    var names := SortedSet(KeySet(Groups(fs, taken)));
    forall x ensures x in UnionOf(Listing(Groups(fs, taken), names)) <==> x in GroupedIds(fs, taken) {
      UnionOfGroupsHas(fs, taken, names, x);
    }
  }

  lemma UnionOfGroupsHas(fs: Filing, taken: set<string>, names: seq<string>, x: string)
    requires forall n :: n in names <==> n in Keys(Groups(fs, taken))
    ensures x in UnionOf(Listing(Groups(fs, taken), names)) <==> x in GroupedIds(fs, taken)
  {
    UnionOfHas(Listing(Groups(fs, taken), names), x);
    if x in UnionOf(Listing(Groups(fs, taken), names)) {
      ListedIsGrouped(fs, taken, names, x);
    }
    if x in GroupedIds(fs, taken) {
      GroupedIsListed(fs, taken, names, x);
    }
  }

  lemma ListedIsGrouped(fs: Filing, taken: set<string>, names: seq<string>, x: string)
    requires exists j | 0 <= j < |names| :: x in Listing(Groups(fs, taken), names)[j].1
    ensures x in GroupedIds(fs, taken)
  {
    var listing := Listing(Groups(fs, taken), names);
    var j :| 0 <= j < |names| && x in listing[j].1;
    GroupsAt(fs, taken, names[j]);
    MemberIdsHas(fs, taken, names[j], x);
    var i :| 0 <= i < |fs| && fs[i].0 == x && Filed(fs[i], taken, names[j]);
  }

  lemma GroupedIsListed(fs: Filing, taken: set<string>, names: seq<string>, x: string)
    requires forall n :: n in names <==> n in Keys(Groups(fs, taken))
    requires x in GroupedIds(fs, taken)
    ensures exists j | 0 <= j < |names| :: x in Listing(Groups(fs, taken), names)[j].1
  {
    var i :| 0 <= i < |fs| && fs[i].0 == x && x !in taken && fs[i].1.Some?;
    var name := fs[i].1.value;
    assert Filed(fs[i], taken, name);
    MemberIdsHas(fs, taken, name, x);
    GroupsAt(fs, taken, name);
    var j :| 0 <= j < |names| && names[j] == name;
    assert x in Listing(Groups(fs, taken), names)[j].1;
  }

  lemma GroupsSnoc(fs: Filing, taken: set<string>, i: nat, rid: string, name: Option<string>)
    requires i < |fs| && fs[i] == (rid, name)
    ensures Groups(fs[..i + 1], taken) ==
      var g := Groups(fs[..i], taken);
      if rid in taken || name.None? then g else Put(g, name.value, Get(g, name.value).GetOr([]) + [rid])
  {
    assert fs[..i + 1][..i] == fs[..i];
  }

  /** The first loop of `organize_recipes_into_collections`. */
  method GroupRecipes(cls: ODict<Dict>, taken: set<string>) returns (groups: ODict<seq<string>>)
    ensures groups == Groups(FilingOf(cls), taken)
  {
    ghost var fs := FilingOf(cls);
    groups := [];
    for i := 0 to |cls|
      invariant groups == Groups(fs[..i], taken)
    {
      var rid := cls[i].0;
      var name := GroupName(cls[i].1);
      GroupsSnoc(fs, taken, i, rid, name);
      if rid !in taken && name.Some? {
        groups := Put(groups, name.value, Get(groups, name.value).GetOr([]) + [rid]);
      }
    }
    assert fs[..|cls|] == fs;
  }

  /** After the first `i` groups of `names`: `created` maps exactly those
      names, `done` holds their ids, and the callback saw each in order. */
  predicate Organized(groups: ODict<seq<string>>, names: seq<string>, i: nat,
                      created: ODict<Option<string>>, done: set<string>, completed: seq<(string, seq<string>)>)
    requires i <= |names|
  {
    && Keys(created) == names[..i]
    && done == UnionOf(completed)
    && completed == Listing(groups, names[..i])
  }

  lemma OrganizedStep(groups: ODict<seq<string>>, names: seq<string>, i: nat,
                      created: ODict<Option<string>>, done: set<string>, completed: seq<(string, seq<string>)>,
                      id: Option<string>)
    requires i < |names| && forall j, k | 0 <= j < k < |names| :: names[j] != names[k]
    requires Organized(groups, names, i, created, done, completed)
    ensures var ids := Get(groups, names[i]).GetOr([]);
      Organized(groups, names, i + 1, Put(created, names[i], id), done + Elements(ids), completed + [(names[i], ids)])
  {
    var pre, post, ids := names[..i], names[..i + 1], Get(groups, names[i]).GetOr([]);
    assert post[..i] == pre && post[i] == names[i];
    assert Listing(groups, post) == Listing(groups, pre) + [(names[i], ids)];
    assert (completed + [(names[i], ids)])[..i] == completed;
    assert names[i] !in pre;
    PrefixSnoc(names, i);
  }

  // What the platform was asked, read off the log

  /** `log` continues `log0`. */
  predicate Extends(log0: seq<Call>, log: seq<Call>) {
    |log0| <= |log| && log[..|log0|] == log0
  }

  /** After `log0`, the log holds a create of `name` that succeeded and
      reported `id`. */
  ghost predicate CreatedAs(g: Gateway, log0: seq<Call>, log: seq<Call>, name: string, id: Option<string>) {
    exists j | |log0| <= j < |log| ::
      log[j] == CreateCollection(name) && g.accepts(log[..j], log[j]) && id == g.reportedId(log[..j], name)
  }

  /** After `log0`, the log holds an add call to `id` whose batch carries `x`. */
  ghost predicate Submitted(log0: seq<Call>, log: seq<Call>, id: Option<string>, x: string) {
    exists j | |log0| <= j < |log| :: log[j].AddRecipes? && log[j].target == id && x in log[j].recipes
  }

  /** The id organizing got for `name`: the one the listing `loaded` has
      under that name, or else the one a successful create reported. */
  ghost predicate IdFor(g: Gateway, loaded: Caches, log0: seq<Call>, log: seq<Call>, name: string, id: Option<string>) {
    if name in Keys(loaded.names) then id == Get(loaded.names, name) else CreatedAs(g, log0, log, name, id)
  }

  /** Every member the caches know of was in the listing `loaded`, or was
      sent after `log0`. */
  ghost predicate Traced(loaded: Caches, log0: seq<Call>, view: Caches, log: seq<Call>) {
    && Extends(log0, log)
    && forall id, x | x in view.Members(id) :: x in loaded.Members(id) || Submitted(log0, log, id, x)
  }

  lemma IdForExtends(g: Gateway, loaded: Caches, log0: seq<Call>, log: seq<Call>, log': seq<Call>,
                     name: string, id: Option<string>)
    requires IdFor(g, loaded, log0, log, name, id) && Extends(log, log')
    ensures IdFor(g, loaded, log0, log', name, id)
  {
    if name !in Keys(loaded.names) {
      var j :| |log0| <= j < |log| && log[j] == CreateCollection(name) && g.accepts(log[..j], log[j])
               && id == g.reportedId(log[..j], name);
      assert log'[..|log|][j] == log'[j] && log'[..|log|][..j] == log'[..j];
    }
  }

  lemma SubmittedExtends(log0: seq<Call>, log: seq<Call>, log': seq<Call>, id: Option<string>, x: string)
    requires Submitted(log0, log, id, x) && Extends(log, log')
    ensures Submitted(log0, log', id, x)
  {
    var j :| |log0| <= j < |log| && log[j].AddRecipes? && log[j].target == id && x in log[j].recipes;
    assert log'[..|log|][j] == log'[j];
  }

  lemma SubmittedFrom(log0: seq<Call>, log1: seq<Call>, log: seq<Call>, id: Option<string>, x: string)
    requires |log0| <= |log1| && Submitted(log1, log, id, x)
    ensures Submitted(log0, log, id, x)
  {
    var j :| |log1| <= j < |log| && log[j].AddRecipes? && log[j].target == id && x in log[j].recipes;
  }

  /** A get-or-create keeps the trace: a create only empties a member set. */
  lemma EnsureTraced(loaded: Caches, log0: seq<Call>, c: Caches, log: seq<Call>, name: string,
                     reply: Outcome<Option<string>>)
    requires Traced(loaded, log0, c, log)
    ensures Traced(loaded, log0, AfterCreate(c, name, reply), log + [CreateCollection(name)])
  {
    var log' := log + [CreateCollection(name)];
    assert log'[..|log|] == log;
    forall id, x | x in AfterCreate(c, name, reply).Members(id)
      ensures x in loaded.Members(id) || Submitted(log0, log', id, x)
    {
      if x !in loaded.Members(id) {
        SubmittedExtends(log0, log, log', id, x);
      }
    }
  }

  /** An add keeps the trace, and afterwards every recipe of `ids` is known
      from the listing or was sent to `id`. */
  lemma AddTraced(g: Gateway, loaded: Caches, log0: seq<Call>, c: Caches, log: seq<Call>, id: Option<string>,
                  ids: seq<string>, view: Caches, log': seq<Call>, added: nat)
    requires Traced(loaded, log0, c, log)
    requires Progress(g, c, log, id, AddBatches(c, id, ids), view, log', added)
    ensures Traced(loaded, log0, view, log')
    ensures forall x | x in ids :: x in loaded.Members(id) || Submitted(log0, log', id, x)
  {
    var batches := AddBatches(c, id, ids);
    assert log'[..|log|] == log;
    AddKeepsTrace(g, loaded, log0, c, log, id, batches, view, log');
    IssuedSends(g, c, log, id, ids, view, log');
    forall x | x in ids ensures x in loaded.Members(id) || Submitted(log0, log', id, x) {
      if x in c.Members(id) {
        if x !in loaded.Members(id) {
          SubmittedExtends(log0, log, log', id, x);
        }
      } else {
        SubmittedFrom(log0, log, log', id, x);
      }
    }
  }

  /** Issuing batches keeps every known member traceable. */
  lemma AddKeepsTrace(g: Gateway, loaded: Caches, log0: seq<Call>, c: Caches, log: seq<Call>, id: Option<string>,
                      batches: seq<seq<string>>, view: Caches, log': seq<Call>)
    requires Traced(loaded, log0, c, log)
    requires Issued(g, c, log, id, batches, view, log')
    ensures Traced(loaded, log0, view, log')
  {
    var oks := g.Outcomes(log, AddCalls(id, batches));
    AfterAddMembers(c, id, batches, oks);
    assert log'[..|log|] == log;
    assert log'[..|log0|] == log[..|log0|];
    forall id', x | x in view.Members(id') ensures x in loaded.Members(id') || Submitted(log0, log', id', x) {
      if id' == id && x !in c.Members(id) {
        var i :| 0 <= i < |batches| && oks[i] && x in batches[i];
        BatchSent(id, batches, log, log', i, x);
        SubmittedFrom(log0, log, log', id, x);
      } else if x !in loaded.Members(id') {
        SubmittedExtends(log0, log, log', id', x);
      }
    }
  }

  /** After issuing the batches for `ids`, each recipe of `ids` was known to
      be in the target already or was sent to it. */
  lemma IssuedSends(g: Gateway, c: Caches, log: seq<Call>, id: Option<string>, ids: seq<string>,
                    view: Caches, log': seq<Call>)
    requires Issued(g, c, log, id, AddBatches(c, id, ids), view, log')
    ensures forall x | x in ids :: x in c.Members(id) || Submitted(log, log', id, x)
  {
    var batches := AddBatches(c, id, ids);
    AddBatchesShape(c, id, ids);
    forall x | x in ids && x !in c.Members(id) ensures Submitted(log, log', id, x) {
      ConcatMember(batches, x);
      var i :| 0 <= i < |batches| && x in batches[i];
      BatchSent(id, batches, log, log', i, x);
    }
  }

  /** A recipe of one of the batches issued after `log` was sent. */
  lemma BatchSent(id: Option<string>, batches: seq<seq<string>>, log: seq<Call>, log': seq<Call>, i: nat, x: string)
    requires log' == log + AddCalls(id, batches) && i < |batches| && x in batches[i]
    ensures Submitted(log, log', id, x)
  {
    AddCallsAt(id, batches, i);
    assert log'[|log| + i] == AddRecipes(id, batches[i]);
  }

  /** The body of the second loop: get or create the collection, then add the
      group's recipes to it. The answer is `ensure_collection`'s; when it
      returns, the add runs as `add_recipes_to_collection` does from the
      caches and the log the get-or-create left. */
  method OrganizeGroup(manager: CollectionManager, name: string, ids: seq<string>,
                       ghost loaded: Caches, ghost log0: seq<Call>) returns (r: Outcome<Option<string>>, added: nat)
    requires manager.View().Valid()
    requires Traced(loaded, log0, manager.View(), manager.gateway.log)
    modifies manager, manager.gateway
    ensures manager.View().Valid()
    ensures r == EnsureReply(manager.gateway, old(manager.names), old(manager.gateway.log), name)
    ensures var c1 := AfterEnsure(old(manager.View()), name, r);
      var log1 := EnsureLog(old(manager.names), old(manager.gateway.log), name);
      && Extends(log1, manager.gateway.log)
      && (r.Raised? ==> manager.View() == c1 && manager.gateway.log == log1)
      && (r.Returned? ==> Progress(manager.gateway, c1, log1, r.value, AddBatches(c1, r.value, ids),
                                   manager.View(), manager.gateway.log, added))
    ensures Extends(old(manager.gateway.log), manager.gateway.log)
    ensures forall n | n != name :: Get(manager.names, n) == Get(old(manager.names), n)
    ensures Traced(loaded, log0, manager.View(), manager.gateway.log)
    ensures r.Returned? ==>
      forall x | x in ids :: x in loaded.Members(r.value) || Submitted(log0, manager.gateway.log, r.value, x)
  {
    ghost var c0, l0 := manager.View(), manager.gateway.log;
    r := manager.EnsureCollection(name);
    added := 0;
    if name !in Keys(c0.names) {
      EnsureTraced(loaded, log0, c0, l0, name, r);
    }
    ghost var c1, log1 := manager.View(), manager.gateway.log;
    assert log1[..|l0|] == l0;
    if r.Returned? {
      added := manager.AddRecipesToCollection(r.value, ids);
      AddTraced(manager.gateway, loaded, log0, c1, log1, r.value, ids, manager.View(), manager.gateway.log, added);
      assert manager.gateway.log[..|log1|] == log1;
      assert manager.gateway.log[..|l0|] == log1[..|l0|];
    }
  }

  /** The id got for a group name is `IdFor` that name. */
  lemma GroupIdFor(g: Gateway, loaded: Caches, log0: seq<Call>, names: ODict<string>, log: seq<Call>,
                   name: string, r: Outcome<Option<string>>, log': seq<Call>)
    requires Get(names, name) == Get(loaded.names, name)
    requires Extends(log0, log)
    requires r.Returned? && r == EnsureReply(g, names, log, name)
    requires Extends(EnsureLog(names, log, name), log')
    ensures IdFor(g, loaded, log0, log', name, r.value)
  {
    if name !in Keys(names) {
      var j := |log|;
      assert log'[..j + 1][j] == log'[j] && log'[..j + 1][..j] == log'[..j];
    }
  }

  /** The state of the second loop after the first `i` groups: names still to
      come read as listed, and every group done has its `IdFor` id in
      `created`, to which each of its recipes was listed or sent. */
  ghost predicate Filled(g: Gateway, loaded: Caches, log0: seq<Call>, groups: ODict<seq<string>>, names: seq<string>,
                         i: nat, cacheNames: ODict<string>, created: ODict<Option<string>>, log: seq<Call>)
    requires i <= |names|
  {
    && (forall k | i <= k < |names| :: Get(cacheNames, names[k]) == Get(loaded.names, names[k]))
    && (forall k | 0 <= k < i ::
          GroupFilled(g, loaded, log0, Get(groups, names[k]).GetOr([]), names[k], Get(created, names[k]), log))
  }

  /** Once every group is done, each has its id and its recipes. */
  lemma FilledAll(g: Gateway, loaded: Caches, log0: seq<Call>, groups: ODict<seq<string>>, names: seq<string>,
                  cacheNames: ODict<string>, created: ODict<Option<string>>, log: seq<Call>)
    requires Filled(g, loaded, log0, groups, names, |names|, cacheNames, created, log)
    ensures forall k | 0 <= k < |names| ::
      && Get(created, names[k]).Some?
      && IdFor(g, loaded, log0, log, names[k], Get(created, names[k]).value)
      && forall x | x in Get(groups, names[k]).GetOr([]) ::
           x in loaded.Members(Get(created, names[k]).value) || Submitted(log0, log, Get(created, names[k]).value, x)
  {
    forall k | 0 <= k < |names|
      ensures && Get(created, names[k]).Some?
              && IdFor(g, loaded, log0, log, names[k], Get(created, names[k]).value)
              && forall x | x in Get(groups, names[k]).GetOr([]) ::
                   x in loaded.Members(Get(created, names[k]).value) || Submitted(log0, log, Get(created, names[k]).value, x)
    {
      assert GroupFilled(g, loaded, log0, Get(groups, names[k]).GetOr([]), names[k], Get(created, names[k]), log);
    }
  }

  /** A group done keeps its id and its recipes as the log grows. */
  ghost predicate GroupFilled(g: Gateway, loaded: Caches, log0: seq<Call>, ids: seq<string>, name: string,
                              v: Option<Option<string>>, log: seq<Call>)
  {
    && v.Some?
    && IdFor(g, loaded, log0, log, name, v.value)
    && forall x | x in ids :: x in loaded.Members(v.value) || Submitted(log0, log, v.value, x)
  }

  lemma GroupFilledExtends(g: Gateway, loaded: Caches, log0: seq<Call>, ids: seq<string>, name: string,
                           v: Option<Option<string>>, log: seq<Call>, log': seq<Call>)
    requires GroupFilled(g, loaded, log0, ids, name, v, log) && Extends(log, log')
    ensures GroupFilled(g, loaded, log0, ids, name, v, log')
  {
    IdForExtends(g, loaded, log0, log, log', name, v.value);
    forall x | x in ids && x !in loaded.Members(v.value) ensures Submitted(log0, log', v.value, x) {
      SubmittedExtends(log0, log, log', v.value, x);
    }
  }

  lemma FilledStep(g: Gateway, loaded: Caches, log0: seq<Call>, groups: ODict<seq<string>>, names: seq<string>,
                   i: nat, cacheNames: ODict<string>, created: ODict<Option<string>>, log: seq<Call>,
                   cacheNames': ODict<string>, log': seq<Call>, id: Option<string>)
    requires i < |names| && forall j, k | 0 <= j < k < |names| :: names[j] != names[k]
    requires Filled(g, loaded, log0, groups, names, i, cacheNames, created, log)
    requires Extends(log, log')
    requires forall n | n != names[i] :: Get(cacheNames', n) == Get(cacheNames, n)
    requires GroupFilled(g, loaded, log0, Get(groups, names[i]).GetOr([]), names[i], Some(id), log')
    ensures Filled(g, loaded, log0, groups, names, i + 1, cacheNames', Put(created, names[i], id), log')
  {
    forall k | i + 1 <= k < |names| ensures Get(cacheNames', names[k]) == Get(loaded.names, names[k]) {
      assert names[k] != names[i];
    }
    forall k | 0 <= k <= i
      ensures GroupFilled(g, loaded, log0, Get(groups, names[k]).GetOr([]), names[k],
                          Get(Put(created, names[i], id), names[k]), log')
    {
      if k < i {
        GroupFilledPut(g, loaded, log0, Get(groups, names[k]).GetOr([]), names[k], created, names[i], id, log, log');
      } else {
        assert Get(Put(created, names[i], id), names[i]) == Some(id);
      }
    }
  }

  lemma GroupFilledPut(g: Gateway, loaded: Caches, log0: seq<Call>, ids: seq<string>, name: string,
                       created: ODict<Option<string>>, other: string, id: Option<string>, log: seq<Call>, log': seq<Call>)
    requires name != other
    requires GroupFilled(g, loaded, log0, ids, name, Get(created, name), log) && Extends(log, log')
    ensures GroupFilled(g, loaded, log0, ids, name, Get(Put(created, other, id), name), log')
  {
    GroupFilledExtends(g, loaded, log0, ids, name, Get(created, name), log, log');
  }

  /** `organize_recipes_into_collections`: the existing collections are loaded,
      the untaken classifications are grouped by legacy name, and each
      group, in ascending name order, is got or created and filled. The
      arguments of each callback are returned in `completed`. A create that
      raises ends the run with the exception. On return every group name
      maps to the id of the collection of that name in the listing, or else
      to the id its create reported, and each recipe of the group was
      already in that collection's listing or sent to it in an add call. */
  method OrganizeRecipesIntoCollections(gateway: Gateway, classifications: ODict<Dict>, taken: set<string>,
                                        totalPages: Option<int>, fetchPage: nat -> seq<Collection>)
      returns (r: Outcome<(ODict<Option<string>>, set<string>)>, completed: seq<(string, seq<string>)>)
    modifies gateway
    ensures Extends(old(gateway.log), gateway.log)
    ensures var groups := Groups(FilingOf(classifications), taken);
      var names := SortedSet(KeySet(groups));
      && |completed| <= |names|
      && completed == Listing(groups, names[..|completed|])
      && (r.Returned? ==>
           && |completed| == |names|
           && Keys(r.value.0) == names
           && r.value.1 == taken + GroupedIds(FilingOf(classifications), taken))
    ensures r.Returned? ==>
      var groups := Groups(FilingOf(classifications), taken);
      var names := SortedSet(KeySet(groups));
      var loaded := LoadAll(Caches([], map[]), AllPages(totalPages, fetchPage));
      forall k | 0 <= k < |names| ::
        && Get(r.value.0, names[k]).Some?
        && IdFor(gateway, loaded, old(gateway.log), gateway.log, names[k], Get(r.value.0, names[k]).value)
        && forall x | x in Get(groups, names[k]).GetOr([]) ::
             x in loaded.Members(Get(r.value.0, names[k]).value)
             || Submitted(old(gateway.log), gateway.log, Get(r.value.0, names[k]).value, x)
  {
    var manager := new CollectionManager(gateway);
    manager.LoadExistingCollections(totalPages, fetchPage);
    ghost var loaded, log0 := manager.View(), gateway.log;
    var groups := GroupRecipes(classifications, taken);
    var names := SortedSet(KeySet(groups));
    SortedSetDistinct(KeySet(groups));
    var created: ODict<Option<string>> := [];
    var newAssigned: set<string> := {};
    completed := [];
    assert log0[..|log0|] == log0;
    for i := 0 to |names|
      invariant manager.gateway == gateway && manager.View().Valid()
      invariant Organized(groups, names, i, created, newAssigned, completed)
      invariant Traced(loaded, log0, manager.View(), gateway.log)
      invariant Filled(gateway, loaded, log0, groups, names, i, manager.names, created, gateway.log)
    {
      var ids := Get(groups, names[i]).GetOr([]);
      ghost var names0, log := manager.names, gateway.log;
      var id, added := OrganizeGroup(manager, names[i], ids, loaded, log0);
      if id.Raised? {
        return Raised, completed;
      }
      GroupIdFor(gateway, loaded, log0, names0, log, names[i], id, gateway.log);
      assert GroupFilled(gateway, loaded, log0, ids, names[i], Some(id.value), gateway.log);
      FilledStep(gateway, loaded, log0, groups, names, i, names0, created, log, manager.names, gateway.log, id.value);
      OrganizedStep(groups, names, i, created, newAssigned, completed, id.value);
      created := Put(created, names[i], id.value);
      newAssigned := newAssigned + Elements(ids);
      completed := completed + [(names[i], ids)];
    }
    assert names[..|names|] == names;
    UnionOfGroups(FilingOf(classifications), taken);
    FilledAll(gateway, loaded, log0, groups, names, manager.names, created, gateway.log);
    r := Returned((created, taken + newAssigned));
  }
}
