/** The organize pipeline: the legacy "<emoji> <Season> > <Dish>" collections
    are flattened into collections named after the dish type in English, the
    platform-managed recipes are taken out of every other custom collection,
    and the legacy collections are deleted. Progress is kept in an
    `OrganizeState`, so that a run resumed on the same export skips what is
    done. */
module Organizer {
  import opened Wrappers
  import opened Seqs
  import opened Dicts
  import opened Json
  import opened Text
  import opened Models
  import opened Remote
  import opened Collections
  import opened TwoLevelNames
  import opened Regions
  import opened Resume
  import opened OrganizeStates

  /** The export's collection of platform-managed recipes. */
  const ManagedKey: string := "[Managed] Ideas sencillas"

  /** A legacy name: one the season pattern matches with a dish type. */
  predicate IsTwoLevel(name: string) {
    ParseTwoLevelName(name).Some?
  }

  /** Every legacy name has a `>` in it. */
  lemma TwoLevelHasArrow(name: string)
    ensures IsTwoLevel(name) ==> '>' in name
  {
    if IsTwoLevel(name) {
      var m := FindMatch(name, SeasonWords).value;
      assert name[m.d] == '>';
    }
  }

  /** The English collection names are not legacy names. */
  lemma FlatNameNotTwoLevel(d: DishType)
    ensures !IsTwoLevel(TranslateDishType(d).Value())
  {
    EnglishHasNoArrow(TranslateDishType(d));
    TwoLevelHasArrow(TranslateDishType(d).Value());
  }

  lemma EnglishHasNoArrow(e: DishTypeEN)
    ensures '>' !in e.Value()
  {
  }

  // ---------------------------------------------------------------------
  // The managed recipes of the export

  /** `s` contains `w` (Python's `w in s` on strings). */
  predicate Contains(s: string, w: string) {
    exists i | 0 <= i <= |s| :: HasAt(s, i, w)
  }

  /** `_load_managed_recipes` on a decoded export: the ids listed under the
      managed key of "collections", or `None` when there is no such entry
      (the set is then left as it was). `export_data.get` on a document that
      is not an object, `in` on a number, a boolean or `null`, and indexing a
      list or a string by the key all raise. */
  function ManagedLookup(exportData: Json.Value): (r: Outcome<Option<set<string>>>)
    ensures r.Returned? && r.value.Some? ==>
      && exportData.Obj? && Get(exportData.fields, "collections").Some?
      && Get(exportData.fields, "collections").value.Obj?
      && Get(Get(exportData.fields, "collections").value.fields, ManagedKey).Some?
  {
    if !exportData.Obj? then Raised
    else match Get(exportData.fields, "collections")
      case None => Returned(None)
      case Some(collections) =>
        if collections.Obj? then
          (match Get(collections.fields, ManagedKey)
           case None => Returned(None)
           case Some(v) => if AsSet(v).Some? then Returned(AsSet(v)) else Raised)
        else if collections.Arr? then
          (if Str(ManagedKey) in collections.items then Raised else Returned(None))
        else if collections.Str? then
          (if Contains(collections.s, ManagedKey) then Raised else Returned(None))
        else Raised
  }

  /** An export whose "collections" object lists the managed ids gives
      exactly those ids. */
  lemma ManagedLookupOf(fields: Dict, collections: Dict, ids: set<string>)
    requires Get(fields, "collections") == Some(Obj(collections))
    requires Get(collections, ManagedKey) == Some(SetValue(ids))
    ensures ManagedLookup(Obj(fields)) == Returned(Some(ids))
  {
    SetValueRoundTrip(ids);
  }

  /** An export without "collections" has no managed recipes to remove. */
  lemma ManagedLookupMissing(fields: Dict)
    requires "collections" !in Keys(fields)
    ensures ManagedLookup(Obj(fields)) == Returned(None)
  {
  }

  // ---------------------------------------------------------------------
  // The legacy collections a stage works on

  /** The entries of the name -> id cache, in cache order, whose id is not in
      `done` and whose name is a legacy name: what `_flatten_collections`
      (with `done` the flattened ids) and `_delete_old_collections` (with
      the deleted ids) go through. */
  function LegacyEntries(names: ODict<string>, done: set<string>): (r: ODict<string>)
    ensures |r| <= |names|
  {
    if |names| == 0 then []
    else
      var entry := names[|names| - 1];
      LegacyEntries(names[..|names| - 1], done) + (if entry.1 !in done && IsTwoLevel(entry.0) then [entry] else [])
  }

  /** An entry is selected exactly when it is a cache entry with a legacy
      name and an id not yet done. */
  lemma {:induction false} LegacyEntriesHas(names: ODict<string>, done: set<string>, p: (string, string))
    ensures p in LegacyEntries(names, done) <==> p in names && p.1 !in done && IsTwoLevel(p.0)
    decreases |names|
  {
    if |names| > 0 {
      var init := names[..|names| - 1];
      LegacyEntriesHas(init, done, p);
      assert names == init + [names[|names| - 1]];
    }
  }

  lemma LegacyEntriesAt(names: ODict<string>, done: set<string>, i: nat)
    requires i < |LegacyEntries(names, done)|
    ensures var p := LegacyEntries(names, done)[i]; p in names && p.1 !in done && IsTwoLevel(p.0)
  {
    LegacyEntriesHas(names, done, LegacyEntries(names, done)[i]);
  }

  /** With every legacy id done, nothing is selected. */
  lemma {:induction false} LegacyEntriesNone(names: ODict<string>, done: set<string>)
    requires forall i | 0 <= i < |names| :: IsTwoLevel(names[i].0) ==> names[i].1 in done
    ensures LegacyEntries(names, done) == []
    decreases |names|
  {
    if |names| > 0 {
      LegacyEntriesNone(names[..|names| - 1], done);
    }
  }

  /** The ids of some entries. */
  function EntryIds(entries: ODict<string>): set<string> {
    set i | 0 <= i < |entries| :: entries[i].1
  }

  lemma EntryIdsSnoc(entries: ODict<string>, i: nat)
    requires i < |entries|
    ensures EntryIds(entries[..i + 1]) == EntryIds(entries[..i]) + {entries[i].1}
  {
    var pre, post := entries[..i], entries[..i + 1];
    assert forall j | 0 <= j < i :: post[j] == pre[j];
    assert post[i] == entries[i];
  }

  lemma EntryIdsPrefix(entries: ODict<string>, i: nat)
    requires i <= |entries|
    ensures EntryIds(entries[..i]) <= EntryIds(entries)
  {
    forall x | x in EntryIds(entries[..i]) ensures x in EntryIds(entries) {
      var j :| 0 <= j < i && entries[..i][j].1 == x;
      assert entries[j].1 == x;
    }
  }

  /** Once every selected id is done, every legacy id of the cache is done,
      so the same selection is empty: a finished stage plans nothing when
      it runs again. */
  lemma LegacyEntriesDone(names: ODict<string>, done: set<string>)
    ensures forall i | 0 <= i < |names| :: IsTwoLevel(names[i].0) ==> names[i].1 in done + EntryIds(LegacyEntries(names, done))
    ensures LegacyEntries(names, done + EntryIds(LegacyEntries(names, done))) == []
  {
    var plan := LegacyEntries(names, done);
    forall i | 0 <= i < |names| && IsTwoLevel(names[i].0)
      ensures names[i].1 in done + EntryIds(plan)
    {
      LegacyEntriesHas(names, done, names[i]);
      if names[i].1 !in done {
        var j :| 0 <= j < |plan| && plan[j] == names[i];
      }
    }
    LegacyEntriesNone(names, done + EntryIds(plan));
  }

  /** The loop that collects the entries of a stage. */
  method SelectLegacy(names: ODict<string>, done: set<string>) returns (plan: ODict<string>)
    ensures plan == LegacyEntries(names, done)
  {
    plan := [];
    for i := 0 to |names|
      invariant plan == LegacyEntries(names[..i], done)
    {
      assert names[..i + 1][..i] == names[..i];
      if names[i].1 !in done && IsTwoLevel(names[i].0) {
        plan := plan + [names[i]];
      }
    }
    assert names[..|names|] == names;
  }

  /** The cache entries with a legacy name; the stages only ever add
      English names, so these stay as they are. */
  function LegacyPairs(names: ODict<string>): set<(string, string)> {
    set i | 0 <= i < |names| && IsTwoLevel(names[i].0) :: names[i]
  }

  lemma LegacyPairsPut(names: ODict<string>, k: string, v: string)
    requires !IsTwoLevel(k)
    ensures LegacyPairs(Put(names, k, v)) == LegacyPairs(names)
  {
    var after := Put(names, k, v);
    forall p | p in LegacyPairs(after) ensures p in LegacyPairs(names) {
      var i :| 0 <= i < |after| && IsTwoLevel(after[i].0) && after[i] == p;
      LegacyPairOf(names, k, v, p);
    }
    forall p | p in LegacyPairs(names) ensures p in LegacyPairs(after) {
      var i :| 0 <= i < |names| && IsTwoLevel(names[i].0) && names[i] == p;
      LegacyPairOf(names, k, v, p);
    }
  }

  /** A legacy pair is an entry after a `Put` of a non-legacy name exactly
      when it was one before. */
  lemma LegacyPairOf(names: ODict<string>, k: string, v: string, p: (string, string))
    requires !IsTwoLevel(k) && IsTwoLevel(p.0)
    ensures p in LegacyPairs(Put(names, k, v)) <==> p in LegacyPairs(names)
  {
    PutOthers(names, k, v, p);
    var after := Put(names, k, v);
    if p in after {
      var i :| 0 <= i < |after| && after[i] == p;
    }
    if p in names {
      var i :| 0 <= i < |names| && names[i] == p;
    }
  }

  /** The recipes of a legacy collection, added in ascending order after a
      get-or-create that started at `log0`, were known in the target or sent. */
  lemma MovedSends(g: Gateway, log0: seq<Call>, c: Caches, log: seq<Call>, id: Option<string>, recipes: set<string>,
                   view: Caches, log': seq<Call>)
    requires |log0| <= |log|
    requires Issued(g, c, log, id, AddBatches(c, id, SortedSet(recipes)), view, log')
    ensures forall x | x in recipes :: x in c.Members(id) || Submitted(log0, log', id, x)
  {
    IssuedSends(g, c, log, id, SortedSet(recipes), view, log');
    forall x | x in recipes && x !in c.Members(id) ensures Submitted(log0, log', id, x) {
      assert x in SortedSet(recipes);
      SubmittedFrom(log0, log, log', id, x);
    }
  }

  /** `add_recipes_to_collection(id, list(recipes))`, the set listed in
      ascending order: afterwards each recipe was known in the target
      already or was sent to it after `log0`. */
  method AddRecipeSet(manager: CollectionManager, id: Option<string>, recipes: set<string>, ghost log0: seq<Call>)
    requires |log0| <= |manager.gateway.log|
    modifies manager, manager.gateway
    ensures manager.names == old(manager.names)
    ensures Issued(manager.gateway, old(manager.View()), old(manager.gateway.log), id,
                   AddBatches(old(manager.View()), id, SortedSet(recipes)), manager.View(), manager.gateway.log)
    ensures forall x | x in recipes ::
      x in old(manager.View()).Members(id) || Submitted(log0, manager.gateway.log, id, x)
  {
    var added := manager.AddRecipesToCollection(id, SortedSet(recipes));
    MovedSends(manager.gateway, log0, old(manager.View()), old(manager.gateway.log), id, recipes,
               manager.View(), manager.gateway.log);
  }

  /** What the delete stage selects lies among the legacy pairs. */
  lemma LegacyEntriesArePairs(names: ODict<string>, done: set<string>, x: string)
    requires x in EntryIds(LegacyEntries(names, done))
    ensures exists p | p in LegacyPairs(names) :: p.1 == x
  {
    var plan := LegacyEntries(names, done);
    var j :| 0 <= j < |plan| && plan[j].1 == x;
    LegacyEntriesAt(names, done, j);
    var i :| 0 <= i < |names| && names[i] == plan[j];
    assert names[i] in LegacyPairs(names);
  }

  // ---------------------------------------------------------------------
  // Value-level accounts of the stages

  /** The English name of a legacy entry. */
  function EntryFlatName(name: string): string {
    if IsTwoLevel(name) then GetFlatCollectionName(ParseTwoLevelName(name).value.1) else ""
  }

  /** The English names of the entries. */
  function FlatNames(entries: ODict<string>): set<string> {
    set i | 0 <= i < |entries| :: EntryFlatName(entries[i].0)
  }

  lemma FlatNamesSnoc(entries: ODict<string>, i: nat)
    requires i < |entries|
    ensures FlatNames(entries[..i + 1]) == FlatNames(entries[..i]) + {EntryFlatName(entries[i].0)}
  {
    var pre, post := entries[..i], entries[..i + 1];
    var last := EntryFlatName(entries[i].0);
    forall x | x in FlatNames(post) ensures x in FlatNames(pre) + {last} {
      var j :| 0 <= j < i + 1 && EntryFlatName(post[j].0) == x;
      if j < i {
        assert post[j] == pre[j];
      } else {
        assert post[j] == entries[i];
      }
    }
    forall x | x in FlatNames(pre) ensures x in FlatNames(post) {
      var j :| 0 <= j < i && EntryFlatName(pre[j].0) == x;
      assert post[j] == pre[j];
    }
    assert post[i] == entries[i];
  }

  lemma FlatNamesPrefix(entries: ODict<string>, i: nat)
    requires i <= |entries|
    ensures FlatNames(entries[..i]) <= FlatNames(entries)
  {
    forall x | x in FlatNames(entries[..i]) ensures x in FlatNames(entries) {
      var j :| 0 <= j < i && EntryFlatName(entries[..i][j].0) == x;
      assert entries[j] == entries[..i][j];
    }
  }

  /** The flatten stage after the first `i` entries of `plan`, from `s0`:
      those ids are flattened, the created names are the old ones or the
      English names of those entries, and the other fields are as they were. */
  predicate Flattened(s0: OrganizeState, plan: ODict<string>, i: nat, s: OrganizeState)
    requires i <= |plan|
  {
    && s.exportFile == s0.exportFile && s.removed == s0.removed && s.deleted == s0.deleted
    && s.flattened == s0.flattened + EntryIds(plan[..i])
    && KeySet(s.created) <= KeySet(s0.created) + FlatNames(plan[..i])
  }

  /** One more entry flattened. */
  lemma FlattenedStep(s0: OrganizeState, plan: ODict<string>, i: nat, s: OrganizeState, s': OrganizeState)
    requires i < |plan| && Flattened(s0, plan, i, s)
    requires s'.exportFile == s.exportFile && s'.removed == s.removed && s'.deleted == s.deleted
    requires s'.flattened == s.flattened + {plan[i].1}
    requires KeySet(s'.created) <= KeySet(s.created) + {EntryFlatName(plan[i].0)}
    ensures Flattened(s0, plan, i + 1, s')
  {
    EntryIdsSnoc(plan, i);
    FlatNamesSnoc(plan, i);
  }

  lemma FlattenedStart(s0: OrganizeState, plan: ODict<string>)
    ensures Flattened(s0, plan, 0, s0)
  {
    assert plan[..0] == [];
  }

  /** What the flatten stage may have done by the time it stops: flattened
      some of the planned ids, created only their English names. */
  predicate FlattenedWithin(s0: OrganizeState, plan: ODict<string>, s: OrganizeState) {
    && s.exportFile == s0.exportFile && s.removed == s0.removed && s.deleted == s0.deleted
    && s0.flattened <= s.flattened <= s0.flattened + EntryIds(plan)
    && KeySet(s.created) <= KeySet(s0.created) + FlatNames(plan)
  }

  lemma FlattenedIsWithin(s0: OrganizeState, plan: ODict<string>, i: nat, s: OrganizeState)
    requires i <= |plan| && Flattened(s0, plan, i, s)
    ensures FlattenedWithin(s0, plan, s)
  {
    EntryIdsPrefix(plan, i);
    FlatNamesPrefix(plan, i);
  }

  // ---------------------------------------------------------------------
  // Per-collection removals

  /** What `removed_managed_recipes.get(id, set())` holds. */
  function Recorded(removed: ODict<set<string>>, id: string): set<string> {
    Get(removed, id).GetOr({})
  }

  /** The removals map after `recipes` were removed from collection `id`:
      `setdefault(id, set()).add(r)` for each, so nothing changes when there
      are none. */
  function Record(removed: ODict<set<string>>, id: string, recipes: set<string>): (r: ODict<set<string>>)
    ensures forall other :: Recorded(r, other) == Recorded(removed, other) + (if other == id then recipes else {})
  {
    if recipes == {} then removed else Put(removed, id, Recorded(removed, id) + recipes)
  }

  lemma RecordTwice(removed: ODict<set<string>>, id: string, a: set<string>, b: set<string>)
    ensures Record(Record(removed, id, a), id, b) == Record(removed, id, a + b)
  {
    if a == {} {
      assert a + b == b;
    } else if b == {} {
      assert a + b == a;
    } else {
      var once := Put(removed, id, Recorded(removed, id) + a);
      assert Recorded(once, id) == Recorded(removed, id) + a;
      PutPut(removed, id, Recorded(removed, id) + a, Recorded(removed, id) + a + b);
      assert Recorded(removed, id) + a + b == Recorded(removed, id) + (a + b);
    }
  }

  /** The recipes of `recipes` whose call succeeded. */
  function Succeeded(recipes: seq<string>, oks: seq<bool>): set<string>
    requires |oks| == |recipes|
  {
    set j | 0 <= j < |recipes| && oks[j] :: recipes[j]
  }

  lemma SucceededSnoc(recipes: seq<string>, oks: seq<bool>, x: string, ok: bool)
    requires |oks| == |recipes|
    ensures Succeeded(recipes + [x], oks + [ok]) == Succeeded(recipes, oks) + (if ok then {x} else {})
  {
    var rs, os := recipes + [x], oks + [ok];
    assert forall j | 0 <= j < |recipes| :: rs[j] == recipes[j] && os[j] == oks[j];
    assert rs[|recipes|] == x && os[|recipes|] == ok;
  }

  /** The calls of `_remove_managed_recipes` for one collection. */
  function RemoveCalls(id: string, recipes: seq<string>): (r: seq<Call>)
    ensures |r| == |recipes|
  {
    if |recipes| == 0 then [] else RemoveCalls(id, recipes[..|recipes| - 1]) + [RemoveRecipe(id, recipes[|recipes| - 1])]
  }

  lemma RemoveCallsSnoc(id: string, recipes: seq<string>, i: nat)
    requires i < |recipes|
    ensures RemoveCalls(id, recipes[..i + 1]) == RemoveCalls(id, recipes[..i]) + [RemoveRecipe(id, recipes[i])]
  {
    assert recipes[..i + 1][..i] == recipes[..i];
  }

  lemma {:induction false} RemoveCallsAt(id: string, recipes: seq<string>, j: nat)
    requires j < |recipes|
    ensures RemoveCalls(id, recipes)[j] == RemoveRecipe(id, recipes[j])
    decreases |recipes|
  {
    if j < |recipes| - 1 {
      RemoveCallsAt(id, recipes[..|recipes| - 1], j);
    }
  }

  /** The recipes of `recipes` whose call failed. */
  function Failed(recipes: seq<string>, oks: seq<bool>): set<string>
    requires |oks| == |recipes|
  {
    set j | 0 <= j < |recipes| && !oks[j] :: recipes[j]
  }

  /** The recipes of the removals from collection `id` among `calls` that
      succeeded (`accepted`) or failed (`!accepted`). */
  function RemovalsOn(calls: seq<Call>, oks: seq<bool>, id: string, accepted: bool): set<string>
    requires |oks| == |calls|
  {
    set j | 0 <= j < |calls| && oks[j] == accepted && calls[j].RemoveRecipe? && calls[j].collection == id :: calls[j].recipe
  }

  lemma RemovalsOnAppend(a: seq<Call>, oa: seq<bool>, b: seq<Call>, ob: seq<bool>, id: string, accepted: bool)
    requires |oa| == |a| && |ob| == |b|
    ensures RemovalsOn(a + b, oa + ob, id, accepted) == RemovalsOn(a, oa, id, accepted) + RemovalsOn(b, ob, id, accepted)
  {
    var c, o := a + b, oa + ob;
    forall x ensures x in RemovalsOn(c, o, id, accepted) <==> x in RemovalsOn(a, oa, id, accepted) || x in RemovalsOn(b, ob, id, accepted) {
      if x in RemovalsOn(c, o, id, accepted) {
        var j :| 0 <= j < |c| && o[j] == accepted && c[j].RemoveRecipe? && c[j].collection == id && c[j].recipe == x;
        if j < |a| {
          assert c[j] == a[j] && o[j] == oa[j];
        } else {
          assert c[j] == b[j - |a|] && o[j] == ob[j - |a|];
        }
      }
      if x in RemovalsOn(a, oa, id, accepted) {
        var j :| 0 <= j < |a| && oa[j] == accepted && a[j].RemoveRecipe? && a[j].collection == id && a[j].recipe == x;
        assert c[j] == a[j] && o[j] == oa[j];
      }
      if x in RemovalsOn(b, ob, id, accepted) {
        var j :| 0 <= j < |b| && ob[j] == accepted && b[j].RemoveRecipe? && b[j].collection == id && b[j].recipe == x;
        assert c[|a| + j] == b[j] && o[|a| + j] == ob[j];
      }
    }
  }

  /** The removals of one collection's pass are all on that collection. */
  lemma RemovalsOnCalls(c: string, xs: seq<string>, oks: seq<bool>, id: string, accepted: bool)
    requires |oks| == |xs|
    ensures RemovalsOn(RemoveCalls(c, xs), oks, id, accepted) ==
      if id != c then {} else if accepted then Succeeded(xs, oks) else Failed(xs, oks)
  {
    var calls := RemoveCalls(c, xs);
    forall j | 0 <= j < |xs| ensures calls[j] == RemoveRecipe(c, xs[j]) {
      RemoveCallsAt(c, xs, j);
    }
  }

  /** `_remove_managed_recipes` passes over the managed collection itself and
      over the legacy collections. */
  predicate Eligible(name: string) {
    name != ManagedKey && !IsTwoLevel(name)
  }

  function EligibleIds(entries: ODict<string>): set<string> {
    set k | 0 <= k < |entries| && Eligible(entries[k].0) :: entries[k].1
  }

  lemma EligibleIdsSnoc(entries: ODict<string>, i: nat)
    requires i < |entries|
    ensures EligibleIds(entries[..i + 1]) == EligibleIds(entries[..i]) + (if Eligible(entries[i].0) then {entries[i].1} else {})
  {
    var pre, post := entries[..i], entries[..i + 1];
    assert forall j | 0 <= j < i :: post[j] == pre[j];
    assert post[i] == entries[i];
  }

  /** The managed recipes of collection `id`, as the cache knows it, not yet
      recorded as removed from it. */
  function Pending(view: Caches, managed: set<string>, removed: ODict<set<string>>, id: string): set<string> {
    (view.Members(Some(id)) * managed) - Recorded(removed, id)
  }

  /** The recipes one turn of `_remove_managed_recipes` removes from the
      entry `(name, id)`, in the order it tries them: none when the entry is
      passed over, when nothing is pending, or in a dry run. */
  function PassRecipes(view: Caches, managed: set<string>, removed: ODict<set<string>>, name: string, id: string,
                       dryRun: bool): (r: seq<string>)
    ensures forall x | x in r :: x in Pending(view, managed, removed, id)
  {
    if !Eligible(name) || Pending(view, managed, removed, id) == {} || dryRun then []
    else SortedSet(Pending(view, managed, removed, id))
  }

  /** Every call is the removal of a managed recipe from one of `ids`. */
  predicate OnlyManaged(calls: seq<Call>, managed: set<string>, ids: set<string>) {
    forall j | 0 <= j < |calls| :: calls[j].RemoveRecipe? && calls[j].recipe in managed && calls[j].collection in ids
  }

  /** Every managed recipe the cache still has in one of the collections
      `ids` is recorded as removed from it or had its removal refused. */
  predicate Covered(ids: set<string>, view: Caches, managed: set<string>, removed: ODict<set<string>>,
                    calls: seq<Call>, oks: seq<bool>)
    requires |oks| == |calls|
  {
    forall d | d in ids :: view.Members(Some(d)) * managed <= Recorded(removed, d) + RemovalsOn(calls, oks, d, false)
  }

  /** Every call removes a recipe that was pending in its collection when
      the stage started from `view0` and `removed0`. */
  predicate FromPending(calls: seq<Call>, view0: Caches, managed: set<string>, removed0: ODict<set<string>>) {
    forall j | 0 <= j < |calls| ::
      calls[j].RemoveRecipe? && calls[j].recipe in Pending(view0, managed, removed0, calls[j].collection)
  }

  /** `_remove_managed_recipes` after the first `i` entries of the snapshot
      `names0`, started from `s0` and the caches `view0`, having issued
      `calls` after `log0`: only managed recipes of eligible collections were
      removed, each of them a member of its collection not yet recorded as
      removed from it when the stage started; member sets only shrank, the
      state records exactly the removals that succeeded, and the entries
      passed are covered. */
  ghost predicate Removing(g: Gateway, log0: seq<Call>, s0: OrganizeState, view0: Caches, managed: set<string>,
                           names0: ODict<string>, dryRun: bool, i: nat, calls: seq<Call>, s: OrganizeState, view: Caches)
    requires i <= |names0|
  {
    var oks := g.Outcomes(log0, calls);
    && s == s0.(removed := s.removed)
    && OnlyManaged(calls, managed, EligibleIds(names0[..i]))
    && FromPending(calls, view0, managed, s0.removed)
    && (forall id :: view.Members(Some(id)) <= view0.Members(Some(id)))
    && (forall id :: Recorded(s.removed, id) == Recorded(s0.removed, id) + RemovalsOn(calls, oks, id, true))
    && (dryRun ==> calls == [] && s == s0)
    && (!dryRun ==> Covered(EligibleIds(names0[..i]), view, managed, s.removed, calls, oks))
  }

  lemma RemovingStart(g: Gateway, log0: seq<Call>, s0: OrganizeState, managed: set<string>, names0: ODict<string>,
                       dryRun: bool, view: Caches)
    ensures Removing(g, log0, s0, view, managed, names0, dryRun, 0, [], s0, view)
  {
    assert names0[..0] == [];
  }

  /** With no managed recipe known the stage does nothing, which already
      meets what the whole pass promises. */
  lemma NothingManaged(g: Gateway, log0: seq<Call>, s0: OrganizeState, names0: ODict<string>, dryRun: bool,
                       view: Caches)
    ensures Removing(g, log0, s0, view, {}, names0, dryRun, |names0|, [], s0, view)
  {
    assert Record(s0.removed, "", {}) == s0.removed;
  }

  lemma LogSplit(log0: seq<Call>, log: seq<Call>)
    requires |log0| <= |log| && log[..|log0|] == log0
    ensures log == log0 + log[|log0|..]
  {
  }

  lemma LogExtended(log0: seq<Call>, calls: seq<Call>, more: seq<Call>)
    ensures var log := log0 + calls + more;
      && |log0| <= |log| && log[..|log0|] == log0 && log[|log0|..] == calls + more
  {
    var log := log0 + calls + more;
    assert log == log0 + (calls + more);
  }

  /** One more entry of the snapshot passed. */
  lemma RemovingStep(g: Gateway, log0: seq<Call>, s0: OrganizeState, view0: Caches, managed: set<string>,
                     names0: ODict<string>, dryRun: bool, i: nat, calls: seq<Call>, s: OrganizeState, view: Caches,
                     xs: seq<string>, s': OrganizeState, view': Caches)
    requires i < |names0| && Removing(g, log0, s0, view0, managed, names0, dryRun, i, calls, s, view)
    requires xs == PassRecipes(view, managed, s.removed, names0[i].0, names0[i].1, dryRun)
    requires RemovedWith(view, s, names0[i].1, xs, g.Outcomes(log0 + calls, RemoveCalls(names0[i].1, xs)), view', s')
    ensures Removing(g, log0, s0, view0, managed, names0, dryRun, i + 1, calls + RemoveCalls(names0[i].1, xs), s', view')
  {
    var c := names0[i].1;
    var added := RemoveCalls(c, xs);
    var oa, ob := g.Outcomes(log0, calls), g.Outcomes(log0 + calls, added);
    g.OutcomesAppend(log0, calls, added);
    OnlyManagedStep(calls, managed, names0, i, view, s.removed, dryRun, xs);
    RecordedGrows(s0.removed, s.removed, calls, oa, c);
    FromPendingStep(calls, view0, view, managed, s0.removed, s.removed, c, xs);
    ShrunkStep(view0, view, view', c, xs, ob);
    RecordedStep(s0.removed, s.removed, calls, oa, c, xs, ob);
    if !dryRun {
      CoveredStep(names0, i, view, view', managed, s.removed, calls, oa, xs, ob);
    }
  }

  lemma RecordedStep(removed0: ODict<set<string>>, removed: ODict<set<string>>, calls: seq<Call>, oa: seq<bool>,
                      c: string, xs: seq<string>, ob: seq<bool>)
    requires |oa| == |calls| && |ob| == |xs|
    requires forall id :: Recorded(removed, id) == Recorded(removed0, id) + RemovalsOn(calls, oa, id, true)
    ensures forall id ::
      Recorded(Record(removed, c, Succeeded(xs, ob)), id) == Recorded(removed0, id) + RemovalsOn(calls + RemoveCalls(c, xs), oa + ob, id, true)
  {
    forall id ensures Recorded(Record(removed, c, Succeeded(xs, ob)), id) ==
      Recorded(removed0, id) + RemovalsOn(calls + RemoveCalls(c, xs), oa + ob, id, true)
    {
      RemovalsOnAppend(calls, oa, RemoveCalls(c, xs), ob, id, true);
      RemovalsOnCalls(c, xs, ob, id, true);
    }
  }

  /** Recording only adds to what the stage started with. */
  lemma RecordedGrows(removed0: ODict<set<string>>, removed: ODict<set<string>>, calls: seq<Call>, oa: seq<bool>,
                      c: string)
    requires |oa| == |calls|
    requires forall id :: Recorded(removed, id) == Recorded(removed0, id) + RemovalsOn(calls, oa, id, true)
    ensures Recorded(removed0, c) <= Recorded(removed, c)
  {
    assert Recorded(removed, c) == Recorded(removed0, c) + RemovalsOn(calls, oa, c, true);
  }

  /** The recipes of the next pass were pending when the stage started,
      since member sets only shrink and records only grow. */
  lemma FromPendingStep(calls: seq<Call>, view0: Caches, view: Caches, managed: set<string>,
                        removed0: ODict<set<string>>, removed: ODict<set<string>>, c: string, xs: seq<string>)
    requires FromPending(calls, view0, managed, removed0)
    requires view.Members(Some(c)) <= view0.Members(Some(c)) && Recorded(removed0, c) <= Recorded(removed, c)
    requires forall x | x in xs :: x in Pending(view, managed, removed, c)
    ensures FromPending(calls + RemoveCalls(c, xs), view0, managed, removed0)
  {
    var all := calls + RemoveCalls(c, xs);
    forall j | 0 <= j < |all|
      ensures all[j].RemoveRecipe? && all[j].recipe in Pending(view0, managed, removed0, all[j].collection)
    {
      if j >= |calls| {
        RemoveCallsAt(c, xs, j - |calls|);
        assert xs[j - |calls|] in xs;
        assert all[j] == RemoveRecipe(c, xs[j - |calls|]);
      } else {
        assert all[j] == calls[j];
      }
    }
  }

  /** A pass over `c` only takes members away. */
  lemma ShrunkStep(view0: Caches, view: Caches, view': Caches, c: string, xs: seq<string>, ob: seq<bool>)
    requires |ob| == |xs|
    requires forall id :: view.Members(Some(id)) <= view0.Members(Some(id))
    requires view'.Members(Some(c)) == view.Members(Some(c)) - Succeeded(xs, ob)
    requires forall other | other != Some(c) :: view'.Members(other) == view.Members(other)
    ensures forall id :: view'.Members(Some(id)) <= view0.Members(Some(id))
  {
    forall id ensures view'.Members(Some(id)) <= view0.Members(Some(id)) {
      assert view.Members(Some(id)) <= view0.Members(Some(id));
    }
  }

  lemma OnlyManagedStep(calls: seq<Call>, managed: set<string>, names0: ODict<string>, i: nat, view: Caches,
                        removed: ODict<set<string>>, dryRun: bool, xs: seq<string>)
    requires i < |names0| && OnlyManaged(calls, managed, EligibleIds(names0[..i]))
    requires xs == PassRecipes(view, managed, removed, names0[i].0, names0[i].1, dryRun)
    ensures OnlyManaged(calls + RemoveCalls(names0[i].1, xs), managed, EligibleIds(names0[..i + 1]))
  {
    EligibleIdsSnoc(names0, i);
    var all := calls + RemoveCalls(names0[i].1, xs);
    forall j | 0 <= j < |all|
      ensures all[j].RemoveRecipe? && all[j].recipe in managed && all[j].collection in EligibleIds(names0[..i + 1])
    {
      if j >= |calls| {
        RemoveCallsAt(names0[i].1, xs, j - |calls|);
        assert xs[j - |calls|] in xs;
      }
    }
  }

  /** The managed recipes left in the collection of an eligible entry after
      its turn are recorded or refused. */
  lemma PassCovers(view: Caches, managed: set<string>, removed: ODict<set<string>>, name: string, c: string,
                   xs: seq<string>, ob: seq<bool>)
    requires Eligible(name) && xs == PassRecipes(view, managed, removed, name, c, false) && |ob| == |xs|
    ensures (view.Members(Some(c)) - Succeeded(xs, ob)) * managed <= Recorded(removed, c) + Succeeded(xs, ob) + Failed(xs, ob)
  {
    forall x | x in (view.Members(Some(c)) - Succeeded(xs, ob)) * managed && x !in Recorded(removed, c)
      ensures x in Succeeded(xs, ob) + Failed(xs, ob)
    {
      assert x in Pending(view, managed, removed, c);
      assert x in xs;
      var j :| 0 <= j < |xs| && xs[j] == x;
    }
  }

  lemma CoveredStep(names0: ODict<string>, i: nat, view: Caches, view': Caches, managed: set<string>,
                    removed: ODict<set<string>>, calls: seq<Call>, oa: seq<bool>, xs: seq<string>, ob: seq<bool>)
    requires i < |names0| && |oa| == |calls| && |ob| == |xs|
    requires Covered(EligibleIds(names0[..i]), view, managed, removed, calls, oa)
    requires xs == PassRecipes(view, managed, removed, names0[i].0, names0[i].1, false)
    requires view'.Members(Some(names0[i].1)) == view.Members(Some(names0[i].1)) - Succeeded(xs, ob)
    requires forall other | other != Some(names0[i].1) :: view'.Members(other) == view.Members(other)
    ensures Covered(EligibleIds(names0[..i + 1]), view', managed, Record(removed, names0[i].1, Succeeded(xs, ob)),
                    calls + RemoveCalls(names0[i].1, xs), oa + ob)
  {
    var name, c := names0[i].0, names0[i].1;
    var ids := EligibleIds(names0[..i]);
    EligibleIdsSnoc(names0, i);
    forall d | d in EligibleIds(names0[..i + 1])
      ensures view'.Members(Some(d)) * managed <=
        Recorded(Record(removed, c, Succeeded(xs, ob)), d) + RemovalsOn(calls + RemoveCalls(c, xs), oa + ob, d, false)
    {
      if d == c && Eligible(name) {
        PassCovers(view, managed, removed, name, c, xs, ob);
        CoveredAt(view, view', managed, removed, calls, oa, c, xs, ob, d, true);
      } else {
        assert d in ids;
        CoveredAt(view, view', managed, removed, calls, oa, c, xs, ob, d, false);
      }
    }
  }

  /** Coverage of one collection `d` after the pass over `c`: by the pass
      itself (`byPass`), or kept from before. */
  lemma CoveredAt(view: Caches, view': Caches, managed: set<string>, removed: ODict<set<string>>,
                  calls: seq<Call>, oa: seq<bool>, c: string, xs: seq<string>, ob: seq<bool>, d: string, byPass: bool)
    requires |oa| == |calls| && |ob| == |xs|
    requires view'.Members(Some(c)) == view.Members(Some(c)) - Succeeded(xs, ob)
    requires forall other | other != Some(c) :: view'.Members(other) == view.Members(other)
    requires byPass ==>
      && d == c
      && (view.Members(Some(c)) - Succeeded(xs, ob)) * managed <= Recorded(removed, c) + Succeeded(xs, ob) + Failed(xs, ob)
    requires !byPass ==>
      && (d != c || xs == [])
      && view.Members(Some(d)) * managed <= Recorded(removed, d) + RemovalsOn(calls, oa, d, false)
    ensures view'.Members(Some(d)) * managed <=
      Recorded(Record(removed, c, Succeeded(xs, ob)), d) + RemovalsOn(calls + RemoveCalls(c, xs), oa + ob, d, false)
  {
    RemovalsOnAppend(calls, oa, RemoveCalls(c, xs), ob, d, false);
    RemovalsOnCalls(c, xs, ob, d, false);
    if !byPass && d == c {
      assert Succeeded(xs, ob) == {} && Failed(xs, ob) == {};
      assert Record(removed, c, {}) == removed;
      assert view'.Members(Some(d)) == view.Members(Some(d));
    }
  }

  /** The removals of the recipes `done` from collection `c`, issued one by
      one after `log0` starting from `view0` and `s0`: the log holds their
      calls, each removal that succeeded is recorded in the state and gone
      from the cache, and nothing else changed. */
  ghost predicate Removal(g: Gateway, view0: Caches, log0: seq<Call>, s0: OrganizeState, c: string, done: seq<string>,
                    view: Caches, log: seq<Call>, s: OrganizeState)
  {
    && log == log0 + RemoveCalls(c, done)
    && RemovedWith(view0, s0, c, done, g.Outcomes(log0, RemoveCalls(c, done)), view, s)
  }

  /** The state and the cache once the removals of `done` from `c` had the
      outcomes `oks`. */
  ghost predicate RemovedWith(view0: Caches, s0: OrganizeState, c: string, done: seq<string>, oks: seq<bool>,
                              view: Caches, s: OrganizeState)
  {
    && |oks| == |done|
    && s == s0.(removed := Record(s0.removed, c, Succeeded(done, oks)))
    && view.names == view0.names
    && view.Members(Some(c)) == view0.Members(Some(c)) - Succeeded(done, oks)
    && forall other | other != Some(c) :: view.Members(other) == view0.Members(other)
  }

  lemma RemovalStart(g: Gateway, view0: Caches, log0: seq<Call>, s0: OrganizeState, c: string)
    ensures Removal(g, view0, log0, s0, c, [], view0, log0, s0)
  {
    assert Record(s0.removed, c, {}) == s0.removed;
  }

  /** One more recipe removed. */
  lemma RemovalStep(g: Gateway, view0: Caches, log0: seq<Call>, s0: OrganizeState, c: string, done: seq<string>,
                    view: Caches, log: seq<Call>, s: OrganizeState, x: string, ok: bool)
    requires Removal(g, view0, log0, s0, c, done, view, log, s)
    requires ok == g.accepts(log, RemoveRecipe(c, x))
    ensures Removal(g, view0, log0, s0, c, done + [x], if ok then AfterRemoveRecipe(view, c, x) else view,
                    log + [RemoveRecipe(c, x)], s.(removed := Record(s.removed, c, if ok then {x} else {})))
  {
    var calls, call := RemoveCalls(c, done), RemoveRecipe(c, x);
    var oks := g.Outcomes(log0, calls);
    assert RemoveCalls(c, done + [x]) == calls + [call] by {
      assert (done + [x])[..|done|] == done;
    }
    g.OutcomesSnoc(log0, calls, call);
    assert log + [call] == log0 + (calls + [call]);
    RemovedWithStep(view0, s0, c, done, oks, view, s, x, ok);
  }

  lemma RemovedWithStep(view0: Caches, s0: OrganizeState, c: string, done: seq<string>, oks: seq<bool>,
                        view: Caches, s: OrganizeState, x: string, ok: bool)
    requires RemovedWith(view0, s0, c, done, oks, view, s)
    ensures RemovedWith(view0, s0, c, done + [x], oks + [ok], if ok then AfterRemoveRecipe(view, c, x) else view,
                        s.(removed := Record(s.removed, c, if ok then {x} else {})))
  {
    var d := if ok then {x} else {};
    SucceededSnoc(done, oks, x, ok);
    RecordTwice(s0.removed, c, Succeeded(done, oks), d);
    if ok {
      AfterRemoveRecipeCaches(view, c, x);
      assert view0.Members(Some(c)) - Succeeded(done, oks) - {x} == view0.Members(Some(c)) - (Succeeded(done, oks) + {x});
    } else {
      assert Succeeded(done, oks) + d == Succeeded(done, oks);
    }
  }

  /** The calls of `_delete_old_collections`. */
  function DeleteCalls(entries: ODict<string>): (r: seq<Call>)
    ensures |r| == |entries|
  {
    if |entries| == 0 then [] else DeleteCalls(entries[..|entries| - 1]) + [RemoveCollection(entries[|entries| - 1].1)]
  }

  /** The ids of the entries whose delete succeeded. */
  function DeletedIds(entries: ODict<string>, oks: seq<bool>): set<string>
    requires |oks| == |entries|
  {
    set j | 0 <= j < |entries| && oks[j] :: entries[j].1
  }

  lemma DeletedIdsSnoc(entries: ODict<string>, oks: seq<bool>, e: (string, string), ok: bool)
    requires |oks| == |entries|
    ensures DeletedIds(entries + [e], oks + [ok]) == DeletedIds(entries, oks) + (if ok then {e.1} else {})
  {
    var es, os := entries + [e], oks + [ok];
    assert forall j | 0 <= j < |entries| :: es[j] == entries[j] && os[j] == oks[j];
    assert es[|entries|] == e && os[|entries|] == ok;
  }

  /** The caches after the deletes of `entries` with the outcomes `oks`. */
  function AfterDeletes(c: Caches, entries: ODict<string>, oks: seq<bool>): Caches
    requires |oks| == |entries|
  {
    if |entries| == 0 then c
    else
      var before := AfterDeletes(c, entries[..|entries| - 1], oks[..|oks| - 1]);
      if oks[|oks| - 1] then AfterDelete(before, entries[|entries| - 1].1) else before
  }

  lemma AfterDeletesSnoc(c: Caches, entries: ODict<string>, oks: seq<bool>, e: (string, string), ok: bool)
    requires |oks| == |entries|
    ensures AfterDeletes(c, entries + [e], oks + [ok]) ==
      if ok then AfterDelete(AfterDeletes(c, entries, oks), e.1) else AfterDeletes(c, entries, oks)
  {
    assert (entries + [e])[..|entries|] == entries && (oks + [ok])[..|oks|] == oks;
  }

  /** A collection whose delete succeeded is gone from the cache, and the
      others keep their recipes. */
  lemma {:induction false} AfterDeletesMembers(c: Caches, entries: ODict<string>, oks: seq<bool>, id: string)
    requires |oks| == |entries| && c.Valid()
    ensures AfterDeletes(c, entries, oks).Valid()
    ensures id in DeletedIds(entries, oks) ==> Some(id) !in AfterDeletes(c, entries, oks).members
    ensures id !in DeletedIds(entries, oks) ==> AfterDeletes(c, entries, oks).Members(Some(id)) == c.Members(Some(id))
    decreases |entries|
  {
    if |entries| > 0 {
      var n := |entries| - 1;
      var pre, opre := entries[..n], oks[..n];
      assert entries == pre + [entries[n]] && oks == opre + [oks[n]];
      AfterDeletesMembers(c, pre, opre, id);
      DeletedIdsSnoc(pre, opre, entries[n], oks[n]);
      AfterDeletesSnoc(c, pre, opre, entries[n], oks[n]);
      AfterDeleteCaches(AfterDeletes(c, pre, opre), entries[n].1);
    }
  }

  /** The deletes of the entries `done`, issued one by one after `log0`
      starting from `view0` and `s0`: the log holds their calls, and the
      state and the cache have the deletes that succeeded. */
  ghost predicate Deletion(g: Gateway, view0: Caches, log0: seq<Call>, s0: OrganizeState, done: ODict<string>,
                           view: Caches, log: seq<Call>, s: OrganizeState)
  {
    && log == log0 + DeleteCalls(done)
    && DeletedWith(view0, s0, done, g.Outcomes(log0, DeleteCalls(done)), view, s)
  }

  ghost predicate DeletedWith(view0: Caches, s0: OrganizeState, done: ODict<string>, oks: seq<bool>,
                              view: Caches, s: OrganizeState)
  {
    && |oks| == |done|
    && s == s0.(deleted := s0.deleted + DeletedIds(done, oks))
    && view == AfterDeletes(view0, done, oks)
  }

  lemma DeletionStart(g: Gateway, view0: Caches, log0: seq<Call>, s0: OrganizeState)
    ensures Deletion(g, view0, log0, s0, [], view0, log0, s0)
  {
    assert s0.deleted + {} == s0.deleted;
  }

  /** One more delete. */
  lemma DeletionStep(g: Gateway, view0: Caches, log0: seq<Call>, s0: OrganizeState, done: ODict<string>,
                     view: Caches, log: seq<Call>, s: OrganizeState, e: (string, string), ok: bool)
    requires Deletion(g, view0, log0, s0, done, view, log, s)
    requires ok == g.accepts(log, RemoveCollection(e.1))
    ensures Deletion(g, view0, log0, s0, done + [e], if ok then AfterDelete(view, e.1) else view,
                     log + [RemoveCollection(e.1)], if ok then s.(deleted := s.deleted + {e.1}) else s)
  {
    var calls, call := DeleteCalls(done), RemoveCollection(e.1);
    var oks := g.Outcomes(log0, calls);
    assert DeleteCalls(done + [e]) == calls + [call] by {
      assert (done + [e])[..|done|] == done;
    }
    g.OutcomesSnoc(log0, calls, call);
    assert log + [call] == log0 + (calls + [call]);
    DeletedWithStep(view0, s0, done, oks, view, s, e, ok);
  }

  lemma DeletedWithStep(view0: Caches, s0: OrganizeState, done: ODict<string>, oks: seq<bool>,
                        view: Caches, s: OrganizeState, e: (string, string), ok: bool)
    requires DeletedWith(view0, s0, done, oks, view, s)
    ensures DeletedWith(view0, s0, done + [e], oks + [ok], if ok then AfterDelete(view, e.1) else view,
                        if ok then s.(deleted := s.deleted + {e.1}) else s)
  {
    DeletedIdsSnoc(done, oks, e, ok);
    AfterDeletesSnoc(view0, done, oks, e, ok);
  }

  /** A legacy collection the delete stage deletes was flattened before:
      the legacy entries of the cache are the ones the flatten stage went
      through, and the flatten stage went through every one not yet done. */
  lemma DeletedWereFlattened(names1: ODict<string>, names2: ODict<string>, flattened0: set<string>,
                             deleted0: set<string>, oks: seq<bool>)
    requires LegacyPairs(names2) == LegacyPairs(names1)
    requires |oks| == |LegacyEntries(names2, deleted0)|
    ensures DeletedIds(LegacyEntries(names2, deleted0), oks) <= flattened0 + EntryIds(LegacyEntries(names1, flattened0))
  {
    LegacyEntriesDone(names1, flattened0);
    forall x | x in DeletedIds(LegacyEntries(names2, deleted0), oks)
      ensures x in flattened0 + EntryIds(LegacyEntries(names1, flattened0))
    {
      LegacyEntriesArePairs(names2, deleted0, x);
      var p :| p in LegacyPairs(names2) && p.1 == x;
      var i :| 0 <= i < |names1| && IsTwoLevel(names1[i].0) && names1[i] == p;
    }
  }

  // ---------------------------------------------------------------------
  // The organizer

  class CollectionOrganizer {
    const exportFile: string
    const config: CookidooConfig
    const dryRun: bool
    var state: OrganizeState
    var managedRecipes: set<string>

    /** `__init__` once the configuration is built and the state loaded. */
    constructor (exportFile: string, config: CookidooConfig, dryRun: bool, state: OrganizeState)
      ensures this.exportFile == exportFile && this.config == config && this.dryRun == dryRun
      ensures this.state == state && managedRecipes == {}
    {
      this.exportFile := exportFile;
      this.config := config;
      this.dryRun := dryRun;
      this.state := state;
      managedRecipes := {};
    }

    /** `_load_managed_recipes`: `false` when it raises. */
    method LoadManagedRecipes(exportData: Json.Value) returns (ok: bool)
      modifies this
      ensures ok == ManagedLookup(exportData).Returned?
      ensures state == old(state)
      ensures managedRecipes == if ok && ManagedLookup(exportData).value.Some?
                                then ManagedLookup(exportData).value.value else old(managedRecipes)
    {
      var found := ManagedLookup(exportData);
      if found.Raised? {
        return false;
      }
      if found.value.Some? {
        managedRecipes := found.value.value;
      }
      ok := true;
    }

    // -------------------------------------------------------------------
    // Step 2: flatten

    /** `_flatten_collections`: each legacy entry of the cache not yet
        flattened, in cache order, is flattened; a create that raises ends
        the stage with the exception. A dry run changes nothing. */
    method Flatten(manager: CollectionManager) returns (r: Outcome<()>)
      requires manager.View().Valid()
      modifies this, manager, manager.gateway
      ensures manager.View().Valid() && managedRecipes == old(managedRecipes)
      ensures LegacyPairs(manager.names) == LegacyPairs(old(manager.names))
      ensures dryRun ==>
        && r == Returned(()) && state == old(state)
        && manager.View() == old(manager.View()) && manager.gateway.log == old(manager.gateway.log)
      ensures var plan := LegacyEntries(old(manager.names), old(state.flattened));
        !dryRun ==>
          && FlattenedWithin(old(state), plan, state)
          && (r.Returned? ==> state.flattened == old(state.flattened) + EntryIds(plan))
    {
      var plan := SelectLegacy(manager.names, state.flattened);
      ghost var s0 := state;
      FlattenedStart(s0, plan);
      for i := 0 to |plan|
        invariant manager.View().Valid() && managedRecipes == old(managedRecipes)
        invariant LegacyPairs(manager.names) == LegacyPairs(old(manager.names))
        invariant dryRun ==>
          && state == old(state)
          && manager.View() == old(manager.View()) && manager.gateway.log == old(manager.gateway.log)
        invariant !dryRun ==> Flattened(s0, plan, i, state)
      {
        LegacyEntriesAt(old(manager.names), s0.flattened, i);
        ghost var before := state;
        var step := FlattenOne(manager, plan[i].1, ParseTwoLevelName(plan[i].0).value.1);
        if step.Raised? {
          FlattenedIsWithin(s0, plan, i, state);
          return Raised;
        }
        if !dryRun {
          FlattenedStep(s0, plan, i, before, state);
        }
      }
      if !dryRun {
        FlattenedIsWithin(s0, plan, |plan|, state);
        assert plan[..|plan|] == plan;
      }
      r := Returned(());
    }

    /** One entry of `_flatten_collections`: the recipes of the legacy
        collection are added to the English collection of its dish type,
        which is got or created, and the legacy id is marked flattened. A
        legacy collection without recipes is only marked; a create that
        raises ends the stage. */
    method FlattenOne(manager: CollectionManager, colId: string, dishType: DishType) returns (r: Outcome<()>)
      requires manager.View().Valid()
      modifies this, manager, manager.gateway
      ensures manager.View().Valid() && managedRecipes == old(managedRecipes)
      ensures LegacyPairs(manager.names) == LegacyPairs(old(manager.names))
      ensures dryRun ==>
        && r == Returned(()) && state == old(state)
        && manager.View() == old(manager.View()) && manager.gateway.log == old(manager.gateway.log)
      ensures !dryRun && old(manager.View()).Members(Some(colId)) == {} ==>
        && r == Returned(()) && state == old(state).(flattened := old(state).flattened + {colId})
        && manager.View() == old(manager.View()) && manager.gateway.log == old(manager.gateway.log)
      ensures !dryRun && old(manager.View()).Members(Some(colId)) != {} ==>
        var target := EnsureReply(manager.gateway, old(manager.names), old(manager.gateway.log), GetFlatCollectionName(dishType));
        && (target.Raised? ==> r == Raised && state == old(state))
        && (target.Returned? ==> r == Returned(()) && state == old(state).(
              flattened := old(state).flattened + {colId},
              created := Put(old(state).created, GetFlatCollectionName(dishType), target.value)))
      ensures !dryRun && old(manager.View()).Members(Some(colId)) != {} ==>
        var recipes := old(manager.View()).Members(Some(colId));
        var target := EnsureReply(manager.gateway, old(manager.names), old(manager.gateway.log), GetFlatCollectionName(dishType));
        var c1 := AfterEnsure(old(manager.View()), GetFlatCollectionName(dishType), target);
        var log1 := EnsureLog(old(manager.names), old(manager.gateway.log), GetFlatCollectionName(dishType));
        target.Returned? ==>
          && Issued(manager.gateway, c1, log1, target.value, AddBatches(c1, target.value, SortedSet(recipes)),
                    manager.View(), manager.gateway.log)
          && forall x | x in recipes ::
               x in c1.Members(target.value) || Submitted(old(manager.gateway.log), manager.gateway.log, target.value, x)
    {
      if dryRun {
        return Returned(());
      }
      var recipes := manager.View().Members(Some(colId));
      if recipes == {} {
        state := state.(flattened := state.flattened + {colId});
        return Returned(());
      }
      FlatNameNotTwoLevel(dishType);
      r := MoveRecipes(manager, colId, GetFlatCollectionName(dishType), recipes);
    }

    /** The recipes of a legacy collection go to the collection `english`,
        which is got or created first. */
    method MoveRecipes(manager: CollectionManager, colId: string, english: string, recipes: set<string>)
        returns (r: Outcome<()>)
      requires manager.View().Valid() && !IsTwoLevel(english)
      modifies this, manager, manager.gateway
      ensures manager.View().Valid() && managedRecipes == old(managedRecipes)
      ensures LegacyPairs(manager.names) == LegacyPairs(old(manager.names))
      ensures var target := EnsureReply(manager.gateway, old(manager.names), old(manager.gateway.log), english);
        && (target.Raised? ==> r == Raised && state == old(state))
        && (target.Returned? ==> r == Returned(()) && state == old(state).(
              flattened := old(state).flattened + {colId},
              created := Put(old(state).created, english, target.value)))
      ensures var target := EnsureReply(manager.gateway, old(manager.names), old(manager.gateway.log), english);
        var c1 := AfterEnsure(old(manager.View()), english, target);
        var log1 := EnsureLog(old(manager.names), old(manager.gateway.log), english);
        target.Returned? ==>
          && Issued(manager.gateway, c1, log1, target.value, AddBatches(c1, target.value, SortedSet(recipes)),
                    manager.View(), manager.gateway.log)
          && forall x | x in recipes ::
               x in c1.Members(target.value) || Submitted(old(manager.gateway.log), manager.gateway.log, target.value, x)
    {
      LegacyPairsPut(manager.names, english, "");
      var target := manager.EnsureCollection(english);
      if target.Raised? {
        return Raised;
      }
      if target.value.Some? {
        LegacyPairsPut(old(manager.names), english, target.value.value);
      }
      ghost var names1 := manager.names;
      assert LegacyPairs(names1) == LegacyPairs(old(manager.names));
      state := state.(created := Put(state.created, english, target.value));
      AddRecipeSet(manager, target.value, recipes, old(manager.gateway.log));
      assert manager.names == names1;
      state := state.(flattened := state.flattened + {colId});
      r := Returned(());
    }

    // -------------------------------------------------------------------
    // Step 3: remove the managed recipes

    /** `_remove_managed_recipes`: for each entry of a snapshot of the cache,
        in cache order, the managed recipes of that collection not yet
        recorded as removed from it are removed; the managed collection
        itself and the legacy collections are passed over, and nothing is
        done when no managed recipe is known or in a dry run. */
    method RemoveManagedRecipes(manager: CollectionManager)
      requires manager.View().Valid()
      modifies this, manager, manager.gateway
      ensures manager.View().Valid() && managedRecipes == old(managedRecipes)
      ensures manager.names == old(manager.names)
      ensures |old(manager.gateway.log)| <= |manager.gateway.log|
      ensures manager.gateway.log[..|old(manager.gateway.log)|] == old(manager.gateway.log)
      ensures Removing(manager.gateway, old(manager.gateway.log), old(state), old(manager.View()), managedRecipes,
                       old(manager.names), dryRun,
                       |old(manager.names)|, manager.gateway.log[|old(manager.gateway.log)|..], state, manager.View())
    {
      ghost var log0, s0, view0 := manager.gateway.log, state, manager.View();
      if managedRecipes == {} {
        NothingManaged(manager.gateway, log0, s0, old(manager.names), dryRun, manager.View());
        assert log0[|log0|..] == [];
        return;
      }
      var names0 := manager.names;
      RemovingStart(manager.gateway, log0, s0, managedRecipes, names0, dryRun, manager.View());
      assert log0[|log0|..] == [];
      RemoveTurns(manager, log0, s0, view0, names0);
    }

    /** The turns of `RemoveManagedRecipes` over the snapshot `names0`. */
    method RemoveTurns(manager: CollectionManager, ghost log0: seq<Call>, ghost s0: OrganizeState, ghost view0: Caches,
                       names0: ODict<string>)
      requires manager.names == names0
      requires |log0| <= |manager.gateway.log| && manager.gateway.log[..|log0|] == log0
      requires Removing(manager.gateway, log0, s0, view0, managedRecipes, names0, dryRun, 0,
                        manager.gateway.log[|log0|..], state, manager.View())
      modifies this, manager, manager.gateway
      ensures manager.names == names0 && managedRecipes == old(managedRecipes)
      ensures |log0| <= |manager.gateway.log| && manager.gateway.log[..|log0|] == log0
      ensures Removing(manager.gateway, log0, s0, view0, managedRecipes, names0, dryRun, |names0|,
                       manager.gateway.log[|log0|..], state, manager.View())
    {
      for i := 0 to |names0|
        invariant manager.names == names0 && managedRecipes == old(managedRecipes)
        invariant |log0| <= |manager.gateway.log| && manager.gateway.log[..|log0|] == log0
        invariant Removing(manager.gateway, log0, s0, view0, managedRecipes, names0, dryRun, i,
                           manager.gateway.log[|log0|..], state, manager.View())
      {
        RemoveTurn(manager, log0, s0, view0, names0, i);
      }
    }

    /** One entry of the snapshot `names0` in `RemoveManagedRecipes`. */
    method RemoveTurn(manager: CollectionManager, ghost log0: seq<Call>, ghost s0: OrganizeState, ghost view0: Caches,
                      names0: ODict<string>, i: nat)
      requires i < |names0| && manager.names == names0
      requires |log0| <= |manager.gateway.log| && manager.gateway.log[..|log0|] == log0
      requires Removing(manager.gateway, log0, s0, view0, managedRecipes, names0, dryRun, i,
                        manager.gateway.log[|log0|..], state, manager.View())
      modifies this, manager, manager.gateway
      ensures manager.names == names0 && managedRecipes == old(managedRecipes)
      ensures |log0| <= |manager.gateway.log| && manager.gateway.log[..|log0|] == log0
      ensures Removing(manager.gateway, log0, s0, view0, managedRecipes, names0, dryRun, i + 1,
                       manager.gateway.log[|log0|..], state, manager.View())
    {
      ghost var calls, s, view := manager.gateway.log[|log0|..], state, manager.View();
      ghost var xs := PassRecipes(view, managedRecipes, s.removed, names0[i].0, names0[i].1, dryRun);
      LogSplit(log0, manager.gateway.log);
      RemoveFromCollection(manager, names0[i].0, names0[i].1);
      LogExtended(log0, calls, RemoveCalls(names0[i].1, xs));
      RemovingStep(manager.gateway, log0, s0, view0, managedRecipes, names0, dryRun, i, calls, s, view,
                   xs, state, manager.View());
    }

    /** The managed recipes of the entry `(name, colId)` are removed from it,
        in the order `PassRecipes` gives. */
    method RemoveFromCollection(manager: CollectionManager, name: string, colId: string)
      modifies this, manager, manager.gateway
      ensures managedRecipes == old(managedRecipes)
      ensures Removal(manager.gateway, old(manager.View()), old(manager.gateway.log), old(state), colId,
                      PassRecipes(old(manager.View()), managedRecipes, old(state).removed, name, colId, dryRun),
                      manager.View(), manager.gateway.log, state)
    {
      RemovalStart(manager.gateway, manager.View(), manager.gateway.log, state, colId);
      if name == ManagedKey || IsTwoLevel(name) {
        return;
      }
      var toRemove := (manager.View().Members(Some(colId)) * managedRecipes) - Recorded(state.removed, colId);
      if toRemove == {} || dryRun {
        return;
      }
      RemoveRecipes(manager, colId, SortedSet(toRemove));
    }

    /** The removal loop over the recipes `xs` of collection `colId`. */
    method RemoveRecipes(manager: CollectionManager, colId: string, xs: seq<string>)
      modifies this, manager, manager.gateway
      ensures managedRecipes == old(managedRecipes)
      ensures Removal(manager.gateway, old(manager.View()), old(manager.gateway.log), old(state), colId, xs,
                      manager.View(), manager.gateway.log, state)
    {
      RemovalStart(manager.gateway, manager.View(), manager.gateway.log, state, colId);
      assert xs[..0] == [];
      for i := 0 to |xs|
        invariant managedRecipes == old(managedRecipes)
        invariant Removal(manager.gateway, old(manager.View()), old(manager.gateway.log), old(state), colId, xs[..i],
                          manager.View(), manager.gateway.log, state)
      {
        PrefixSnoc(xs, i);
        RemoveOne(manager, old(manager.View()), old(manager.gateway.log), old(state), colId, xs[..i], xs[i]);
      }
      assert xs[..|xs|] == xs;
    }

    /** One recipe removed; a success is recorded. */
    method RemoveOne(manager: CollectionManager, ghost view0: Caches, ghost log0: seq<Call>, ghost s0: OrganizeState,
                     colId: string, ghost done: seq<string>, recipe: string)
      requires Removal(manager.gateway, view0, log0, s0, colId, done, manager.View(), manager.gateway.log, state)
      modifies this, manager, manager.gateway
      ensures managedRecipes == old(managedRecipes)
      ensures Removal(manager.gateway, view0, log0, s0, colId, done + [recipe], manager.View(), manager.gateway.log, state)
    {
      ghost var view, log, s := manager.View(), manager.gateway.log, state;
      var ok := manager.RemoveRecipeFromCollection(colId, recipe);
      if ok {
        state := state.(removed := Record(state.removed, colId, {recipe}));
      }
      RemovalStep(manager.gateway, view0, log0, s0, colId, done, view, log, s, recipe, ok);
    }

    // -------------------------------------------------------------------
    // Step 4: delete the legacy collections

    /** `_delete_old_collections`: every legacy entry of the cache not yet
        deleted, in cache order, is deleted, and each delete that succeeds
        is recorded. A dry run changes nothing. */
    method DeleteOldCollections(manager: CollectionManager)
      requires manager.View().Valid()
      modifies this, manager, manager.gateway
      ensures manager.View().Valid() && managedRecipes == old(managedRecipes)
      ensures dryRun ==>
        && state == old(state) && manager.View() == old(manager.View())
        && manager.gateway.log == old(manager.gateway.log)
      ensures !dryRun ==>
        Deletion(manager.gateway, old(manager.View()), old(manager.gateway.log), old(state),
                 LegacyEntries(old(manager.names), old(state.deleted)), manager.View(), manager.gateway.log, state)
    {
      var plan := SelectLegacy(manager.names, state.deleted);
      DeletionStart(manager.gateway, manager.View(), manager.gateway.log, state);
      if |plan| == 0 {
        return;
      }
      assert plan[..0] == [];
      for i := 0 to |plan|
        invariant manager.View().Valid() && managedRecipes == old(managedRecipes)
        invariant dryRun ==>
          && state == old(state) && manager.View() == old(manager.View())
          && manager.gateway.log == old(manager.gateway.log)
        invariant !dryRun ==>
          Deletion(manager.gateway, old(manager.View()), old(manager.gateway.log), old(state), plan[..i],
                   manager.View(), manager.gateway.log, state)
      {
        PrefixSnoc(plan, i);
        if !dryRun {
          DeleteOne(manager, old(manager.View()), old(manager.gateway.log), old(state), plan[..i], plan[i]);
        }
      }
      assert plan[..|plan|] == plan;
    }

    /** One legacy entry deleted; a success is recorded. */
    method DeleteOne(manager: CollectionManager, ghost view0: Caches, ghost log0: seq<Call>, ghost s0: OrganizeState,
                     ghost done: ODict<string>, entry: (string, string))
      requires manager.View().Valid()
      requires Deletion(manager.gateway, view0, log0, s0, done, manager.View(), manager.gateway.log, state)
      modifies this, manager, manager.gateway
      ensures manager.View().Valid() && managedRecipes == old(managedRecipes)
      ensures Deletion(manager.gateway, view0, log0, s0, done + [entry], manager.View(), manager.gateway.log, state)
    {
      ghost var view, log, s := manager.View(), manager.gateway.log, state;
      var ok := manager.DeleteCollection(entry.1);
      if ok {
        state := state.(deleted := state.deleted + {entry.1});
      }
      DeletionStep(manager.gateway, view0, log0, s0, done, view, log, s, entry, ok);
    }

    // -------------------------------------------------------------------
    // The pipeline

    /** `run`: the managed recipes are read from the export, the existing
        collections are listed into a new manager over `gateway`, and the
        three stages follow; an exception of the export lookup or of the
        flatten stage ends the run. Afterwards every legacy collection of the
        listing is flattened, and a legacy collection is deleted only once
        it was flattened. */
    method Run(gateway: Gateway, exportData: Json.Value, totalPages: Option<int>, fetchPage: nat -> seq<Collection>)
        returns (r: Outcome<()>)
      modifies this, gateway
      ensures ManagedLookup(exportData).Raised? ==>
        r == Raised && state == old(state) && gateway.log == old(gateway.log)
      ensures dryRun ==> state == old(state) && gateway.log == old(gateway.log)
      ensures r.Returned? && !dryRun ==>
        var listed := LoadAll(Caches([], map[]), AllPages(totalPages, fetchPage)).names;
        && (forall i | 0 <= i < |listed| && IsTwoLevel(listed[i].0) :: listed[i].1 in state.flattened)
        && state.deleted - old(state.deleted) <= state.flattened
    {
      var ok := LoadManagedRecipes(exportData);
      if !ok {
        return Raised;
      }
      var manager := new CollectionManager(gateway);
      manager.LoadExistingCollections(totalPages, fetchPage);
      ghost var names1, s0 := manager.names, state;
      r := Flatten(manager);
      if r.Raised? {
        return;
      }
      RemoveManagedRecipes(manager);
      ghost var names2, view2, log2, s2 := manager.names, manager.View(), gateway.log, state;
      DeleteOldCollections(manager);
      if !dryRun {
        LegacyEntriesDone(names1, s0.flattened);
        DeletedWereFlattened(names1, names2, s0.flattened, s2.deleted,
                             gateway.Outcomes(log2, DeleteCalls(LegacyEntries(names2, s2.deleted))));
      }
    }
  }

  /** `CollectionOrganizer.__init__`: the region is looked up first (an
      unknown one raises), then the state file is read. */
  method NewOrganizer(exportFile: string, email: string, password: string, region: string, dryRun: bool,
                      saved: SavedFile) returns (r: Outcome<CollectionOrganizer>)
    ensures r.Returned? <==>
      GetCookidooConfig(email, password, region).Configured? && LoadOrganizeState(exportFile, saved).Returned?
    ensures r.Returned? ==>
      && fresh(r.value)
      && r.value.exportFile == exportFile && r.value.dryRun == dryRun
      && r.value.config == GetCookidooConfig(email, password, region).config
      && r.value.state == LoadOrganizeState(exportFile, saved).value
      && r.value.managedRecipes == {}
  {
    var config := GetCookidooConfig(email, password, region);
    if config.UnknownRegion? {
      return Raised;
    }
    var loaded := LoadOrganizeState(exportFile, saved);
    if loaded.Raised? {
      return Raised;
    }
    var organizer := new CollectionOrganizer(exportFile, config.config, dryRun, loaded.value);
    r := Returned(organizer);
  }
}
