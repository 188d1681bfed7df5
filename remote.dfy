/** The recipe platform as the pipelines see it: the collection records it
    lists, its paginated listings, and a gateway for the calls that change it. */
module Remote {
  import opened Wrappers
  import opened Seqs

  /** A recipe entry of a chapter; `id` is `None` when the entry has no id. */
  datatype RecipeRef = RecipeRef(id: Option<string>)

  /** A chapter; `recipes` is `None` when the chapter carries no recipe list. */
  datatype Chapter = Chapter(recipes: Option<seq<RecipeRef>>)

  /** A listed collection. Each field is `None` when the record lacks it. */
  datatype Collection = Collection(
    name: Option<string>,
    title: Option<string>,
    id: Option<string>,
    chapters: Option<seq<Chapter>>)

  /** `getattr(c, "name", None) or getattr(c, "title", fallback)`: an empty
      name falls through to the title, and only a missing title to `fallback`. */
  function DisplayName(c: Collection, fallback: string): string {
    if c.name.Some? && c.name.value != "" then c.name.value
    else if c.title.Some? then c.title.value
    else fallback
  }

  /** The ids of the entries that have one, in order. */
  function RefIds(refs: seq<RecipeRef>): (r: seq<string>)
    ensures |r| <= |refs|
    ensures forall x :: x in r <==> exists j | 0 <= j < |refs| :: refs[j].id == Some(x)
  {
    if |refs| == 0 then []
    else
      var init := RefIds(refs[..|refs| - 1]);
      var last := refs[|refs| - 1];
      assert forall j | 0 <= j < |refs| - 1 :: refs[..|refs| - 1][j] == refs[j];
      init + (if last.id.Some? then [last.id.value] else [])
  }

  function ChapterIds(chapter: Chapter): seq<string> {
    if chapter.recipes.Some? then RefIds(chapter.recipes.value) else []
  }

  /** The ids of a sequence of chapters, chapter by chapter. */
  function ChaptersIds(chapters: seq<Chapter>): seq<string> {
    if |chapters| == 0 then []
    else ChaptersIds(chapters[..|chapters| - 1]) + ChapterIds(chapters[|chapters| - 1])
  }

  /** All recipe ids of a collection, chapter by chapter, in order; none when
      the collection has no chapters. */
  function RecipeIds(c: Collection): seq<string> {
    if c.chapters.Some? then ChaptersIds(c.chapters.value) else []
  }

  /** An id is listed exactly when some entry of some chapter carries it. */
  lemma {:induction false} ChaptersIdsMember(chapters: seq<Chapter>, x: string)
    ensures x in ChaptersIds(chapters) <==>
      exists k | 0 <= k < |chapters| :: x in ChapterIds(chapters[k])
    decreases |chapters|
  {
    if |chapters| > 0 {
      var init := chapters[..|chapters| - 1];
      ChaptersIdsMember(init, x);
      assert forall k | 0 <= k < |init| :: init[k] == chapters[k];
    }
  }

  /** The loop that walks chapters and their recipes, collecting the ids. */
  method ExtractRecipeIds(c: Collection) returns (ids: seq<string>)
    ensures ids == RecipeIds(c)
  {
    ids := [];
    if c.chapters.Some? {
      var chapters := c.chapters.value;
      for k := 0 to |chapters|
        invariant ids == ChaptersIds(chapters[..k])
      {
        assert chapters[..k + 1][..k] == chapters[..k];
        if chapters[k].recipes.Some? {
          var refs := chapters[k].recipes.value;
          ghost var before := ids;
          for j := 0 to |refs|
            invariant ids == before + RefIds(refs[..j])
          {
            assert refs[..j + 1][..j] == refs[..j];
            if refs[j].id.Some? {
              ids := ids + [refs[j].id.value];
            }
          }
          assert refs[..|refs|] == refs;
        }
      }
      assert chapters[..|chapters|] == chapters;
    }
  }

  // ---------------------------------------------------------------------
  // Paginated listings

  /** `count_info.total_pages`, or 1 when the count carries no page total
      (`None`); `range` of a negative total is empty. */
  function PageCount(totalPages: Option<int>): nat {
    match totalPages
    case None => 1
    case Some(n) => if n < 0 then 0 else n
  }

  /** Pages `0 .. n - 1` of a listing, concatenated in page order. */
  function Pages<T>(fetchPage: nat -> seq<T>, n: nat): seq<T> {
    if n == 0 then [] else Pages(fetchPage, n - 1) + fetchPage(n - 1)
  }

  /** Everything a paginated listing holds. */
  function AllPages<T>(totalPages: Option<int>, fetchPage: nat -> seq<T>): seq<T> {
    Pages(fetchPage, PageCount(totalPages))
  }

  /** An item is listed exactly when one of the first `n` pages holds it. */
  lemma {:induction false} PagesMember<T>(fetchPage: nat -> seq<T>, n: nat, x: T)
    ensures x in Pages(fetchPage, n) <==> exists p: nat | p < n :: x in fetchPage(p)
  {
    if n > 0 {
      PagesMember(fetchPage, n - 1, x);
    }
  }

  /** Fewer pages give a prefix: later pages only add items at the end. */
  lemma {:induction false} PagesPrefix<T>(fetchPage: nat -> seq<T>, m: nat, n: nat)
    requires m <= n
    ensures Pages(fetchPage, m) <= Pages(fetchPage, n)
    decreases n
  {
    if m < n {
      PagesPrefix(fetchPage, m, n - 1);
    }
  }

  /** `fetch_all_pages`: the page loop extending one list. */
  method FetchAllPages<T>(totalPages: Option<int>, fetchPage: nat -> seq<T>) returns (items: seq<T>)
    ensures items == AllPages(totalPages, fetchPage)
  {
    var n := PageCount(totalPages);
    items := [];
    for page := 0 to n
      invariant items == Pages(fetchPage, page)
    {
      items := items + fetchPage(page);
    }
  }

  // ---------------------------------------------------------------------
  // Calls that change the platform

  datatype Call =
    | CreateCollection(name: string)
    | AddRecipes(target: Option<string>, recipes: seq<string>)
    | RemoveCollection(collection: string)
    | RemoveRecipe(collection: string, recipe: string)

  /** The platform behind the client. Whether a call succeeds, and the id a
      created collection gets, may depend on everything issued before it;
      every call is recorded in `log`, whether it succeeds or raises. */
  class Gateway {
    const accepts: (seq<Call>, Call) -> bool
    const reportedId: (seq<Call>, string) -> Option<string>
    var log: seq<Call>

    constructor (accepts: (seq<Call>, Call) -> bool, reportedId: (seq<Call>, string) -> Option<string>)
      ensures this.accepts == accepts && this.reportedId == reportedId && log == []
    {
      this.accepts := accepts;
      this.reportedId := reportedId;
      log := [];
    }

    /** Which of `calls`, issued one after another after `history`, succeed. */
    function Outcomes(history: seq<Call>, calls: seq<Call>): (r: seq<bool>)
      ensures |r| == |calls|
    {
      if |calls| == 0 then []
      else Outcomes(history, calls[..|calls| - 1]) + [accepts(history + calls[..|calls| - 1], calls[|calls| - 1])]
    }

    /** Each call's outcome is decided by the log as it stood when it was issued. */
    lemma {:induction false} OutcomesAt(history: seq<Call>, calls: seq<Call>, i: nat)
      requires i < |calls|
      ensures Outcomes(history, calls)[i] == accepts(history + calls[..i], calls[i])
      decreases |calls|
    {
      var init := calls[..|calls| - 1];
      if i < |init| {
        OutcomesAt(history, init, i);
        assert init[..i] == calls[..i] && init[i] == calls[i];
      }
    }

    lemma OutcomesSnoc(history: seq<Call>, calls: seq<Call>, c: Call)
      ensures Outcomes(history, calls + [c]) == Outcomes(history, calls) + [accepts(history + calls, c)]
    {
      assert (calls + [c])[..|calls|] == calls;
    }

    /** Calls issued in two runs succeed as they would in one. */
    lemma {:induction false} OutcomesAppend(history: seq<Call>, a: seq<Call>, b: seq<Call>)
      ensures Outcomes(history, a + b) == Outcomes(history, a) + Outcomes(history + a, b)
      decreases |b|
    {
      if |b| == 0 {
        assert a + b == a;
      } else {
        var init := b[..|b| - 1];
        OutcomesAppend(history, a, init);
        assert (a + b)[..|a + b| - 1] == a + init;
        assert history + (a + init) == (history + a) + init;
      }
    }

    /** Issue a call that returns nothing; `false` is a raised exception. */
    method Issue(c: Call) returns (ok: bool)
      modifies this
      ensures log == old(log) + [c]
      ensures ok == accepts(old(log), c)
    {
      ok := accepts(log, c);
      log := log + [c];
    }

    /** `add_custom_collection(name)`: the id of the new collection (`None`
        when the answer carries none), or `Raised`. */
    method Create(name: string) returns (r: Outcome<Option<string>>)
      modifies this
      ensures log == old(log) + [CreateCollection(name)]
      ensures r == if accepts(old(log), CreateCollection(name))
                   then Returned(reportedId(old(log), name)) else Raised
    {
      var history := log;
      var ok := Issue(CreateCollection(name));
      r := if ok then Returned(reportedId(history, name)) else Raised;
    }
  }
}
