/**
 * The post grid: a positional layout rule that gives each cell a column span, and the
 * incremental-load controller behind it. The controller holds the merged `posts`, the `page`
 * cursor (the last page merged, starting at 1) and the `isLoading` flag. When the sentinel under
 * the grid is visible, no load is running and more pages exist, it requests the next page (9 posts,
 * optionally filtered by category); a success appends the batch as it is — no de-duplication —
 * and advances the cursor, a failure leaves both unchanged, and either way loading ends.
 * New server-rendered posts replace `posts` but never reset the cursor.
 */
module BlogGrid {
  import opened Wrappers
  import opened Posts

  // ---------------------------------------------------------------------------------------
  // Layout

  /** The explicit layout table: ten rows of cell widths (2 = wide, 1 = normal), 30 cells in all. */
  const Patterns: seq<seq<int>> := [
    [2, 2],
    [1, 1, 1, 1],
    [1, 1, 2],
    [1, 1, 1],
    [1, 1, 1],
    [1, 1, 1],
    [2, 1, 1],
    [1, 1, 1],
    [1, 1, 1],
    [1, 1, 1]
  ]

  /** The row repeated after the table. */
  const FinalPattern: seq<int> := [1, 1, 1]

  const Wide: string := "md:col-span-2"
  const Narrow: string := "md:col-span-1"

  /** The rows laid end to end. */
  function Flatten(rows: seq<seq<int>>): seq<int>
  {
    if |rows| == 0 then [] else Flatten(rows[..|rows| - 1]) + rows[|rows| - 1]
  }

  /** The cells of the first k rows are the first cells of the whole table. */
  lemma {:induction false} FlattenPrefix(rows: seq<seq<int>>, k: nat)
    requires k <= |rows|
    ensures Flatten(rows[..k]) <= Flatten(rows)
    decreases |rows| - k
  {
    if k < |rows| {
      FlattenPrefix(rows, k + 1);
      assert rows[..k + 1][..k] == rows[..k];
    } else {
      assert rows[..k] == rows;
    }
  }

  /** The table's cells, in reading order. */
  function Cells(): seq<int>
  {
    Flatten(Patterns)
  }

  /** The class name for a width, as the view maps it: 2 is wide, anything else normal. */
  function ClassFor(width: int): string
  {
    if width == 2 then Wide else Narrow
  }

  /**
   * The reference layout: a cell inside the table takes its table width; after the table the
   * final row repeats.
   */
  function ColSpan(index: nat): string
  {
    if index < |Cells()| then ClassFor(Cells()[index])
    else ClassFor(FinalPattern[(index - |Cells()|) % |FinalPattern|])
  }

  lemma CellsValue()
    ensures Cells() == [2, 2, 1, 1, 1, 1, 1, 1, 2, 1, 1, 1, 1, 1, 1, 1, 1, 1, 2, 1, 1, 1, 1, 1, 1, 1, 1, 1, 1, 1]
  {
    assert Patterns[..0] == [];
    assert Flatten(Patterns[..1]) == [2, 2] by { assert Patterns[..1][..0] == Patterns[..0]; }
    assert Flatten(Patterns[..2]) == [2, 2, 1, 1, 1, 1] by { assert Patterns[..2][..1] == Patterns[..1]; }
    assert Flatten(Patterns[..3]) == [2, 2, 1, 1, 1, 1, 1, 1, 2] by { assert Patterns[..3][..2] == Patterns[..2]; }
    assert Flatten(Patterns[..4]) == [2, 2, 1, 1, 1, 1, 1, 1, 2, 1, 1, 1] by { assert Patterns[..4][..3] == Patterns[..3]; }
    assert Flatten(Patterns[..5]) == [2, 2, 1, 1, 1, 1, 1, 1, 2, 1, 1, 1, 1, 1, 1] by { assert Patterns[..5][..4] == Patterns[..4]; }
    assert Flatten(Patterns[..6]) == [2, 2, 1, 1, 1, 1, 1, 1, 2, 1, 1, 1, 1, 1, 1, 1, 1, 1] by { assert Patterns[..6][..5] == Patterns[..5]; }
    assert Flatten(Patterns[..7]) == [2, 2, 1, 1, 1, 1, 1, 1, 2, 1, 1, 1, 1, 1, 1, 1, 1, 1, 2, 1, 1] by { assert Patterns[..7][..6] == Patterns[..6]; }
    assert Flatten(Patterns[..8]) == [2, 2, 1, 1, 1, 1, 1, 1, 2, 1, 1, 1, 1, 1, 1, 1, 1, 1, 2, 1, 1, 1, 1, 1] by { assert Patterns[..8][..7] == Patterns[..7]; }
    assert Flatten(Patterns[..9]) == [2, 2, 1, 1, 1, 1, 1, 1, 2, 1, 1, 1, 1, 1, 1, 1, 1, 1, 2, 1, 1, 1, 1, 1, 1, 1, 1] by { assert Patterns[..9][..8] == Patterns[..8]; }
    assert Patterns[..10] == Patterns;
    assert Patterns[..10][..9] == Patterns[..9];
  }

  /** The explicit table covers exactly 30 cells. */
  lemma TableHasThirtyCells()
    ensures |Cells()| == 30
  {
    CellsValue();
  }

  /**
   * The layout is wide exactly at positions 0, 1, 8 and 18; every other position, including
   * every position past the table, is normal.
   */
  lemma WideExactlyAt(index: nat)
    ensures ColSpan(index) == Wide <==> index == 0 || index == 1 || index == 8 || index == 18
    ensures ColSpan(index) == Wide || ColSpan(index) == Narrow
  {
    CellsValue();
  }

  /** Past the table the layout repeats the final row with period 3, arbitrarily far out. */
  lemma RepeatsPastTable(index: nat)
    requires index >= 30
    ensures ColSpan(index) == ClassFor(FinalPattern[(index - 30) % 3])
    ensures ColSpan(index + 3) == ColSpan(index)
    ensures ColSpan(index) == Narrow
  {
    TableHasThirtyCells();
  }

  /** `getColSpan`: walk the table row by row, accumulating the index of each row's first cell. */
  method GetColSpan(index: nat) returns (className: string)
    ensures className == ColSpan(index)
  {
    var flatIndex := 0;
    for patternIdx := 0 to |Patterns|
      invariant flatIndex == |Flatten(Patterns[..patternIdx])|
      invariant flatIndex <= index
    {
      assert Patterns[..patternIdx + 1][..patternIdx] == Patterns[..patternIdx];
      if index < flatIndex + |Patterns[patternIdx]| {
        var posInPattern := index - flatIndex;
        var spanValue := Patterns[patternIdx][posInPattern];
        FlattenPrefix(Patterns, patternIdx + 1);
        assert Flatten(Patterns[..patternIdx + 1])[index] == spanValue;
        return if spanValue == 2 then Wide else Narrow;
      }
      flatIndex := flatIndex + |Patterns[patternIdx]|;
    }
    assert Patterns[..|Patterns|] == Patterns;
    var posInFinal := (index - flatIndex) % |FinalPattern|;
    return if FinalPattern[posInFinal] == 2 then Wide else Narrow;
  }

  // ---------------------------------------------------------------------------------------
  // The incremental-load controller

  /** Posts per continuation request. */
  const LoadPageSize: int := 9

  /** The grid's inputs: the server-rendered posts, an optional category id, the optional total page count, and the infinite-load switch. */
  datatype GridProps = GridProps(posts: seq<Post>, categoryId: Option<int>, totalPages: Option<int>, enableInfinite: bool)

  /** The controller state; `requestedPage` is the page the running load asked for (`newPage`). */
  datatype ListState = ListState(posts: seq<Post>, page: int, isLoading: bool, requestedPage: int)

  /** What a settled request delivered. */
  datatype FetchOutcome = Success(batch: seq<Post>) | Failure

  /** The state on first render: the server's posts, page 1, idle. */
  function InitialState(props: GridProps): ListState
  {
    ListState(props.posts, 1, false, 1)
  }

  /** JavaScript truthiness of an optional number. */
  predicate Truthy(n: Option<int>)
  {
    n.Some? && n.value != 0
  }

  /** The sentinel under the grid is rendered (and observed) only while more pages may follow. */
  predicate SentinelShown(props: GridProps, page: int)
  {
    props.enableInfinite && Truthy(props.totalPages) && page < props.totalPages.value
  }

  /** The observer's guard: the sentinel is shown and intersecting, and no load is running. */
  predicate LoadStarts(s: ListState, props: GridProps, intersecting: bool)
  {
    SentinelShown(props, s.page) && intersecting && !s.isLoading
  }

  /** The filter sent with a load: `category` only when the category id is truthy. */
  function CategoryFilter(categoryId: Option<int>): (filter: Option<int>)
    ensures filter.Some? <==> Truthy(categoryId)
    ensures filter.Some? ==> filter == categoryId
  {
    if Truthy(categoryId) then categoryId else None
  }

  /** What one observer callback does: the next state, and the request it issues, if any. */
  datatype Step = Step(next: ListState, request: Option<FetchRequest>)

  /** An observer callback: when the guard passes, mark loading and request page `page + 1`. */
  function Intersect(s: ListState, props: GridProps, intersecting: bool): (r: Step)
    ensures r.request.Some? <==> LoadStarts(s, props, intersecting)
    ensures r.request.Some? ==>
      && r.request.value == FetchRequest(s.page + 1, LoadPageSize, CategoryFilter(props.categoryId))
      && r.next == s.(isLoading := true, requestedPage := s.page + 1)
    ensures r.request.None? ==> r.next == s
  {
    if LoadStarts(s, props, intersecting) then
      Step(s.(isLoading := true, requestedPage := s.page + 1),
           Some(FetchRequest(s.page + 1, LoadPageSize, CategoryFilter(props.categoryId))))
    else Step(s, None)
  }

  /** The request settles: a success appends the batch to the current posts and moves the cursor; loading ends. */
  function Complete(s: ListState, outcome: FetchOutcome): (t: ListState)
    requires s.isLoading
    ensures !t.isLoading && t.requestedPage == s.requestedPage
    ensures outcome.Success? ==> t.posts == s.posts + outcome.batch && t.page == s.requestedPage
    ensures outcome.Failure? ==> t.posts == s.posts && t.page == s.page
  {
    match outcome
    case Success(batch) => s.(posts := s.posts + batch, page := s.requestedPage, isLoading := false)
    case Failure => s.(isLoading := false)
  }

  /** New server-rendered posts replace the list; the cursor and the loading flag stay. */
  function Sync(s: ListState, posts: seq<Post>): (t: ListState)
    ensures t.posts == posts && t.page == s.page && t.isLoading == s.isLoading && t.requestedPage == s.requestedPage
  {
    s.(posts := posts)
  }

  /** The controller's invariant: the cursor is a page number, and a running load is for the page after it. */
  predicate Consistent(s: ListState)
  {
    s.page >= 1 && (s.isLoading ==> s.requestedPage == s.page + 1)
  }

  /** One successful load cycle: the old posts stay in front, the batch follows as delivered, the cursor moves by one. */
  lemma SuccessfulLoad(s: ListState, props: GridProps, batch: seq<Post>)
    requires Consistent(s) && LoadStarts(s, props, true)
    ensures var t := Complete(Intersect(s, props, true).next, Success(batch));
      && t.posts[..|s.posts|] == s.posts
      && t.posts[|s.posts|..] == batch
      && t.page == s.page + 1
      && !t.isLoading
      && Consistent(t)
  {
  }

  /** Appending keeps posts already present: a batch that repeats every id still grows the list by its length. */
  lemma NoDeduplication(s: ListState, props: GridProps, batch: seq<Post>)
    requires Consistent(s) && LoadStarts(s, props, true)
    requires forall p :: p in batch ==> p in s.posts
    ensures |Complete(Intersect(s, props, true).next, Success(batch)).posts| == |s.posts| + |batch|
  {
  }

  /** The events the controller reacts to. */
  datatype Event =
    | Intersection(intersecting: bool)
    | Settled(outcome: FetchOutcome)
    | NewPosts(posts: seq<Post>)

  /** The state after a run of events under fixed props; a settlement with no load running is ignored. */
  function Run(s: ListState, props: GridProps, events: seq<Event>): ListState
    decreases |events|
  {
    if |events| == 0 then s
    else
      var t :=
        match events[0]
        case Intersection(b) => Intersect(s, props, b).next
        case Settled(o) => if s.isLoading then Complete(s, o) else s
        case NewPosts(p) => Sync(s, p);
      Run(t, props, events[1..])
  }

  /**
   * Over any run of events the invariant holds, the cursor never decreases, and it never
   * passes the larger of its starting value and the total page count.
   */
  lemma {:induction false} RunKeepsCursorBounded(s: ListState, props: GridProps, events: seq<Event>)
    requires Consistent(s)
    requires s.isLoading ==> SentinelShown(props, s.page)
    ensures var t := Run(s, props, events);
      && Consistent(t)
      && t.page >= s.page
      && (Truthy(props.totalPages) && s.page <= props.totalPages.value ==> t.page <= props.totalPages.value)
      && (t.isLoading ==> SentinelShown(props, t.page))
    decreases |events|
  {
    if |events| > 0 {
      var t :=
        match events[0]
        case Intersection(b) => Intersect(s, props, b).next
        case Settled(o) => if s.isLoading then Complete(s, o) else s
        case NewPosts(p) => Sync(s, p);
      assert Consistent(t) && t.page >= s.page;
      assert Truthy(props.totalPages) && s.page <= props.totalPages.value ==> t.page <= props.totalPages.value;
      assert t.isLoading ==> SentinelShown(props, t.page);
      RunKeepsCursorBounded(t, props, events[1..]);
    }
  }

  /** Once the cursor has reached the last page, no event starts another load. */
  lemma ExhaustedNeverLoads(s: ListState, props: GridProps, intersecting: bool)
    requires Truthy(props.totalPages) && s.page >= props.totalPages.value
    ensures Intersect(s, props, intersecting).request.None?
    ensures Intersect(s, props, intersecting).next == s
  {
  }

  /** While a load is running, further intersections issue nothing: at most one request is in flight. */
  lemma NoOverlappingLoads(s: ListState, props: GridProps, intersecting: bool)
    requires s.isLoading
    ensures Intersect(s, props, intersecting) == Step(s, None)
  {
  }

  /** The grid component's state. */
  class Grid {
    var props: GridProps
    var posts: seq<Post>
    var page: int
    var isLoading: bool
    var requestedPage: int

    function State(): ListState
      reads this
    {
      ListState(posts, page, isLoading, requestedPage)
    }

    ghost predicate Valid()
      reads this
    {
      Consistent(State())
    }

    /** The first render. */
    constructor (initial: GridProps)
      ensures Valid()
      ensures props == initial && State() == InitialState(initial)
    {
      props := initial;
      posts := initial.posts;
      page := 1;
      isLoading := false;
      requestedPage := 1;
    }

    /** Whether the sentinel element is rendered under the grid. */
    function SentinelVisible(): bool
      reads this
    {
      SentinelShown(props, page)
    }

    /** The observer callback: check the guard and, when it passes, start the load of the next page. */
    method OnIntersection(intersecting: bool) returns (request: Option<FetchRequest>)
      requires Valid()
      modifies this
      ensures Valid() && props == old(props)
      ensures State() == Intersect(old(State()), props, intersecting).next
      ensures request == Intersect(old(State()), props, intersecting).request
    {
      if props.enableInfinite && intersecting && !isLoading && Truthy(props.totalPages) && page < props.totalPages.value {
        isLoading := true;
        var newPage := page + 1;
        requestedPage := newPage;
        var filter := if Truthy(props.categoryId) then props.categoryId else None;
        request := Some(FetchRequest(newPage, LoadPageSize, filter));
      } else {
        request := None;
      }
    }

    /** The running load settles: append and advance on success, keep everything on failure; loading ends. */
    method CompleteLoad(outcome: FetchOutcome)
      requires Valid() && isLoading
      modifies this
      ensures Valid() && props == old(props)
      ensures State() == Complete(old(State()), outcome)
      ensures page >= old(page)
    {
      match outcome {
        case Success(batch) =>
          posts := posts + batch;
          page := requestedPage;
        case Failure =>
      }
      isLoading := false;
    }

    /** A re-render with new props: the posts are replaced; the cursor and loading flag are kept. */
    method ReceiveProps(newProps: GridProps)
      requires Valid()
      modifies this
      ensures Valid() && props == newProps
      ensures State() == Sync(old(State()), newProps.posts)
    {
      props := newProps;
      posts := newProps.posts;
    }
  }

  /**
   * With three pages: two loads bring the cursor to 3, after which the sentinel is gone and
   * further intersections do nothing; a batch that repeats a post is appended as it is.
   */
  method ContinuationScenario(first: seq<Post>, second: seq<Post>, category: int)
    requires category != 0
  {
    var grid := new Grid(GridProps(first, Some(category), Some(3), true));
    var request := grid.OnIntersection(true);
    assert request == Some(FetchRequest(2, 9, Some(category)));
    var again := grid.OnIntersection(true);
    assert again.None?;
    grid.CompleteLoad(Success(second));
    assert grid.posts == first + second && grid.page == 2;
    request := grid.OnIntersection(true);
    assert request == Some(FetchRequest(3, 9, Some(category)));
    grid.CompleteLoad(Success(second));
    assert grid.posts == first + second + second && grid.page == 3;
    assert !grid.SentinelVisible();
    request := grid.OnIntersection(true);
    assert request.None? && grid.page == 3;
  }
}
