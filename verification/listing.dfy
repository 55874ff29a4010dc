/** The listing page's module state and event handlers (js/products.js:3-10,
    77-139, 146-214, 302-383) as a state machine. DOM writes become the
    `View` field; `fetchAndStore` calls become `FetchRequest`s in the step
    result, and their completion is an event of its own. */
module Listing {
  import opened Products
  import opened Filter
  import opened Paging
  import opened JsonCache
  import Pagination

  /** The "all difficulties" checkbox and the difficulty slider. */
  datatype DifficultyControls = DifficultyControls(allChecked: bool, allDisabled: bool, sliderDisabled: bool, sliderValue: string)

  /** What the products container shows. */
  datatype View =
    | Empty                       // before the first load
    | Skeleton(cards: nat)        // placeholders while the network fetch runs
    | NoProducts                  // "No hay productos disponibles…", pagination hidden
    | Grid(items: seq<Product>, page: int, total: nat, bar: Pagination.Controls)
    | LoadFailed                  // "No se pudo cargar el catálogo."

  /** The module globals: `allProducts`, `currentType`, `currentCategory`,
      `currentDifficulty`, `currentPage`, `currentSource`, the viewport
      media query, the difficulty controls and the two cache tiers, plus
      whether the browser provides `window.requestIdleCallback`. */
  datatype Catalog = Catalog(
    allProducts: seq<Product>,
    kind: string,
    category: string,
    difficulty: string,
    page: int,
    source: string,
    narrow: bool,
    controls: DifficultyControls,
    cache: Cache,
    view: View,
    idleCallback: bool)

  datatype Event =
    | Ready                                       // DOMContentLoaded
    | TabClicked(tab: string, tabSource: string)  // data-tab, data-source of the tab
    | TabHovered(hoverSource: string)
    | CategoryClicked(newCategory: string)
    | AllDifficultiesChanged(checked: bool)
    | SliderInput(value: string)
    | ViewportChanged(nowNarrow: bool)
    | PageClicked(target: int, active: bool, disabled: bool)
    | FetchSucceeded(fetched: string, data: seq<Product>, sessionWritable: bool)
    | FetchFailed(failed: string)

  datatype StepResult = StepResult(state: Catalog, fetches: seq<FetchRequest>)

  /** The module's initial values; the controls' initial state and the
      session contents come from the page and the browser. */
  function Initial(narrow: bool, controls: DifficultyControls, session: map<string, Stored>, idleCallback: bool): Catalog {
    Catalog([], "amigurumis", AllCategories, AllDifficulties, 1, ProductsSource, narrow, controls, Cache(map[], session), Empty, idleCallback)
  }

  function FilterOf(s: Catalog): FilterState {
    FilterState(s.source, s.kind, s.category, s.difficulty)
  }

  /** The page the current state calls for. */
  function PageOf(s: Catalog): PageView<Product> {
    Paginate(Filtered(s.allProducts, FilterOf(s)), s.page, PageSize(s.narrow))
  }

  /** `renderFilteredProducts`: filter, clamp `currentPage`, show a page (or
      the no-results message) and the pagination bar. */
  function Render(s: Catalog): (r: Catalog)
    ensures r == s.(page := r.page, view := r.view)
    ensures r.view.NoProducts? || r.view.Grid?
    ensures r.view.NoProducts? <==> |Filtered(s.allProducts, FilterOf(s))| == 0
    ensures r.view.NoProducts? ==> r.page == s.page
    ensures r.view.Grid? ==> 1 <= r.page <= r.view.total && r.view.page == r.page
    ensures r.view.Grid? && 1 <= s.page <= r.view.total ==> r.page == s.page
  {
    match PageOf(s)
    case NoResults => s.(view := NoProducts)
    case Page(items, current, total) =>
      s.(page := current, view := Grid(items, current, total, Pagination.Build(current, total)))
  }

  /** The part of `loadProductsFromJSON` after the cache lookup: a hit
      replaces `allProducts`, resets the page and renders; a miss shows the
      skeleton and leaves the fetch running; a session hit whose refresh
      scheduling threw renders and is then covered by the skeleton. */
  function LoadInto(s: Catalog, source: string): StepResult {
    var r := Load(s.cache, source, s.idleCallback);
    match r.served
    case FromMemory(data) => StepResult(Render(s.(cache := r.cache, allProducts := data, page := 1)), r.fetches)
    case FromSession(data) => StepResult(Render(s.(cache := r.cache, allProducts := data, page := 1)), r.fetches)
    case SessionThenNetwork(data) =>
      StepResult(Render(s.(cache := r.cache, allProducts := data, page := 1)).(view := Skeleton(PageSize(s.narrow))), r.fetches)
    case FromNetwork => StepResult(s.(cache := r.cache, view := Skeleton(PageSize(s.narrow))), r.fetches)
  }

  /** The tab handler's resets before it loads the tab's source. */
  function SwitchTab(s: Catalog, tab: string, source: string): Catalog {
    var usingDifficulty := source != FreeSource;
    var checked := usingDifficulty;
    s.(kind := tab, source := source, category := AllCategories,
       controls := s.controls.(allDisabled := !usingDifficulty, allChecked := checked,
                               sliderDisabled := !usingDifficulty || checked),
       difficulty := AllDifficulties, page := 1, view := Skeleton(PageSize(s.narrow)))
  }

  function Step(s: Catalog, e: Event): StepResult {
    match e
    case Ready =>
      var loaded := LoadInto(s, ProductsSource);
      StepResult(loaded.state, loaded.fetches + WarmPrefetchOthers(loaded.state.cache, loaded.state.source))
    case TabClicked(tab, source) =>
      var loaded := LoadInto(SwitchTab(s, tab, source), source);
      StepResult(loaded.state, loaded.fetches + WarmPrefetchOthers(loaded.state.cache, loaded.state.source))
    case TabHovered(source) =>
      StepResult(s, Prefetch(s.cache, source))
    case CategoryClicked(category) =>
      StepResult(Render(s.(category := category, page := 1)), [])
    case AllDifficultiesChanged(checked) =>
      var controls := s.controls.(allChecked := checked, sliderDisabled := checked);
      var difficulty := if checked then AllDifficulties else s.controls.sliderValue;
      StepResult(Render(s.(controls := controls, difficulty := difficulty, page := 1)), [])
    case SliderInput(value) =>
      var moved := s.(controls := s.controls.(sliderValue := value));
      if !s.controls.allChecked then StepResult(Render(moved.(difficulty := value, page := 1)), [])
      else StepResult(moved, [])
    case ViewportChanged(narrow) =>
      StepResult(Render(s.(narrow := narrow, page := 1)), [])
    case PageClicked(target, active, disabled) =>
      if disabled || active then StepResult(s, [])
      else StepResult(Render(s.(page := target)), [])
    case FetchSucceeded(source, data, writable) =>
      StepResult(Render(s.(cache := Store(s.cache, source, data, writable), allProducts := data, page := 1)), [])
    case FetchFailed(_) =>
      StepResult(s.(view := LoadFailed), [])
  }

  // ---------------------------------------------------------------- properties

  /** What the container shows is never stale: a grid is exactly the page
      the current filters, page and viewport call for, with its pagination
      bar, and the no-results message appears only when nothing matches. */
  predicate ShowsCurrentListing(s: Catalog) {
    match s.view
    case Grid(items, page, total, bar) =>
      s.page == page && PageOf(s) == Page(items, page, total) && bar == Pagination.Build(page, total)
    case NoProducts => PageOf(s).NoResults?
    case _ => true
  }

  /** Rendering always produces a listing consistent with the state. */
  lemma RenderShowsCurrentListing(s: Catalog)
    ensures ShowsCurrentListing(Render(s))
  {
    var r := Render(s);
    if r.view.Grid? {
      var f := Filtered(s.allProducts, FilterOf(s));
      assert PageOf(s) == Paginate(f, s.page, PageSize(s.narrow));
      assert PageOf(r) == Paginate(f, r.page, PageSize(s.narrow));
    }
  }

  /** Every event keeps the display consistent with the state. */
  lemma StepPreservesListing(s: Catalog, e: Event)
    requires ShowsCurrentListing(s)
    ensures ShowsCurrentListing(Step(s, e).state)
  {
    match e
    case Ready =>
      LoadIntoShowsCurrentListing(s, ProductsSource);
    case TabClicked(tab, source) =>
      LoadIntoShowsCurrentListing(SwitchTab(s, tab, source), source);
    case TabHovered(_) =>
    case CategoryClicked(category) =>
      CategoryShowsCurrentListing(s, category);
    case AllDifficultiesChanged(checked) =>
      ToggleShowsCurrentListing(s, checked);
    case SliderInput(value) =>
      SliderPreservesListing(s, value);
    case ViewportChanged(narrow) =>
      ViewportShowsCurrentListing(s, narrow);
    case PageClicked(target, active, disabled) =>
      PageClickPreservesListing(s, target, active, disabled);
    case FetchSucceeded(source, data, writable) =>
      FetchShowsCurrentListing(s, source, data, writable);
    case FetchFailed(_) =>
  }

  lemma CategoryShowsCurrentListing(s: Catalog, category: string)
    ensures ShowsCurrentListing(Step(s, CategoryClicked(category)).state)
  {
    RenderShowsCurrentListing(s.(category := category, page := 1));
  }

  lemma ToggleShowsCurrentListing(s: Catalog, checked: bool)
    ensures ShowsCurrentListing(Step(s, AllDifficultiesChanged(checked)).state)
  {
    var controls := s.controls.(allChecked := checked, sliderDisabled := checked);
    var difficulty := if checked then AllDifficulties else s.controls.sliderValue;
    RenderShowsCurrentListing(s.(controls := controls, difficulty := difficulty, page := 1));
  }

  lemma SliderPreservesListing(s: Catalog, value: string)
    requires ShowsCurrentListing(s)
    ensures ShowsCurrentListing(Step(s, SliderInput(value)).state)
  {
    if s.controls.allChecked {
      var moved := s.(controls := s.controls.(sliderValue := value));
      assert PageOf(moved) == PageOf(s);
    } else {
      SliderRenderShowsCurrentListing(s, value);
    }
  }

  lemma SliderRenderShowsCurrentListing(s: Catalog, value: string)
    requires !s.controls.allChecked
    ensures ShowsCurrentListing(Step(s, SliderInput(value)).state)
  {
    var moved := s.(controls := s.controls.(sliderValue := value));
    RenderShowsCurrentListing(moved.(difficulty := value, page := 1));
  }

  lemma ViewportShowsCurrentListing(s: Catalog, narrow: bool)
    ensures ShowsCurrentListing(Step(s, ViewportChanged(narrow)).state)
  {
    RenderShowsCurrentListing(s.(narrow := narrow, page := 1));
  }

  lemma PageClickPreservesListing(s: Catalog, target: int, active: bool, disabled: bool)
    requires ShowsCurrentListing(s)
    ensures ShowsCurrentListing(Step(s, PageClicked(target, active, disabled)).state)
  {
    if disabled || active {
      PageClickShowsTarget(s, target, active, disabled);
    } else {
      PageRenderShowsCurrentListing(s, target);
    }
  }

  lemma PageRenderShowsCurrentListing(s: Catalog, target: int)
    ensures ShowsCurrentListing(Step(s, PageClicked(target, false, false)).state)
  {
    RenderShowsCurrentListing(s.(page := target));
  }

  lemma FetchShowsCurrentListing(s: Catalog, source: string, data: seq<Product>, writable: bool)
    ensures ShowsCurrentListing(Step(s, FetchSucceeded(source, data, writable)).state)
  {
    RenderShowsCurrentListing(s.(cache := Store(s.cache, source, data, writable), allProducts := data, page := 1));
  }

  lemma LoadIntoShowsCurrentListing(s: Catalog, source: string)
    ensures ShowsCurrentListing(LoadInto(s, source).state)
  {
    var r := Load(s.cache, source, s.idleCallback);
    match r.served
    case FromMemory(data) =>
      RenderShowsCurrentListing(s.(cache := r.cache, allProducts := data, page := 1));
    case FromSession(data) =>
      RenderShowsCurrentListing(s.(cache := r.cache, allProducts := data, page := 1));
    case SessionThenNetwork(data) =>
    case FromNetwork =>
  }

  /** A tab switch selects the tab's type and source, resets category to
      "Todos", difficulty to "all" and the page to 1, and enables the
      difficulty checkbox (checked) exactly when the source is not
      free.json; the slider itself ends up disabled either way. */
  lemma TabSwitchResets(s: Catalog, tab: string, source: string)
    ensures var t := Step(s, TabClicked(tab, source)).state;
      && t.kind == tab && t.source == source
      && t.category == AllCategories && t.difficulty == AllDifficulties && t.page == 1
      && (t.controls.allDisabled <==> source == FreeSource)
      && (t.controls.allChecked <==> source != FreeSource)
      && t.controls.sliderDisabled
      && t.controls.sliderValue == s.controls.sliderValue
  {
    var u := SwitchTab(s, tab, source);
    var r := Load(u.cache, source, u.idleCallback);
    match r.served
    case FromMemory(data) =>
    case FromSession(data) =>
    case SessionThenNetwork(data) =>
    case FromNetwork =>
  }

  /** Every category, difficulty or viewport change leaves the listing on page 1. */
  lemma FilterChangesResetPage(s: Catalog, category: string, checked: bool, value: string, narrow: bool)
    ensures Step(s, CategoryClicked(category)).state.page == 1
    ensures Step(s, AllDifficultiesChanged(checked)).state.page == 1
    ensures !s.controls.allChecked ==> Step(s, SliderInput(value)).state.page == 1
    ensures Step(s, ViewportChanged(narrow)).state.page == 1
  {
  }

  /** A late fetch completion replaces the displayed collection whatever
      source is selected: a prefetch of another tab's JSON that resolves
      after the current tab has rendered takes over `allProducts`. */
  lemma FetchCompletionReplacesCollection(s: Catalog, source: string, data: seq<Product>, writable: bool)
    ensures var t := Step(s, FetchSucceeded(source, data, writable)).state;
      && t.allProducts == data && t.source == s.source && t.page == 1
      && t.cache.memory[source] == data
  {
  }

  /** A failed fetch changes neither cache tier nor the loaded collection. */
  lemma FetchFailureKeepsState(s: Catalog, source: string)
    ensures var t := Step(s, FetchFailed(source)).state;
      t.cache == s.cache && t.allProducts == s.allProducts && t.view == LoadFailed
  {
  }

  /** Clicking an enabled page link or arrow whose target lies in the page
      range shows that page; disabled and active entries do nothing. */
  lemma PageClickShowsTarget(s: Catalog, target: int, active: bool, disabled: bool)
    ensures disabled || active ==> Step(s, PageClicked(target, active, disabled)).state == s
    ensures var t := Step(s, PageClicked(target, active, disabled)).state;
      !disabled && !active && t.view.Grid? && 1 <= target <= t.view.total ==> t.page == target
  {
  }
}
