/** The three ANDed conditions `renderFilteredProducts` applies to the
    loaded collection (js/products.js:149-155). */
module Filter {
  import opened JsValue
  import opened Products
  import JsNumber
  import Seqs

  /** The globals the filter reads: `currentSource`, `currentType`,
      `currentCategory` and `currentDifficulty` (a slider value or "all"). */
  datatype FilterState = FilterState(source: string, kind: string, category: string, difficulty: string)

  const AllCategories := "Todos"
  const AllDifficulties := "all"

  /** Only the products and pay sources are filtered by type. */
  predicate MustMatchType(source: string) {
    source == ProductsSource || source == PaySource
  }

  predicate MatchesType(p: Product, f: FilterState) {
    MustMatchType(f.source) ==> p.kind == Str(f.kind)
  }

  predicate MatchesCategory(p: Product, f: FilterState) {
    f.category == AllCategories || p.category == Str(f.category)
  }

  /** `p.difficulty === Number(currentDifficulty)`: only a JSON number equal
      to the converted slider value matches; NaN matches nothing. */
  predicate MatchesDifficulty(p: Product, f: FilterState) {
    f.difficulty == AllDifficulties ||
      (var n := JsNumber.StringToNumber(f.difficulty); n.Finite? && p.difficulty == Num(n.x))
  }

  predicate Keep(p: Product, f: FilterState) {
    MatchesType(p, f) && MatchesCategory(p, f) && MatchesDifficulty(p, f)
  }

  /** The `filtered` array of `renderFilteredProducts`. */
  function Filtered(all: seq<Product>, f: FilterState): seq<Product> {
    Seqs.Filter(all, p => Keep(p, f))
  }

  /** The filtered list is a subsequence of the collection in its original
      order, and a product occurs in it exactly as often as in the
      collection when it satisfies all three conditions, and never otherwise. */
  lemma FilteredIsOrderedSelection(all: seq<Product>, f: FilterState, p: Product)
    ensures Seqs.IsSubsequence(Filtered(all, f), all)
    ensures multiset(Filtered(all, f))[p] == if Keep(p, f) then multiset(all)[p] else 0
    ensures p in Filtered(all, f) <==> p in all && MatchesType(p, f) && MatchesCategory(p, f) && MatchesDifficulty(p, f)
  {
    Seqs.FilterIsSubsequence(all, p => Keep(p, f));
    Seqs.FilterCounts(all, p => Keep(p, f), p);
    Seqs.FilterMembership(all, p => Keep(p, f), p);
  }

  /** On any source other than products.json and pay.json (in particular
      free.json) the selected tab's type has no influence on the listing. */
  lemma {:induction false} TypeIgnoredOutsideTypedSources(all: seq<Product>, f: FilterState, kind: string)
    requires !MustMatchType(f.source)
    ensures Filtered(all, f) == Filtered(all, f.(kind := kind))
  {
    if |all| > 0 {
      TypeIgnoredOutsideTypedSources(all[1..], f, kind);
    }
  }

  /** With no category and no difficulty chosen, free.json lists its whole collection. */
  lemma FreeSourceUnfiltered(all: seq<Product>, kind: string)
    ensures Filtered(all, FilterState(FreeSource, kind, AllCategories, AllDifficulties)) == all
  {
    var f := FilterState(FreeSource, kind, AllCategories, AllDifficulties);
    Seqs.FilterAcceptAll(all, p => Keep(p, f));
  }
}
