/** The product detail page (js/detalle.js): which file it reads, which
    product the query string selects, the pattern pill, the "free" callout,
    the description switch and the related products. */
module Detail {
  import opened Options
  import opened Text
  import opened JsValue
  import opened Products
  import JsNumber
  import Seqs
  import Slug
  import Bullets
  import Pricing

  /** The query-string parameters the page reads; `None` is a parameter
      that is not present (`qs.get` returns `null`). */
  datatype Query = Query(src: Option<string>, id: Option<string>, idx: Option<string>, slug: Option<string>)

  const DefaultSource := "products.json"
  const DataFolder := "json/"

  /** The `src` parameter, or products.json when it is missing or empty. */
  function RawSource(q: Query): (r: string)
    ensures r != ""
    ensures q.src.Some? && q.src.value != "" ==> r == q.src.value
    ensures q.src.None? || q.src.value == "" ==> r == DefaultSource
  {
    if q.src.Some? && q.src.value != "" then q.src.value else DefaultSource
  }

  /** `/^https?:\/\//i`: an absolute web address, in any letter case. */
  predicate IsHttpUrl(s: string) {
    StartsWith(ToLower(s), "http://") || StartsWith(ToLower(s), "https://")
  }

  /** A web address or any path with a folder is fetched as given; a bare
      file name is looked up in the data folder. */
  function SourcePath(q: Query): string {
    var raw := RawSource(q);
    if IsHttpUrl(raw) || '/' in raw then raw else DataFolder + raw
  }

  /** Every web address contains a slash, so the address test never decides
      anything the slash test does not. */
  lemma HttpUrlHasSlash(s: string)
    ensures IsHttpUrl(s) ==> '/' in s
  {
    if IsHttpUrl(s) {
      var lower := ToLower(s);
      assert lower[5] == '/' || lower[6] == '/';
      assert ToLowerAscii(s[5]) == '/' || ToLowerAscii(s[6]) == '/';
    }
  }

  /** A bare file name gets the data folder in front, anything with a slash
      is used verbatim, and the result always names a folder. */
  lemma SourcePathShape(q: Query)
    ensures '/' !in RawSource(q) ==> SourcePath(q) == DataFolder + RawSource(q)
    ensures '/' in RawSource(q) ==> SourcePath(q) == RawSource(q)
    ensures '/' in SourcePath(q)
  {
    HttpUrlHasSlash(RawSource(q));
    assert DataFolder[4] == '/';
    if '/' !in RawSource(q) {
      assert (DataFolder + RawSource(q))[4] == '/';
    }
  }

  /** `String(p.id) === String(idParam)`. */
  function IdText(p: Product): string {
    ToString(p.id)
  }

  /** `slugify(p.name)`, where a missing name becomes the empty string. */
  function NameSlug(p: Product): string {
    Slug.Slugify(ToString(Or(p.name, Str(""))))
  }

  /** The `idx` branch: `Number(idx)` must be a number in `[0, data.length)`,
      and `data[i]` only finds a product at a whole index. */
  function IndexParam(data: seq<Product>, idx: string): (r: Option<nat>)
    ensures r.Some? ==> r.value < |data| && JsNumber.StringToNumber(idx) == JsNumber.Finite(r.value as real)
    ensures r.None? ==>
      var n := JsNumber.StringToNumber(idx);
      !(n.Finite? && 0.0 <= n.x < |data| as real && n.x == n.x.Floor as real)
  {
    var n := JsNumber.StringToNumber(idx);
    if n.Finite? && 0.0 <= n.x && n.x < |data| as real && n.x == n.x.Floor as real then
      Some(n.x.Floor)
    else None
  }

  /** The product the query selects: by `id` when that parameter is present,
      else by `idx`, else by a non-empty `slug`. */
  function FindProduct(data: seq<Product>, q: Query): (r: Option<nat>)
    ensures r.Some? ==> r.value < |data|
    ensures q.id.Some? ==>
      (r.Some? ==> IdText(data[r.value]) == q.id.value &&
                   forall j :: 0 <= j < r.value ==> IdText(data[j]) != q.id.value) &&
      (r.None? ==> forall j :: 0 <= j < |data| ==> IdText(data[j]) != q.id.value)
    ensures q.id.None? && q.idx.Some? ==>
      forall k: nat :: k < |data| ==>
        (r == Some(k) <==> JsNumber.StringToNumber(q.idx.value) == JsNumber.Finite(k as real))
    ensures q.id.None? && q.idx.None? ==>
      var wanted := ToLower(q.slug.GetOr(""));
      (wanted == "" ==> r.None?) &&
      (r.Some? ==> NameSlug(data[r.value]) == wanted &&
                   forall j :: 0 <= j < r.value ==> NameSlug(data[j]) != wanted) &&
      (wanted != "" && r.None? ==> forall j :: 0 <= j < |data| ==> NameSlug(data[j]) != wanted)
  {
    if q.id.Some? then
      var id := q.id.value;
      Seqs.FirstIndex(data, p => IdText(p) == id)
    else if q.idx.Some? then
      IndexParam(data, q.idx.value)
    else
      var wanted := ToLower(q.slug.GetOr(""));
      if wanted != "" then Seqs.FirstIndex(data, p => NameSlug(p) == wanted) else None
  }

  /** A present `id` decides alone; otherwise a present `idx` decides alone. */
  lemma LookupPrecedence(data: seq<Product>, q: Query, idx: Option<string>, slug: Option<string>)
    ensures q.id.Some? ==> FindProduct(data, q.(idx := idx, slug := slug)) == FindProduct(data, q)
    ensures q.id.None? && q.idx.Some? ==> FindProduct(data, q.(slug := slug)) == FindProduct(data, q)
  {
  }

  // ---- pattern pill and free callout ----

  const PatternTypes: set<string> := {"pago", "gratuitos", "free"}
  const FreeTypes: set<string> := {"gratuitos", "free"}
  const FreeFileSuffix := "free.json"

  /** `String(p.type || '').toLowerCase()`. */
  function TypeText(p: Product): string {
    ToLower(ToString(Or(p.kind, Str(""))))
  }

  /** The pill shows when `hasPattern` is truthy or the type is a pattern type. */
  predicate HasPattern(p: Product) {
    Truthy(p.hasPattern) || TypeText(p) in PatternTypes
  }

  /** `/free\.json$/i` on the fetched path. */
  predicate EndsWithFreeFile(path: string) {
    |path| >= |FreeFileSuffix| && ToLower(path[|path| - |FreeFileSuffix|..]) == FreeFileSuffix
  }

  /** The free callout shows for the free file or a free type. */
  predicate IsFreeSource(path: string, p: Product) {
    EndsWithFreeFile(path) || TypeText(p) in FreeTypes
  }

  /** Lower-casing keeps a leading digit or minus sign. */
  lemma LowerKeepsHead(s: string)
    requires |s| > 0 && (IsDigit(s[0]) || s[0] == '-')
    ensures |ToLower(s)| > 0 && (IsDigit(ToLower(s)[0]) || ToLower(s)[0] == '-')
  {
  }

  /** Only a string type can be a pattern type: numbers and `true` never
      spell one of the names. */
  lemma TypeTextNamesStringsOnly(p: Product, names: set<string>)
    requires forall t :: t in names ==> |t| > 0 && 'a' <= t[0] <= 'z'
    requires "true" !in names
    ensures TypeText(p) in names <==> p.kind.Str? && ToLower(p.kind.s) in names
  {
    match Or(p.kind, Str(""))
    case Num(x) =>
      LowerKeepsHead(JsNumber.NumberToString(x));
    case Bool(b) =>
      var t := ToLower("true");
      assert t[0] == 't' && t[1] == 'r' && t[2] == 'u' && t[3] == 'e';
      assert t == "true";
    case Str(s) =>
      if !p.kind.Str? {
        assert s == "";
      }
    case _ =>
  }

  /** The pill and the callout in terms of the product's own fields. */
  lemma PatternPillIff(p: Product)
    ensures HasPattern(p) <==> Truthy(p.hasPattern) || (p.kind.Str? && ToLower(p.kind.s) in PatternTypes)
  {
    TypeTextNamesStringsOnly(p, PatternTypes);
  }

  /** A product whose callout is due to its type also shows the pattern pill. */
  lemma FreeTypeShowsPattern(path: string, p: Product)
    ensures IsFreeSource(path, p) && !EndsWithFreeFile(path) ==> HasPattern(p)
    ensures IsFreeSource(path, p) <==>
      EndsWithFreeFile(path) || (p.kind.Str? && ToLower(p.kind.s) in FreeTypes)
  {
    TypeTextNamesStringsOnly(p, FreeTypes);
  }

  // ---- related products ----

  /** Another product (a different position) with the same type and the
      same category, both compared strictly. */
  predicate IsRelated(all: seq<Product>, k: nat, j: nat)
    requires k < |all| && j < |all|
  {
    j != k && all[j].kind == all[k].kind && all[j].category == all[k].category
  }

  /** The positions below `n` that hold products related to `all[k]`, in order. */
  function RelatedBelow(all: seq<Product>, k: nat, n: nat): (r: seq<nat>)
    requires k < |all| && n <= |all|
    ensures forall i :: 0 <= i < |r| ==> r[i] < n && IsRelated(all, k, r[i])
    ensures forall i, i' :: 0 <= i < i' < |r| ==> r[i] < r[i']
    ensures forall j :: 0 <= j < n && IsRelated(all, k, j) ==> j in r
  {
    if n == 0 then []
    else
      var prev := RelatedBelow(all, k, n - 1);
      if IsRelated(all, k, n - 1) then prev + [n - 1] else prev
  }

  const MaxRelated := 4

  /** `.filter(...).slice(0, 4)` over the whole collection. */
  function Related(all: seq<Product>, k: nat): seq<nat>
    requires k < |all|
  {
    Seqs.Take(RelatedBelow(all, k, |all|), MaxRelated)
  }

  /** The related positions, computed by one pass over the collection. */
  method SelectRelated(all: seq<Product>, k: nat) returns (r: seq<nat>)
    requires k < |all|
    ensures r == Related(all, k)
    ensures |r| <= MaxRelated
    ensures forall i :: 0 <= i < |r| ==> r[i] < |all| && IsRelated(all, k, r[i])
    ensures forall i, i' :: 0 <= i < i' < |r| ==> r[i] < r[i']
  {
    var matches: seq<nat> := [];
    var j := 0;
    while j < |all|
      invariant 0 <= j <= |all|
      invariant matches == RelatedBelow(all, k, j)
    {
      if all[j].kind == all[k].kind && all[j].category == all[k].category && j != k {
        matches := matches + [j];
      }
      j := j + 1;
    }
    if |matches| <= MaxRelated {
      r := matches;
    } else {
      r := matches[..MaxRelated];
    }
  }

  /** The related list never holds the product itself, and it holds the
      first four related products: any related product left out comes
      after four that are shown. */
  lemma {:induction false} RelatedAreFirstFour(all: seq<Product>, k: nat, j: nat)
    requires k < |all| && j < |all|
    ensures k !in Related(all, k)
    ensures IsRelated(all, k, j) && j !in Related(all, k) ==>
      |Related(all, k)| == MaxRelated && forall i :: 0 <= i < MaxRelated ==> Related(all, k)[i] < j
  {
    var full := RelatedBelow(all, k, |all|);
    var r := Related(all, k);
    assert forall i :: 0 <= i < |r| ==> r[i] == full[i] && r[i] != k;
    if IsRelated(all, k, j) && j !in r {
      assert j in full;
      var p :| 0 <= p < |full| && full[p] == j;
      assert |r| == MaxRelated;
      assert p >= MaxRelated;
      forall i | 0 <= i < MaxRelated
        ensures r[i] < j
      {
        assert r[i] == full[i];
      }
    }
  }

  // ---- the rendered page ----

  /** `HIDE_FREE_DESCRIPTION`: when set, free products hide their description. */
  const HideFreeDescription := false

  datatype View = View(
    index: nat,
    usd: Option<real>,
    showsFree: bool,
    hasPattern: bool,
    freeCallout: bool,
    bullets: Option<seq<string>>,
    descriptionShown: bool,
    related: seq<nat>)

  /** What `renderDetail` shows for `all[k]` read from `path`. */
  function Render(all: seq<Product>, k: nat, path: string): (v: View)
    requires k < |all|
    ensures v.index == k && k !in v.related
    ensures v.usd == Pricing.UsdPrice(all[k])
    ensures v.showsFree <==> v.usd.None? || v.usd == Some(0.0)
    ensures v.hasPattern == HasPattern(all[k])
    ensures v.freeCallout == IsFreeSource(path, all[k])
    ensures v.bullets == Bullets.GetBullets(all[k].description)
    ensures v.descriptionShown <==> v.bullets.Some? && |v.bullets.value| > 0
    ensures v.related == Related(all, k)
  {
    var p := all[k];
    var usd := Pricing.UsdPrice(p);
    var free := IsFreeSource(path, p);
    var bullets := Bullets.GetBullets(p.description);
    RelatedAreFirstFour(all, k, k);
    View(
      k, usd, Pricing.DetailShowsFree(p), HasPattern(p), free, bullets,
      if free && HideFreeDescription then false else bullets.Some? && |bullets.value| > 0,
      Related(all, k))
  }

  /** The three outcomes of opening the page. */
  datatype Page = Shown(view: View) | NotFoundMessage | LoadErrorMessage

  /** `init`: `fetched` is the parsed product array, or `None` when the
      fetch or the JSON parse failed. */
  function Open(fetched: Option<seq<Product>>, q: Query): (r: Page)
    ensures fetched.None? <==> r.LoadErrorMessage?
    ensures fetched.Some? ==> (r.NotFoundMessage? <==> FindProduct(fetched.value, q).None?)
    ensures r.Shown? ==> fetched.Some? && r.view.index < |fetched.value|
    ensures r.Shown? ==> Some(r.view.index) == FindProduct(fetched.value, q)
    ensures r.Shown? ==> r.view.related == Related(fetched.value, r.view.index)
    ensures r.Shown? ==> r.view == Render(fetched.value, r.view.index, SourcePath(q))
    ensures r.Shown? ==> r.view.usd == Pricing.UsdPrice(fetched.value[r.view.index])
    ensures r.Shown? ==> r.view.hasPattern == HasPattern(fetched.value[r.view.index])
    ensures r.Shown? ==> r.view.freeCallout == IsFreeSource(SourcePath(q), fetched.value[r.view.index])
    ensures r.Shown? ==> r.view.bullets == Bullets.GetBullets(fetched.value[r.view.index].description)
  {
    match fetched
    case None => LoadErrorMessage
    case Some(data) =>
      match FindProduct(data, q)
      case None => NotFoundMessage
      case Some(k) => Shown(Render(data, k, SourcePath(q)))
  }
}
