/** The links to the detail page that the catalogue cards (js/products.js)
    and the related cards (js/detalle.js) build, and the round trip they
    complete: following a product's link selects that product again. The
    link is modelled by the query parameters it carries; percent-encoding
    is taken to decode to the encoded text. */
module Links {
  import opened Options
  import opened JsValue
  import opened Products
  import JsNumber
  import Detail

  /** The link a card builds for the product at position `k` of the
      collection it was listed from: `?src=<source>&id=<id>` when the
      product has an id (`p.id != null`), else `?src=<source>&idx=<k>`.
      Every product is a distinct object parsed from the JSON file, so
      `indexOf(p)` over that collection is the card's own position. */
  function DetailLink(source: string, all: seq<Product>, k: nat): (q: Detail.Query)
    requires k < |all|
    ensures q.src == Some(source) && q.slug.None?
    ensures q.id.Some? <==> !IsNullish(all[k].id)
    ensures q.id.Some? ==> q.id.value == Detail.IdText(all[k]) && q.idx.None?
    ensures q.id.None? ==> q.idx == Some(JsNumber.IntToString(k))
  {
    var p := all[k];
    if !IsNullish(p.id) then Detail.Query(Some(source), Some(ToString(p.id)), None, None)
    else Detail.Query(Some(source), None, Some(JsNumber.IntToString(k)), None)
  }

  /** No two products share an id once it is turned into text. */
  predicate UniqueIds(all: seq<Product>) {
    forall i, j :: 0 <= i < j < |all| ==> Detail.IdText(all[i]) != Detail.IdText(all[j])
  }

  /** Following the link of the card at position `k`, on a detail page that
      reads the same collection, finds a product: that very card's product
      when it is linked by position or when ids are unique, and otherwise
      the first product whose id reads the same. The page then shows it. */
  lemma {:induction false} LinkRoundTrip(source: string, all: seq<Product>, k: nat)
    requires k < |all|
    ensures Detail.FindProduct(all, DetailLink(source, all, k)).Some?
    ensures var j := Detail.FindProduct(all, DetailLink(source, all, k)).value;
      Detail.IdText(all[j]) == Detail.IdText(all[k]) && j <= k
    ensures IsNullish(all[k].id) || UniqueIds(all) ==>
      Detail.FindProduct(all, DetailLink(source, all, k)) == Some(k)
    ensures var page := Detail.Open(Some(all), DetailLink(source, all, k));
      page.Shown? && Some(page.view.index) == Detail.FindProduct(all, DetailLink(source, all, k))
  {
    var q := DetailLink(source, all, k);
    if IsNullish(all[k].id) {
      JsNumber.NatStringRoundTrip(k);
      assert Detail.FindProduct(all, q) == Some(k);
    } else {
      assert Detail.IdText(all[k]) == q.id.value;
      var r := Detail.FindProduct(all, q);
      assert r.Some?;
      assert r.value <= k;
    }
  }

  /** A catalogue link to a bare file name makes the detail page read that
      file from the data folder, which is the file the catalogue read. */
  lemma CatalogueLinkReadsSameFile(source: string, all: seq<Product>, k: nat)
    requires k < |all|
    requires source != "" && '/' !in source
    ensures Detail.SourcePath(DetailLink(source, all, k)) == Detail.DataFolder + source
  {
    Detail.SourcePathShape(DetailLink(source, all, k));
  }

  /** A related card links with the page's own `src` parameter, so the
      linked page reads the same file. */
  lemma RelatedLinkKeepsSource(q: Detail.Query, all: seq<Product>, k: nat)
    requires k < |all|
    ensures Detail.SourcePath(DetailLink(Detail.RawSource(q), all, k)) == Detail.SourcePath(q)
    ensures Detail.RawSource(DetailLink(Detail.RawSource(q), all, k)) == Detail.RawSource(q)
  {
  }
}
