/** Building the mosaic page from the gallery index (`render_page` in
    www/gallery.js) and opening the picture browser from one of its tiles
    (the entry of `image_browser`). */
module Page {
  import opened Option
  import opened Nav

  /** One entry of the index's `items` array. `kind` is the entry's `type`
      string; only "image" and "video" are recognised. */
  datatype Item = Item(kind: string, src: string, width: int, height: int)

  /** The fetched index: a missing key is `None`. `title` and `date` are
      kept only for the index's shape; the text they fill in is not part of
      this model. */
  datatype Index = Index(title: Option<string>, date: Option<string>, items: Option<seq<Item>>)

  /** A mosaic tile: an `<img>` or a `<video>` element built from an item,
      with the item's position in `items` as its `data-n` attribute. */
  datatype Element = Img | Video
  datatype Tile = Tile(element: Element, item: Item, n: nat)

  datatype Body = Misconfigured | Mosaic(tiles: seq<Tile>)

  predicate IsMedia(it: Item) {
    it.kind == "image" || it.kind == "video"
  }

  function ElementFor(it: Item): Element
    requires IsMedia(it)
  {
    if it.kind == "image" then Img else Video
  }

  /** Every tile is a media item rendered as its type, tagged with its
      index among the first `k` items. */
  ghost predicate Tagged(items: seq<Item>, k: nat, r: seq<Tile>)
    requires k <= |items|
  {
    forall j :: 0 <= j < |r| ==>
      r[j].n < k && r[j].item == items[r[j].n]
      && IsMedia(r[j].item) && r[j].element == ElementFor(r[j].item)
  }

  /** Tiles keep the items' order. */
  ghost predicate Ordered(r: seq<Tile>) {
    forall i, j :: 0 <= i < j < |r| ==> r[i].n < r[j].n
  }

  /** No media item among the first `k` is skipped. */
  ghost predicate Complete(items: seq<Item>, k: nat, r: seq<Tile>)
    requires k <= |items|
  {
    forall i :: 0 <= i < k && IsMedia(items[i]) ==> exists j :: 0 <= j < |r| && r[j].n == i
  }

  /** The tiles the loop over `items` has appended after its first `k`
      rounds: one tile per image or video, in item order, other types
      skipped. */
  function TilesUpTo(items: seq<Item>, k: nat): (r: seq<Tile>)
    requires k <= |items|
    ensures Tagged(items, k, r) && Ordered(r) && Complete(items, k, r)
    decreases k
  {
    if k == 0 then []
    else
      var prefix := TilesUpTo(items, k - 1);
      var it := items[k - 1];
      if IsMedia(it) then
        var t := Tile(ElementFor(it), it, k - 1);
        AppendTile(items, k - 1, prefix, t);
        prefix + [t]
      else
        SkipItem(items, k - 1, prefix);
        prefix
  }

  /** One more round of the loop on a media item keeps the three
      properties. */
  lemma AppendTile(items: seq<Item>, k: nat, prefix: seq<Tile>, t: Tile)
    requires k < |items| && IsMedia(items[k])
    requires Tagged(items, k, prefix) && Ordered(prefix) && Complete(items, k, prefix)
    requires t == Tile(ElementFor(items[k]), items[k], k)
    ensures Tagged(items, k + 1, prefix + [t])
    ensures Ordered(prefix + [t])
    ensures Complete(items, k + 1, prefix + [t])
  {
    var r := prefix + [t];
    assert forall j :: 0 <= j < |prefix| ==> r[j] == prefix[j];
    assert r[|prefix|] == t;
  }

  /** Skipping a non-media item keeps the three properties. */
  lemma SkipItem(items: seq<Item>, k: nat, prefix: seq<Tile>)
    requires k < |items| && !IsMedia(items[k])
    requires Tagged(items, k, prefix) && Complete(items, k, prefix)
    ensures Tagged(items, k + 1, prefix) && Complete(items, k + 1, prefix)
  {
  }

  /** The tiles of the whole item list, as `render_page` appends them. */
  function Tiles(items: seq<Item>): (r: seq<Tile>)
    ensures Tagged(items, |items|, r) && Ordered(r) && Complete(items, |items|, r)
  {
    TilesUpTo(items, |items|)
  }

  /** `render_page`'s item part: with an `items` key, a mosaic of the media
      items; without one, the misconfigured notice and no tiles. */
  function RenderPage(g: Index): (r: Body)
    ensures r.Misconfigured? <==> g.items.None?
    ensures r.Mosaic? ==> r.tiles == Tiles(g.items.value)
  {
    match g.items
    case None => Misconfigured
    case Some(items) => Mosaic(Tiles(items))
  }

  /** Clicking a tile: only image tiles carry the click handler that opens
      the browser, at the tile's `data-n`. */
  function OpenBrowser(t: Tile): (r: Option<View>)
    ensures r.Some? <==> t.element == Img
    ensures r.Some? ==> r.value == View(Browser, t.n)
  {
    match t.element
    case Img => Some(View(Browser, t.n))
    case Video => None
  }

  /** The browser's index stays valid: opened from any tile of the page and
      driven by any actions, it always points at an item. */
  lemma OpenedBrowserStaysInRange(g: Index, j: nat, acts: seq<Action>)
    requires RenderPage(g).Mosaic? && j < |RenderPage(g).tiles|
    requires OpenBrowser(RenderPage(g).tiles[j]).Some?
    ensures var v := OpenBrowser(RenderPage(g).tiles[j]).value;
            var len := |g.items.value|;
            InRange(v.n, len) && g.items.value[v.n].kind == "image"
            && InRange(Run(v, len, acts).n, len)
  {
  }

}
