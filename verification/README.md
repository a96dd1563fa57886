# Picture-browser navigation of simple-gallery-2

A Dafny model of the client-side logic in `www/gallery.js`: how a click or a
key press on the single-item picture browser becomes a navigation keyword,
how the browser's `navigate` closure moves its current index `n` over the
gallery's `items`, and which items `render_page` turns into mosaic tiles.

- `option.dfy` — `Option`, for JavaScript's `undefined` and absent keys.
- `nav.dfy` — module `Nav`: the `Action` keywords, the `Gallery`/`Browser`
  mode, `Navigate` (one call of the closure), `Run` (a sequence of calls),
  and the bounds and round-trip lemmas.
- `input.dfy` — module `Input`: `Band` (`get_band`) in exact integer
  arithmetic, `ClickAction` (`click_action`), the keydown table `KeyAction`
  and the two handlers `OnKeyDown` and `OnClick`.
- `page.dfy` — module `Page`: items, tiles, `RenderPage` with its
  misconfigured branch, and `OpenBrowser`, the click on an image tile that
  opens the browser at the tile's `data-n`.

Two behaviours of the code are modelled as written. First, the key handler is never removed (`exit` unbinds `keypress` from
the selector `'document'`, but the handler was bound with `keydown` on the
document), so `Navigate` takes the current mode as input and keeps moving
`n` after `exit` without leaving the gallery (`Input.KeysStillNavigateAfterExit`).
In the gallery such a step still chooses an `upcoming` item, but the viewer
has been emptied, so the image swap matches no element and nothing visible
changes. The click handler is different: `exit` does unbind it with
`.off('click')`, so clicks never reach `navigate` after `exit`, and
`Input.OnClick` is only meaningful for a view in browser mode.
Second, a re-render happens exactly when `upcoming` is truthy; since items
are modelled as records, that is exactly when the chosen index is inside
`items`. `first`/`last` on an empty list therefore choose an index but
re-render nothing. This revision of `www/gallery.js`
has no index-file fallback, no deep links, no `navigate` URLs for the
gallery mode and no handler stack, so none of those is modelled.

## Model

| member | source | states |
|---|---|---|
| Input.Band | www/gallery.js:11-14 | no band (`None`) exactly when the width is zero, where the source gets NaN or an infinity, which no array index matches; otherwise the band `b` with `b*width <= pos*bands < (b+1)*width`, i.e. floor(pos*bands/width) |
| Input.BandInRange | www/gallery.js:11-14 | for `bands > 0` and `0 <= pos < width` the band is one of `0 .. bands-1` |
| Input.ClickAction | www/gallery.js:24-36 | a non-click gives no action; a click gives `prev`, `exit`, `next` exactly in the left, middle, right third, and an action at all exactly when it is inside `[0, width)` |
| Input.KeyAction | www/gallery.js:120-126 | codes 37, 39, 27, 38, 40 give `prev`, `next`, `exit`, `first`, `last` (each iff), every other code gives no action |
| Input.KeyCodeRoundTrip | www/gallery.js:120-126 | each action has one key in the table and that key issues it; each key in the table is the key of its action |
| Input.OnKeyDown | www/gallery.js:120-126 | a key outside the table changes nothing; any key keeps an in-range index in range |
| Input.OnKeyDownIsOneNavigate | www/gallery.js:120-126 | the five independent `if`s amount to one `navigate` call on the table's action |
| Input.KeysStillNavigateAfterExit | www/gallery.js:70 | after `exit`, right arrow still advances the index and chooses an `upcoming` item while the page stays in gallery mode |
| Input.OnClick | www/gallery.js:114-116 | non-clicks and clicks outside the viewport change nothing and re-render nothing; the index stays in range |
| Nav.Navigate | www/gallery.js:64-106 | only `exit` changes the mode, always to gallery; `exit` and unrecognised actions keep `n` and re-render nothing; an in-range index stays in range; a re-render always has an item; a moved index is always re-rendered |
| Nav.NavigateIsSaturatingStep | www/gallery.js:76-97 | from a valid index, `prev`/`next` are steps saturating at the ends, `first`/`last` jump to `0`/`len-1`; re-render iff `first`/`last` or the index moved |
| Nav.PrevAtStartIsNoOp | www/gallery.js:76-105 | `prev` at index 0 changes nothing and re-renders nothing |
| Nav.NextAtEndIsNoOp | www/gallery.js:82-105 | `next` at index `len-1` changes nothing and re-renders nothing |
| Nav.FirstAndLastAlwaysRerender | www/gallery.js:88-105 | on a non-empty list `first` sets `n` to 0 and `last` to `len-1`, both re-rendering even if `n` was already there |
| Nav.PrevThenNext | www/gallery.js:76-85 | for `0 < n < len`, `prev` then `next` returns to the same view, both re-rendering |
| Nav.NextThenPrev | www/gallery.js:76-85 | for `0 <= n < len-1`, `next` then `prev` returns to the same view, both re-rendering |
| Nav.Run | www/gallery.js:64-106 | any sequence of actions keeps an in-range index in range; the mode ends in gallery iff it started there or an `exit` occurred |
| Nav.RunAppend | www/gallery.js:64-106 | running two action lists in turn equals running their concatenation |
| Nav.RunOfNoActionIsIdentity | www/gallery.js:66-100 | any number of unrecognised actions leave the view unchanged |
| Page.TilesUpTo | www/gallery.js:152-182 | tiles are exactly the `image` and `video` items: each tile is its item rendered as its type with `data-n` its index, in strictly increasing item order, and no media item is skipped |
| Page.Tiles | www/gallery.js:152-182 | the tiles of the whole item list are exactly its `image` and `video` items, in order, each tagged with its own index, none skipped |
| Page.RenderPage | www/gallery.js:152-191 | the misconfigured notice appears iff there is no `items` key; otherwise the page's tiles are those of its items |
| Page.OpenBrowser | www/gallery.js:44-48 | only image tiles open the browser, in browser mode at the tile's `data-n` |
| Page.OpenedBrowserStaysInRange | www/gallery.js:44-48 | a browser opened from any tile of the page points at an image item, and stays in range under any sequence of actions |

## Left out

- DOM work with jQuery: building and replacing the `<img>`/`<video>` elements, `show`/`hide`, `empty`, and the title and date text. It is presentation only; note that the browser always re-renders as `<img>`, even for a video item.
- The `$.get("index.json")` fetch and the jquery.mosaic layout call: network I/O and a third-party library.
- Registration and removal of event handlers: every opening of the browser adds another keydown handler with its own index; the model follows one browser's index and has no handler list.
- Input.Band: positions and widths are integers and the band is computed exactly as floor(pos*bands/width); the source computes in floating point (`clientX` may be fractional), so rounding at band boundaries is not modelled.
- Page.TilesUpTo: items are modelled as records with a `type` string, and `items` as an array. In the source, an `items` value that is a number, a string or a non-array object has no items with a `type`, so the loop builds no tiles and the layout call still runs; an item that is a number or a string has no `type` and is skipped; a `null` item throws.
- Page.RenderPage: an `items` key whose value is `null` throws at line 153 when reading its `length`, before the layout call and without the misconfigured notice; this is not modelled, and `None` stands only for a missing key.
- Nav.Navigate: a falsy item (`0`, `""`, `false`) in range would move `n` without re-rendering, because the re-render tests whether `upcoming` is truthy; with record items this cannot happen, so "a moved index is always re-rendered" holds only for record items.
- Video tiles carry no click handler; this appears only as `OpenBrowser` returning `None` for them.
