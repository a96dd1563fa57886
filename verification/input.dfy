/** Turning user input into navigation keywords: `get_band` and
    `click_action` for mouse clicks on the viewer, and the keydown handler
    registered by `image_browser` (www/gallery.js). */
module Input {
  import opened Option
  import opened Nav

  /** `get_band(bands, width, pos)`: which of `bands` equal-width vertical
      bands the horizontal position `pos` falls in, computed exactly as
      floor(pos * bands / width). With `width == 0` the source divides by
      zero and gets NaN or an infinity, which no array index matches; that
      is `None` here. */
  function Band(bands: nat, width: nat, pos: int): (r: Option<int>)
    ensures r.None? <==> width == 0
    // r is the floor: band r covers [r*width, (r+1)*width) of pos*bands
    ensures r.Some? ==> r.value * width <= pos * bands < (r.value + 1) * width
  {
    if width == 0 then None else Some(pos * bands / width)
  }

  /** Inside the viewport, the band is one of the `bands` bands. */
  lemma BandInRange(bands: nat, width: nat, pos: int)
    requires bands > 0 && 0 <= pos < width
    ensures Band(bands, width, pos).Some?
    ensures 0 <= Band(bands, width, pos).value < bands
  {
    var b := Band(bands, width, pos).value;
    // pos*bands lies in [0, bands*width), and b*width <= pos*bands < (b+1)*width
    assert 0 <= pos * bands;
    LessTimesPositive(pos, width, bands);
    assert (b + 1) * width > 0;
    FactorPositive(b + 1, width);
    assert (bands - b) * width == bands * width - b * width;
    FactorPositive(bands - b, width);
  }

  lemma LessTimesPositive(x: int, y: int, c: int)
    requires x < y && c > 0
    ensures x * c < y * c
  {
  }

  lemma FactorPositive(x: int, w: int)
    requires w > 0 && x * w > 0
    ensures x > 0
  {
  }

  /** The events the viewer's click handler is given; only the type and the
      horizontal position matter to `click_action`. */
  datatype Event = Click(clientX: int) | OtherEvent

  /** `click_action`: left third `prev`, middle third `exit`, right third
      `next`; any other band, or any event that is not a click, names no
      action. */
  function ClickAction(width: nat, e: Event): (r: Action)
    ensures r in {Prev, Exit, Next, NoAction}
    ensures r == Prev <==> e.Click? && 0 <= 3 * e.clientX < width
    ensures r == Exit <==> e.Click? && width <= 3 * e.clientX < 2 * width
    ensures r == Next <==> e.Click? && 2 * width <= 3 * e.clientX < 3 * width
    // a click names an action exactly when it is inside the viewport
    ensures r != NoAction <==> e.Click? && 0 <= e.clientX < width
  {
    match e
    case OtherEvent => NoAction
    case Click(x) =>
      match Band(3, width, x)
      case Some(0) => Prev
      case Some(1) => Exit
      case Some(2) => Next
      case _ => NoAction
  }

  /** The key codes the keydown handler tests. */
  const LeftArrow := 37
  const RightArrow := 39
  const Escape := 27
  const UpArrow := 38
  const DownArrow := 40

  /** The keydown handler's table: arrows left/right step, escape exits,
      arrows up/down jump to the ends, any other key does nothing. */
  function KeyAction(code: int): (r: Action)
    ensures r == Prev <==> code == LeftArrow
    ensures r == Next <==> code == RightArrow
    ensures r == Exit <==> code == Escape
    ensures r == First <==> code == UpArrow
    ensures r == Last <==> code == DownArrow
    ensures r == NoAction <==> code !in {LeftArrow, RightArrow, Escape, UpArrow, DownArrow}
  {
    if code == LeftArrow then Prev
    else if code == RightArrow then Next
    else if code == Escape then Exit
    else if code == UpArrow then First
    else if code == DownArrow then Last
    else NoAction
  }

  /** The key that issues each action, for the round trip below. */
  function KeyCode(a: Action): (code: Option<int>)
    ensures code.None? <==> a == NoAction
  {
    match a
    case Prev => Some(LeftArrow)
    case Next => Some(RightArrow)
    case Exit => Some(Escape)
    case First => Some(UpArrow)
    case Last => Some(DownArrow)
    case NoAction => None
  }

  /** Every action has exactly one key, and that key issues it. */
  lemma KeyCodeRoundTrip(a: Action, code: int)
    ensures a != NoAction ==> KeyAction(KeyCode(a).value) == a
    ensures KeyAction(code) != NoAction ==> KeyCode(KeyAction(code)) == Some(code)
  {
  }

  /** The keydown handler as written: five independent `if`s, each calling
      `navigate` on its own code; no call at all for other codes. */
  function OnKeyDown(v: View, len: nat, code: int): (r: Step)
    // a key outside the table leaves everything as it was
    ensures code !in {LeftArrow, RightArrow, Escape, UpArrow, DownArrow} ==> r == Step(v, false)
    ensures InRange(v.n, len) ==> InRange(r.view.n, len)
  {
    var s0 := Step(v, false);
    var s1 := if code == LeftArrow then Navigate(s0.view, len, Prev) else s0;
    var s2 := if code == RightArrow then Navigate(s1.view, len, Next) else s1;
    var s3 := if code == Escape then Navigate(s2.view, len, Exit) else s2;
    var s4 := if code == UpArrow then Navigate(s3.view, len, First) else s3;
    if code == DownArrow then Navigate(s4.view, len, Last) else s4
  }

  /** Since the codes are distinct, at most one `if` fires, and not calling
      `navigate` is the same as calling it with no action: the handler is
      one `navigate` call on the table's action. */
  lemma OnKeyDownIsOneNavigate(v: View, len: nat, code: int)
    ensures OnKeyDown(v, len, code) == Navigate(v, len, KeyAction(code))
  {
  }

  /** `exit` unbinds `keypress` on the selector 'document' while the handler
      was bound to `keydown` on the document itself, so the key handler
      survives `exit`: in the gallery an arrow key still moves the hidden
      browser's index, while the view stays on the mosaic. The step even
      chooses an `upcoming` item, but the emptied viewer has no image to
      replace, so nothing visible changes. */
  lemma KeysStillNavigateAfterExit(v: View, len: nat)
    requires 0 <= v.n < len - 1
    ensures var s := OnKeyDown(Navigate(v, len, Exit).view, len, RightArrow);
            s.view == View(Gallery, v.n + 1) && s.rerender
  {
  }

  /** The viewer's click handler: `navigate(click_action(browser, evt))`.
      Unlike the key handler, `exit` unbinds it, so it only ever runs on a
      view in browser mode. */
  function OnClick(v: View, len: nat, width: nat, e: Event): (r: Step)
    ensures !e.Click? ==> r == Step(v, false)
    ensures e.Click? && (e.clientX < 0 || e.clientX >= width) ==> r == Step(v, false)
    ensures InRange(v.n, len) ==> InRange(r.view.n, len)
  {
    Navigate(v, len, ClickAction(width, e))
  }

}
