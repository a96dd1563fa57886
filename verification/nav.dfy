/** The picture browser's state machine: the `navigate` closure created by
    `image_browser` in www/gallery.js. The closure owns a current index `n`
    into the gallery's items; the page is either showing the mosaic
    (`Gallery`) or the single-item viewer (`Browser`). */
module Nav {

  /** The navigation keywords `navigate` recognises, plus `NoAction` for
      every other value it can be handed (`null` from a non-click event,
      `undefined` from a click outside the three bands). */
  datatype Action = Prev | Next | First | Last | Exit | NoAction

  datatype Mode = Gallery | Browser

  /** What the user sees: which view is up, and the browser's index. The
      index is an `int`, as in the source: `last` on an empty list sets it
      to -1. */
  datatype View = View(mode: Mode, n: int)

  /** The result of one call of `navigate`: the new view, and whether an
      `upcoming` item was chosen. In browser mode that swaps the viewer's
      image; in the gallery the viewer has been emptied, so the swap matches
      no element and has no visible effect. */
  datatype Step = Step(view: View, rerender: bool)

  predicate InRange(n: int, len: nat) {
    0 <= n < len
  }

  /** One call of `navigate(action)` over a list of `len` items.
      The guards are tried in the source's order; `upcoming` is the item at
      the new index, and for record items it is truthy exactly when that
      index is in range, so a re-render happens only then. `exit` hides the
      viewer and shows the mosaic; every other action leaves the mode as it
      was, which
      matters because the keydown handler outlives the viewer and keeps
      calling `navigate` after `exit`. */
  function Navigate(v: View, len: nat, a: Action): (r: Step)
    // the only mode change is exit, and exit always lands in the gallery
    ensures r.view.mode == (if a == Exit then Gallery else v.mode)
    // exit and unrecognised actions neither move the index nor re-render
    ensures a == Exit || a == NoAction ==> r.view.n == v.n && !r.rerender
    // an index in range stays in range, whatever the action
    ensures InRange(v.n, len) ==> InRange(r.view.n, len)
    // a re-render always has an item to show
    ensures r.rerender ==> InRange(r.view.n, len)
    // an index that moves is always re-rendered (from a valid start)
    ensures InRange(v.n, len) && r.view.n != v.n ==> r.rerender
  {
    if a == Exit then
      Step(View(Gallery, v.n), false)
    else
      var n' :=
        if a == Prev && v.n > 0 then v.n - 1
        else if a == Next && v.n < len - 1 then v.n + 1
        else if a == First then 0
        else if a == Last then len - 1
        else v.n;
      var chosen :=
        (a == Prev && v.n > 0) || (a == Next && v.n < len - 1)
        || a == First || a == Last;
      Step(View(v.mode, n'), chosen && InRange(n', len))
  }

  /** Independent description of where an action leaves an in-range index:
      `prev` and `next` are steps that saturate at the ends of the list,
      `first` and `last` jump to the ends, the rest stay put. */
  function Target(n: int, len: nat, a: Action): int {
    match a
    case Prev => if n == 0 then 0 else n - 1
    case Next => if n == len - 1 then len - 1 else n + 1
    case First => 0
    case Last => len - 1
    case _ => n
  }

  lemma NavigateIsSaturatingStep(v: View, len: nat, a: Action)
    requires InRange(v.n, len)
    ensures Navigate(v, len, a).view.n == Target(v.n, len, a)
    ensures Navigate(v, len, a).rerender
            <==> a == First || a == Last || Target(v.n, len, a) != v.n
  {
  }

  lemma PrevAtStartIsNoOp(v: View, len: nat)
    requires v.n == 0
    ensures Navigate(v, len, Prev) == Step(v, false)
  {
  }

  lemma NextAtEndIsNoOp(v: View, len: nat)
    requires v.n == len - 1
    ensures Navigate(v, len, Next) == Step(v, false)
  {
  }

  /** `first` and `last` re-render even when the index is already there. */
  lemma FirstAndLastAlwaysRerender(v: View, len: nat)
    requires len >= 1
    ensures Navigate(v, len, First) == Step(View(v.mode, 0), true)
    ensures Navigate(v, len, Last) == Step(View(v.mode, len - 1), true)
  {
  }

  lemma PrevThenNext(v: View, len: nat)
    requires 0 < v.n < len
    ensures Navigate(v, len, Prev).rerender
    ensures Navigate(Navigate(v, len, Prev).view, len, Next) == Step(v, true)
  {
  }

  lemma NextThenPrev(v: View, len: nat)
    requires 0 <= v.n < len - 1
    ensures Navigate(v, len, Next).rerender
    ensures Navigate(Navigate(v, len, Next).view, len, Prev) == Step(v, true)
  {
  }

  /** Applying a sequence of actions, one `navigate` call each. */
  function Run(v: View, len: nat, acts: seq<Action>): (r: View)
    ensures InRange(v.n, len) ==> InRange(r.n, len)
    // nothing but exit changes the mode, and nothing leaves the gallery
    ensures r.mode == (if Exit in acts then Gallery else v.mode)
    decreases |acts|
  {
    if acts == [] then v
    else Run(Navigate(v, len, acts[0]).view, len, acts[1..])
  }

  /** Running one list of actions and then another is running their
      concatenation: the state machine keeps no hidden state besides the
      view. */
  lemma {:induction false} RunAppend(v: View, len: nat, xs: seq<Action>, ys: seq<Action>)
    ensures Run(v, len, xs + ys) == Run(Run(v, len, xs), len, ys)
    decreases |xs|
  {
    if xs != [] {
      assert (xs + ys)[0] == xs[0];
      assert (xs + ys)[1..] == xs[1..] + ys;
      RunAppend(Navigate(v, len, xs[0]).view, len, xs[1..], ys);
    } else {
      assert xs + ys == ys;
    }
  }

  /** Any number of unrecognised actions (non-click events, clicks outside
      the bands) leave the view exactly as it was. */
  lemma {:induction false} RunOfNoActionIsIdentity(v: View, len: nat, k: nat)
    ensures Run(v, len, seq(k, _ => NoAction)) == v
    decreases k
  {
    if k > 0 {
      var acts := seq(k, _ => NoAction);
      assert acts[1..] == seq(k - 1, _ => NoAction);
      RunOfNoActionIsIdentity(v, len, k - 1);
    }
  }

}
