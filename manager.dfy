/**
 * The toast store and the widget built from it (src/lib.rs).
 *
 * `ToastManager` owns the ordered list of toasts and appends to it in place.
 * `ManagerWidget` is the value derived from that list for one view: the host
 * content followed by one text element per toast, in store order.  Its child
 * trees, its diff targets and its overlay are computed from that value.
 */
module Manager {
  import opened Options
  import opened Levels

  const NanosPerSec: nat := 1_000_000_000
  /** One past the largest `u64`, the type of `Duration`'s seconds. */
  const U64Limit: nat := 0x1_0000_0000_0000_0000

  /** `std::time::Duration`: whole seconds plus a sub-second nanosecond part. */
  datatype Duration = Duration(secs: nat, nanos: nat)

  /**
   * `Duration::new(secs, nanos)`: nanoseconds of a second or more carry into
   * the seconds; the constructor panics when that carry overflows `u64`.
   */
  function NewDuration(secs: nat, nanos: nat): (d: Duration)
    requires secs + nanos / NanosPerSec < U64Limit
    ensures d.nanos < NanosPerSec && d.secs < U64Limit
    ensures d.secs * NanosPerSec + d.nanos == secs * NanosPerSec + nanos
  {
    Duration(secs + nanos / NanosPerSec, nanos % NanosPerSec)
  }

  /** A stored toast: its level and its own copy of the message text. */
  datatype Toast = Toast(level: Level, message: string)

  /** `Toast::new`: a toast holding exactly the given level and message. */
  function NewToast(level: Level, message: string): (t: Toast)
    ensures t.level == level && t.message == message
  {
    Toast(level, message)
  }

  /** The toast store: an ordered list of toasts and an auto-dismiss duration. */
  class ToastManager {
    var toasts: seq<Toast>
    var autoDismissDuration: Duration

    /** `ToastManager::new`: no toasts, and a duration of five seconds. */
    constructor ()
      ensures toasts == []
      ensures autoDismissDuration.secs == 5 && autoDismissDuration.nanos == 0
    {
      toasts := [];
      autoDismissDuration := NewDuration(5, 0);
    }

    /**
     * `push_toast`: append one toast carrying the level and a copy of the
     * message; every earlier toast stays where it was.
     */
    method PushToast(level: Level, message: string)
      modifies this
      ensures toasts == old(toasts) + [NewToast(level, message)]
      ensures autoDismissDuration == old(autoDismissDuration)
    {
      toasts := toasts + [Toast(level, message)];
    }

    /** `ToastManager::view`: the widget for the current store around `content`. */
    function View<E>(content: E): (w: ManagerWidget<E>)
      reads this
      ensures w.content == content
      ensures |w.toasts| == |toasts|
      ensures forall i :: 0 <= i < |toasts| ==> w.toasts[i] == ToastElement(toasts[i])
    {
      NewManagerWidget(toasts, content)
    }
  }

  /**
   * `From<&Toast> for Element`: a column of two text lines, the level's name
   * above the message.
   */
  function ToastElement(t: Toast): (lines: seq<string>)
    ensures |lines| == 2
    ensures lines[0] == LevelName(t.level) && lines[1] == t.message
  {
    [LevelName(t.level), t.message]
  }

  /** The element shows everything a toast holds: equal elements mean equal toasts. */
  lemma ToastElementInjective(a: Toast, b: Toast)
    requires ToastElement(a) == ToastElement(b)
    ensures a == b
  {
  }

  /** A child of the widget: the host's content, or one toast's text column. */
  datatype Element<E> = Host(content: E) | ToastColumn(lines: seq<string>)

  /** `ManagerWidget`: the host content and one element per stored toast. */
  datatype ManagerWidget<E> = ManagerWidget(content: E, toasts: seq<seq<string>>)

  /** The `toasts.iter().map(|toast| toast.into()).collect()` of `ManagerWidget::new`. */
  function ToastElements(toasts: seq<Toast>): (elems: seq<seq<string>>)
    ensures |elems| == |toasts|
    ensures forall i :: 0 <= i < |toasts| ==> elems[i] == ToastElement(toasts[i])
  {
    if toasts == [] then []
    else ToastElements(toasts[..|toasts| - 1]) + [ToastElement(toasts[|toasts| - 1])]
  }

  /** `ManagerWidget::new`: the content, and the toasts' elements in store order. */
  function NewManagerWidget<E>(toasts: seq<Toast>, content: E): (w: ManagerWidget<E>)
    ensures w.content == content
    ensures |w.toasts| == |toasts|
    ensures forall i :: 0 <= i < |toasts| ==> w.toasts[i] == ToastElement(toasts[i])
  {
    ManagerWidget(content, ToastElements(toasts))
  }

  /**
   * The element list `diff` hands to `diff_children`: the content first,
   * then each toast element in order.
   */
  function DiffTargets<E>(w: ManagerWidget<E>): (elems: seq<Element<E>>)
    ensures |elems| == 1 + |w.toasts|
    ensures elems[0] == Host(w.content)
    ensures forall i :: 0 <= i < |w.toasts| ==> elems[i + 1] == ToastColumn(w.toasts[i])
  {
    [Host(w.content)] + ToastColumns(w.toasts)
  }

  /** The widget's toast elements, each seen as a child element. */
  function ToastColumns<E>(toasts: seq<seq<string>>): (elems: seq<Element<E>>)
    ensures |elems| == |toasts|
    ensures forall i :: 0 <= i < |toasts| ==> elems[i] == ToastColumn(toasts[i])
  {
    seq(|toasts|, i requires 0 <= i < |toasts| => ToastColumn(toasts[i]))
  }

  /**
   * `children`: one fresh state tree per child, built by `treeOf` (the
   * framework's `Tree::new`), the content's first and then the toasts'.
   * The trees stand in the same order as the elements `diff` uses.
   */
  function Children<E, T>(w: ManagerWidget<E>, treeOf: Element<E> -> T): (trees: seq<T>)
    ensures |trees| == |DiffTargets(w)|
    ensures forall i :: 0 <= i < |trees| ==> trees[i] == treeOf(DiffTargets(w)[i])
  {
    [treeOf(Host(w.content))]
      + seq(|w.toasts|, i requires 0 <= i < |w.toasts| => treeOf(ToastColumn(w.toasts[i])))
  }

  /**
   * After a push the elements `diff` uses are the earlier ones followed by the
   * new toast's element: pushing never reorders or rebuilds what is shown.
   */
  lemma DiffTargetsAfterPush<E>(toasts: seq<Toast>, level: Level, message: string, content: E)
    ensures DiffTargets(NewManagerWidget(toasts + [NewToast(level, message)], content))
         == DiffTargets(NewManagerWidget(toasts, content)) + [ToastColumn(ToastElement(NewToast(level, message)))]
  {
  }

  /**
   * After `push_toast(level, message)` the view's child trees are the earlier
   * trees followed by one tree for the new toast's element.
   */
  lemma ChildrenAfterPush<E, T>(toasts: seq<Toast>, level: Level, message: string, content: E, treeOf: Element<E> -> T)
    ensures Children(NewManagerWidget(toasts + [NewToast(level, message)], content), treeOf)
         == Children(NewManagerWidget(toasts, content), treeOf)
            + [treeOf(ToastColumn(ToastElement(NewToast(level, message))))]
  {
  }

  /** An overlay the widget hands to the framework's overlay group. */
  datatype OverlayElement<O, S> =
    | ContentOverlay(overlay: O)
    | ToastOverlay(toasts: seq<seq<string>>, states: seq<S>)

  /**
   * `overlay`: child state 0 belongs to the content and asks it for its own
   * overlay; the remaining states go to the toast overlay, which exists only
   * when there are toasts.  The present overlays, content first, form a group;
   * with none present there is no overlay.  `split_at_mut(1)` panics on an
   * empty state list, hence the precondition.
   */
  function WidgetOverlay<E, S, O>(w: ManagerWidget<E>, states: seq<S>, contentOverlay: S -> Option<O>)
    : (group: Option<seq<OverlayElement<O, S>>>)
    requires |states| >= 1
    ensures group.None? <==> contentOverlay(states[0]).None? && w.toasts == []
    ensures group.Some? ==>
      |group.value| == (if contentOverlay(states[0]).Some? then 1 else 0) + (if w.toasts != [] then 1 else 0)
    ensures group.Some? && contentOverlay(states[0]).Some? ==>
      group.value[0] == ContentOverlay(contentOverlay(states[0]).value)
    ensures group.Some? && w.toasts != [] ==>
      group.value[|group.value| - 1] == ToastOverlay(w.toasts, states[1..])
  {
    var contentState, toastStates := states[0], states[1..];
    var content := contentOverlay(contentState);
    var toast: Option<OverlayElement<O, S>> :=
      if w.toasts != [] then Some(ToastOverlay(w.toasts, toastStates)) else None;
    var overlays := (match content case Some(o) => [ContentOverlay(o)] case None => []) + toast.ToSeq();
    if overlays != [] then Some(overlays) else None
  }

  /**
   * With the child states `children` creates, the content's overlay is asked
   * with the content's own tree, and the toast overlay receives exactly one
   * state per toast element, the tree built from that element.
   */
  lemma OverlayStatesMatchToasts<E, T, O>(w: ManagerWidget<E>, treeOf: Element<E> -> T, contentOverlay: T -> Option<O>)
    ensures var group := WidgetOverlay(w, Children(w, treeOf), contentOverlay);
      contentOverlay(treeOf(Host(w.content))).Some? ==>
        group.Some? && group.value[0] == ContentOverlay(contentOverlay(treeOf(Host(w.content))).value)
    ensures var group := WidgetOverlay(w, Children(w, treeOf), contentOverlay);
      w.toasts != [] ==>
        var layer := group.value[|group.value| - 1];
        |layer.states| == |layer.toasts| == |w.toasts|
        && forall i :: 0 <= i < |w.toasts| ==> layer.states[i] == treeOf(ToastColumn(w.toasts[i]))
  {
  }
}
