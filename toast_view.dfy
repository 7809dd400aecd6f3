/**
 * What `Toast::view` (src/toast.rs) builds for one toast, as a descriptor:
 * the row of four parts, the action slot, the dismiss button's message, the
 * left border and the container style.  Colours and radii are values that
 * the view copies from the style, never computes; the theme is already
 * resolved into a `ToastStyle`.
 */
module ToastView {
  import opened Options
  import opened Levels
  import opened ToastIds

  /** `iced::Color`; `Color::TRANSPARENT` has every component zero. */
  datatype Color = Color(r: real, g: real, b: real, a: real)

  const Transparent: Color := Color(0.0, 0.0, 0.0, 0.0)

  /** The width of the coloured left border, in logical pixels. */
  const LeftBorderWidth: real := 3.0

  datatype Radius = Radius(topLeft: real, topRight: real, bottomRight: real, bottomLeft: real)

  datatype Border = Border(color: Color, width: real, radius: Radius)

  /**
   * What the toast's style function yields for the current theme.
   * `levelToColor` is the style's colour for each level, when it has one.
   */
  datatype ToastStyle<Background, Shadow> = ToastStyle(
    textColor: Option<Color>,
    background: Option<Background>,
    border: Border,
    shadow: Shadow,
    levelToColor: Level -> Option<Color>)

  /** `container::Style` of the outer container: the style's fields, copied. */
  datatype ContainerStyle<Background, Shadow> = ContainerStyle(
    textColor: Option<Color>,
    background: Option<Background>,
    border: Border,
    shadow: Shadow)

  /** A toast: `Message` is the host's message type, `Instant` its clock's. */
  datatype Toast<Message, Instant> = Toast(
    id: Id,
    expiry: Instant,
    level: Option<Level>,
    title: Option<string>,
    message: string,
    action: Option<(string, Message)>,
    onDismiss: Message)

  /** The action slot: a button labelled and emitting as given, or empty space. */
  datatype Slot<Message> = EmptySpace | ActionButton(caption: string, onPress: Message)

  /** The four parts of a toast's row. */
  datatype Part<Message> =
    | Content(title: Option<string>, message: string, textColor: Option<Color>)
    | ActionSlot(slot: Slot<Message>)
    | DismissButton(onPress: Message)
    | RightPadding

  datatype ToastElement<Message, Background, Shadow> = ToastElement(
    row: seq<Part<Message>>,
    leftBorder: Border,
    container: ContainerStyle<Background, Shadow>)

  /**
   * The left border's colour: the style's colour for the toast's level, and
   * transparent when the toast has no level or the style has no colour for it.
   */
  function LeftBorderColor(level: Option<Level>, levelToColor: Level -> Option<Color>): (c: Color)
    ensures level.None? ==> c == Transparent
    ensures level.Some? && levelToColor(level.value).None? ==> c == Transparent
    ensures level.Some? && levelToColor(level.value).Some? ==> c == levelToColor(level.value).value
  {
    match level
    case None => Transparent
    case Some(l) => levelToColor(l).UnwrapOr(Transparent)
  }

  /**
   * A colour other than transparent on the left border always comes from the
   * style's colour for the toast's own level.
   */
  lemma VisibleBorderHasLevelColor(level: Option<Level>, levelToColor: Level -> Option<Color>)
    requires LeftBorderColor(level, levelToColor) != Transparent
    ensures level.Some?
    ensures levelToColor(level.value) == Some(LeftBorderColor(level, levelToColor))
  {
  }

  /**
   * The left border: width 3, square on the right, its top-left corner rounded
   * like the style's top-left and its bottom-left like the style's bottom-right.
   */
  function LeftBorder<B, S>(style: ToastStyle<B, S>, level: Option<Level>): (b: Border)
    ensures b.color == LeftBorderColor(level, style.levelToColor)
    ensures b.width == LeftBorderWidth
    ensures b.radius.topRight == 0.0 && b.radius.bottomRight == 0.0
    ensures b.radius.topLeft == style.border.radius.topLeft
    ensures b.radius.bottomLeft == style.border.radius.bottomRight
  {
    Border(
      LeftBorderColor(level, style.levelToColor),
      LeftBorderWidth,
      Radius(style.border.radius.topLeft, 0.0, 0.0, style.border.radius.bottomRight))
  }

  /** The `action.map(...).unwrap_or_else(...)` that fills the action slot. */
  function ActionSlotOf<M>(action: Option<(string, M)>): (s: Slot<M>)
    ensures s.ActionButton? <==> action.Some?
    ensures action.Some? ==> s.caption == action.value.0 && s.onPress == action.value.1
  {
    match action
    case Some((caption, message)) => ActionButton(caption, message)
    case None => EmptySpace
  }

  /**
   * `Toast::view`: a row of the content (title if any, then message), the
   * action slot, the dismiss button and the right padding, inside the left
   * border, inside a container styled by the toast style.
   */
  function View<M, I, B, S>(t: Toast<M, I>, style: ToastStyle<B, S>): (e: ToastElement<M, B, S>)
    ensures |e.row| == 4
    ensures e.row[0] == Content(t.title, t.message, style.textColor)
    ensures e.row[1].ActionSlot? && (e.row[1].slot.ActionButton? <==> t.action.Some?)
    ensures t.action.Some? ==> e.row[1].slot == ActionButton(t.action.value.0, t.action.value.1)
    ensures e.row[2] == DismissButton(t.onDismiss)
    ensures e.row[3] == RightPadding
    ensures e.leftBorder == LeftBorder(style, t.level)
    ensures e.container == ContainerStyle(style.textColor, style.background, style.border, style.shadow)
  {
    var content := Content(t.title, t.message, style.textColor);
    var row := [content, ActionSlot(ActionSlotOf(t.action)), DismissButton(t.onDismiss), RightPadding];
    ToastElement(
      row,
      LeftBorder(style, t.level),
      ContainerStyle(style.textColor, style.background, style.border, style.shadow))
  }

  /**
   * The view depends on the toast only through what it shows: its identifier
   * and expiry play no part, and two toasts that differ in what is shown
   * (title, message, action, dismiss message) get different views.
   */
  lemma ViewShowsToast<M, I, B, S>(t: Toast<M, I>, u: Toast<M, I>, style: ToastStyle<B, S>)
    ensures View(t, style) == View(u, style) <==>
      t.title == u.title && t.message == u.message && t.action == u.action
      && t.onDismiss == u.onDismiss
      && LeftBorderColor(t.level, style.levelToColor) == LeftBorderColor(u.level, style.levelToColor)
  {
  }
}
