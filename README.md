# iced-toasts: the toast store, toast identifiers and toast styling

A Dafny model of the logic in the iced-toasts crate, a toast-notification
overlay for the iced GUI library. The crate's sources come from two design
iterations. The model covers each file's own logic:

- **src/lib.rs** (`manager.dfy`, module `Manager`). `ToastManager` is the toast
  store. It owns an ordered list of toasts and starts with a five-second
  auto-dismiss duration. `push_toast` appends one toast in place. The store is a
  class with a `seq<Toast>` field. `ManagerWidget` is the value built from the
  store for one view: the host content, then one element per toast in store
  order. Each toast element is a two-line text column: the level's name, then
  the message. Its child trees (`children`), its diff targets (`diff`) and its
  overlay (`overlay`) are pure functions of that value. The host content, the
  framework's state trees and the content's own overlay are type parameters.
  `Tree::new` and the content's `overlay` call are function parameters.
- **src/toast.rs** (`toast_id.dfy`, module `ToastIds`). `Id` wraps a `usize`.
  It starts at 0 and `next` gives the successor. The derived equality and
  ordering compare the wrapped numbers. Identifiers issued one after another
  from `Id::new()` are `0, 1, 2, …`. They strictly increase and never repeat.
- **src/toast.rs** (`toast_view.dfy`, module `ToastView`). `Toast::view` builds a
  toast's element. The model gives a descriptor of it: a row of four parts
  (content, action slot, dismiss button, right padding), the coloured left
  border and the container style. Colours and radii are copied from the toast
  style and never computed.
- `levels.dfy` (module `Levels`) holds `Level` and its display text. src/lib.rs
  and src/toast.rs each declare this same enum with the same `Display`
  (src/toast.rs:11-23). `options.dfy` holds `Option`.

Integers are unbounded in Dafny. `Duration`'s seconds are bounded by `u64` and
`Id`'s number by `usize` (64 bits on a 64-bit target). Both bounds are written out where the
source would overflow.

Toasts are never removed. `auto_dismiss_duration` (src/lib.rs:61) and
`Toast::expiry` (src/toast.rs:41) are stored but never read, and src/lib.rs:228
is a "TODO: Remove expired toasts". src/main.rs:37 calls a `dismiss_toast` that
src/lib.rs does not define. The model has no expiry and no dismissal.

## Model

| member | source | states |
|---|---|---|
| `Levels.LevelName` | src/lib.rs:21-33 | A level is displayed as its variant's name: "Info", "Success", "Warning" or "Error", each name for exactly its own level |
| `Levels.LevelNameInjective` | src/toast.rs:19-23 | Two levels have the same display text iff they are the same level |
| `Manager.NewDuration` | src/lib.rs:68 | `Duration::new(secs, nanos)` denotes the same total time with the sub-second part below one second; it needs the carried seconds to fit in `u64` |
| `Manager.NewToast` | src/lib.rs:42-45 | `Toast::new` stores exactly the given level and message |
| `Manager.ToastManager.constructor` | src/lib.rs:64-70 | A new store has no toasts and an auto-dismiss duration of 5 s and 0 ns |
| `Manager.ToastManager.PushToast` | src/lib.rs:72-77 | The new list is the old list followed by one toast with the given level and a copy of the message: one longer, earlier toasts unchanged and in order, new toast last; the duration is untouched |
| `Manager.ToastManager.View` | src/lib.rs:79-84 | The view wraps the given content and has one toast element per stored toast, each the element of the toast at the same position |
| `Manager.ToastElement` | src/lib.rs:48-57 | A toast's element is a column of exactly two lines: the level's display name, then the message |
| `Manager.ToastElementInjective` | src/lib.rs:52-54 | Toasts with equal elements are equal: the element shows all of a toast |
| `Manager.ToastElements` | src/lib.rs:95 | Mapping the toasts to elements keeps the count and the order: element i is the element of toast i |
| `Manager.NewManagerWidget` | src/lib.rs:93-100 | The widget holds the content and one element per toast, in store order |
| `Manager.DiffTargets` | src/lib.rs:151-157 | `diff` compares against 1 + (number of toasts) elements: the content at position 0, then toast i's element at position i + 1 |
| `Manager.Children` | src/lib.rs:145-149 | `children` gives one tree per element `diff` uses, built from that element, in the same order, so there are 1 + (number of toasts) trees |
| `Manager.DiffTargetsAfterPush` | src/lib.rs:72-77 | After `push_toast(level, message)` the elements `diff` uses are the earlier ones followed by the new toast's element |
| `Manager.ChildrenAfterPush` | src/lib.rs:145-149 | After `push_toast(level, message)` the view's child trees are the earlier trees followed by one tree for the new toast's element |
| `Manager.WidgetOverlay` | src/lib.rs:213-240 | State 0 is the content's and states 1.. the toasts'. A toast overlay exists iff there are toasts, and it gets the toast states. The result is absent iff the content has no overlay and there are no toasts. A content overlay comes first |
| `Manager.OverlayStatesMatchToasts` | src/lib.rs:220-233 | With the states `children` creates, the content's overlay is the one its own tree gives and comes first, and the toast overlay gets exactly one state per toast element, element i's own tree |
| `ToastIds.NewId` | src/toast.rs:29-31 | `Id::new()` wraps 0, and every id is at or above it |
| `ToastIds.Next` | src/toast.rs:33-35 | `next` wraps the number plus one and is strictly greater than its argument; it needs the number below the `usize` maximum |
| `ToastIds.PartialCmp` | src/toast.rs:25-26 | The derived `partial_cmp` on ids always gives an ordering |
| `ToastIds.CompareIsValueCompare` | src/toast.rs:25-26 | Id equality (`Equal`), `<` (`Less`), `<=` (`LessEq`) and their flips hold exactly when they hold of the wrapped numbers; `partial_cmp` gives `Equal` and `Greater` exactly when the wrapped numbers are equal or greater |
| `ToastIds.Trichotomy` | src/toast.rs:25 | For any two ids exactly one of less, equal and greater holds |
| `ToastIds.Issued` | src/toast.rs:29-35 | The n ids obtained from `Id::new()` and n - 1 successive `next` calls wrap 0, 1, …, n - 1 |
| `ToastIds.IssuedIncreasing` | src/toast.rs:33-35 | An id issued earlier is strictly less than one issued later, and the two differ |
| `ToastIds.IssuedExtends` | src/toast.rs:33-35 | Issuing one more id keeps every earlier id and gives one that was not issued before |
| `ToastView.LeftBorderColor` | src/toast.rs:184-187 | The border colour is transparent when the toast has no level, transparent when the style has no colour for the level, and otherwise the style's colour for the level |
| `ToastView.VisibleBorderHasLevelColor` | src/toast.rs:184-187 | A border colour other than transparent is the style's colour for the toast's own level |
| `ToastView.LeftBorder` | src/toast.rs:181-198 | The left border has the level colour, width 3, zero top-right and bottom-right radii, the style's top-left radius at top-left and the style's bottom-right radius at bottom-left |
| `ToastView.ActionSlotOf` | src/toast.rs:108-141 | The action slot is a button iff the toast has an action; the button shows the action's text and emits the action's message |
| `ToastView.View` | src/toast.rs:56-215 | The row has exactly four parts: content (the title if any, the message, the style's text colour), action slot, a dismiss button that emits `on_dismiss`, right padding. The left border and container style come from the toast style |
| `ToastView.ViewShowsToast` | src/toast.rs:61-179 | Two toasts get the same view iff they agree on title, message, action, dismiss message and border colour; the id and expiry do not matter |

## Left out

- `Manager.WidgetOverlay`: requires at least one child state, since `split_at_mut(1)` (src/lib.rs:220) panics on an empty state list. The framework's tree always holds the content's state after `children`/`diff` (src/lib.rs:145-157). The model does not require one state per toast; `OverlayStatesMatchToasts` states what happens when the states come from `children`.
- Framework calls in src/lib.rs:104-211. `size` and `layout` ask the content widget through iced, which is not part of this model. `draw`, `operate`, `on_event` and `mouse_interaction` reach only child state 0, the content's, and never a toast element. `tag` returns `Tag::stateless()` and `state` returns `State::None` (src/lib.rs:137-143): the widget keeps no state of its own.
- The toast overlay's `layout` and `draw` (src/lib.rs:243-291). They call iced's `flex::resolve` and each element's `draw`. The model keeps only which elements and states the overlay receives.
- `explain(Color::WHITE)` in the toast element (src/lib.rs:55). It is a debugging outline drawn by iced.
- src/toast/left_border.rs. It delegates to the wrapped widget and draws an `f32` quad. It also does not match the one-argument `left_border` call in src/toast.rs, because the two files come from different iterations.
- `super::StyleFn` is not part of this model. The style function is modelled by the `ToastStyle` value it gives for the current theme.
- src/main.rs. It is application wiring through `iced::run`. It calls `ToastManager::new(Message::DismissToast)` and `dismiss_toast`, which do not exist in src/lib.rs, so dismissal is not modelled.
- Expiry, auto-dismissal, hover extension, next wake-up and stacking layout. The code does not implement them (see above).
- Presentation values in src/toast.rs: text sizes, the bold title font, paddings, `max_width(500)`, `max_height(240)`, button palettes and radii, the "×" glyph and its size, the 40-pixel dismiss width, the 4×55 right padding, scrolling and clipping.
- `f32` colour components and radii are `real`s. The view only copies them, so rounding never arises.
- `ToastIds.Next`: release builds wrap `usize::MAX + 1` to 0. The model requires the number to be below the maximum, as debug builds panic there.
