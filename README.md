# Reactive signals and sprite animation, modelled in Dafny

This project models the two parts of the game-development demos that have
behaviour worth stating.

**The reactive mini-library of `e-game/lib.js`** (`reactive.dfy`, module `Reactive`):
- A *signal* is a value cell with a list of subscribers.
- Reading a signal while the module-level `reactiveFn` slot holds a function
  appends that function to the list. There is no check for duplicates.
- Writing a signal stores the value and then calls every subscriber in list order.
- The element builder `element(tag)(text)` dispatches on its content:
  - a string becomes a text node;
  - an element built before is appended as it is;
  - a signal becomes a text node plus a *binding*, a closure that copies the
    signal's value into that node.
- `attribute` wraps a builder so that it also sets attributes. `h1` and `div`
  are that wrapper applied to the builders for `"h1"` and `"div"`.

Design of this part:
- The `reactiveFn` slot becomes a `Context` object passed to every operation.
- The proxy's get and set traps become `Signal.Read` and `Signal.Write`.
- A binding is a `Binding(target, source)` value: the two things the closure
  captures.
- The ghost field `Context.calls` records every binding invocation in order.
  The contracts use it to say how often, and in what order, subscribers run.
- Content is a tagged variant: `Text`, `Node`, `Reactive`, or `Other`.
  `Other` is a value that is not a string, a DOM node or a signal
  (`undefined`, a number, ...). On those the source throws a `TypeError`,
  which the model returns as `None`.
- The two-state predicate `Reactive.Built` states the builder's outcome once.
  Both `BuildElement` and `Attribute` promise it.

The view of `e-game/main.js` (`app.dfy`, module `CounterApp`) is a client of
this model: a `div` of class `"App"` holding an `h1` bound to a counter signal.

**The sprite animation of `c-game/game.js`** (`sprites.dfy`, module `Sprites`):
- The state is two integers: `sprite` (cycled by the "k" key) and `frame`
  (advanced by each render tick).
- The frames come from a constant table of sprite-sheet cells.
- The class `Animation` holds the state. Its object invariant says that the
  lookup `sprites[sprite][frame]` made by the next render tick is in range.
  The constructor establishes the invariant, and the key handler and the
  render tick both preserve it.

Preconditions that reflect reachable states rather than caller obligations:
- `Signal.Write` and `Binding.Run` require the slot to be empty. `reactiveFn`
  is private to `e-game/lib.js`, and it is non-null only between lines 17 and
  22 of `element`, where no write happens. So every write and every binding
  call in the program runs with the slot empty.
- `Signal.Write` also requires `Signal.Valid()`: every subscriber is a binding
  of that signal. This holds because the only subscriptions made are by
  `element` for its own signal.
- `Animation.KeyPress` and `Animation.Render` require `Animation.Valid()`.
  This holds from the initial state `sprite = 0, frame = 0` onwards.

Behaviour of the code worth noting:
- Reads do not de-duplicate subscribers. See `Reactive.ReadTwiceWhileActive`.
- The slot is cleared unconditionally after installing a binding. It is not
  restored to its previous value. See `Reactive.BuildElement`.
- The binding is not called at install. The builder reads the signal once with
  the slot set. See `ctx.calls == old(ctx.calls)` in `Reactive.BuildElement`.
- An element builder uses only its first argument. `attribute` forwards all
  its arguments, but `element(tag)` takes only `text`. So
  `div(attrs)(a, b)` has one child, not two. See `Reactive.Attribute`.
- Unsupported content fails with JavaScript's own `TypeError`. There is no
  dedicated error.

## Model

| member | source | states |
|---|---|---|
| `Reactive.TextNode.constructor` | e-game/lib.js:13 | a new text node holds the given string |
| `Reactive.Context.constructor` | e-game/lib.js:3 | the `reactiveFn` slot starts empty and no binding has run |
| `Reactive.Signal.constructor` | e-game/lib.js:49-52 | a new signal holds exactly its initial value and has no subscribers; it is valid and in sync |
| `Reactive.Signal.Read` | e-game/lib.js:54-58 | returns the stored value; appends the active function if and only if the slot is set, otherwise the list is unchanged; the value never changes; validity is kept when the active function is a binding of this signal |
| `Reactive.Signal.Write` | e-game/lib.js:60-63 | the value becomes the new value and the list is unchanged; the invocation log grows by exactly the subscriber list, so each subscriber runs once per listing, in list order, even when the value is unchanged; afterwards every bound node shows the new value |
| `Reactive.Binding.Run` | e-game/lib.js:17-20 | running a binding with the slot empty sets its node's text to the signal's current value, subscribes nothing, and is logged once |
| `Reactive.OccurrencesAppend` | e-game/lib.js:62 | the number of times a binding occurs in two concatenated lists (such as the invocation log before and during a write) is the sum of its counts in each |
| `Reactive.OccurrencesPositive` | e-game/lib.js:62 | a binding is counted at least once in a list exactly when it is in the list |
| `Reactive.ReadTwiceWhileActive` | e-game/lib.js:54-58 | no de-duplication: two reads while `b` is active both return the value and list `b` twice more, whatever was listed before |
| `Reactive.WriteIsolation` | e-game/lib.js:49-63 | for any two distinct signals, writing one calls no binding that is listed only by the other, and leaves the other's value and list unchanged; the other's nodes stay in sync when the two signals bind different nodes |
| `Reactive.Element.constructor` | e-game/lib.js:10 | a new element has the given tag, no attributes and no children |
| `Reactive.BuildElement` | e-game/lib.js:9-28 | the outcome `Built` with no attributes: `None` exactly for unsupported content; otherwise a fresh element of the tag with one child. That child is a fresh text node with the string, the given element, or, for a signal, a fresh text node showing its value. In the signal case, the list grows by the function active on entry (if any) and then by exactly one new binding of that node; no other signal changes; the slot is empty afterwards. For other content the slot is untouched. No binding runs. Validity and sync are kept when the slot was empty |
| `Reactive.SetAttributes` | e-game/lib.js:39-41 | every key/value pair of the mapping is set on the element, overriding earlier values; other attributes and the children are untouched |
| `Reactive.Attribute` | e-game/lib.js:33-47 | builds from the first argument only (missing means `undefined`, which fails); the outcome is the builder's own `Built` outcome; with no mapping the element has no attributes, exactly as the builder returned it, and with a mapping its attributes are that mapping |
| `CounterApp.App` | e-game/main.js:5-7 | `div({class:"App"})(h1()(counter))` is a fresh `div` of class `App` whose only child is a fresh `h1` with no attributes; the `h1`'s only child is a fresh text node showing the counter, subscribed once to it |
| `CounterApp.MountAndOneFrame` | e-game/main.js:3-19 | after building the view on an empty counter and one frame that writes `time`, the heading's text node shows `time` |
| `Sprites.Frames` | c-game/game.js:220-253 | the table has 3 sprites of 7, 11 and 8 frames; every cell `(i, j)` has `0 <= i < 7` and `0 <= j < 4` |
| `Sprites.Lookup` | c-game/game.js:256-259 | `sprites[sprite][frame]` succeeds if and only if both indices are in range; the sheet cell `(i % 7, j % 4)` derived from a found cell is that cell |
| `Sprites.Advance` | c-game/game.js:265 | advancing an in-range frame gives an in-range frame of the same sprite |
| `Sprites.Ticks` | c-game/game.js:255-266 | any number of render ticks without a key press keeps the frame in range |
| `Sprites.TicksForward` | c-game/game.js:265 | within one round, `k` ticks move the frame `k` steps forward, wrapping past the last frame to the first |
| `Sprites.TicksPeriod` | c-game/game.js:265 | with no key press, the frame returns to its start after exactly as many ticks as the sprite has frames, and never after fewer |
| `Sprites.Animation.constructor` | c-game/game.js:211-212 | initially `sprite = 0` and `frame = 0`, and the lookup invariant holds |
| `Sprites.Animation.KeyPress` | c-game/game.js:213-218 | "k" sets `sprite := (sprite + 1) % 3` and `frame := 0`; any other key changes neither; the lookup invariant is kept |
| `Sprites.Animation.Render` | c-game/game.js:255-266 | the lookup succeeds and yields the offset cell; `sprite` is unchanged and `frame` advances to `(frame + 1) % |sprites[sprite]|`; the lookup invariant is kept |

## Left out

- Shader compiling and linking, buffers, uniforms, textures, viewport and
  canvas sizing, and `drawArrays`: these are calls into the WebGL API.
- The texture offsets `(i % 7) * (1 / 7)` and `(j % 4) * (1 / 4)` are floating
  point. Only the integer cell `(i % 7, j % 4)` is modelled.
- The spaceship motion of `a-game/script.js` is floating point and
  trigonometry.
- `setInterval`, `requestAnimationFrame`, `addEventListener` and image `load`
  callbacks are scheduling. The handlers are modelled as plain methods that
  the environment calls.
- `console.log` output is I/O. The signal read it performs is kept.
- The game loop's `(time / 1000).toFixed(2)` is float formatting.
  `CounterApp.MountAndOneFrame` takes the formatted string.
- Appending the view to `document.body` (`add(document.body, App())`) is a
  DOM call outside the library. `CounterApp.MountAndOneFrame` builds the view
  without attaching it anywhere.
- The JavaScript `Proxy`/`Reflect` machinery is modelled only for the accesses
  the library makes: reads of `data`, the `hasOwnProperty` probe, and writes
  of `data`.
- Signal values are strings. Assigning a value to `nodeValue` converts it to a
  string, and the only signal in the program holds strings.
- `Signal.Write` does not model writes made while the slot is set. The
  subscriber array would then grow during the `map` over it. No such write can
  happen in this program.
- DOM nodes that are not elements (a text node, a comment, a document
  fragment) are appended by the source when given as content, because their
  `data` is inherited, not an own property. The model has no such content.
- An object with an own `data` property that is not a signal would be treated
  like one by the source. It is not modelled: content is a tagged variant.
- `attribute(...)(null)` throws in `Object.entries`. Only "no mapping"
  (`undefined`) and a mapping are modelled.
- DOM details are outside the library:
  - moving an element that `appendChild` takes from a previous parent;
  - lower-casing and validating tag and attribute names;
  - the insertion order of attributes (they are a map).
- `sprite` and `frame` are JavaScript numbers. They stay small non-negative
  integers, so Dafny's integer `%` matches JavaScript's `%` on them.
