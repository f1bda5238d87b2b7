# Anemo Slime UI backend: resource registry and widget bindings

This project is a Dafny model of the backend core of Anemo Slime UI. The
backend keeps a table of server-side "resources". Each resource is one view
model plus the view (widgets) over it. Clients create a resource, view it by
its view model id and send it actions.

It has five modules:

- `Registry` (`main.rs`) is the table from view model id to a slot that is
  `Idle(resource)` or `Busy`. It holds the `view` handler (create, or look
  up and render) and the `action` handler. `action` swaps the slot to
  `Busy`, acts on the resource, renders it and swaps it back.
  `ResourceRegistry` is a class over a `map<string, Slot>`. A ghost `lent`
  map records which resources an operation has taken out of their slots.
  Its invariant says a slot is `Busy` exactly while its resource is lent out,
  and that every resource in the table holds the example view.
- `UserExample` (`user_example.rs`) is the concrete resource. It has a view
  model with a `u32` counter, two widget kinds (button, text box), and the
  view built from them. `ExampleResourceManager` is a class whose view model
  changes in place when an action runs. It keeps the two widget ids it drew
  as ghost constants, and its predicate `Built()` says its view is the
  example view over them.
- `MvvmCore` (`mvvm_core.rs`) is the generic widget layer, over any view
  model type `VM`. It has a `Button` with an optional click callback and a
  `TextBox` whose content is an `ASString` binding (`Default`,
  `StaticString`, `ViewModel2View`, `View2ViewModel`). `main.rs` declares
  only `mod user_example`, and the example resource uses the `Button` and
  `TextBox` of `user_example.rs`. So `MvvmCore` is modelled on its own, and
  nothing in `Registry` or `UserExample` depends on it.
- `Decimal` is Rust's `u32` and its decimal `to_string`, with the parse
  round trip that shows the rendering is lossless.
- `Results` holds `Option`, `Result<T, String>` and `Result<(), String>`.

Closures become Dafny function values:
- A read binding `Fn(&VM) -> Result<String, String>` is `VM -> Result<string>`.
- A callback `Fn(&mut VM) -> Result<(), String>` is `VM -> (VM, Outcome)`.
  It returns the new view model together with the callback's result.

All source paths below are relative to `backend/anemo-slime-example-1/src/`
inside the repository, and are written out in full in the table.

Behaviour of the code worth noting:
- The example text box is a plain `String` that stays empty
  (`user_example.rs:182-193`), so the counter never appears in the render.
  `Registry.ExampleSession` proves that the render after a click equals the
  render before it.
- `view` with an id does not take the resource out of its slot. It renders
  it in place under the table lock (`main.rs:99-109`).
- The lock guard of `action` is a temporary of the `match` scrutinee
  (`main.rs:133`), so it is held for the whole action. The model is
  therefore sequential, and `Take`, `PerformAction`, `PutBack` happen inside
  one critical section.
- Because of that lock scope no handler ever finds a slot `Busy`: the
  `Busy` arms at `main.rs:101` and `main.rs:135-137` cannot run. The model
  proves it in pieces: the constructor starts with `lent == map[]`, every
  handler leaves `lent` unchanged, `IdleWhenNothingLent` turns an empty
  `lent` into "every slot is idle", and `BusyBranchesUnreachable` concludes
  that neither busy answer is given.
- The callback's `Result` is dropped in both layers (`user_example.rs:55`,
  `mvvm_core.rs:63`). An unknown widget id or an unbound action type is a
  silent no-op, and the answer is still the render with status OK. There is
  no "widget not found" error.
- Were a slot busy, `view` would answer `TooManyRequests` and `action`
  would answer `InternalServerError` with the body `"<id>" busy`.
  `ContendedSession` reaches those arms by calling `Take` directly.

## Model

| member | source | states |
|---|---|---|
| `Decimal.NatToString` | backend/anemo-slime-example-1/src/user_example.rs:175-176 | `u32::to_string`: a non-empty string of decimal digits, no leading zero except for 0 itself |
| `Decimal.ParseNatToString` | backend/anemo-slime-example-1/src/mvvm_core.rs:76-77 | reading the decimal rendering back gives the number, so the width and height render losslessly |
| `Decimal.NatToStringInjective` | backend/anemo-slime-example-1/src/user_example.rs:175-176 | two numbers with the same rendering are equal |
| `Decimal.FiftyRendersAsFifty` | backend/anemo-slime-example-1/src/user_example.rs:140-141 | the constant width and height 50 render as "50" |
| `MvvmCore.DefaultPerformAction` | backend/anemo-slime-example-1/src/mvvm_core.rs:130-137 | the trait's default action handler leaves the view model unchanged |
| `MvvmCore.NewButton` | backend/anemo-slime-example-1/src/mvvm_core.rs:33-41 | a new button is 50 by 50, labelled "Button", with no click callback |
| `MvvmCore.Button.Click` | backend/anemo-slime-example-1/src/mvvm_core.rs:43-49 | the builder installs the callback and keeps id, width, height and label |
| `MvvmCore.Button.PerformAction` | backend/anemo-slime-example-1/src/mvvm_core.rs:53-68 | on "click" with a callback, the new view model is the callback's; on any other action type, or without a callback, it is unchanged; the callback's result is dropped |
| `MvvmCore.Button.GetWidgetId` | backend/anemo-slime-example-1/src/mvvm_core.rs:70-72 | returns the widget's id |
| `MvvmCore.Button.GetWidgetParameters` | backend/anemo-slime-example-1/src/mvvm_core.rs:74-80 | exactly the keys width, height, label, holding the decimal width and height and the label |
| `MvvmCore.NewTextBox` | backend/anemo-slime-example-1/src/mvvm_core.rs:98-103 | a new text box has content `Default` |
| `MvvmCore.TextBox.Content` | backend/anemo-slime-example-1/src/mvvm_core.rs:105-108 | the builder replaces the content binding and keeps the widget id |
| `MvvmCore.TextBox.PerformAction` | backend/anemo-slime-example-1/src/mvvm_core.rs:111-114 | a text box does not override the default, so an action leaves the view model unchanged |
| `MvvmCore.TextBox.GetWidgetId` | backend/anemo-slime-example-1/src/mvvm_core.rs:112-114 | returns the widget's id |
| `MvvmCore.TextBox.GetWidgetParameters` | backend/anemo-slime-example-1/src/mvvm_core.rs:116-126 | exactly the one key "content". `Default` gives "", `StaticString(s)` gives s, and a read binding gives its value on `Ok`. On `Err(e)` it gives "Error : " + e, and the render still succeeds. `View2ViewModel` gives "unknown" |
| `MvvmCore.NewButtonParameters` | backend/anemo-slime-example-1/src/mvvm_core.rs:74-80 | a new button renders exactly {width: "50", height: "50", label: "Button"} |
| `MvvmCore.ButtonIgnoresViewModel` | backend/anemo-slime-example-1/src/mvvm_core.rs:74 | a button's render is the same for every view model |
| `MvvmCore.TextBoxStaticIgnoresViewModel` | backend/anemo-slime-example-1/src/mvvm_core.rs:117-124 | without a read binding, a text box renders the same for every view model |
| `MvvmCore.ClickThenPerform` | backend/anemo-slime-example-1/src/mvvm_core.rs:43-67 | after `click(f)`, a "click" action applies exactly f |
| `MvvmCore.NewButtonIsInert` | backend/anemo-slime-example-1/src/mvvm_core.rs:60-67 | a button without a callback changes nothing on any action |
| `UserExample.NewViewModel` | backend/anemo-slime-example-1/src/user_example.rs:79-84 | a fresh view model has the given id and counter 0 |
| `UserExample.AddValue` | backend/anemo-slime-example-1/src/user_example.rs:86-97 | adds one to the counter modulo 2^32, keeps the view model id, returns `Ok(())` |
| `UserExample.Widget.GetBindingFunction` | backend/anemo-slime-example-1/src/user_example.rs:161-202 | a button returns its callback for "click" only and `None` for every other action type; a text box always returns `None` |
| `UserExample.Widget.GetWidgetId` | backend/anemo-slime-example-1/src/user_example.rs:170-172 | returns the widget's id |
| `UserExample.Widget.GetWidgetParameters` | backend/anemo-slime-example-1/src/user_example.rs:173-210 | a button renders exactly width, height, label; a text box renders exactly {content: its content} |
| `UserExample.NewButton` | backend/anemo-slime-example-1/src/user_example.rs:137-145 | a 50 by 50 button labelled "Button" without callback |
| `UserExample.NewButtonWithClick` | backend/anemo-slime-example-1/src/user_example.rs:147-157 | the same button with the given callback |
| `UserExample.NewTextBox` | backend/anemo-slime-example-1/src/user_example.rs:188-193 | a text box with empty content |
| `UserExample.NewView` | backend/anemo-slime-example-1/src/user_example.rs:118-124 | the keys are exactly the widgets' ids, and each widget is stored under its own id. When ids repeat, the later widget wins |
| `UserExample.UnknownWidgetIsNoop` | backend/anemo-slime-example-1/src/user_example.rs:51-52 | an action on a widget id the view lacks leaves the view model unchanged |
| `UserExample.TextBoxActionIsNoop` | backend/anemo-slime-example-1/src/user_example.rs:197-202 | an action on a text box leaves the view model unchanged |
| `UserExample.ExampleClickAddsOne` | backend/anemo-slime-example-1/src/user_example.rs:12-16 | a click on the example button runs `AddValue`; below `u32::MAX` the counter grows by exactly 1 |
| `UserExample.ExampleOtherActionsAreNoops` | backend/anemo-slime-example-1/src/user_example.rs:51-57 | every other (widget, action type) pair leaves the example view model unchanged |
| `UserExample.ExampleActionKeepsId` | backend/anemo-slime-example-1/src/user_example.rs:39-59 | no action on the example resource changes its view model id |
| `UserExample.ExampleRender` | backend/anemo-slime-example-1/src/user_example.rs:11-37 | the example view renders exactly {text box: {content: ""}, button: {width: "50", height: "50", label: "Button"}} |
| `UserExample.ExampleResourceManager.constructor` | backend/anemo-slime-example-1/src/user_example.rs:11-23 | the new resource has a fresh view model and the text box then button view, and records the two widget ids, so `Built()` holds |
| `UserExample.ExampleResourceManager.GetWidgetsData` | backend/anemo-slime-example-1/src/user_example.rs:31-37 | the keys are exactly the view's widget ids, each mapped to that widget's parameters |
| `UserExample.ExampleResourceManager.PerformAction` | backend/anemo-slime-example-1/src/user_example.rs:39-59 | the new view model is the bound callback's result, or the old one when the widget or binding is missing; the view is constant. For a resource whose view is the example view (`Built()`, which every constructed resource has): the view model id never changes, a click on the button applies `AddValue`, and every other action leaves the view model as it was |
| `UserExample.ExampleResourceManager.GetViewmodelId` | backend/anemo-slime-example-1/src/user_example.rs:27-29 | the id reported is the id of the view model the resource owns |
| `Registry.GenerateBaseResponseBody` | backend/anemo-slime-example-1/src/main.rs:116-125 | the body carries the given id and the resource's current render |
| `Registry.ResourceRegistry.constructor` | backend/anemo-slime-example-1/src/main.rs:45-46 | the server starts with an empty table, nothing lent out |
| `Registry.ResourceRegistry.IdleWhenNothingLent` | backend/anemo-slime-example-1/src/main.rs:175-178 | when no operation holds a resource, no slot is `Busy` |
| `Registry.ResourceRegistry.Take` | backend/anemo-slime-example-1/src/main.rs:139-143 | the slot becomes `Busy` and the taken resource is recorded as lent and is in no idle slot. Nothing else changes |
| `Registry.ResourceRegistry.PutBack` | backend/anemo-slime-example-1/src/main.rs:153-156 | the slot becomes `Idle` with the lent resource again, which is no longer lent; nothing else changes |
| `Registry.ResourceRegistry.Create` | backend/anemo-slime-example-1/src/main.rs:84-95 | exactly one new key, the new view model id, holding an idle fresh resource with a fresh view model. The answer is that resource's initial render, tagged with the id |
| `Registry.ResourceRegistry.Register` | backend/anemo-slime-example-1/src/main.rs:89-94 | the insert: the table gains exactly the new key, holding the resource as `Idle`, and every other slot is unchanged; the resource must be one the constructor built |
| `Registry.ResourceRegistry.ViewExisting` | backend/anemo-slime-example-1/src/main.rs:97-109 | NotFound for an unknown id, TooManyRequests for a busy slot, otherwise the idle resource's render; the table is not changed |
| `Registry.ResourceRegistry.View` | backend/anemo-slime-example-1/src/main.rs:73-114 | any view name other than "example" is NotFound with no change. Without an id it creates as `Create` does; with one it answers as `ViewExisting` does |
| `Registry.ResourceRegistry.Operate` | backend/anemo-slime-example-1/src/main.rs:138-158 | the idle branch of `action`. The `panic!()` is unreachable. Afterwards the slot holds the same resource, idle, acted upon as `ActionEffect` says. The answer is the render after the action, tagged with the id |
| `Registry.ResourceRegistry.StateChangesOnlyAt` | backend/anemo-slime-example-1/src/main.rs:133-158 | if only the targeted resource changed, the observed table differs at that id alone |
| `Registry.ResourceRegistry.Action` | backend/anemo-slime-example-1/src/main.rs:127-161 | NotFound for an unknown id, and the "busy" error for a busy slot; neither changes the table. Otherwise only the targeted slot's state changes, and the key set and every other slot stay as they were. On any valid table, the acted-on resource keeps its view model id, a click on its button adds one to the counter through `AddValue`, and every other action leaves the view model unchanged |
| `Registry.ExampleSession` | backend/anemo-slime-example-1/src/main.rs:84-158 | create, view by id, then click: all three answers carry the same render, and the counter ends at 1 |
| `Registry.ResourceRegistry.ActAndPutBack` | backend/anemo-slime-example-1/src/main.rs:144-156 | with the resource lent out by the first swap: it is acted upon as `ActionEffect` says, rendered, and put back idle in its slot, which is no longer lent |
| `Registry.RequestsWhileBusy` | backend/anemo-slime-example-1/src/main.rs:99-137 | against a `Busy` slot, a view gets TooManyRequests and an action the busy error, and the table is unchanged |
| `Registry.ContendedSession` | backend/anemo-slime-example-1/src/main.rs:99-156 | in a state reached only by calling `Take` directly (never left behind by a handler), a view gets TooManyRequests and an action the busy error, with no change to the table. After put-back the slot is idle and viewable again |
| `Registry.BusyBranchesUnreachable` | backend/anemo-slime-example-1/src/main.rs:99-137 | with nothing lent out, as between any two handler calls, `view` by id never answers TooManyRequests and `action` never answers the busy error; nothing is lent out afterwards either |
| `Registry.BusyMessage` | backend/anemo-slime-example-1/src/main.rs:136 | the busy body is the id between double quotes followed by ` busy`, seven characters longer than the id |

## Left out

- HTTP transport is left out because it is plumbing: the actix-web server, routes, CORS, the static file handlers, JSON (de)serialisation of request and response bodies, and the serde tests. Responses are the `Response` datatype.
- The `Mutex` and the worker threads are left out. In `action` and in `view` with an id the guard is held across the whole `match`; in the create branch of `view` it is taken only for the `insert` at `main.rs:89`, after the render, which touches nothing shared. Sequential methods therefore describe the same behaviour. Exclusivity is carried by the `Busy` marker and the ghost `lent` map.
- `gc_thread` and its channel are left out: the function body is empty and the receiver is never read.
- `Uuid::new_v4` is replaced by id parameters. `Create` requires that the new view model id is not already a key. The widget ids need not differ; when they coincide, the button replaces the text box.
- The `Any` downcast in `add_value` is left out. The callback takes the concrete `ViewModel`, so the downcast always succeeds.
- `Box<dyn ResourceManager>` is left out as a trait object: `ExampleResourceManager` is its only implementation, and a slot holds that class directly.
- Logging calls are left out.
- `UserExample.AddValue` follows release-mode Rust, where `u32` addition wraps at `u32::MAX`. A debug build panics there instead, while the table lock is held. That panic and the mutex poisoning it causes are not modelled.
- `Registry.BusyMessage` writes `{:?}` of the id as the id between double quotes. The escaping `Debug` applies is not modelled; generated ids are hyphenated hexadecimal and need none.
- The action payload map is accepted and ignored, as in the code.
- The frontend TypeScript and the two sketches under `backend/example/` are left out. The frontend is UI plumbing, and the sketches do not compile.
