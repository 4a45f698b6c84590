# Light registry of the light controller, in Dafny

This project models the light registry of a browser-based 3D lighting editor.
The registry is a zustand store. It holds an ordered list of light records and
the id of the selected light. Its actions are `addLight`, `removeLight`,
`selectLight`, `duplicateLight`, `updateLightTransform` and
`updateLightProperties`. Three pure helpers sit underneath them:
`createDefaultLight`, `validateArray` and `normalizeRotation`. Two UI
callbacks also write to the store. The light list's `handleDrop` reorders
lights by drag and drop. The transform panel's `handleChange` edits one
entry of a position, rotation or scale vector.

The files:

- `js_values.dfy` (module `JsValues`): the JavaScript values the store sees.
  - An `Option` stands for a key that may be absent.
  - `Num` is a number that may be `NaN` or infinite.
  - `JsArray` is a value that may or may not be an array.
  - Also here: `Math.PI`, `Math.trunc` and the truncating remainder `%`, with
    their bounds proved.
- `light_records.dfy` (module `LightRecords`): the light record and every
  pure helper the store actions use.
  - The default record, vector validation and rotation wrapping.
  - The record that replaces a light in a transform update and in a property
    update.
  - The duplicate copy.
  - `find`, `findIndex` and `filter` by id.
  - The selection toggle.
- `light_store.dfy` (module `LightStore`): the store as a class.
  - It has the fields `lights` and `selectedLight`, with one method per
    action.
  - Each method states the new state in terms of the record functions.
  - Each action method keeps the invariant `Valid()`. It says that ids are
    unique and every record is well formed: vectors of length 3, scale at
    least 0.1, every clamp of a property update respected, all four ray
    categories present, and a shape exactly when the light is an area
    light.
  - `SetLights` is the raw `setState({ lights })`. It neither needs nor
    keeps `Valid()`. Its only caller, `HandleDrop`, proves the list it
    passes valid.
- `ui_reorder.dfy` (module `UI`): `handleDrop`.
  - It copies the list into an array.
  - `SpliceOut` and `SpliceIn` are the two `splice` calls, written as loops
    over the array.
  - The result is written back with `setState`.
- `transform_panel.dfy` (module `TransformPanel`): `handleChange`, and the
  number each input displays.

Modelling choices:

- JavaScript numbers are modelled as mathematical reals. Where a transform
  update or a panel input is read, `NaN` and the two infinities are kept as
  separate cases. The numeric keys of a property update are finite reals
  (see "Left out").
- `Math.PI` is the decimal 3.141592653589793.
- A uuid from `uuidv4()` is a parameter (`freshId`) that the caller promises
  is not in use.
- The string `parseFloat` reads in the panel is given as the `Num` it parses
  to.

Where the model follows the code rather than the behaviour one might expect
from the action names:

- `updateLightTransform` rebuilds all three vectors. A vector the update
  does not carry is reset to its default (`[0,0,0]`, `[0,0,0]` or
  `[1,1,1]`); it is not kept. The panel sends only the edited vector, so
  every panel edit resets the other two vectors
  (`TransformPanel.AxisEditResetsOthers`).
- `normalizeRotation` uses JavaScript's truncating `%`. An angle at or
  above -pi lands in [-pi, pi). An angle below -pi lands in (-3 pi, -pi]; for
  example, -2 pi stays -2 pi. The record invariant therefore allows
  rotation entries in (-3 pi, pi).
- `rayVisibility` in a property update is merged over the default
  visibility, not over the record's current one. Categories the update
  leaves out become visible again.
- `removeLight` drops every record with the id, not only the first.
- Dropping a light on one further down the list puts it after that
  target. Dropping it on one further up puts it before the target.
- Selecting the same id twice clears the selection only when that id was
  not selected to begin with.

## Model

| member | source | states |
|---|---|---|
| JsValues.TruncRem | src/stores/lightStore.js:45 | `r % m` with truncation towards zero differs from `r` by whole multiples of `m` |
| JsValues.Max | src/stores/lightStore.js:37 | `Math.max`: at least both arguments and equal to one of them |
| JsValues.Min | src/stores/lightStore.js:123-126 | `Math.min`: at most both arguments and equal to one of them |
| JsValues.TruncRemBounds | src/stores/lightStore.js:45 | `%` with a positive divisor keeps the dividend's sign, stays below the divisor in size, and differs from the dividend by whole multiples of it |
| JsValues.TruncRemSmall | src/stores/lightStore.js:45 | `%` leaves a dividend already strictly between minus and plus the divisor unchanged |
| LightRecords.CreateDefaultLight | src/stores/lightStore.js:11-29 | a default record has the given id and type and an empty name. Position is [0,5,0], rotation [0,0,0] and scale [1,1,1]. Power is 1000, color "#ffffff" and radius 5. softFalloff and shadow are true, shadowBias is -0.001 and shadowRadius 1. Angle is pi/3 and penumbra 0.5. It is well formed. It has a shape iff it is an area light, and that shape is "rectangle". Its ray visibility has exactly the four categories, all visible |
| LightRecords.ValidateEntry | src/stores/lightStore.js:35-39 | a non-finite entry gives the default. Without a minimum a finite entry is kept. With a minimum the result is at least both the minimum and the entry, and equals one of them |
| LightRecords.ValidateArray | src/stores/lightStore.js:31-40 | the result always has three entries. A non-array or an array of the wrong length gives three defaults. A non-finite entry gives the default. A finite entry is kept, or raised to the minimum when below it, so with a minimum no larger than the default every entry is at least the minimum |
| LightRecords.ValidateArrayIdempotent | src/stores/lightStore.js:31-40 | validating an already validated vector gives the same vector |
| LightRecords.NormalizeAngle | src/stores/lightStore.js:43-46 | a non-finite angle gives 0. A finite angle at or above -pi gives a result in [-pi, pi). Below -pi the result is at most -pi. Every result lies in (-3 pi, pi) and differs from the input by whole turns |
| LightRecords.NormalizeAngleIdentity | src/stores/lightStore.js:42-47 | wrapping leaves every angle in (-3 pi, pi) unchanged, in particular every angle in [-pi, pi) |
| LightRecords.NormalizeAngleIdempotent | src/stores/lightStore.js:42-47 | wrapping a wrapped angle changes nothing |
| LightRecords.NormalizeAngleBelowRange | src/stores/lightStore.js:45 | -2 pi is not brought into [-pi, pi): it is returned as -2 pi |
| LightRecords.NormalizeRotation | src/stores/lightStore.js:42-47 | the result has the input's length and wraps each entry on its own |
| LightRecords.WithTransform | src/stores/lightStore.js:93-101 | only position, rotation and scale change. All three get length 3, scale entries at least 0.1 and rotation entries in the wrapped range. Position and scale are `validateArray` of the update's key with defaults 0 and 1 (scale floored at 0.1). When the rotation key is a three-entry array, each rotation entry is that entry wrapped by `normalizeRotation`. A vector the update does not carry as a three-entry array is reset to its default. A well-formed record stays well formed |
| LightRecords.ZeroRotationRoundTrip | src/stores/lightStore.js:98-100 | sending rotation [0,0,0] stores [0,0,0] |
| LightRecords.RotationRoundTrip | src/stores/lightStore.js:99 | sending a well-formed record's rotation back stores it unchanged |
| LightRecords.TransformRoundTrip | src/stores/lightStore.js:96-101 | sending back all three stored vectors of a well-formed record leaves the record unchanged |
| LightRecords.MergeRays | src/stores/lightStore.js:143-148 | the merged keys are the four categories plus the given keys. Given values win, and categories not given are visible |
| LightRecords.Clamp | src/stores/lightStore.js:123-126 | the result lies in [lo, hi]. It equals the input inside the interval and the nearer bound outside it |
| LightRecords.Patched | src/stores/lightStore.js:108-154 | id, type and transform never change. name is taken when present. power is raised to 0 and radius to 0.1. angle is clamped to [0, pi] and penumbra to [0, 1]. color is taken when truthy. The booleans, shadowBias and shadowRadius are taken when present. rayVisibility is merged over the defaults when given. shape is taken only when it is truthy and the light is an area light. Every key the update does not carry keeps its value |
| LightRecords.PatchedWellFormed | src/stores/lightStore.js:116-127 | a property update keeps a well-formed record well formed: the clamps keep every bound, and a shape is only ever written to an area light |
| LightRecords.EmptyPatchKeepsLight | src/stores/lightStore.js:111-153 | an update carrying no key leaves the record as it was |
| LightRecords.PatchedIdempotent | src/stores/lightStore.js:111-153 | applying the same property update twice is the same as applying it once |
| LightRecords.Duplicate | src/stores/lightStore.js:74-83 | the copy has the fresh id. Its name is the original's name, or its type when the name is empty, followed by " Copy". Its position is moved by +1 on x. Every other field equals the original's. A well-formed original gives a well-formed copy |
| LightRecords.FindIndex | src/components/UI.jsx:22-23 | the result is -1 exactly when no record has the id. Otherwise it is the index of the first record with the id |
| LightRecords.Find | src/stores/lightStore.js:71 | nothing exactly when no record has the id. Otherwise the record at the first index with the id |
| LightRecords.FindIndexOnly | src/components/UI.jsx:22-23 | with unique ids, the index found is the only index with that id |
| LightRecords.Without | src/stores/lightStore.js:62 | a record is kept exactly when it was in the list and has another id. The list never grows. A missing id changes nothing |
| LightRecords.WithoutConcat | src/stores/lightStore.js:62 | filtering distributes over concatenation, so the kept records stay in their order |
| LightRecords.WithoutUnique | src/stores/lightStore.js:62 | filtering keeps ids unique |
| LightRecords.WithoutWellFormed | src/stores/lightStore.js:62 | filtering keeps every record well formed |
| LightRecords.WithoutRemovesOne | src/stores/lightStore.js:62 | with unique ids, removing a listed id removes exactly one record |
| LightRecords.AppendFresh | src/stores/lightStore.js:56 | appending a record with an unused id keeps ids unique |
| LightRecords.WithoutAppended | src/stores/lightStore.js:53-64 | removing a light right after adding it gives back the earlier list |
| LightRecords.Toggled | src/stores/lightStore.js:67 | the selection becomes empty exactly when the id was already selected or is null. Otherwise it becomes the id |
| LightRecords.ToggleTwice | src/stores/lightStore.js:66-68 | toggling the same id twice gives that id if it was selected, and no selection otherwise |
| LightStore.Store.constructor | src/stores/lightStore.js:50-51 | the store starts with no lights and no selection |
| LightStore.Store.AddLight | src/stores/lightStore.js:53-59 | exactly one default record with the fresh id is appended, and it is selected. The store stays valid and its selection points at a listed light |
| LightStore.Store.RemoveLight | src/stores/lightStore.js:61-64 | the list is the filtered list. The selection is cleared exactly when it was this id. A selection that pointed at a listed light still does |
| LightStore.Store.SelectLight | src/stores/lightStore.js:66-68 | the list is unchanged, so `Valid()` is kept, and the selection is toggled. Selecting a listed id or null leaves a selection that points at a listed light |
| LightStore.Store.DuplicateLight | src/stores/lightStore.js:70-89 | an unknown id changes nothing. Otherwise the copy of the first record with the id is appended and selected, and the store stays valid |
| LightStore.Store.UpdateLightTransform | src/stores/lightStore.js:91-104 | the length and the selection are unchanged. Each record with the id is replaced by its transform-updated record and every other record is unchanged. The store stays valid |
| LightStore.Store.UpdateLightProperties | src/stores/lightStore.js:106-156 | the length and the selection are unchanged. Each record with the id is replaced by its patched record and every other record is unchanged. The store stays valid |
| LightStore.Store.SetLights | src/components/UI.jsx:29 | `setState({ lights })` replaces the list and keeps the selection. It does not check the list |
| UI.Moved | src/components/UI.jsx:26-28 | taking the entry at `from` out and inserting it at `to` keeps the length. Its lemmas below state where each entry goes |
| UI.MovedAt | src/components/UI.jsx:26-28 | each entry of the reordered list is the original entry at a computed source index |
| UI.MovedPermutation | src/components/UI.jsx:26-28 | the reordered list holds the same records, each as often as before |
| UI.MovedLandsAtTarget | src/components/UI.jsx:27-28 | the dragged record lands at the drop target's former index |
| UI.MovedNextToTarget | src/components/UI.jsx:27-28 | dragged down, the record lands right after its target. Dragged up, it lands right before its target |
| UI.MovedKeepsOthersInOrder | src/components/UI.jsx:27-28 | taking the moved record out again gives the original list without it, so all other records keep their order |
| UI.MovedValid | src/components/UI.jsx:26-29 | reordering keeps ids unique and records well formed |
| UI.Reordered | src/components/UI.jsx:17-31 | the length is unchanged. Equal ids, or an id not in the list, leave the list unchanged |
| UI.ReorderedMoves | src/components/UI.jsx:20-28 | a drop of one listed record on another is a permutation, and the dragged record sits at the target's former index |
| UI.SpliceOut | src/components/UI.jsx:27 | returns the entry at the index. The first length-1 slots then hold the list without that entry |
| UI.SpliceIn | src/components/UI.jsx:28 | the first len+1 slots hold the list with the entry inserted at the index |
| UI.HandleDrop | src/components/UI.jsx:17-31 | the store's list becomes the reordered list, the selection is untouched, and the store stays valid |
| TransformPanel.OrZero | src/components/TransformPanel.jsx:10 | a parsed NaN becomes 0. Any other number is kept. The result is never NaN |
| TransformPanel.OnlyKey | src/components/TransformPanel.jsx:11 | the update carries exactly the one edited key |
| TransformPanel.AxisEdit | src/components/TransformPanel.jsx:9-12 | only the edited key is sent. Its vector has the stored vector's length, holds the parsed input at the edited axis, and equals the stored vector everywhere else |
| TransformPanel.BuildTransform | src/components/TransformPanel.jsx:10-12 | copying the stored vector into a new array and assigning one entry builds exactly that update |
| TransformPanel.SelectedLight | src/components/TransformPanel.jsx:5-7 | the light found has the selected id and is in the list. There is none exactly when nothing is selected or the id is not listed |
| TransformPanel.HandleChange | src/components/TransformPanel.jsx:4-14 | with no selected listed light nothing changes. Otherwise only the selected record is replaced, by its transform update with the one-axis edit. The selection is unchanged and the store stays valid |
| TransformPanel.AxisEditResetsOthers | src/components/TransformPanel.jsx:11 | the two vectors the edit does not carry are reset to their defaults |
| TransformPanel.AxisEditKeepsOtherAxes | src/components/TransformPanel.jsx:11-12 | on a well-formed record, the other entries of the edited vector are stored as they were |
| TransformPanel.AxisEditStoresInput | src/components/TransformPanel.jsx:10-13 | a finite input is stored as typed for position. For rotation it is wrapped, equal up to whole turns, and unchanged inside the range. For scale it is raised to 0.1. An infinite input stores the default |
| TransformPanel.AxisEditUnchanged | src/components/TransformPanel.jsx:9-14 | sending back the value an input shows leaves the edited vector of a well-formed record unchanged |
| TransformPanel.DisplayValue | src/components/TransformPanel.jsx:39 | a nonzero stored entry is shown as stored. Position and rotation entries are always shown as stored. A stored 0 or a missing entry shows 1 for scale and 0 otherwise, so a scale input never shows 0. On a well-formed record every input shows its stored entry |

## Left out

- I/O and rendering: the React components' markup, the drag-start and drag-over handlers, the zustand subscription mechanism and re-rendering are not modelled. The drag data is the `sourceId` parameter of `HandleDrop`.
- `uuidv4()` is not modelled; the fresh id is a parameter the caller promises is unused.
- Floating point: numbers are exact reals. `Math.PI` is its 16-digit decimal, and rounding of `+`, `/` and `%` is not modelled, so for example `x + 1` in `Duplicate` is exact.
- `parseFloat` on the input string is not modelled: `HandleChange` receives the number the string parses to.
- LightStore.Store.UpdateLightProperties: the numeric keys are modelled as finite reals (`Option<real>` per key). A key that is a number but `NaN`, `Infinity` or `-Infinity` is not modelled. The source stores it after `Math.max`/`Math.min`, or unchanged for `shadowBias` and `shadowRadius`, e.g. `power: Infinity` from an input that parses to `1e999`. So the record bounds of `WellFormed` are stated for finite values only.
- Record fields hold the types the editor writes: `name`, `color` and `shape` are strings, `type` is one of the four light types, and a non-string `name` or `shape` sent through `updateLightProperties` is not modelled.
- LightRecords.Patched: the source copies the record and assigns keys one `if` at a time; the model states the resulting record as one function, so the order of those assignments is not modelled (it does not affect the result, since each key is written at most once).
- UI.SpliceOut and UI.SpliceIn work on one fixed-length buffer; the length change of JavaScript's `splice` is expressed by which prefix of the buffer holds the list.
- `selectLight` with an id that names no record is accepted, as in the source; the store invariant `Valid()` does not require the selection to name a listed light (`SelectionValid()` states that separately).
- The history store, the transform-gizmo store, the 3D scene, the model loader and the light-properties panel are not part of this model.
