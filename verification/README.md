# Interactive Process Mapper — themed rendering and stores, in Dafny

This project models the core of a browser-based BPMN process editor:

- **Themed renderer** (`ThemedRenderer`, `themed_renderer.dfy`). It sits above the diagram library's
  own renderer. It lets the library draw each shape or connection and then writes colour attributes
  onto the node it gets back. Six palette variables (`--pp-primary`, `--pp-accent`, `--pp-surface`,
  `--pp-bg`, `--pp-border`, `--pp-success`) resolve against built-in fallbacks. The element's
  classification chooses the attribute set: Task, StartEvent, EndEvent, Gateway, Participant/Lane,
  and a default, with the first match winning.
- **Theme registry** (`ThemeStore`, `theme_store.dfy`). It holds the list of themes and the current
  theme id, and mirrors them into durable storage. Its actions are find-or-first, select-if-known,
  upsert-by-id and restore-from-storage. The invariant that the list is never empty and storage
  mirrors memory holds across every sequence of actions.
- **Process store** (`ProcessStore`, `process_store.dfy`). It holds the list of process records.
  It covers the record normaliser, the lookup, create/import, the partial update with its
  draft-to-published version bump, delete, select, and load/save.
- **Linked-process helpers** (`LinkHelpers`, `link_helpers.dfy`). They get and set the id of the
  process a diagram element links to. The business object may have accessors, a plain property
  and an `$attrs` map.
- `ThemedEditor` (`themed_editor.dfy`) connects the registry's current theme to the renderer's theme
  accessor. `Js` (`js.dfy`) holds shared vocabulary: optional values, JavaScript's `||` over
  strings, and first-match search.

Every store action is a pure function from one store value to the next. Durable storage is a field
of the store value, holding what reading and parsing the stored text yields. The clock (`now`) and
the random id generator (`freshId`) are parameters. The diagram library's drawing is a parameter as
well: the draw operations receive the node the library returned.

Three behaviours of the code that are easy to misread:

- `drawShape` and `drawConnection` write only onto the root node they get back
  (src/bpmn/ThemedRenderer.js:26-32, 42-44); descendants are not repainted. The model's
  `PaintedWith` states that the children are left exactly as they were.
- `success || primary` and `accent || primary` (src/bpmn/ThemedRenderer.js:68, 76) never reach
  `primary`, because `getVar` never returns an empty string: a theme without `--pp-success` strokes
  start events with `#22c55e`. `EventStrokes` states this, and `ShapeColorsFollowRuleTable` proves
  that the code matches a rule table with no primary fallback at all.
- A record whose name or diagram is the empty string (possible through `createProcess`,
  `importProcessFromFile` or `updateProcess`) is saved as is, but reloads as "Untitled process" or
  the default diagram, because `normalizeProcess` defaults a falsy name or diagram.
  `EmptyFieldsReloadAsDefaults` and `EmptyNameUpdateReloadsUntitled` state this; saving and
  loading round-trips only records with non-empty fields (`SaveThenLoadRoundTrip`).

## Model

| member | source | states |
|---|---|---|
| ThemedRenderer.GetVar | src/bpmn/ThemedRenderer.js:6-8 | The theme's value is used when present and non-empty; otherwise the fallback is used. With a non-empty fallback the result is never empty. |
| ThemedRenderer.ResolvePalette | src/bpmn/ThemedRenderer.js:50-55 | All six resolved palette colours are non-empty for every theme, including an absent one. |
| ThemedRenderer.ActiveTheme | src/bpmn/ThemedRenderer.js:14 | A configured accessor is re-read on each draw and its value used as is, even when it yields nothing. Without an accessor the static theme is used, or `{}` when there is none, so a theme value is always present. |
| ThemedRenderer.DefaultConfigUsesFallbacks | src/bpmn/ThemedRenderer.js:11-15 | With no configuration the accessor yields `{}`, and every palette colour equals its hard-coded fallback. |
| ThemedRenderer.ShapeColors | src/bpmn/ThemedRenderer.js:49-100 | A shape's colour object always has `fill` and `stroke`, sometimes `stroke-width`, no other key, and no null value. |
| ThemedRenderer.ShapeColorsFollowRuleTable | src/bpmn/ThemedRenderer.js:57-99 | The check chain equals a priority table. The first matching row among Task, StartEvent, EndEvent, Gateway and Participant/Lane decides, else the default applies, so an element with several types gets the earliest rule. |
| ThemedRenderer.TaskIsWhiteOnPrimary | src/bpmn/ThemedRenderer.js:57-63 | A Task, whatever its other types and whatever the theme, gets fill `#ffffff`, the primary stroke and width 2. |
| ThemedRenderer.EventStrokes | src/bpmn/ThemedRenderer.js:65-79 | Start events are stroked with success and end events with accent. A theme without success gives `#22c55e`, never the primary colour. |
| ThemedRenderer.PlainShapesHaveNoWidth | src/bpmn/ThemedRenderer.js:89-99 | Participants and lanes get background on border, other unmatched shapes get surface on border, and neither gets a `stroke-width`. |
| ThemedRenderer.EmphasisWidthText | src/bpmn/ThemedRenderer.js:61 | The numeric width 2 is stored as the attribute text "2". |
| ThemedRenderer.SetAttributes | src/bpmn/ThemedRenderer.js:26-32 | Every non-null colour entry is written onto the node. Null entries and all other attributes are left alone, and the identity and children are kept. |
| ThemedRenderer.DrawShape | src/bpmn/ThemedRenderer.js:21-35 | The same node comes back painted with the shape's colours, and nothing comes back when the library drew nothing. |
| ThemedRenderer.DrawConnection | src/bpmn/ThemedRenderer.js:37-47 | A connection gets only `stroke`, set to the primary colour. All its other attributes and its identity are kept. |
| ThemeStore.CurrentTheme | src/stores/themeStore.js:40-42 | The current theme is the first theme carrying the current id, or the first theme when none does. It is absent only for an empty list. |
| ThemeStore.Persist | src/stores/themeStore.js:89-96 | Where storage exists it afterwards holds the snapshot `{currentThemeId, themes}`. Without storage nothing changes. |
| ThemeStore.SetCurrentTheme | src/stores/themeStore.js:70-76 | An unknown id changes nothing, and nothing is persisted. A known id becomes current, the list is unchanged, and storage mirrors the state. |
| ThemeStore.UpsertTheme | src/stores/themeStore.js:77-88 | An absent theme or empty id is a no-op. An existing id replaces its first entry in place, so the length and the other entries stay the same. A new id is appended. |
| ThemeStore.UpsertKeepsIdsUnique | src/stores/themeStore.js:80-85 | If ids were unique before an upsert, they stay unique, and the upserted theme is in the list. |
| ThemeStore.InitFromStorage | src/stores/themeStore.js:45-69 | With no storage nothing happens. With nothing stored the state is kept. A parsed record replaces the themes only with a non-empty list and the id only with a string. A malformed record resets to the default. Storage ends up mirroring the state. |
| ThemeStore.MalformedRecordResets | src/stores/themeStore.js:62-66 | An unparsable record leaves exactly the built-in default theme with id "default", and storage is rewritten with that snapshot. |
| ThemeStore.PersistThenInitRoundTrip | src/stores/themeStore.js:45-96 | Restoring a registry that held any earlier state from the snapshot persist wrote for a non-empty theme list reproduces exactly the persisted state and snapshot. |
| ThemeStore.StepKeepsValid | src/stores/themeStore.js:45-88 | Each action keeps the theme list non-empty and storage equal to the snapshot of the state. |
| ThemeStore.RunKeepsValid | src/stores/themeStore.js:34-96 | Any sequence of actions keeps that invariant. |
| ThemeStore.StartupThenActionsValid | src/stores/themeStore.js:34-42 | From a fresh registry, whatever storage holds, start-up followed by any actions leaves a non-empty list mirrored in storage, and a current theme always resolves. |
| ProcessStore.ParseStatus | src/stores/processStore.js:40 | The status is published exactly when the raw status is the text "published", and draft otherwise. |
| ProcessStore.StatusRoundTrip | src/stores/processStore.js:40 | A stored status text reads back as the same status. |
| ProcessStore.NormalizeVersion | src/stores/processStore.js:41-49 | The version is kept when it is a positive number and becomes 1 otherwise, so it is always positive. |
| ProcessStore.Normalize | src/stores/processStore.js:36-54 | The id, name, diagram, updated-at and created-at each get their default exactly when missing or empty: a generated id, "Untitled process", the default diagram, now for updated-at, and updated-at for created-at. Area and parent are kept as given, an empty string included, and are null only when missing. The status and version rules apply. When `now` and the generated id are non-empty, the result is well formed. |
| ProcessStore.NormalizeFixesWellFormed | src/stores/processStore.js:36-54 | Normalising the stored form of a well-formed record gives the record back unchanged. |
| ProcessStore.Save | src/stores/processStore.js:82-84 | Storage afterwards holds the stored form of exactly the in-memory list, and the list and selection are unchanged. |
| ProcessStore.LoadFromStorage | src/stores/processStore.js:64-81 | A stored array gives the normalised items in order. A missing, unparsable or non-array record gives an empty list. When `now` and every generated id are non-empty, loaded records are well formed. |
| ProcessStore.EmptyFieldsReloadAsDefaults | src/stores/processStore.js:36-54 | Reloading a saved record keeps every field except that an empty name reads back as "Untitled process" and an empty diagram as the default diagram. |
| ProcessStore.EmptyNameUpdateReloadsUntitled | src/stores/processStore.js:108-124 | For a record at any position that is the first carrying its id (the one the update finds), renaming it to the empty string, saving and reloading gives it the name "Untitled process". |
| ProcessStore.SaveThenLoadRoundTrip | src/stores/processStore.js:64-84 | Saving a list of well-formed records and loading again restores the same list. |
| ProcessStore.GetProcessById | src/stores/processStore.js:88-90 | The result is the first record with the id, and null exactly when no record has it. |
| ProcessStore.CreateProcess | src/stores/processStore.js:91-107 | Exactly one record is appended: a draft, version 1, null area and parent, created-at equal to updated-at, the default diagram, and the name defaulting to "New process". Storage then mirrors the list. |
| ProcessStore.CreateAddsFindableRecord | src/stores/processStore.js:91-107 | When the generated id is new, the created record is what a lookup of that id returns, every other lookup is unchanged, and unique ids stay unique. |
| ProcessStore.ImportAddsFindableRecord | src/stores/processStore.js:135-151 | The same for an imported record. |
| ProcessStore.ImportProcessFromFile | src/stores/processStore.js:135-151 | Exactly one draft record is appended with version 1, the given diagram, null area and parent, and equal timestamps. An empty name becomes "Imported process". |
| ProcessStore.ApplyPatch | src/stores/processStore.js:111-123 | Only the supplied fields change, plus updated-at. A supplied status is normalised. The version goes from the old version (1 when zero) to one more exactly on a draft-to-published change, and is otherwise kept. |
| ProcessStore.VersionBumpsExactlyOnPublish | src/stores/processStore.js:114-120 | For a positive version, the version rises by exactly one if and only if the update moves the record from draft to published. Unpublishing and republishing keep it. |
| ProcessStore.UpdateProcess | src/stores/processStore.js:108-124 | An unknown id changes nothing, and nothing is saved. Otherwise only the first record with the id is edited, every other record is untouched, and the list is saved. |
| ProcessStore.RemoveId | src/stores/processStore.js:126 | The kept records are exactly those whose id differs. With no match the list is unchanged. |
| ProcessStore.RemoveIdAppend | src/stores/processStore.js:126 | Removal distributes over concatenation, which is how the filter keeps order. |
| ProcessStore.DeleteKeepsOrder | src/stores/processStore.js:125-131 | Two records that survive deletion keep their relative order. |
| ProcessStore.DeleteProcess | src/stores/processStore.js:125-131 | Every record with the id is removed and no other record is. The selection is cleared exactly when it carried that id. The list is saved. |
| ProcessStore.SetSelectedProcess | src/stores/processStore.js:132-134 | The selection becomes the first record of the list carrying the id, or null exactly when none does. The list and storage are unchanged. |
| LinkHelpers.GetLinkedProcessId | src/bpmn/linkHelpers.js:4-20 | An absent object reads as null. A present property, whether read through the accessor or directly, gives its value with falsy values reading as null. Otherwise the `$attrs` entry is used, with only null and undefined reading as null. |
| LinkHelpers.SetLinkedProcessId | src/bpmn/linkHelpers.js:22-49 | An absent object stays absent. Clearing removes the `$attrs` entry. Setting writes the slot and mirrors the id into an existing `$attrs`. No other `$attrs` key changes. |
| LinkHelpers.SetThenGet | src/bpmn/linkHelpers.js:40-48 | Setting a non-empty id and then reading it gives that id. |
| LinkHelpers.ClearThenGet | src/bpmn/linkHelpers.js:25-37 | Setting null, undefined or the empty string makes the link read as null. |
| LinkHelpers.SetIsIdempotent | src/bpmn/linkHelpers.js:22-49 | Setting the same value twice gives the same object as setting it once. |
| LinkHelpers.PropertyShadowsAttrs | src/bpmn/linkHelpers.js:14-19 | A present property hides the `$attrs` entry even when it is empty. Without the property, an empty `$attrs` entry reads as the empty string. |
| ThemedEditor.DarkThemeScenario | src/stores/themeStore.js:70-88 | Upserting a dark theme with a black primary and selecting it makes it current, and a gateway is then stroked black. |
| ThemedEditor.SelectedThemeStrokesConnections | src/bpmn/ThemedRenderer.js:37-47 | After a known theme is selected, connections are stroked with its primary colour, or `#2563eb` when it has none. |

## Left out

- Storage and JSON: `localStorage` reads and writes and `JSON.parse`/`JSON.stringify` are I/O. Storage is a value holding the parse outcome. Writing a snapshot is taken to read back as the same values.
- ThemeStore.InitFromStorage: a stored JSON `null` makes `parsed.themes` throw inside the `try`. The model folds it into the malformed-record case, which the catch handles the same way. The console warning is not modelled.
- Non-string values in parsed data are not modelled: CSS variable values, theme ids, process fields. A `themes` that is not an array, or a `currentThemeId` that is not a string, is modelled as absent.
- ProcessStore.NormalizeVersion: `Number(raw.version)` is abstracted as an optional whole number, with absent standing for NaN or an infinite value. Fractional versions and string-to-number coercion are not modelled.
- ProcessStore.VersionBumpsExactlyOnPublish: the version is a JavaScript number (an IEEE double), and `(existing.version || 1) + 1` (src/stores/processStore.js:118) is exact only below 2^53; at 2^53 adding one gives 2^53 again. The model uses unbounded whole numbers, so this lemma and `ProcessStore.SaveThenLoadRoundTrip` assume versions stay below 2^53.
- ProcessStore.LoadFromStorage: every item is normalised with the same `now`, while the code reads the clock once per item.
- ProcessStore.UpdateProcess: `selectedProcess` is the same JavaScript object as its list entry, so an in-place update also shows through the selection. The model keeps the selection as a value and leaves it unchanged.
- ProcessStore.CreateProcess: the name defaults only when undefined, as in the code. A non-string name is not modelled.
- The process store calls `localStorage` without the availability check the theme store makes (src/stores/processStore.js:65, 83), so in an environment without storage the code throws. The model always has storage for the process store.
- ProcessStore.UpdateProcess: `Patch` cannot express an explicit `null` (or other non-string value) for `name` or `bpmnXml`, which `updateProcess` would write as is; only strings or "not supplied" are modelled.
- ThemedRenderer.CanRender: `!element.labelTarget` is a one-line definition, modelled directly with no separate property.
- Time and randomness: `new Date().toISOString()` and `generateId` are parameters (`now`, `freshId`).
- `exportProcessToBlob` wraps a browser API, and `init` only calls `loadFromStorage`. The `loading` and `error` state fields are never used by the actions.
- Renderer plumbing is library registration and is not modelled: the `BaseRenderer` base class, the event bus, the priority 1500, the dependency-injection module factory, and the library's own SVG drawing.
- bpmn-js `is()` follows the BPMN metamodel's inheritance. An element is modelled as the set of type names it satisfies.
- LinkHelpers.GetLinkedProcessId: the accessor and the plain property are modelled as one shared slot, and `get` and `set` are taken to be present together. How the modelling library really stores unknown properties set through `set` is not modelled.
- `src/main.js` copies the current theme's CSS variables into the document (`applyTheme`). That is UI glue and is not modelled. `src/router/index.js` is a route table with no logic.
- The editor component that passes the registry's current theme to the renderer is not part of this model. `ThemedEditor.RendererConfig` assumes it supplies the current theme through the accessor.
