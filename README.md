# fast-ui-core shims and export generator in Dafny

This project models the framework-independent logic of the core package
of fast-ui-core:

- **Navigation fallback** (`packages/core/src/shims/navigation.ts`). When
  Next.js is absent, `useRouter().query` and `useParams()` are built by
  folding the search parameters into a record of `string | string[]`. The
  record's presence test is truthiness, so an entry holding `""` counts as
  absent. The synthetic router has constant fields and an `asPath`, and its
  `push`/`replace`/`back`/`forward`/`refresh` actions call the browser history
  only when a window exists. `usePathname` starts at `/` when there is no window.
- **Export generator** (`packages/core/scripts/update-exports.js`). It derives
  component names from the `src/components` listing: keep `.tsx` files, remove
  the first `.tsx`, sort in code-unit order. It builds the `exports` map from
  four fixed entries plus one entry per component. It then rewrites
  `package.json`: some fields are replaced, some are defaulted when falsy,
  the build scripts are forced, and two dependencies are ensured.
- **Image fallback** (`packages/core/src/shims/Image.tsx`). It computes the
  props of the native `<img>`: the style merge, the `fill` positioning, the
  `loading` choice, and which props are dropped or passed through.
- **Script fallback** (`packages/core/src/shims/Script.tsx`). The effect
  builds a `<script>` element, sets its attributes and inserts it according
  to `strategy`: now, or from a window `load`, idle or timeout callback.
  It attaches the listeners. Its cleanup removes the element when it has a
  parent.

JavaScript values are one datatype (`JsValues.Value`), with JavaScript
truthiness, `String(v)`, object spread (arrays and strings spread their index
keys) and object-rest destructuring. Loops and in-place updates in the source
are methods over classes or local state. Each is proved equal to a function
that specifies it, and the promised properties are lemmas about those
functions.

Modules: `JsValues` (values), `Navigation` and `QueryPrototype` (navigation.ts),
`ComponentNames`, `ExportMap` and `Manifest` (update-exports.js), `ImageShim`
(Image.tsx), `ScriptShim` (Script.tsx).

Where the code and its description differ, the model follows the code:
- A manifest field is defaulted when it is *falsy*, not only when it is missing.
- `loading = 'lazy'` and `strategy = 'afterInteractive'` replace `undefined`
  only, so an explicit `null` strategy inserts nothing.
- `layout`, `lazyBoundary` and `lazyRoot` are declared but not destructured,
  so they reach the `<img>`.

## Model

| member | source | states |
|---|---|---|
| Navigation.GroupQuery | packages/core/src/shims/navigation.ts:128-139 | The `forEach` loop over the parameters builds exactly the record of the step-by-step fold `Group`. |
| Navigation.UseParamsFallback | packages/core/src/shims/navigation.ts:224-235 | The `useParams` fallback builds the same record as `router.query`. Its keys are exactly the keys that occur in the parameters. |
| Navigation.GroupMatchesOccurrences | packages/core/src/shims/navigation.ts:128-139 | A key is present iff it occurs. Its entry is the key's values in order, minus the leading empty strings that a later value replaced. One survivor gives a string, several give a list. |
| Navigation.GroupKeys | packages/core/src/shims/navigation.ts:128-139 | The result's key set equals the set of keys in the input. |
| Navigation.SingleOccurrence | packages/core/src/shims/navigation.ts:136-138 | A key given once maps to its value as a plain string. |
| Navigation.GroupStep | packages/core/src/shims/navigation.ts:130-138 | One more parameter changes only its key's entry. A non-empty string becomes the list [first, second]. A list gets the value appended. An absent or empty entry becomes the value. |
| Navigation.AllValuesInOrder | packages/core/src/shims/navigation.ts:131-135 | When the first value is non-empty and the key repeats, the entry is the list of all its values in occurrence order. |
| Navigation.EmptyFirstValueIsReplaced | packages/core/src/shims/navigation.ts:130 | Values `""` then `b` for one key give the plain string `b` (`a=&a=b`). |
| Navigation.InitialPathname | packages/core/src/shims/navigation.ts:56-61 | The initial pathname is `/` without a window and `location.pathname` with one. |
| Navigation.FallbackRouter | packages/core/src/shims/navigation.ts:141-184 | The query is the grouped parameters, and `asPath` is pathname + search (or `/` without a window). `isReady` is true, `isFallback` and `isPreview` are false, and `basePath` is empty. |
| Navigation.PushReplaceContract | packages/core/src/shims/navigation.ts:145-158 | `push` and `replace` resolve to true. With a window the calls are exactly the history call followed by one `popstate`. Without one they make no call. |
| Navigation.HistoryActionsContract | packages/core/src/shims/navigation.ts:159-174 | `back`, `forward` and `refresh` make one browser call with a window, none without, and never dispatch `popstate`. |
| QueryPrototype.ConstructorParamBecomesList | packages/core/src/shims/navigation.ts:128-139 | As written, `?constructor=x` gives `constructor` the list [inherited function, "x"], where the own-key grouping gives "x". |
| QueryPrototype.AsWrittenAgreesOffPrototype | packages/core/src/shims/navigation.ts:128-139 | For keys that are not `Object.prototype` members, the loop as written and `Navigation.Group` build the same record. |
| ComponentNames.Sort | packages/core/scripts/update-exports.js:20 | The default sort returns a sorted permutation of its input. |
| ComponentNames.IndexOf | packages/core/scripts/update-exports.js:19 | `indexOf` returns the first position where the pattern occurs, or -1 when it occurs nowhere. |
| ComponentNames.StripTsx | packages/core/scripts/update-exports.js:19 | A name holding `.tsx` loses exactly four characters. |
| ComponentNames.StripRemovesFirst | packages/core/scripts/update-exports.js:19 | For every name, the characters removed are the first occurrence of `.tsx`, wherever it is: the name becomes what precedes it followed by what follows it. |
| ComponentNames.StripWithoutTsx | packages/core/scripts/update-exports.js:19 | A name in which `.tsx` occurs nowhere is unchanged. |
| ComponentNames.TsxFiles | packages/core/scripts/update-exports.js:18 | A file is kept iff it is listed and ends in `.tsx`, as many times as it is listed. |
| ComponentNames.StripAll | packages/core/scripts/update-exports.js:19 | Each kept file maps, position by position, to its name with the first `.tsx` removed. |
| ComponentNames.Components | packages/core/scripts/update-exports.js:17-20 | The component names are sorted and are a permutation of the stripped `.tsx` files. |
| ComponentNames.ComponentsFromTsxFiles | packages/core/scripts/update-exports.js:17-20 | There is one name per `.tsx` file. A name appears iff some `.tsx` file yields it. |
| ComponentNames.TsxNameIsShorter | packages/core/scripts/update-exports.js:18-19 | A file ending in `.tsx` yields a name four characters shorter. |
| ComponentNames.FirstOccurrenceIsRemoved | packages/core/scripts/update-exports.js:19 | `A.tsx.tsx` yields the component `A.tsx`: the first occurrence is removed, not the suffix. |
| ComponentNames.ListingExample | packages/core/scripts/update-exports.js:17-20 | `Button.tsx`, `README.md`, `Accordion.tsx` yield `Accordion`, `Button`. |
| ExportMap.BuildExports | packages/core/scripts/update-exports.js:42-47 | The `forEach` insertion loop builds exactly `ExportsOf(components)`. |
| ExportMap.ExportsShape | packages/core/scripts/update-exports.js:23-47 | The keys are the four fixed keys plus `./c` for every component. Every component maps to its `.d.ts`/`.js` pair under dist/components. A fixed entry survives unless a component key equals it. |
| ExportMap.ComponentKeyCollides | packages/core/scripts/update-exports.js:23-47 | A component key equals a fixed key exactly for the names `styles`, `styles/*` and `shims`. |
| ExportMap.KeysSplit | packages/core/scripts/update-exports.js:23-47 | The key set splits into the fixed keys and, disjoint from them, the keys of the non-colliding names. |
| ExportMap.ExportCount | packages/core/scripts/update-exports.js:23-47 | The number of exports (the printed total) is 4 plus the number of distinct component names outside the colliding ones. |
| Manifest.PackageJson.constructor | packages/core/scripts/update-exports.js:14 | The object holds the parsed manifest. |
| Manifest.PackageJson.ApplyDefaults | packages/core/scripts/update-exports.js:49-83 | The assignments before the dependency step leave the manifest as `BeforeDependencies`: `exports` replaced, `files` and both peer-dependency fields defaulted when falsy, the build scripts merged over the old scripts. |
| Manifest.PackageJson.Update | packages/core/scripts/update-exports.js:50-121 | The field assignments in order. They succeed iff `dependencies` is not a truthy primitive, and then the manifest is `Updated`. On the TypeError, the fields assigned before the dependency step keep their new values. |
| Manifest.Updated | packages/core/scripts/update-exports.js:50-121 | The update succeeds iff `dependencies` is not a truthy primitive. Its result keeps the other fields and is again one JSON object. |
| Manifest.RequireDependencies | packages/core/scripts/update-exports.js:85-95 | The dependency statements throw exactly for a truthy primitive. Otherwise they yield `WithRequiredDependencies` of the old value. |
| Manifest.Run | packages/core/scripts/update-exports.js:14-121 | For a parsed manifest that is one JSON object (no managed field among the other fields), the script writes a manifest iff the update does not throw. What it writes is the update for the components derived from the listing. |
| Manifest.SetOnlyWhenMissing | packages/core/scripts/update-exports.js:50-121 | `files`, `peerDependencies`, `peerDependenciesMeta`, `bugs` and `homepage` keep a truthy value and otherwise get their default. `exports` and `keywords` are replaced. Other fields are untouched. |
| Manifest.ScriptsMerged | packages/core/scripts/update-exports.js:57-68 | The five build scripts are always overwritten. Every other script entry is kept unchanged, and no other entry appears. |
| Manifest.DependenciesAdded | packages/core/scripts/update-exports.js:85-95 | In a dependencies object, `classnames` and `framer-motion` are set only when falsy. Other dependencies are unchanged, and no other key appears. |
| Manifest.Idempotent | packages/core/scripts/update-exports.js:50-121 | Updating the written manifest again with the same components changes nothing. |
| ImageShim.MergeStyle | packages/core/src/shims/Image.tsx:106-110 | The merged style has `objectFit`, `objectPosition` and the caller's style keys. Caller keys override the two object-fit values. |
| ImageShim.FallbackStyle | packages/core/src/shims/Image.tsx:106-117 | The merge, then the in-place `fill` assignments, build exactly `ImgStyle`. |
| ImageShim.FillOverridesStyle | packages/core/src/shims/Image.tsx:112-117 | With `fill`, position is `absolute`, inset `0px`, and width and height `100%`, whatever the caller gave. Every other key is the merge's. |
| ImageShim.NoFillIsMerge | packages/core/src/shims/Image.tsx:106-117 | Without `fill`, the style is exactly the merge. A positioning key appears only when the caller's style has it. |
| ImageShim.LoadingChoice | packages/core/src/shims/Image.tsx:125 | `loading` is `eager` for a truthy `priority`. It is `lazy` when `priority` is falsy and `loading` is absent or `undefined` (the default at line 63). Otherwise it is the given value. |
| ImageShim.FallbackImage | packages/core/src/shims/Image.tsx:105-129 | The render builds exactly `ImgAttributes(props)`. |
| ImageShim.AttributeKeys | packages/core/src/shims/Image.tsx:53-73 | The `<img>` gets the six named attributes plus the props that are not destructured. It never gets `fill`, `loader`, `quality`, `placeholder`, `blurDataURL`, `unoptimized`, `onLoadingComplete` or `sizes`. |
| ImageShim.AttributesPassThrough | packages/core/src/shims/Image.tsx:119-129 | `src`, `alt`, `width`, `height` and every prop that is not destructured pass through unchanged. |
| ImageShim.LoadingAndStyleAttributes | packages/core/src/shims/Image.tsx:119-129 | The element's `loading` and `style` are the chosen loading and the computed style. |
| ImageShim.UndestructuredPropsPassThrough | packages/core/src/shims/Image.tsx:53-73 | `layout`, `lazyBoundary` and `lazyRoot` reach the `<img>` unchanged. |
| ImageShim.NextStyleMatchesFallback | packages/core/src/shims/Image.tsx:94-98 | The Next.js branch uses the same merge and adds no positioning. Without `fill` it equals the fallback's style, and it agrees on every key outside the positioning keys. |
| JsValues.Omit | packages/core/src/shims/Image.tsx:72 | The rest object holds every own key except the destructured ones, with the same values. |
| ScriptShim.ScriptElement.constructor | packages/core/src/shims/Script.tsx:70 | A new element has no `src`, no text, no attributes and no listeners. |
| ScriptShim.ScriptElement.SetAttribute | packages/core/src/shims/Script.tsx:83 | `setAttribute` sets one attribute and changes nothing else. |
| ScriptShim.ScriptElement.SetAttributes | packages/core/src/shims/Script.tsx:81-85 | The attribute loop adds exactly `ScriptAttributes(rest)`. |
| ScriptShim.ScriptElement.AddEventListener | packages/core/src/shims/Script.tsx:114-122 | A registration is appended unless the same (event, listener) pair is already registered. |
| ScriptShim.ScriptElement.AddCallbacks | packages/core/src/shims/Script.tsx:114-122 | The three conditional registrations give exactly `ListenersFor(onLoad, onError, onReady)`. |
| ScriptShim.Browser.constructor | packages/core/src/shims/Script.tsx:93 | The page starts with an empty head and body, no callbacks, and the given `readyState` and idle-callback support. |
| ScriptShim.Browser.AppendToHead | packages/core/src/shims/Script.tsx:90 | `head.appendChild` makes the element the head's last child and removes it from the body. |
| ScriptShim.Browser.AppendToBody | packages/core/src/shims/Script.tsx:94 | `body.appendChild` makes the element the body's last child and removes it from the head. |
| ScriptShim.Browser.PlaceScript | packages/core/src/shims/Script.tsx:88-111 | The strategy chain changes the page exactly as `Place` with `PlacementFor(strategy, readyState, idle support)`. |
| ScriptShim.Browser.RunEffect | packages/core/src/shims/Script.tsx:67-124 | No element when `src` and `children` are both falsy, and then the page is unchanged. Otherwise it returns a new element: its `src` and text are set only from truthy props, its attributes are `ScriptAttributes` and its listeners `ListenersFor`. The page is changed by its placement. |
| ScriptShim.Browser.Cleanup | packages/core/src/shims/Script.tsx:126-130 | The element is removed from its parent if it has one. Otherwise nothing changes. Registered callbacks stay. |
| ScriptShim.Browser.CleanupCancellingCallbacks | packages/core/src/shims/Script.tsx:126-130 | Corrected cleanup: as `Cleanup`, and it also drops the callbacks that would append the element. |
| ScriptShim.Browser.RunNextCallback | packages/core/src/shims/Script.tsx:96-109 | The oldest registered callback runs and appends its element to the body. |
| ScriptShim.DefaultStrategy | packages/core/src/shims/Script.tsx:41 | Without a `strategy` prop, or with `strategy` set to `undefined`, the strategy is `afterInteractive`. The element goes to the body now when the document is complete, otherwise after the window `load`. |
| ScriptShim.PlacementByStrategy | packages/core/src/shims/Script.tsx:88-111 | `beforeInteractive` goes to the head. `afterInteractive` goes to the body, now or on window `load`. `lazyOnload` goes on idle or on timeout. Any other strategy places nothing. Each holds in both directions. |
| ScriptShim.WorkerNeverInserted | packages/core/src/shims/Script.tsx:88-111 | With `worker` the page is unchanged: the element is not inserted and no callback is registered. |
| ScriptShim.ImmediatePlacement | packages/core/src/shims/Script.tsx:88-94 | An immediate placement appends the new element to the head or the body and leaves the other children alone. |
| ScriptShim.ListenerMembership | packages/core/src/shims/Script.tsx:114-122 | A listener is registered iff it is `load` with a truthy `onLoad` or `onReady`, or `error` with a truthy `onError`. There are at most three. |
| ScriptShim.SharedLoadHandler | packages/core/src/shims/Script.tsx:114-122 | One function given as both `onLoad` and `onReady` is registered once. |
| ScriptShim.AttributesExactly | packages/core/src/shims/Script.tsx:81-85 | An attribute is set iff it is a rest prop that is neither `undefined` nor `null`. Its value is `String(value)`. |
| ScriptShim.DetachRemoves | packages/core/src/shims/Script.tsx:126-130 | After cleanup the element is in neither head nor body. The other children keep their order, and the callbacks are untouched. |
| ScriptShim.UnmountBeforeWindowLoad | packages/core/src/shims/Script.tsx:91-130 | As written, unmounting before the window `load` still leaves the element in the body once `load` fires. |
| ScriptShim.UnmountBeforeWindowLoadCancelled | packages/core/src/shims/Script.tsx:126-130 | With the corrected cleanup, the same sequence leaves the element nowhere, with no callback registered. |
| ScriptShim.CancelledCleanupLeavesNoInsertion | packages/core/src/shims/Script.tsx:126-130 | The corrected cleanup leaves the element unattached. It keeps exactly the callbacks of other elements. |

## Left out

- The Next.js detection (`require` in try/catch) and every branch that delegates to Next.js. These are foreign code. The Next image branch contributes only its style merge (`ImageShim.NextImageStyle`).
- React hook machinery (`useState`, `useEffect`, `useMemo`, re-render timing, the `ref`), the `popstate` listeners of the hooks, and `router.prefetch`/`router.events`, which do nothing.
- `URLSearchParams` parsing and percent-decoding. The search is given as the sequence of (key, value) pairs that `forEach` visits.
- Browser history semantics. `push`, `replace`, `back`, `forward` and `refresh` are modelled as the list of browser calls they make.
- Timers, `requestIdleCallback` and event dispatch. Registered callbacks are a queue that `RunNextCallback` runs in order. The asynchronous `load`/`error` events of the script element are not fired.
- `setAttribute` lowercasing names and throwing on invalid names, the URL resolution done by the `src` setter, and React dropping `undefined` props when it renders. Attributes keep the names and values that are passed.
- Non-callable listeners passed to `addEventListener` (a TypeError in the browser). Handlers are values compared by equality.
- File-system access, JSON parsing and serialisation, and console output in update-exports.js. The listing and the parsed manifest are inputs, and the written manifest is the result. The printed export total is `ExportMap.ExportCount`.
- Key order of objects, and so the order of keys in the written JSON. Records are maps.
- Numbers are integers: NaN, -0, fractions and the `String` form of non-integers are not modelled.
- Strings are sequences of characters (Unicode scalar values), not UTF-16 code units. The sort compares characters, and `JsValues.Spread` of a string gives one index key per character. Both differ from JavaScript only outside the Basic Multilingual Plane, where a character is two code units (`{..."😀"}` has keys `0` and `1`; the model gives `0` only).
- Navigation.GroupQuery, Navigation.UseParamsFallback, Navigation.FallbackRouter: these look up own entries only, which is the corrected grouping of the first finding below. The lookup as written, which also sees `Object.prototype` members, is `QueryPrototype.GroupAsWritten`.
- A query key `__proto__`: assigning to it replaces the record's prototype rather than adding an entry.
- packages/core/scripts/compile-css.js (I/O around the sass compiler), packages/core/src/shims/Link.tsx (a prop pass-through) and packages/core/src/shims/index.ts (re-exports) are not part of this model.

## Findings

| source | as written | input that shows it | evidently intended | confidence | as-written member | corrected member |
|---|---|---|---|---|---|---|
| packages/core/src/shims/navigation.ts:128-139 | The record is a plain `{}`, so `query[key]` also finds `Object.prototype` members (`constructor`, `toString`, ...). These are truthy non-arrays, so the first value starts a list with the inherited function. The same loop is at :224-235. | search `?constructor=x` | `{constructor: "x"}`, as for any other key given once | high, not executed | QueryPrototype.ConstructorParamBecomesList | Navigation.SingleOccurrence |
| packages/core/src/shims/Script.tsx:91-130 | The cleanup removes the element only if it already has a parent. The window `load`, idle or timeout callback registered by the effect stays registered and inserts the element after unmount. | `src` set, `readyState` "loading", unmount before the window `load` | nothing is inserted after cleanup | medium, not executed | ScriptShim.UnmountBeforeWindowLoad | ScriptShim.UnmountBeforeWindowLoadCancelled |
