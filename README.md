# genrate-redux composition engine, modelled in Dafny

genrate-redux lets a Redux "model" (a slice with a name, an initial state, reducers and
selectors) embed other models inside its state, either singly or as a list. This project
models the engine that makes that composition work:

- `src/model.ts`, the current engine;
- `src/slice.ts`, the older `slice` variant of the same engine.

What the model covers:

- **Tree flattener** (`getInitial` / `extractInitial`). It walks the declared state, replaces
  each embedding marker by its default, and reports every marker to a registration callback.
  The report carries the slash-joined path, with a `/[]` segment for list markers.
- **Registration callback**. It fills three tables:
  - the process-wide `nestedSlices` table (registry key to listed action names);
  - the defining model's rewritten reducers `k/act`;
  - its async-thunk entries.
- **Path router** (`applyNested`), in its two variants:
  - the in-place one of `model.ts`, which discards the reducer's return value;
  - the assigning one of `slice.ts`.

  Both shift the key array they are given. That array is a `KeyArray` object here, so the
  sharing is visible.
- **Action decorator** (`withActionProxy`). It turns selected state into the same tree plus
  bound action functions. Each bound action's type and `$$keys` envelope send it back to the
  node it was read from.
- **Selector cache** (`addSelector`, the `nestedSelectors`/`selectors` tables). It holds one
  projection per `|`-joined path.
- **Property access of a model and of its field proxies**. This covers `use<Name>` name
  resolution, field proxies and `useAll`.
- **Async phase wrapper** for embedded thunks.
- **`select`, `arg` and `combineModels`**.
- **Duplicate-name checks** of `model` and `slice`.

The central property is `Naming.DecoratedNamesRegistered`. Every action name that the
decorator binds on an embedded node is listed in the registry under the key the decorator
looks up. The type the bound action dispatches is a reducer that the defining model has
registered, and that reducer routes back to the same node (`Registry.RewriteScoped`,
`Router.AppliedAddresses`). The older engine has the same chain in
`LegacySlice.SliceBindingReachesNode`.

Values are a JSON-like tree (`Tree.Value`). Reducers are abstract functions from a state and
an action to an effect. An effect has a mutated node and an optional returned replacement.
This lets one type express the `model.ts` router (which keeps the mutation) and the
`slice.ts` router (which assigns the return value). The registration callback is modelled
as the list of events the walk reports (`Flatten.Recorder`, `SliceWalk.Finder`). The
registration is then applied to that list in order. The walk never reads the tables it
fills, so this order is equivalent to the interleaved one.

Three behaviours of the code shape the model:

- **Marker contents.** A single embedding marker is replaced by the default value given to
  `asModel` (`$$state`, src/model.ts:311), which is then walked further. It is not replaced
  by the embedded model's own initial state.
- **Paths through missing nodes.** The code does not check that a routed path exists. The
  model makes such a path a no-op that leaves the state unchanged, where the code throws or
  runs the reducer on `undefined` (see `Router.Applied` under "Left out").
- **Bare keys in `slice.ts`.** `getInitial` in `slice.ts` gives each object child its bare
  key rather than the accumulated path (src/slice.ts:174). An embedding two levels down is
  registered under `name/<innermost key>` (`SliceWalk.BareKeyPaths`).

## Model

| member | source | states |
|---|---|---|
| Text.NatToString | src/model.ts:201 | an index rendered by `${i}` is a non-empty run of decimal digits, with a leading `0` only for zero |
| Text.DigitRun | src/model.ts:331 | the digit prefix `parseInt` reads is maximal: all digits, and the next character (if any) is not a digit |
| Text.ParseIntOfNat | src/model.ts:331-332 | `parseInt` reads back exactly the index that `${i}` rendered |
| Text.Split | src/model.ts:395 | `split('/')` yields at least one part, and no part contains the separator |
| Text.SplitJoin | src/model.ts:395-403 | splitting a join of separator-free parts gives the parts back |
| Text.JoinSplit | src/model.ts:395-403 | joining the parts of a split gives the original string back |
| Text.SplitAtSeparator | src/model.ts:394-397 | a name containing `/` splits into at least two parts, so `pop` leaves a non-empty prefix |
| Text.NonEmpty | src/model.ts:209 | `filter((a) => !!a)` leaves no empty segment |
| Text.NonEmptyAppend | src/model.ts:209 | the filter works part by part: filtering a concatenation concatenates the filtered halves, so non-empty parts keep their order |
| Text.NonEmptySnoc | src/model.ts:209 | one more part is kept, at the end, exactly when it is not empty |
| Text.NonEmptyMembers | src/model.ts:209 | a string is in the filtered list exactly when it is a non-empty part |
| Text.LowerFirst | src/model.ts:260 | lower-casing the first character keeps the length and every later character |
| Tree.Find | src/model.ts:235 | a property lookup misses exactly when the name is not among the object's keys |
| Tree.AssignFind | src/model.ts:223 | after `obj[k] = x`, `k` reads `x` and every other name reads as before; an existing key keeps its place, and a new key is placed last (see Left out for integer-like keys) |
| Tree.AssignNames | src/model.ts:223 | assignment adds `k` to the key set and nothing else |
| Tree.AssignDistinct | src/model.ts:223 | assignment keeps an object's keys distinct |
| Tree.Replace | src/slice.ts:193 | after `state[key] = x` the child at `key` is `x` |
| Tree.ReplaceOther | src/slice.ts:193 | replacing one child leaves every child in another slot unchanged |
| Tree.FieldOfIndex | src/model.ts:201 | reading the property named `${i}` of an array reads element `i` |
| Tree.UpdateAddressed | src/model.ts:328-339 | rewriting along a path that resolves puts the rewritten node at the end of that path |
| Tree.UpdateElsewhere | src/slice.ts:185-196 | rewriting along one path leaves every node on a diverging path as it was |
| Tree.UpdateUnresolved | src/model.ts:333-336 | a path that does not resolve leaves the tree as it was (see Left out) |
| Router.KeyArray.Shift | src/model.ts:329 | `keys.shift()` returns the first key (none for an empty array) and removes it from the shared array |
| Router.Descend | src/model.ts:329-334 | the router's descent computes the resolved route of the keys and leaves in the array exactly the keys it did not consume |
| Router.ApplyNestedInPlace | src/model.ts:328-339 | the `model.ts` router yields the state rewritten along the route by the reducer's mutation, and consumes the key array |
| Router.ApplyNestedAssign | src/slice.ts:185-196 | the `slice.ts` router yields the state rewritten along the route by the reducer's replacement, and consumes the key array |
| Router.RouteShape | src/model.ts:329-333 | a key list routes if and only if it is non-empty and has no empty key; the route has one step per key, numeric keys become indices |
| Router.RoutedConsumesAll | src/model.ts:329-337 | a list that routes is consumed completely, so nothing is left in the caller's array |
| Router.IndexSegment | src/model.ts:331-332 | the segment `${i}` routes to element `i` |
| Router.AppliedAddresses | src/model.ts:333-337 | the reducer's result lands at the node the keys address |
| Router.AppliedElsewhere | src/slice.ts:190-194 | nodes off the routed path are unchanged |
| Router.VariantsAgree | src/slice.ts:193 | when reducers only mutate, the in-place and the assigning routers give the same state |
| Flatten.ItemsWalk | src/model.ts:282-286 | the walk over an array yields an array of the same length, unless a marker reached with an empty path threw |
| Flatten.FieldsWalk | src/model.ts:289-298 | the walk over an object yields an object with one field per key, unless a marker reached with an empty path threw |
| Flatten.GetInitial | src/model.ts:306-326 | the imperative walk reports the marker events in walk order and returns the flattened state, as `InitialWalk` defines them |
| Flatten.ExtractInitial | src/model.ts:281-304 | the same for a node that is not a marker |
| Flatten.ExtractItems | src/model.ts:282-286 | the `state.map(...)` loop: events and flattened array as specified |
| Flatten.ExtractFields | src/model.ts:289-298 | the `for (const k of keys)` loop: events and flattened object as specified |
| Flatten.ItemsThrowPersists | src/model.ts:320 | once an element throws, the whole array walk throws with the events so far |
| Flatten.FieldsThrowPersists | src/model.ts:320 | once a field throws, the whole object walk throws with the events so far |
| Flatten.RootInstanceRejected | src/model.ts:306-321 | a root that is itself a marker throws before anything is registered |
| Flatten.MarkerWalk | src/model.ts:309-318 | a marker below the root reports first (path with `/[]` for a list marker), then the walk of its default |
| Flatten.FieldsKeepKeys | src/model.ts:289-298 | the flattened object keeps every key, in order, each holding its child's flattened value |
| Flatten.ItemsKeepLength | src/model.ts:282-286 | each flattened element is its own element's flattened value |
| Flatten.PlainDataUnchanged | src/model.ts:281-304 | a state without markers is returned unchanged and reports nothing |
| Registry.SplitAct | src/model.ts:393-398 | a prefixed action splits into a non-empty prefix of `/`-free parts and a `/`-free last name; an unprefixed one into no prefix and itself |
| Registry.ModelActIsAct | src/model.ts:400-403 | the rebuilt `modelAct` is the action name as embedded |
| Registry.Definition.OnEmbed | src/model.ts:390-432 | the callback changes the tables exactly as one registration event specifies |
| Registry.Definition.OnAction | src/model.ts:392-431 | one round of the action loop changes the tables exactly as specified |
| Registry.PrefixedKeyDiffers | src/model.ts:401-405 | a prefixed action is listed under a longer key than the embedding's own |
| Registry.UnprefixedListed | src/model.ts:426-430 | the embedding's own key gains exactly its unprefixed actions, in order |
| Registry.EmbeddingListsActions | src/model.ts:391-430 | after the callback, `${name}/${k}` lists exactly the unprefixed actions of the embedded model |
| Registry.EmbeddingRegistersEveryAction | src/model.ts:392-431 | every action of the embedded model is listed under its key and has a rewritten reducer or async entry aimed at the embedded model |
| Registry.UntouchedKeeps | src/model.ts:391-430 | a later callback that neither resets an action's registry key nor writes a reducer of the same name keeps that action registered: list entries only grow |
| Registry.RegisterAllRegisters | src/model.ts:387-433 | after all the walk's callbacks, every action of an embedding is still listed and still has its reducer, provided every other callback leaves it alone |
| Registry.RunRewrite | src/model.ts:410-423 | the rewritten reducer computes what the rewrite specification says |
| Registry.RewriteScoped | src/model.ts:410-423 | an unprefixed rewritten action runs the embedded reducer, with the bare payload, on the addressed node only |
| AsyncPhases.RunPhase | src/model.ts:482-491 | the wrapped phase handler computes the specified result, and fails on an action without an envelope |
| AsyncPhases.WrapPhases | src/model.ts:478-493 | exactly the declared phases are wrapped, in pending, fulfilled, rejected, settled order |
| AsyncPhases.PhaseScoped | src/model.ts:482-491 | a wrapped phase runs the thunk's handler on the addressed node only, with the phase type and the envelope's data |
| AsyncPhases.ThunkLosesPayload | src/model.ts:495 | as written, the thunk receives `undefined` instead of the dispatched payload (Findings) |
| AsyncPhases.ThunkReceivesPayload | src/model.ts:495 | reading `$$data` hands the thunk the dispatched payload |
| ActionProxy.WithActionProxy | src/model.ts:194-227 | the decorator method computes the decoration specification |
| ActionProxy.DecorateItems | src/model.ts:200-202 | an array decorates element-wise, element `j` under the keys extended by `${j}` |
| ActionProxy.BuildActions | src/model.ts:213-218 | the action loop builds the specified actions object |
| ActionProxy.DecorateEntries | src/model.ts:221-224 | the field loop decorates each field under its own key |
| ActionProxy.SpreadInto | src/model.ts:226 | `{ ...res, ...actions }` as specified |
| ActionProxy.ActionsObjectNames | src/model.ts:213-218 | the actions object has exactly the listed names, with no duplicates |
| ActionProxy.ActionsObjectBinds | src/model.ts:213-218 | each listed name is bound to dispatch its action key with the node's keys |
| ActionProxy.SpreadFind | src/model.ts:226 | after the spread, an action name wins over a field of the same name, and other fields are kept |
| ActionProxy.DecorateBindsActions | src/model.ts:204-226 | an object or null node carries every action listed under its registry key, bound to that node's keys |
| ActionProxy.DecorateFieldsFind | src/model.ts:221-224 | each field of the result is that field decorated under the extended keys |
| ActionProxy.DecorateKeepsField | src/model.ts:221-226 | a field whose name is not an action survives decoration, decorated one level deeper |
| Naming.MarkerFires | src/model.ts:287-318 | every marker in the declared state is reported, at the path made of its field names |
| Naming.PathFromJoin | src/model.ts:295 | the accumulated path of nested fields is their `/`-join |
| Naming.RootPath | src/model.ts:295 | below the root, the accumulated path is the `/`-join of the field names |
| Naming.SingleRegistryKey | src/model.ts:205-209 | for a field path, the decorator looks up `name/` followed by the joined path |
| Naming.SingleActionKey | src/model.ts:205-215 | for a field path, the bound action key is the joined path followed by `/act` |
| Naming.SingleNodeKeys | src/model.ts:205-215 | both keys of a singly embedded node, together |
| Naming.ListElementKeys | src/model.ts:201-215 | an element of a list field looks up `name/<path>/[]` and dispatches `<path>/[]/act` |
| Naming.DecoratedNamesRegistered | src/model.ts:205-216 | a marker's event is reported; in the tables left after all the walk's callbacks (those `model` keeps), the decorator's registry key for its node is the one the callback filled, each plain action is bound there, and its type has a rewritten reducer aimed at the embedded model; provided no other callback resets that key or reuses those reducer names |
| Selectors.Path | src/model.ts:232 | a selector's path starts with its model's name; it has length one exactly for the root selector |
| Selectors.PathInjective | src/model.ts:232-235 | distinct selectors have distinct paths |
| Selectors.ReadFollowsPath | src/model.ts:235 | a projection selector reads its path's field chain |
| Selectors.AddedCoherent | src/model.ts:229-239 | `addSelector` keeps every cached selector at the key of its own path, returns the projection, and is idempotent |
| Selectors.SelectorTable.AddSelector | src/model.ts:229-239 | the cache update as specified; an existing entry is returned as is |
| Selectors.ResolveAll | src/model.ts:141 | each input is replaced by its model's `$$selector`, or kept when it is a plain selector |
| Selectors.SelectFn | src/model.ts:140-161 | dependencies are the inputs followed by the arguments; the cached form is used exactly when there are arguments, with the default key unless a key selector is given |
| Selectors.Select | src/model.ts:177-187 | an argument list without a combiner fails with `MissingCombiner`; otherwise the derivation as `selectFn` builds it |
| Selectors.ArgPositions | src/model.ts:189-192 | `arg(p)` picks the p-th extra parameter (1-based), `undefined` outside them |
| Selectors.DefaultCacheKeyInjective | src/model.ts:148 | two argument lists share a default cache key exactly when they are equal |
| Selectors.CombinedShape | src/model.ts:341-349 | the combined reducer map has one entry per model name, the last model of a name winning |
| Selectors.CombineModels | src/model.ts:341-349 | the combining loop computes that map |
| Define.RegisterEvents | src/model.ts:387-433 | replaying the walk's events applies every registration in order |
| Define.DefineModel | src/model.ts:509-515 | a root marker fails with `RootIsInstance` and a taken name with `DuplicateName`, neither touching the selector table; otherwise the model's root selector is installed and the tables are those of the registration |
| Accessor.SelectorReadFallsThrough | src/model.ts:567-582 | as written, reading a selector member yields a field proxy instead of the selector (Findings) |
| Accessor.SelectorReadable | src/model.ts:567-570 | with the missing return added, reading a selector member yields the selector |
| Accessor.LowerCapitalize | src/model.ts:540-541 | lower-casing the capitalised name gives the name back |
| Accessor.UseNamesOf | src/model.ts:540-541 | `use<Name>` resolves to the capitalised and the original name |
| Accessor.UseActionRoundTrip | src/model.ts:540-549 | `use<Act>` on a model yields the hook of action `act` |
| Accessor.UseFieldRoundTrip | src/model.ts:556-564 | `use<Field>` yields the field hook, with a selector whose path is `[name, field]` and that reads that field, and keeps the cache coherent |
| Accessor.ProxyUseAll | src/model.ts:255-257 | `useAll` on a field proxy decorates with the proxy's own keys |
| Accessor.ReachedProxy | src/model.ts:273-275 | a chain of plain field reads yields a proxy with keys `[name, ...fields]`, a selector for that path and the data along it, and keeps the cache coherent |
| Accessor.ReachOne | src/model.ts:582 | one field read on the model yields the proxy for `[name, field]` |
| Accessor.ProxyHookMissesRegistry | src/model.ts:241-246 | as written, `useAll` on a reached proxy looks up `name/name/<path>`, not the key registered for that node (Findings) |
| Accessor.ProxyHookFindsRegistry | src/model.ts:241-269 | decorating with the keys below the model looks up the key the registration filled |
| SliceWalk.ListScan | src/slice.ts:166 | the walk over an array yields an array of the same length, unless an instance root threw |
| SliceWalk.RecordScan | src/slice.ts:173-175 | the walk over an object yields one field per key, unless an instance root threw |
| SliceWalk.GetInitial | src/slice.ts:150-183 | the imperative walk reports instances in order and returns the flattened state as specified |
| SliceWalk.GetItems | src/slice.ts:166 | the `state.map(...)` loop as specified |
| SliceWalk.GetFields | src/slice.ts:173-175 | the `for (const k of keys)` loop as specified |
| SliceWalk.ListThrowPersists | src/slice.ts:156 | once an element throws, the array walk throws |
| SliceWalk.RecordThrowPersists | src/slice.ts:156 | once a field throws, the object walk throws |
| SliceWalk.InstanceFlattening | src/slice.ts:151-158 | an instance at the root throws; elsewhere it is reported and replaced by its state |
| SliceWalk.LeadingInstanceList | src/slice.ts:160-164 | an array whose first element is an instance reports only that element (at `<parent>/0`) and becomes `[]` |
| SliceWalk.BareKeyPaths | src/slice.ts:173-175 | an instance two fields down is reported under its own key only |
| LegacySlice.NestActionsSlices | src/slice.ts:212-221 | the registration loop lists the actions in order under `${name}/${k}` and leaves other keys alone |
| LegacySlice.NestActionsRules | src/slice.ts:213-219 | every action `act` gets the nested reducer `${k}/${act}` aimed at the embedded slice |
| LegacySlice.NestActionsDistinct | src/slice.ts:214 | the nested reducer names stay distinct |
| LegacySlice.RegisterFound | src/slice.ts:210-222 | the corrected guard refuses, with `DuplicateName`, exactly a key already registered; otherwise it adds exactly that key |
| LegacySlice.RegisteredTables | src/slice.ts:212-221 | a fresh registration lists the actions under the new key, leaves others alone and adds one nested reducer per action |
| LegacySlice.RegisterAsWrittenOverwrites | src/slice.ts:211-212 | as written, the guard lets a second embedding overwrite `app/a` (Findings) |
| LegacySlice.RegisterAsWrittenGuard | src/slice.ts:211-221 | as written, the callback refuses exactly when the bare path `k` is a registry key; otherwise `${name}/${k}` lists the found slice's actions alone, whatever it held before |
| LegacySlice.BareKeyCollision | src/slice.ts:174-211 | two slices under the same field name in different records are both reported as `a`; as written both registrations pass and the second replaces the first under `app/a`, while the corrected guard refuses the second (Findings) |
| LegacySlice.NestedReducersOverride | src/slice.ts:224-227 | in `{ ...actions, ...nestedActions }` a nested reducer wins over a user reducer of the same name |
| LegacySlice.RunNested | src/slice.ts:214-218 | the nested reducer drops the slice name, routes the rest of the shared keys and consumes them |
| LegacySlice.Binding.Call | src/slice.ts:106-108 | a bound action dispatches its shared key array, which the reducer consumes (Findings) |
| LegacySlice.Binding.CallWithCopy | src/slice.ts:106-108 | dispatching a copy leaves the binding's keys intact |
| LegacySlice.BindingWorksOnce | src/slice.ts:215-217 | as written, a second call of the same bound action routes nowhere and changes nothing |
| LegacySlice.CopiedBindingRepeats | src/slice.ts:215-217 | with copied keys, the second call reaches the same node again |
| LegacySlice.SliceActionsNames | src/slice.ts:105-109 | the actions object has exactly the listed names, with no duplicates |
| LegacySlice.SliceActionsBind | src/slice.ts:105-109 | each listed name dispatches `${fnKey}/${act}` with the node's keys |
| LegacySlice.SliceDecorateBinds | src/slice.ts:100-117 | an object or null node carries every action listed under its joined keys |
| LegacySlice.SliceFieldsFind | src/slice.ts:112-115 | after the `for...in` loop, every field holds its value decorated one level down, at `[...keys, key]` |
| LegacySlice.SliceDecorateKeepsField | src/slice.ts:112-117 | a data field that no listed action shadows survives the spread, decorated with its own name appended to the keys |
| LegacySlice.SliceBindingReachesNode | src/slice.ts:101-108 | a bound action's key is the registered key; its type names a registered nested reducer, and that reducer rewrites the addressed node |
| LegacySlice.NestedReachesSegs | src/slice.ts:214-217 | the nested reducer routes the keys after the slice name |
| LegacySlice.ProxyGet | src/slice.ts:130-145 | a proxy read pushes the key onto the shared keys, caches the projection and returns a proxy sharing the same array |
| LegacySlice.ProxyGetCopied | src/slice.ts:137-144 | with a copied key array, the proxy's own keys are untouched |
| LegacySlice.SharedKeysCorruptCache | src/slice.ts:137-141 | as written, reading `n.car.a` then `n.car.b` caches a selector for `car.b` under the key of path `n`, `car`, `a`, `b` (Findings) |
| LegacySlice.CopiedKeysKeepCache | src/slice.ts:138-141 | with copied keys, two sibling reads keep the cache coherent |
| LegacySlice.SliceFieldProxy | src/slice.ts:267-273 | reading a plain field of a slice yields a proxy for `[name, k]` whose selector reads `state[k]` without a guard: it throws on a null or undefined slice state and otherwise reads that field (`undefined` for `0`) |
| LegacySlice.SliceSelectAgrees | src/slice.ts:141 | on a truthy slice state, every selector of the older cache (unguarded first step, guarded deeper steps) reads what the guarded projection reads |
| LegacySlice.SliceFieldOfFalsyState | src/slice.ts:270 | on a slice state of `0` the field selector gives `undefined` and on `null` it throws, where a guarded projection returns the state itself |
| LegacySlice.DefineSlice | src/slice.ts:209-240 | with the corrected guard (see Left out): a refused registration, a root instance or a taken name fails without touching the selector table; otherwise the registry holds the registration and the reducers are the user's overridden by the nested ones |
| LegacySlice.RegisterAll | src/slice.ts:210-222 | with the corrected guard: the callback's registrations over all reported instances, stopping at the first refusal |
| LegacySlice.OnFound | src/slice.ts:210-221 | with the corrected guard, one callback call: refuse and leave the registry unchanged, or register as specified |

## Left out

- React hooks (`useSelector`, `useDispatch`) and the closures they return: the model states which selector and which keys each hook uses.
- JavaScript `Proxy` interception: property reads are explicit functions (`Accessor.ModelAccess`, `LegacySlice.SliceRead`).
- Redux Toolkit internals are not modelled: `createSlice`, `buildCreateSlice`, immer drafts, action creators and the execution of thunks and their promises. Reducers are abstract functions.
- `sliceReducers` (src/model.ts:437-471) and the detection of async actions by payload-creator identity (src/model.ts:451-462): which actions are async is given as data (`Models.ModelRef.asyncActions`).
- reselect memoisation is not modelled: selectors are values (`Selectors.Sel`, `Selectors.Derived`). `JSON.stringify` is an abstract `encode` parameter.
- `src/api.ts` and the TypeScript type-level helpers are not part of this model.
- Floating-point numbers and `Date` values: numbers are integers.
- `parseInt` is modelled as an optional sign and leading decimal digits. Hex prefixes, leading whitespace and non-ASCII digits are left out.
- Case changes in `use<Name>` cover ASCII letters only.
- The `extra` reducers of `slice` (src/slice.ts:207) and the `options` of `model` go straight to Redux Toolkit and are left out.
- The `useSelect`/`useAction`/`use` properties that the accessors attach to selectors and action creators are side effects on foreign objects and are left out.
- Reducers of embedded models are looked up by model name, names being unique by the duplicate check.
- Router.Applied: a path through a missing node leaves the state unchanged. In the source, reading a field of `undefined` throws, or the reducer runs on `undefined`. The paths the flattener builds always resolve.
- Naming.DecoratedNamesRegistered: proved only for paths made of plain field names (non-numeric, without `/`) and for unprefixed, non-async actions. Markers inside plain arrays and models nested inside list elements are not covered. It also requires that every other callback of the walk leaves the embedding alone: none resets `${name}/${p}`, and none writes a reducer named `p/act`. A declared key such as `"a/b"` next to an embedding at `a.b` breaks this, since the later callback resets the shared key.
- Selectors.DefaultCacheKeyInjective: assumes that `encode` is injective and never produces `|`. `JSON.stringify` of a string containing `|` breaks this. It also requires both argument lists to be non-empty: `[]` and `[undefined]` both give the key `""`.
- Selectors.AddedCoherent: assumes that no path segment contains `|`.
- Accessor.ReachedProxy: covers chains of plain field names only, without `|`, `$$` or `use` prefixes, actions or selectors.
- Accessor.ProxyHookFindsRegistry: covers the same plain field chains only.
- LegacySlice.DefineSlice: does not state what the registry holds after a refused registration.
- LegacySlice.DefineSlice: registers with the corrected guard on `${name}/${k}` (`LegacySlice.Register`), not the bare-key guard of src/slice.ts:211. Where the two differ, as for two slices under the same field name in different records, the model refuses the slice and the source accepts it with the second registration overwriting the first (`LegacySlice.BareKeyCollision`, `LegacySlice.RegisterAsWrittenGuard`).
- LegacySlice.RegisterAll: uses the same corrected guard as `LegacySlice.DefineSlice`.
- LegacySlice.RegisterAll: does not state what the registry holds after a refusal. The source keeps the entries that the earlier callbacks wrote (src/slice.ts:212-220).
- LegacySlice.OnFound: uses the same corrected guard as `LegacySlice.DefineSlice`.
- Tree.AssignFind: every new key is placed last. JavaScript places integer-like keys such as `"0"` or `"12"` first, in ascending order, for `for...in`, `Object.keys` and spread. The model does not order them that way, so `Tree.Assign`, the decorator's field and action objects and `ActionProxy.Spread` differ from the source in key order (not in contents) when such keys occur.
- LegacySlice.SliceBindingReachesNode: covers only key lists whose join is the reported path.
- Define.DefineModel: requires a well-formed declared state (`Flatten.WellFormed`), which excludes a marker whose default is itself a marker. The signature of `asModel` (src/model.ts:357-359) types the default as the embedded model's state, so TypeScript callers cannot pass such a default. The same requirement holds for the flattener members of `Flatten` and `Naming`.
- The model-level `useAll` (src/model.ts:532-537) decorates with `[]`, so its lookups use the model's own name alone. Its result is given by `Accessor.ModelHook`, and no separate property is proved about it.

## Findings

| source | as written | input that shows it | evidently intended | confidence | as-written member | corrected member |
|---|---|---|---|---|---|---|
| src/model.ts:245 | a field proxy keeps `$$keys` starting with the model name (582, 275), and its `useAll` decorates with them | model `app` with an embedding at field `a`: `app.a.useAll()` looks up `app/app/a` but the callback registered `app/a` | decorate with the keys below the model, as `use<Field>` does (563) | high, not executed | Accessor.ProxyHookMissesRegistry | Accessor.ProxyHookFindsRegistry |
| src/model.ts:495 | the thunk wrapper destructures `data` from an envelope whose field is `$$data` | any dispatch of a decorated async action with payload `p`: the thunk receives `undefined` | pass `$$data` to the payload creator | high, not executed | AsyncPhases.ThunkLosesPayload | AsyncPhases.ThunkReceivesPayload |
| src/model.ts:567-570 | reading a selector member sets `useSelect` but does not return the selector, so control falls through to the field proxy | a model with selector `total` and no field or action `total`: `model.total` is a proxy over `undefined` | return the selector | medium, not executed | Accessor.SelectorReadFallsThrough | Accessor.SelectorReadable |
| src/slice.ts:107 | a bound action dispatches the decorator's own `keys` array, and the nested reducer shifts it empty (216, 186) | calling the same bound action twice on one render: the second call routes nowhere | dispatch a copy `[...keys]`, as src/model.ts:216 does | medium, not executed | LegacySlice.BindingWorksOnce | LegacySlice.CopiedBindingRepeats |
| src/slice.ts:137 | a proxy read pushes onto the shared `$$keys` array | `n.car.a` then `n.car.b` on the same `car` proxy caches the selector for `car.b` under the key of path `n`, `car`, `a`, `b` | extend a copy, `[...t.$$keys, k]`, as src/model.ts:275 does | high, not executed | LegacySlice.SharedKeysCorruptCache | LegacySlice.CopiedKeysKeepCache |
| src/slice.ts:211 | the duplicate guard tests `nestedSlices[k]` but the entry written is `${name}/${k}` | slice `app` with state `{x: {a: S1}, y: {a: S2}}`: the walk reports `a` twice, both registrations pass, and `app/a` ends up listing only S2's actions | test `nestedSlices[${name}/${k}]` | medium, not executed | LegacySlice.BareKeyCollision | LegacySlice.RegisterFound |
