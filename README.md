# TCA boundaries: action taxonomy and bounded reducer dispatch

This project models the logic of its own that the `tca-boundaries` Swift
package adds on top of the Composable Architecture (TCA):

- **The action taxonomy** (`TCAFeatureAction`). A feature's action is built by
  `view(ViewAction)`, `_internal(InternalAction)` or `delegate(DelegateAction)`.
  The protocol requires these three constructors and nothing more, so a
  conforming enum may have further cases. `FeatureAction.Action` is
  `View | Internal | Delegate | Other`, where `Other` stands for any extra case.
  The case-path extractions are partial matchers that return an `Option`.
- **The derived reducer dispatch** (`BoundingReducer`). The derived
  `reduce(into:action:)` tries the view case, then the internal case, then the
  delegate case. It hands the extracted payload to the matching handler and
  returns `.none` when no case matches. `Dispatch.Route` defines this chain
  once.
  - The older generation (`BoundedReducer` module, on `ReducerProtocol`) gives
    only the delegate handler a default.
  - The newer generation (`BoundingReducer` module, on `Reducer`) gives both the
    internal and the delegate handler a default.
  - Each generation's `Feature` records the handlers a conformer implements.
    A handler that has a default is an `Option`.
  - `reduceCore` and `coreReducer` of `ComposedBoundingReducer` exist in both
    generations and are modelled in both.
- **The store action mappings**. `viewScope` uses the identity on state and
  `Action.view` on actions. `scope(state:action:)` maps a child action `c` to
  `_internal(childPath.embed(c))`. This is the same "`_internal` appended with a
  child case path" that the `Scope`, `ifLet` and `forEach` initialisers build.
  It is modelled once, as a composed embed/extract pair (`CasePaths.Appending`).

How Swift's features are represented:

- `inout State` becomes a handler of type `(S, Payload) -> (S, Effect<Op>)`: it
  takes the state and returns the new state together with an effect.
- `State` is a type parameter.
- `Effect` is `NoEffect | Run(op)`. `NoEffect` is TCA's `.none`; `op` is an
  opaque operation.

The protocol (`TCAFeatureAction`) requires three constructors and does not
forbid further cases. The derived reduce keeps a final fall-through
(`return .none`), and the model makes it reachable through `Other`.

## Model

| member | source | states |
|---|---|---|
| FeatureAction.ExtractView | Sources/TCABoundaries/BoundedReducers/BoundingReducer.swift:35 | `/Action.view` extracts a payload exactly when the action is a view action, and the action is `view` of that payload |
| FeatureAction.ExtractInternal | Sources/TCABoundaries/BoundedReducers/BoundingReducer.swift:39 | `/Action._internal` extracts exactly from internal actions, giving back their payload |
| FeatureAction.ExtractDelegate | Sources/TCABoundaries/BoundedReducers/BoundingReducer.swift:43 | `/Action.delegate` extracts exactly from delegate actions, giving back their payload |
| FeatureAction.ExtractAfterConstruct | Sources/TCABoundaries/BoundedActions/TCAFeatureAction.swift:21-36 | extracting the view, internal or delegate case from `view(v)`, `_internal(i)`, `delegate(d)` yields exactly `v`, `i`, `d` |
| FeatureAction.ConstructorsDisjoint | Sources/TCABoundaries/BoundedActions/TCAFeatureAction.swift:21-23 | an action built with one constructor never extracts as either of the other two |
| FeatureAction.AtMostOneExtraction | Sources/TCABoundaries/BoundedActions/TCAFeatureAction.swift:26-36 | for every action at most one of the three extractions succeeds; none succeeds exactly for an extra case |
| FeatureAction.ConstructorsInjective | Sources/TCABoundaries/BoundedActions/TCAFeatureAction.swift:26-36 | two actions built by the same constructor are equal if and only if their payloads are equal |
| FeatureAction.ViewCase | Sources/TCABoundaries/BoundedActions/TCAFeatureAction.swift:34 | `/Action.view` is a lawful case path: it round-trips and extracts only what it embeds |
| FeatureAction.InternalCase | Sources/TCABoundaries/BoundedActions/TCAFeatureAction.swift:36 | `/Action._internal` is a lawful case path: it round-trips and extracts only what it embeds |
| FeatureAction.DelegateCase | Sources/TCABoundaries/BoundedActions/TCAFeatureAction.swift:35 | `/Action.delegate` is a lawful case path: it round-trips and extracts only what it embeds |
| CasePaths.Appending | Sources/TCABoundaries/TCAFeatureAction+Scope.swift:42 | `appending(path:)` keeps the round-trip law and the extracts-only-embedded law when both paths have them |
| Dispatch.Route | Sources/TCABoundaries/BoundedReducers/BoundingReducer.swift:34-48 | the derived reduce sends `view(v)` to the view handler with `v`, `_internal(i)` to the internal handler with `i`, `delegate(d)` to the delegate handler with `d`, returning that handler's state and effect; any other action gives `.none` and the state unchanged |
| Dispatch.Ignore | Sources/TCABoundaries/BoundedReducers/BoundingReducer.swift:21-31 | the default handler returns `.none` and leaves every state unchanged, for every payload |
| Dispatch.OnlyRoutedHandlerMatters | Sources/TCABoundaries/BoundedReducer.swift:34-46 | the outcome depends only on the handler the action is routed to: handler sets that agree there give the same state and effect |
| Dispatch.IgnoredRunKeepsState | Sources/TCABoundaries/BoundedReducers/BoundingReducer.swift:21-47 | reducing any number of ignored actions one after another leaves the state unchanged and yields only `.none` |
| BoundedReducer.Resolve | Sources/TCABoundaries/BoundedReducer.swift:25-30 | in the older generation the view and internal handlers in force are the conformer's; the delegate handler is the override if there is one, and otherwise returns `.none` with state unchanged |
| BoundedReducer.Reduce | Sources/TCABoundaries/BoundedReducer.swift:25-47 | older derived reduce: view and internal actions go to their handlers with their payloads; delegate actions go to the override, or yield `.none` with state unchanged by default; extra cases yield `.none` with state unchanged |
| BoundedReducer.ReduceCore | Sources/TCABoundaries/BoundedReducer.swift:51-62 | older `reduceCore` agrees with the derived reduce on every state and action |
| BoundedReducer.CoreReducer | Sources/TCABoundaries/BoundedReducer.swift:64-66 | older `coreReducer` behaves as `reduceCore`, and so as the older derived reduce, on every state and action |
| BoundedReducer.DefaultDelegateIgnored | Sources/TCABoundaries/BoundedReducer.swift:26-29 | without an override, a delegate action returns `.none` and leaves any state unchanged |
| BoundedReducer.DefaultDelegateRunKeepsState | Sources/TCABoundaries/BoundedReducer.swift:26-44 | without an override, any run of delegate actions leaves the state unchanged and yields only `.none` |
| BoundingReducer.Resolve | Sources/TCABoundaries/BoundedReducers/BoundingReducer.swift:21-31 | in the newer generation the view handler in force is the conformer's; the internal and the delegate handler are each, independently, the override if there is one, and otherwise return `.none` with state unchanged |
| BoundingReducer.Reduce | Sources/TCABoundaries/BoundedReducers/BoundingReducer.swift:21-48 | newer derived reduce: view actions go to the view handler; internal and delegate actions go to their override, or yield `.none` with state unchanged by default; extra cases yield `.none` with state unchanged |
| BoundingReducer.DefaultsIgnoreNonView | Sources/TCABoundaries/BoundedReducers/BoundingReducer.swift:21-31 | a non-view action whose handler is left to its default (whatever the other handler does) returns `.none` and leaves any state unchanged |
| BoundingReducer.DefaultsIdempotent | Sources/TCABoundaries/BoundedReducers/BoundingReducer.swift:39-45 | an internal or delegate action whose handler is left to its default yields `.none` with state unchanged, and dispatching it twice in a row gives the same as once |
| BoundingReducer.DefaultsRunKeepsState | Sources/TCABoundaries/BoundedReducers/BoundingReducer.swift:21-47 | any run of non-view actions whose handlers are left to their defaults leaves the state unchanged and yields only `.none` |
| ComposedBoundedReducer.ReduceCore | Sources/TCABoundaries/BoundedReducers/ComposedBoundedReducer.swift:9-20 | `reduceCore` routes `view(v)`, `_internal(i)`, `delegate(d)` to the view, internal and delegate handlers in force with their payloads, and gives `.none` with state unchanged when no case matches |
| ComposedBoundedReducer.CoreReducer | Sources/TCABoundaries/BoundedReducers/ComposedBoundedReducer.swift:22-24 | `coreReducer` behaves as `reduceCore`, and so as the newer derived reduce, on every state and action |
| ComposedBoundedReducer.ReduceCoreAgreesWithReduce | Sources/TCABoundaries/BoundedReducers/ComposedBoundedReducer.swift:9-20 | `reduceCore` agrees with the newer derived reduce on every state and action |
| StoreScope.ViewScope | Sources/TCABoundaries/BoundedActions/Extensions/TCAFeatureAction+Store.swift:11-13 | `viewScope` maps every state to itself and every view payload `v` to an action that extracts as view payload `v` |
| StoreScope.Scope | Sources/TCABoundaries/BoundedActions/Extensions/TCAFeatureAction+Store.swift:64-72 | `scope(state:action:)` keeps the caller's state function, and every child action `c` becomes an action that extracts as internal payload `childPath.embed(c)` |
| StoreScope.ViewScopeKeepsState | Sources/TCABoundaries/BoundedActions/Extensions/TCAFeatureAction+Store.swift:11-12 | `viewScope` maps the state by the identity |
| StoreScope.ViewScopeReachesViewHandler | Sources/TCABoundaries/BoundedActions/Extensions/TCAFeatureAction+Store.swift:12 | `viewScope` turns `v` into `view(v)`, which extracts as `v` and which the derived reduce sends to the view handler |
| StoreScope.ScopeKeepsStateFunction | Sources/TCABoundaries/BoundedActions/Extensions/TCAFeatureAction+Store.swift:64-69 | `scope(state:action:)` passes the caller's state function through unchanged |
| StoreScope.ScopeYieldsInternalOnly | Sources/TCABoundaries/BoundedActions/Extensions/TCAFeatureAction+Store.swift:68-71 | a child action `c` becomes `_internal(childPath.embed(c))`, never a view or delegate action |
| StoreScope.ScopeIsAppendedEmbed | Sources/TCABoundaries/BoundedActions/Extensions/TCAFeatureAction+Store.swift:70 | the action mapping equals the embed of `_internal` appended with the child path |
| StoreScope.ScopeRoundTrip | Sources/TCABoundaries/BoundedActions/Extensions/TCAFeatureAction+Store.swift:70 | if the child path round-trips, extracting `_internal` and then the child case from the mapped action recovers `c` |
| StoreScope.ScopedPathLawful | Sources/TCABoundaries/BoundedActions/Extensions/TCAFeatureAction+Store.swift:66-70 | a lawful child path appended to `_internal` is a lawful path from parent action to child action |

## Left out

- `TCAFeatureAction+Scope.swift` (both copies), `TCAFeatureAction+IfLetReducer.swift`, `TCAFeatureAction+ForEachReducer.swift` and `TCAFeatureAction+ReducerProtocol.swift` forward to TCA's `Scope`, `ifLet` and `forEach`. Child-before-parent ordering, effect cancellation when optional child state becomes `nil`, and the stale-identifier and stale-case warnings all happen inside TCA, which is not part of this model. Their one local step, appending `_internal` to a child case path, is `CasePaths.Appending` together with the `StoreScope` lemmas.
- `Store.scope`, the `Store`/`ViewStore` runtime, effect execution and cancellation are library code and asynchronous work. `Effect` is opaque except for `.none`. `StoreScope.Scoping` records only the two closures handed to `Store.scope`.
- Runtime-warning parameters (`fileID`, `line`, `file`) carry diagnostics only.
- The type aliases `ViewOnlyStoreOf` and `RestrictedViewStore` exist only at the type level.
- `Package.swift` is a build manifest.
- Swift protocol machinery is collapsed: `Body == Never`, `@ReducerBuilder`, and `EffectTask` versus `Effect`. A composed reducer's own `body` is TCA composition and is not modelled; only its `reduceCore` and `coreReducer` are.
- Extra cases a conforming enum may declare are represented by a single payload-less `Other`, since the dispatch treats them all alike.
- `Equatable` conformances are Dafny's structural equality on datatypes.
- Dispatch.OnlyRoutedHandlerMatters: "no other handler is called" is stated as the result not depending on the other handlers. Handlers are pure functions here, so calling one has no observable effect besides its result.
