# xstate-lit bridge: a Dafny model

xstate-lit connects a Lit component's lifecycle to an XState actor. A
reactive controller registers with its host element. It stores a projection
(`selector`) of the actor's snapshot and subscribes to the actor. On every
emission it asks the host to re-render only when the comparator (`compare`)
says the projection changed. `hostDisconnected` cancels the subscription.
`SelectState` goes one step further: it finds its actor through a context at
every `hostConnected`, and it tears down the previous inner controller
before it creates a new one.

The model has these modules:

- `Comparators`: `defaultCompare` (`===`), `compareArrays` and
  `compareObjects`. Arrays are `seq<V>`, plain objects are
  `map<string, V>` over their own keys, and `===` is Dafny equality.
- `Lit`: the one part of the host protocol the controllers use. A `Host`
  records the controllers it registered and counts its `requestUpdate` calls.
- `Gating`: what the subscription callback means, written as pure
  functions. `React` covers one emission. `Run` folds a sequence of
  emissions. `Requests` counts the updates a host receives from all the
  listeners of an actor. The lemmas about them live here too.
- `DirectSelect`: the controller of `src/selector-controller.ts`, which
  reads its initial value with `getSnapshot()`. It also holds the actor
  collaborator as a class. The actor has a snapshot and its `listeners`,
  indexed by subscription id, plus the set of `live` ids. `Emit` is the
  actor's notification loop, which calls `OnEmit` on every live listener.
- `ServiceSelect`: the controller of `src/select-controller.ts`, with the
  snapshot dispatch `isService` / `isActorWithState` / `getServiceSnapshot`
  / `getSnapshot`. Actor references are an `ActorRef` datatype whose
  `state` and `machine` properties are optional. The dispatch can yield
  `undefined`, so this variant's selector takes an `Option<S>`.
- `ContextSelect`: `SelectState` and `connectState` of
  `src/select-state.ts`, over a `Context` slot that holds a `service` and a
  `ContextConsumer` that is either engaged or not. The ghost field `inners`
  records every inner controller created so far. `Valid()` states that the
  newest one is `selectorController` and that all the others are
  unsubscribed.

One might expect the stored value to always equal `selector(last snapshot)`.
The code replaces it only when `compare` reports a change, so a comparator
coarser than `===` can leave it behind the latest emission.
`Gating.StoredValueCanLag` exhibits this. `Gating.RunWithEquivalence` shows
what does hold for any equivalence comparator, `===` or a deep equality:
- the stored value is always equivalent to the latest projection;
- the number of update requests is the number of emissions whose
  projection is not equivalent to the previous one.

Only the stored value lags; the count does not. `Gating.RunWithIdentity` is
the special case for `===`, where the stored value is the latest projection.

The two controller variants each have their own `Actor` class, and the two
classes are deliberately the same apart from the snapshot they carry.
Dafny has no way to share one class across element types here without
traits. `DirectSelect.Actor` has a plain snapshot. `ServiceSelect.Actor` has
an `ActorRef` and emits `Some(e)` to a selector on `Option<S>`.

## Model

| member | source | states |
|---|---|---|
| Comparators.DefaultCompare | src/select-state.ts:6 | `defaultCompare`: the two values are `===`; the same one-liner is at src/select-controller.ts:4 and src/selector-controller.ts:4; `Gating.RunWithIdentity` gives its effect on the controllers |
| Comparators.CompareArrays | src/select-state.ts:89-90 | `compareArrays`: equal lengths, and then the `every` walk; `Comparators.CompareArraysIff` characterises it |
| Comparators.EveryFrom | src/select-state.ts:90 | the `every((value, idx) => value === b[idx])` walk from `idx` on; `Comparators.EveryFromIff` characterises it |
| Comparators.CompareObjects | src/select-state.ts:92-98 | `compareObjects`: equal own-key counts, and every own key of `o1` is an own key of `o2` with a `===` value; `Comparators.CompareObjectsIsEquality` characterises it |
| Comparators.EveryFromIff | src/select-state.ts:90 | the `every` walk from index `idx` succeeds iff `a[j] == b[j]` for every `j` from `idx` on |
| Comparators.CompareArraysIff | src/select-state.ts:89-90 | `compareArrays(a, b)` holds iff the lengths are equal and the elements agree at every index |
| Comparators.CompareArraysIsEquality | src/select-state.ts:89-90 | `compareArrays` is exactly sequence equality |
| Comparators.CompareArraysLengthMismatch | src/select-state.ts:90 | arrays of different lengths never compare equal |
| Comparators.CompareArraysSymmetric | src/select-state.ts:89-90 | `compareArrays(a, b) == compareArrays(b, a)` |
| Comparators.CompareObjectsIsEquality | src/select-state.ts:92-98 | equal own-key counts plus containment with `===` values hold iff the two objects are the same map |
| Comparators.CompareObjectsSymmetric | src/select-state.ts:92-98 | `compareObjects(o1, o2) == compareObjects(o2, o1)` |
| Comparators.CompareObjectsMissingKey | src/select-state.ts:96 | an own key of `o1` that `o2` lacks makes `compareObjects` false |
| Comparators.ComparatorExamples | src/select-state.ts:89-98 | `[1,2,3]` equals `[1,2,3]`; `[1,2]` differs from `[1,2,3]`; `{a:1,b:2}` equals itself; `{a:1}` differs from `{a:1,b:2}` |
| Gating.RunOne | src/selector-controller.ts:27-33 | a run of one emission e is one callback: it keeps the stored value with no request when `compare(selected, selector(e))`, and otherwise it stores `selector(e)` with one request |
| Gating.RunSnoc | src/selector-controller.ts:27-33 | one more emission is one more callback, applied to the value the earlier emissions left |
| Gating.RunRequestsAtMostOnePerEmission | src/selector-controller.ts:27-33 | n emissions request at most n updates |
| Gating.RunWithEquivalence | src/selector-controller.ts:25-33 | with a reflexive, symmetric and transitive comparator, a run of emissions ends with a stored value equivalent to the latest projection, and it requests exactly as many updates as there are positions where the projection is not equivalent to the one before (the initial snapshot's projection comes first) |
| Gating.ChangesByIdentity | src/selector-controller.ts:4 | under `===`, counting changes by the comparator is counting positions where the projection differs from the one before |
| Gating.RunWithIdentity | src/selector-controller.ts:25-33 | with `===` as the comparator, a run of emissions ends with the projection of the latest emission stored, and it requests exactly as many updates as there are positions where the projection differs from the one before (the initial snapshot's projection comes first) |
| Gating.StoredValueCanLag | src/select-controller.ts:54-60 | with an always-true comparator, a start at 0 followed by an emission of 1 keeps 0 and requests nothing |
| Gating.RequestsSnoc | src/selector-controller.ts:27-33 | the requests a host receives over `es + [e]` are those over `es` plus those of the single emission `e` to the listeners as `es` left them |
| Gating.AdvanceAllSnoc | src/selector-controller.ts:27-33 | emitting `es` and then `e` leaves every listener where emitting `es + [e]` does |
| Gating.AtMostOneRequestPerEmission | src/select-state.ts:47-64 | a host with at most one live listener receives at most one request per emission, and none when it has no live listener |
| DirectSelect.Actor.Subscribe | src/selector-controller.ts:27 | the listener gets the next subscription id, which becomes live; the actor's invariant is kept |
| DirectSelect.Actor.Unsubscribe | src/selector-controller.ts:41 | removes the id from the live set, so a second call changes nothing |
| DirectSelect.Actor.Emit | src/selector-controller.ts:27-33 | the snapshot becomes `e`; every listener's new stored value is `AdvanceAll(old slots, [e])`, so only live listeners run the callback; every host's counter rises by `Requests(h, old slots, [e])`; subscriptions and registrations are unchanged |
| DirectSelect.Actor.EmitEach | src/selector-controller.ts:25-33 | the snapshot becomes the last of `es`, and stays as it was when `es` is empty; a sequence of emissions leaves every listener at `AdvanceAll(old slots, es)`, and it raises each host's counter by `Requests(h, old slots, es)`, which is the sum over its live listeners of the updates `Run` counts |
| DirectSelect.Actor.Notify | src/selector-controller.ts:27-33 | the notification loop: each listener's stored value becomes its advanced value, and each host's counter rises by `Requests(h, slots, [e])` |
| DirectSelect.Actor.Deliver | src/selector-controller.ts:27-33 | listener `i`'s callback runs only if its id is live; it changes no other listener, and each host's counter rises by that listener's share |
| DirectSelect.SelectorController.constructor | src/selector-controller.ts:16-34 | `value == selector(actorRef.getSnapshot())`; the controller is added to the host once and was not there before; no update is requested; it is subscribed under the next id, which is live |
| DirectSelect.SelectorController.OnEmit | src/selector-controller.ts:27-33 | when `compare(selected, selector(e))` is false, it stores `selector(e)` and the counter rises by exactly 1; otherwise both are unchanged |
| DirectSelect.SelectorController.Value | src/selector-controller.ts:36-38 | the `value` getter returns the stored `selected`; the constructor, `OnEmit` and `Actor.Emit` state what it then reads |
| DirectSelect.SelectorController.HostDisconnected | src/selector-controller.ts:40-42 | its subscription id is no longer live, and nothing else changes; a repeated call is harmless |
| DirectSelect.ConnectSelector | src/selector-controller.ts:45-56 | leaves the same state as the constructor |
| DirectSelect.CounterScenario | src/selector-controller.ts:25-42 | `{count:0}`, then emitting `{count:0}`: value 0, no update; emitting `{count:1}`: value 1, one update; after `hostDisconnected`, emitting `{count:2}`: value 1, still one update |
| ServiceSelect.IsService | src/select-controller.ts:6-10 | `isService`: the reference has both a `state` and a `machine` property, so every service is also an actor with state |
| ServiceSelect.IsActorWithState | src/select-controller.ts:12-16 | `isActorWithState`: the reference has a `state` property |
| ServiceSelect.GetServiceSnapshot | src/select-controller.ts:18-24 | `getServiceSnapshot`: `getSnapshot()` of a started service, else `machine.initialState`; `ServiceSelect.GetSnapshotCases` states both outcomes |
| ServiceSelect.GetSnapshot | src/select-controller.ts:26-31 | the result is defined iff the reference has `state` (services included, as `isService` implies `isActorWithState`); a service gets `getServiceSnapshot`; any other reference gets its `state` |
| ServiceSelect.GetSnapshotCases | src/select-controller.ts:18-31 | a running service gives `getSnapshot()`; a service with status 0 gives `machine.initialState`; a reference with `state` and no `machine` gives `state`; a reference without `state` gives `undefined` |
| ServiceSelect.Actor.Subscribe | src/select-controller.ts:54 | the listener gets the next subscription id, which becomes live |
| ServiceSelect.Actor.Unsubscribe | src/select-controller.ts:68 | removes the id from the live set, so a second call changes nothing |
| ServiceSelect.Actor.Emit | src/select-controller.ts:54-60 | the reference moves to state `e`; the listeners advance by `AdvanceAll(old slots, [Some(e)])`; every host's counter rises by `Requests(h, old slots, [Some(e)])` |
| ServiceSelect.Actor.Notify | src/select-controller.ts:54-60 | the notification loop, as in `DirectSelect.Actor.Notify` |
| ServiceSelect.Actor.Deliver | src/select-controller.ts:54-60 | one step of the loop; only a live listener runs its callback |
| ServiceSelect.SelectorController.constructor | src/select-controller.ts:43-61 | `value == selector(getSnapshot(actorRef))`; the controller is added to the host once; no update is requested; it is subscribed under the next id |
| ServiceSelect.SelectorController.OnEmit | src/select-controller.ts:54-60 | when `compare(selected, selector(e))` is false, it stores `selector(e)` and the counter rises by exactly 1; otherwise nothing changes |
| ServiceSelect.SelectorController.Value | src/select-controller.ts:63-65 | the `value` getter returns the stored `selected` |
| ServiceSelect.SelectorController.HostDisconnected | src/select-controller.ts:67-69 | its subscription id is no longer live; a repeated call is harmless |
| ServiceSelect.ConnectSelector | src/select-controller.ts:72-83 | leaves the same state as the constructor |
| ContextSelect.ContextConsumer.HostConnected | src/select-state.ts:52 | the consumer is engaged |
| ContextSelect.ContextConsumer.HostDisconnected | src/select-state.ts:62 | the consumer is disengaged |
| ContextSelect.ContextConsumer.Service | src/select-state.ts:55 | `serviceContext.value!.service`: the service the context provides at the moment of the call |
| ContextSelect.SelectState.constructor | src/select-state.ts:30-45 | registers with the host once; a new consumer of the context that is not yet engaged; `value` is undefined; no inner controller exists; no update is requested |
| ContextSelect.SelectState.HostConnected | src/select-state.ts:47-59 | an existing inner controller is unsubscribed first; the consumer is engaged; a fresh inner controller is bound to the service the context provides at this moment, with the `compare` in effect at this moment; it is live, it is added to the host, and it becomes `selectorController`; exactly one inner subscription is live afterwards |
| ContextSelect.SelectState.Bind | src/select-state.ts:53-58 | the new inner controller is subscribed to `service`, takes the current `compare` and selector, and becomes the newest inner controller; the invariant holds again |
| ContextSelect.SelectState.HostDisconnected | src/select-state.ts:61-64 | the consumer is disengaged; the newest inner controller is unsubscribed; with no inner controller, no subscription changes; `value` is unchanged; no inner subscription is live |
| ContextSelect.SelectState.Value | src/select-state.ts:66-68 | the `value` getter: `selectorController?.value`, undefined without an inner controller; `ContextSelect.SelectState.ValueIsNewestInner` states what it returns under the invariant |
| ContextSelect.SelectState.ValueIsNewestInner | src/select-state.ts:66-68 | `value` is undefined before the first connection; from then on it is the newest inner controller's value, also after a disconnect |
| ContextSelect.SelectState.StaysValid | src/select-state.ts:47-64 | anything that leaves the `SelectState` and every inner actor's listeners and live ids as they were, such as an emission, keeps the invariant |
| ContextSelect.SelectState.AtMostOneLive | src/select-state.ts:47-64 | under the invariant, which every lifecycle call keeps, at most one inner subscription is live |
| ContextSelect.SelectState.OneRequestPerEmission | src/select-state.ts:47-64 | under the invariant every lifecycle call keeps, one emission reaches the host through the inner controllers as at most one update request, and none while no inner subscription is live; each inner controller's slot is the one its actor's `Emit` advances |
| ContextSelect.ConnectState | src/select-state.ts:71-87 | leaves the same state as the constructor |
| ContextSelect.EmitToService | src/select-state.ts:53-58 | an emission of the service the context provides keeps the `SelectState` invariant and the service's own |
| ContextSelect.ConnectEmitReconnect | src/select-state.ts:47-59 | from any state satisfying the invariant: connect, an emission, connect again; the invariant holds, the consumer is engaged, two inner controllers were added, and exactly one inner subscription is live |
| ContextSelect.ReconnectScenario | src/select-state.ts:47-59 | after two `hostConnected` calls with no disconnect in between, one emission of a changed state reaches the host as one update, not two, and `value` is the new projection |
| ContextSelect.CompareScenario | src/select-state.ts:53-58 | setting `compare` to "always equal" after a connection does not stop the live inner controller from taking a changed projection |
| ContextSelect.DisconnectScenario | src/select-state.ts:61-68 | after `hostDisconnected`, `value` still returns the last projection, and a further emission requests nothing |

## Left out

- XState's interpreter is not modelled. An emission is `Emit(e)` with the new state `e` given. `ServiceSelect.Actor.Emit` stands for the transition with `Transitioned`, which sets `getSnapshot()` and, where present, `state` to `e`, and leaves `machine` and `status` as they were.
- `machine.initialState` and the meaning of `status` beyond "0 or not" are opaque fields of `ActorRef`.
- `'x' in obj` probing is reduced to the optional `state` and `machine` fields of `ActorRef`.
- Lit's render scheduling and update batching are not modelled. The host only counts `requestUpdate` calls and records `addController` calls.
- The `ContextConsumer` of `@lit-labs/context` is not modelled beyond an engaged flag and a context slot whose `service` the provider can change. The consumer's own `addController` call on the host and the context event protocol are not modelled.
- A missing context value (`serviceContext.value!` undefined) is not modelled: the context always holds a service.
- A `selector` or `compare` that throws is not modelled: both are total Dafny functions.
- JavaScript `===` on floats (`NaN`, `-0`) is not modelled: `===` is Dafny equality on the value type.
- TypeScript's generic machinery (`TEmitted`, `InterpreterFrom`) is not modelled. An actor's listeners share one projection type `T`, and a controller needs `T` to support equality, because `defaultCompare` is its default comparator.
- DirectSelect.SelectorController.constructor: stores `selected` before `addController` (the source calls `addController` first). Dafny requires generic fields to be set before the object is published. The order is not observable, because the selector is pure and total.
- ServiceSelect.SelectorController.constructor: the same ordering as in `DirectSelect`.
- ServiceSelect.Actor: no `EmitEach` is given for this variant. A run of emissions composes from `Emit` and `Gating.RequestsSnoc` / `Gating.AdvanceAllSnoc` as it does in `DirectSelect.Actor.EmitEach`.
- ContextSelect.SelectState.HostConnected: requires the provided service to satisfy its actor invariant (ids below the listener count, each listener registered under its own id). The XState actor guarantees this, and the model does not derive it.
- Sparse arrays and inherited keys are not modelled: arrays are dense sequences, and objects have only their own keys.
- example/src/my-element.ts is not part of this model.
