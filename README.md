# inversify-components runtime core, modelled in Dafny

This project models the runtime part of the inversify-components framework. It covers the parts that hold state or follow ordering rules:

- **Hook pipe** (`HookPipes`). This is an ordered list of hooks plus a captured argument tuple, modelled as a value that no operation of the pipe changes. It runs in one of two modes:
  - as a *filter*, which stops at the first hook that reports failure;
  - with a *result set*, which runs every hook and sorts each entry into the successful or the failed list.

  Hooks are opaque values. Invoking one is an oracle `run(hook, mode, arguments)` that yields either a boolean or a `{success, result}` object. The run methods are proved equal to the specification functions `Partition`, `FirstFailure` and `InvokedCount`. The filter and result-set promises are proved as lemmas about those functions.
- **Component registry** (`Registry`). This is a catalog of components keyed by name. `Add` fails on a duplicate name, `Lookup` fails on an unknown name, and `GetBinder` goes through `Lookup`.
- **Message bus** (`MessageBuses`). This is an append-only list of (token, handler) registrations. An emit returns the sequence of handler invocations it makes.
- **Layered message bus** (`LocalMessageBuses`). It dispatches locally first and then forwards the same message to a shared root bus.
- **Component value** (`Components`).
- **Meta injection name** (`MetaInjection`). This is `meta:component//<name>`.

Interface symbols are the opaque `Tokens.Token`, which supports equality only. `Outcomes` holds `Option`, `Result` and `Outcome`, which model the thrown errors and the optional fields.

## Model

| member | source | states |
|---|---|---|
| `Components.NewComponent` | src/component/component.ts:7-10 | the component's name and extension points are the constructor arguments; the extension points default to the empty list |
| `MetaInjection.MetaInjectionName` | src/get-meta-injection-name.ts:6-8 | the result starts with `meta:component//`, is 16 characters longer than the name, and dropping the prefix gives back the name |
| `MetaInjection.ComponentNameOfMetaInjectionName` | src/get-meta-injection-name.ts:7 | reading the name back out of an injection name gives the component it was made for |
| `MetaInjection.MetaInjectionNameOfComponentName` | src/get-meta-injection-name.ts:7 | every string with the reserved prefix is the injection name of the component read back from it |
| `MetaInjection.MetaInjectionNameInjective` | src/get-meta-injection-name.ts:6-7 | distinct component names give distinct injection names |
| `Registry.AddTo` | src/component/registry.ts:27-33 | add fails with DuplicateRegistration exactly when the name is taken; otherwise the catalog gains only that name, mapped to the component, and every other entry is unchanged |
| `Registry.LookupIn` | src/component/registry.ts:15-21 | lookup fails with NotFound exactly when the name is not registered; otherwise it returns the stored component |
| `Registry.AddThenLookup` | src/component/registry.ts:27-33 | after a successful add, the new name looks up to the added component and every other name looks up as before |
| `Registry.AddTwiceFails` | src/component/registry.ts:28-30 | a second add under a taken name fails, whatever the component |
| `Registry.ComponentRegistry.constructor` | src/component/registry.ts:5 | a new registry is empty |
| `Registry.ComponentRegistry.IsRegistered` | src/component/registry.ts:23-25 | true exactly for registered names; it changes nothing |
| `Registry.ComponentRegistry.Lookup` | src/component/registry.ts:15-21 | returns the stored component or NotFound, as LookupIn; it changes nothing |
| `Registry.ComponentRegistry.GetBinder` | src/component/registry.ts:11-13 | fails with NotFound exactly when lookup fails; otherwise returns a binder over the looked-up component and the given container |
| `Registry.ComponentRegistry.Add` | src/component/registry.ts:27-33 | on a taken name, fails and leaves the catalog unchanged; otherwise the catalog becomes AddTo's |
| `Registry.InheritedNameRejectedAsWritten` | src/component/registry.ts:23-25 | as written, `isRegistered("toString")` holds on an empty registry, and adding a component named `toString` fails where the intended add succeeds |
| `Registry.IsRegisteredAsWritten` | src/component/registry.ts:23-25 | the membership test as written: true exactly for the stored names and the names inherited from Object.prototype |
| `Registry.AddAsWritten` | src/component/registry.ts:27-33 | add as written: the same as the intended add for every name except an inherited one, which always fails with DuplicateRegistration |
| `Registry.RegisteredComponentsAsWritten` | src/component/registry.ts:7-9 | the getter as written, evaluating itself with one stack frame per call: it never yields a catalog |
| `Registry.LookupAsWritten` | src/component/registry.ts:15-21 | lookup as written, through that getter: it never returns a component, and on a name the as-written membership test rejects it fails exactly as the intended lookup does |
| `Registry.GetterAsWrittenOverflows` | src/component/registry.ts:7-9 | as written, the `registeredComponents` getter overflows the stack at any depth and never yields the catalog |
| `Registry.LookupAsWrittenOverflows` | src/component/registry.ts:15-21 | as written, looking up any registered name overflows the stack, where the intended lookup returns the stored component |
| `HookPipes.Normalize` | src/core-component/hook-pipe.ts:36-39 | a boolean `b` becomes `{success: b}` with no result; an object result is passed through unchanged |
| `HookPipes.NewHookPipe` | src/core-component/hook-pipe.ts:7-10 | the pipe holds the given hooks and arguments; the arguments default to empty |
| `HookPipes.HookPipe.WithArguments` | src/core-component/hook-pipe.ts:20-22 | the new pipe has the same hooks and the given arguments; the receiver is a value and keeps its own |
| `HookPipes.HookPipe.Partition` | src/core-component/hook-pipe.ts:45-56 | after the first n hooks run, the two lists together hold n entries |
| `HookPipes.HookPipe.FirstFailure` | src/core-component/hook-pipe.ts:51-52 | every hook before the returned position succeeds, and the hook at it fails unless it is the end of the list |
| `HookPipes.HookPipe.ExecuteWithResultset` | src/core-component/hook-pipe.ts:36-39 | invokes hook i with the given mode and the pipe's own arguments, and returns its normalised result |
| `HookPipes.HookPipe.ExecuteAll` | src/core-component/hook-pipe.ts:41-63 | invokes the hooks in index order, each once, with the mode and the pipe's arguments. With stop-on-failure it invokes up to and including the first failing hook, otherwise all of them. Each entry goes to the list its own result selects |
| `HookPipes.HookPipe.RunAsFilter` | src/core-component/hook-pipe.ts:24-29 | runs in Filter mode with stop-on-failure. The summary is successful exactly when no entry failed, and it carries the pipe's arguments |
| `HookPipes.HookPipe.RunWithResultset` | src/core-component/hook-pipe.ts:31-34 | runs every hook in ResultSet mode. The summary is successful exactly when no entry failed, and it carries the pipe's arguments |
| `HookPipes.PartitionAllSucceed` | src/core-component/hook-pipe.ts:45-56 | while every hook succeeds, the successful list holds all their entries in order and the failed list is empty |
| `HookPipes.PartitionPicks` | src/core-component/hook-pipe.ts:49 | each list keeps hook-index order; each entry pairs a hook with its own result; every hook run is in exactly one of the two lists |
| `HookPipes.FilterRunStopsAtFirstFailure` | src/core-component/hook-pipe.ts:27-28 | a filter run invokes up to and including the first failing hook and no later one. The failing hook alone is failed, and it is the last one invoked. If none fails, every hook is successful in order, and the run is successful |
| `HookPipes.ResultSetRunCoversAllHooks` | src/core-component/hook-pipe.ts:32-33 | a result-set run invokes every hook; the two lists together hold one entry per hook; the run is successful exactly when every hook succeeds |
| `HookPipes.EmptyPipeSucceeds` | src/core-component/hook-pipe.ts:46 | with no hooks, both runs are successful with both lists empty |
| `HookPipes.ThreeHookExample` | src/core-component/hook-pipe.ts:24-34 | with hooks H1 ok, H2 failing, H3 ok, the filter run invokes two hooks and reports [H1] / [H2]; the result-set run reports [H1, H3] / [H2] |
| `MessageBuses.Dispatch` | src/core-component/message-bus.ts:8-12 | every invocation carries the emitted message and a handler registered on its token; with no registration on that token nothing is invoked |
| `MessageBuses.DispatchAppend` | src/core-component/message-bus.ts:9-11 | handlers registered earlier are invoked earlier: dispatch over two runs of registrations is the first's followed by the second's |
| `MessageBuses.DispatchFollowsPositions` | src/core-component/message-bus.ts:9-11 | the k-th invocation is the handler of the k-th registration on the message's token, with the message itself |
| `MessageBuses.MatchingPositionsIncrease` | src/core-component/message-bus.ts:9-11 | matching registrations are served in registration order |
| `MessageBuses.MatchingPositionsComplete` | src/core-component/message-bus.ts:10 | no registration on the message's token is skipped |
| `MessageBuses.DispatchCount` | src/core-component/message-bus.ts:10-11 | a handler registered k times on the message's token is invoked k times, and a handler never registered on it is not invoked |
| `MessageBuses.Deliver` | src/core-component/message-bus.ts:9-11 | the filter-then-forEach over the registry makes exactly Dispatch's invocations |
| `MessageBuses.MessageBus.constructor` | src/core-component/message-bus.ts:6 | a new bus has no registrations |
| `MessageBuses.MessageBus.On` | src/core-component/message-bus.ts:14-16 | appends exactly one registration at the end, without de-duplication |
| `MessageBuses.MessageBus.Emit` | src/core-component/message-bus.ts:8-12 | makes exactly Dispatch's invocations; the registry is not modified |
| `MessageBuses.TwoHandlersInOrder` | src/core-component/message-bus.ts:8-12 | with A then B on token T and X on another token, emitting on T invokes A then B and never X |
| `LocalMessageBuses.LocalMessageBus.constructor` | src/core-component/local-message-bus.ts:7-8 | a new local bus has no registrations and holds the given root bus |
| `LocalMessageBuses.LocalMessageBus.On` | src/core-component/message-bus.ts:14-16 | registers on the local bus only; the root's registry is unchanged |
| `LocalMessageBuses.LocalMessageBus.Emit` | src/core-component/local-message-bus.ts:10-13 | the invocations are the local dispatch followed by one root dispatch of the same message; neither registry changes |
| `LocalMessageBuses.RootHandlerOnceAfterLocal` | src/core-component/local-message-bus.ts:10-13 | a handler registered once on the root and not locally is invoked exactly once, after every local invocation |

## Left out

- Promises and `async`/`await`: each hook is awaited before the next starts, so a run is modelled as synchronous, sequential evaluation.
- Hook exceptions and handler exceptions are not modelled. Neither `executeWithResultset` nor `emit` catches anything, so an exception aborts the whole run or emit: a hook's exception is not turned into a failed hook, and a handler's exception stops the handlers after it.
- Sharing of the pipe's arrays by reference is not captured. The constructor stores the caller's `hooks` and `args` arrays (hook-pipe.ts lines 8-9); the `hooks` and `arguments` getters (lines 12-18) return those same arrays; `withArguments` hands `this.hooks` to the new pipe (line 21); and both summaries return `this.arguments` (lines 28 and 33). So in the source a `push` onto a summary's `arguments` changes what later runs of the same pipe pass to their hooks, and a `push` onto `pipe.hooks` changes that pipe and every pipe made from it by `withArguments`. The model keeps hooks and arguments as sequence values in `HookPipe`, `NewHookPipe`, `HookPipe.WithArguments`, `HookPipe.RunAsFilter` and `HookPipe.RunWithResultset`, so mutation through a returned array, and the aliasing between pipes, is not modelled.
- Handler and hook side effects: handlers and hooks are opaque values, and hook results come from a deterministic oracle. A handler that registers new handlers during an emit is not modelled. The source's `filter` snapshots the registry, and so does the model's `Deliver`.
- `undefined` entries in a hook array: the source ends a run at the first `undefined` entry (hook-pipe.ts line 46). Hooks in the model are always present values, so a run ends at the end of the list.
- The pipe factory (src/core-component/descriptor.ts) is not part of this model. It collects bound hooks from the injection container, and an empty pipe results when nothing is bound.
- The binder (src/component/binder.ts) is a pass-through to the injection container. `ComponentBinder` keeps only the component and an opaque container.
- The container (src/container/container.ts), the interface declarations, the build file and the demo test are not part of this model.
- Descriptor-based registration (`addFromDescriptor`, `executeBinding`, `autobind`), component configuration and interface tables do not exist in registry.ts or component.ts at this revision, so they are not modelled.
- Error message strings, JavaScript `symbol` identity (modelled as `Token` equality), and decorator and injection metadata.
- The `registeredComponents` getter has no member in the class, which reads the stored catalog directly. The getter as written appears only in the Findings members.
- The unused local `resultSet` in `runAsFilter` has no behaviour and is not modelled.

## Findings

| source | as written | input that shows it | evidently intended | confidence | as-written member | corrected member |
|---|---|---|---|---|---|---|
| src/component/registry.ts:7-9 | the getter `registeredComponents` returns `this.registeredComponents`, so it calls itself until the stack overflows; `lookup` reads through it | `add(new Component("core"))`, then `lookup("core")` | return `this._registeredComponents[name]` | high; not executed | `Registry.LookupAsWrittenOverflows` | `Registry.ComponentRegistry.Lookup` |
| src/component/registry.ts:23-25 | `componentName in this._registeredComponents` also reports the keys every plain object inherits from Object.prototype | `isRegistered("toString")` on an empty registry is true, and `add(new Component("toString"))` throws DuplicateRegistration | membership among registered names only | high; not executed | `Registry.InheritedNameRejectedAsWritten` | `Registry.ComponentRegistry.IsRegistered` |
