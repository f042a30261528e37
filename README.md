# Generate-JS-Events: the EventEmitter registry and dispatch

A model of `events.js`, a small in-memory publish/subscribe emitter. Each
instance keeps a private registry `__events`, which maps an event name to a
list of `{listener, observer}` subscriptions. `on` appends to a list. `once`
registers a self-removing adapter through `on`. `off` classifies its
arguments by `typeof` and takes one of five removal branches. `emit` throws
for an unhandled `error` event, or else hands one deferred call per handler
to `setTimeout(..., 0)`. `emitEvent` stamps a payload object before emitting
it.

The Dafny project has five modules:

- `JsValues` (`js_values.dfy`) holds the JavaScript values the emitter
  inspects:
  - `typeof` tags, with `typeof null === 'object'`;
  - truthiness for `||`;
  - `undefined` for a missing argument or property;
  - reference identity, because functions (`Closure`) and objects
    (`JsObject`) are class references, so `===` is reference equality.
- `Listeners` (`listeners.dfy`) gives the registry (`map<string,
  seq<Subscription>>`) and the effect of `on` and `off` on it, as functions
  of the registry before the call, with lemmas about them.
- `Dispatch` (`dispatch.dfy`) holds:
  - the synchronous part of `emit`: whether it throws, and which calls it
    queues in which order;
  - what running one queued call does, including the once adapter, which is
    the only function body the library defines;
  - the decoration that `emitEvent` applies.
- `Emitter` (`emitter.dfy`) holds the class `EventEmitter`, with three
  fields:
  - `events`, the registry;
  - `slots`, the instance's own properties, read by `emit` as
    `'on' + event`;
  - `pending`, the FIFO of deferred calls that `setTimeout(..., 0)` feeds.

  Each method follows the source's loops: backward splicing, key-by-key
  deletion, in-order scheduling. Each is proved against the functions of
  `Listeners` and `Dispatch`. `RunNext` is one turn of the host loop.
- `Scenarios` (`scenarios.dfy`) holds client runs on a fresh emitter that
  fix what listeners observe.

Behaviours of the code that the model keeps, and that a reader might not
expect:

- An emptied list is not pruned. `off(event, listener)` that removes the
  last entry leaves `event` mapped to `[]` (`Listeners.OffKeepsEmptiedList`).
  That empty entry still suppresses the unhandled-`error` throw
  (`Dispatch.EmitThrowsOnlyForUnhandledError`).
- `once` wraps the listener in an adapter and keeps no link from the
  original listener to the adapter. So `off(event, original)` does not
  cancel a pending `once` (`Dispatch.OffOriginalKeepsAdapter`).
- The doc comment of `once` (events.js:65) says the listener "is removed
  after one 'event'". Two `emit`s in the same synchronous turn both queue
  the adapter, and both runs call the original listener
  (`Scenarios.OnceTwoEmitsRunsTwice`). "Once" holds only when the host loop
  runs the adapter before the next `emit` (`Scenarios.OnceRunThenEmit`).
- `once` with a listener that is not a function still registers an adapter.
  When the adapter runs, it removes itself and then throws a `TypeError`
  (`Dispatch.AdapterRemovesItself`).
- `off(event, listener)` or `off(event, observer)` on an event with no entry
  throws a `TypeError`, because it reads `.length` of `undefined`
  (`Listeners.OffMissingEventThrows`).
- Without a string first argument, `off(listener, object)` removes the
  entries that match either argument, not only those that match both
  (`Listeners.OffListenerObserverIsDisjunctive`).
- Every call that `emit` queues runs with `this` bound to `null`
  (`func.apply(null, args)`), so the observer is used only as a removal key.
  A `once` listener is the exception: its adapter calls it with `this` bound
  to the emitter (`listener.apply(_, arguments)`).

## Model

| member | source | states |
|---|---|---|
| JsValues.TypeOf | events.js:48-50 | `typeof` gives "object" exactly for null and objects, "function" exactly for functions, "string" exactly for strings |
| JsValues.TagsAgreeWithTypeOf | events.js:48-50 | the tag tests `IsString`, `IsFunction` and `IsObject` that the rest of the model uses agree with `typeof` |
| Listeners.NormalizeObserver | events.js:48 | an object observer (including null) is kept, any other value becomes null |
| Listeners.OnSpec | events.js:44-62 | with a string event and a function listener: exactly one `{listener, observer}` is appended to the end of that event's list, which is created if absent; every other key keeps its presence and its list. Otherwise the registry is unchanged |
| Listeners.ClassifyOff | events.js:96-112 | the three locals of `off` computed from its arguments; its contract is stated by `Listeners.OffArgumentsPickFirst` |
| Listeners.OffArgumentsPickFirst | events.js:96-112 | the event is arg0 if it is a string, else false. The listener is the first function among arg0 and arg1, else false. The observer is the first "object" (null included) among arg0 to arg2, else false |
| Listeners.FormOf | events.js:114-145 | which of the five branches the tests at lines 114, 117, 123 and 132 select; its effect is stated by `Listeners.OffSpec` and the `Off…` lemmas below |
| Listeners.Hits | events.js:119-136 | the removal test of lines 119, 125 and 136: `===` on listener AND observer, or listener OR observer; used by `Listeners.SurvivorsMembership` and `Listeners.SurvivorsCount` |
| Listeners.Survivors | events.js:118-128 | filtering never lengthens a list |
| Listeners.SurvivorsMembership | events.js:118-128 | an entry survives the splice loop exactly when it was in the list and the filter does not hit it |
| Listeners.SurvivorsCount | events.js:118-128 | every value keeps all its copies when the filter does not hit it and loses all of them when it does |
| Listeners.SurvivorsSubsequence | events.js:118-128 | the survivors keep their relative order (they are a subsequence of the list) |
| Listeners.SurvivorsAppend | events.js:118-128 | filtering distributes over concatenation |
| Listeners.SurvivorsIdempotent | events.js:118-128 | filtering twice with the same filter equals filtering once |
| Listeners.SurvivorsAllHit | events.js:118-128 | when the filter hits every entry, the list becomes empty |
| Listeners.FilterAll | events.js:133-140 | the global filter keeps every key and filters each key's list |
| Listeners.OffSpec | events.js:114-145 | `off` fails (TypeError) exactly when a per-event filter names an event with no entry; otherwise it only removes keys, never adds them |
| Listeners.OffIdempotent | events.js:114-145 | a successful `off(...)` repeated with the same arguments changes nothing more |
| Listeners.OffAllClears | events.js:141-145 | with no string, function or object among the arguments, every key is deleted, and on an empty registry the result is still empty |
| Listeners.OffEventDeletesKey | events.js:129-131 | `off(event)` deletes exactly that key; every other key and its list are unchanged |
| Listeners.OffPerEvent | events.js:114-128 | a per-event filter on an existing event keeps the keys, leaves other events unchanged, and keeps in that event's list all copies of each entry the filter (AND when both listener and observer are given, OR otherwise) does not hit and no copy of the others, in their original order |
| Listeners.OffEventListenerObserver | events.js:117-122 | `off(event, listener, observer)` removes from that event every copy of the entries matching both, keeps every copy of the others in their order, and changes no other event |
| Listeners.OffEventListener | events.js:123-128 | `off(event, listener)` removes from that event every copy of the entries with that listener, keeps every copy of the others in their order, and changes no other event |
| Listeners.OffMissingEventThrows | events.js:115-124 | `off(event, listener)` for an event with no entry throws |
| Listeners.OffGlobal | events.js:132-140 | with no string first argument but a function or an object: for every key and every entry, the key stays, the entry loses all its copies if its listener or observer matches and keeps all of them otherwise, and the list keeps its order |
| Listeners.OffListenerObserverIsDisjunctive | events.js:132-140 | `off(listener, object)` removes entries matching either one, not only those that match both |
| Listeners.OffNullDropsUnobserved | events.js:106-112 | `off(null)` removes every entry stored without an observer, from every event |
| Listeners.OffKeepsEmptiedList | events.js:123-128 | removing an event's last entries leaves the key mapped to an empty list |
| Dispatch.Unhandled | events.js:177 | the test for an unhandled `error`; stated by `Dispatch.EmitThrowsOnlyForUnhandledError` |
| Dispatch.HandlerTasks | events.js:185-186 | the call queued for a function-valued `'on' + event` property; its place in the queue is stated by `Dispatch.EmitQueuesInOrder` |
| Dispatch.Schedule | events.js:189-196 | one queued call per listener |
| Dispatch.ScheduleAt | events.js:192-195 | the i-th call queued for a list calls the i-th listener with the emitted arguments |
| Dispatch.ScheduleSnoc | events.js:192-195 | appending a listener appends its call at the end of the schedule |
| Dispatch.Escalation | events.js:178-182 | the unhandled `error` throws `args[0]` exactly when that is an `Error`, otherwise the args array |
| Dispatch.EmitSpec | events.js:174-198 | `emit` throws exactly in the unhandled-`error` case, with the escalation above; otherwise it queues one call for the handler property (if it is a function) plus one per listener |
| Dispatch.EmitQueuesInOrder | events.js:185-196 | the handler's call comes first, then the listeners' calls in registration order, and all of them carry the emitted arguments |
| Dispatch.EmitThrowsOnlyForUnhandledError | events.js:177-183 | `emit` throws exactly for `error` with no entry (an empty list counts as an entry) and a non-function `onerror` |
| Dispatch.EmitAfterOn | events.js:44-62 | after `on(event, l)`, the next `emit` queues what it would have queued before, followed by a call to `l` |
| Dispatch.AdapterRemovesItself | events.js:73-76 | running a once adapter removes every entry of the adapter from its event, leaves the other events and keys alone, and then calls the original listener, or throws a TypeError if that is not a function |
| Dispatch.RunTask | events.js:73-76 | running one queued call: a user function is called with the queued arguments (`func.apply`, line 170); a once adapter runs `off(event, adapter)` and then the original listener. Its contract is stated by `Dispatch.AdapterRemovesItself` and `Dispatch.AdapterFailsWithoutEntry` |
| Dispatch.AdapterFailsWithoutEntry | events.js:73-76 | an adapter whose event has no entry any more throws a TypeError in its own `off` call, leaves the registry as it was, and never calls the original listener |
| Dispatch.EmitSkipsUnlisted | events.js:189-196 | a function with no entry for the event gets no listener call from `emit` |
| Dispatch.NoRescheduleAfterAdapterRan | events.js:71-81 | after the adapter has run, a later `emit` of its event does not throw and queues no listener call to the adapter |
| Dispatch.OffOriginalKeepsAdapter | events.js:73-78 | `off(event, original)` leaves the once adapter registered, because the stored listener is the adapter |
| Dispatch.Stamp | events.js:213 | `timeStamp || timestamp || now`; stated through `Dispatch.Decorate` |
| Dispatch.Decorate | events.js:212-213 | the event object gains `type` (the event) and `timestamp` (`timeStamp`, else `timestamp` when truthy, else `now`); every other property is unchanged |
| Dispatch.WrappedPayload | events.js:210-213 | a wrapped payload becomes exactly `{data, type, timestamp: now}` |
| Dispatch.RedecorateKeepsStamp | events.js:213 | decorating an already stamped object again changes only its `type` |
| Emitter.EventEmitter.constructor | events.js:14-26 | a new emitter has an empty registry, no properties and nothing queued |
| Emitter.EventEmitter.SetProperty | events.js:185 | assigning an instance property, such as `onlogin`, that `emit` reads; the registry and the queue are unchanged |
| Emitter.EventEmitter.On | events.js:44-62 | the registry becomes `OnSpec` of the old one; properties and queue unchanged |
| Emitter.EventEmitter.Once | events.js:71-81 | registers through `on` a fresh adapter that remembers the event and the listener |
| Emitter.EventEmitter.RemoveMatching | events.js:118-128 | the backward splice loop leaves in the list exactly its survivors under the filter |
| Emitter.EventEmitter.RemoveMatchingEverywhere | events.js:133-140 | the loop over keys filters every list |
| Emitter.EventEmitter.DeleteEveryKey | events.js:142-144 | the loop over keys leaves the registry empty |
| Emitter.EventEmitter.Off | events.js:90-148 | returns normally with the registry `OffSpec` gives, or throws a TypeError with the registry unchanged |
| Emitter.EventEmitter.Emit | events.js:156-198 | throws as `EmitSpec` says with nothing queued, or appends `EmitSpec`'s calls to the queue; the registry and the properties never change |
| Emitter.EventEmitter.EmitEvent | events.js:206-217 | a null payload throws a TypeError before anything is queued. An object payload is decorated in place. Any other payload is wrapped in a fresh, non-Error `{data: payload}` that is decorated. That one object is then emitted as the only argument |
| Emitter.EventEmitter.RunNext | events.js:168-172 | pops the oldest queued call and runs it as `RunTask` says; an empty queue does nothing |
| Scenarios.OnceTwoEmitsRunsTwice | events.js:71-81 | `once` then two `emit`s before the loop runs: the listener is called twice, with each emit's arguments |
| Scenarios.OnceRunThenEmit | events.js:71-81 | `once`, `emit`, one loop turn, `emit`: the listener is called once and the second emit queues nothing |
| Scenarios.OffOriginalKeepsOnce | events.js:73-78 | `off(event, f)` after `once(event, f)` returns normally and the next emit still reaches `f` |
| Scenarios.OnceLostAfterOffEvent | events.js:71-81 | `once`, `emit`, then `off(event)` before the loop runs: the queued adapter throws a TypeError and the listener is never called |
| Scenarios.HandlerRunsFirst | events.js:185-196 | the `'on' + event` property is called before the listeners, and then the queue is empty |
| Scenarios.UnhandledError | events.js:177-187 | `emit('error', err)` with no listener and no `onerror` throws `err`; with a function `onerror` it calls that instead |
| Scenarios.OffByObserver | events.js:123-128 | `off(event, observer)` removes only the entries with that observer |

## Left out

- The `generate-js` property-descriptor plumbing (events.js:7-35) is not modelled. The emitter is a plain class whose `events` field stands for `__events`.
- The methods on the prototype are not modelled as instance properties. So `emit('')` and `emit('ce')` do not see `on` and `once` as handlers. Likewise, an assignment that `definePrototype`'s non-writable descriptors would block is not modelled.
- `window.listeners = listeners` (events.js:175) is not modelled. The model assumes a global `window` exists, as in a browser, where the line is only a global side effect. On a host without one, such as Node, that line throws a `ReferenceError` on every `emit`, and so on every `emitEvent`, and the model does not capture this.
- Timers: `setTimeout(..., 0)` is modelled only as appending to the FIFO `pending`, and the host loop as `RunNext`. There are no delays and no interleaving with other host work.
- `Date.now()` (events.js:208) is the parameter `now` of `EmitEvent`.
- The bodies of user functions are opaque. Running one yields `Invoked(callee, args)`. The `this` binding and exceptions that escape from deferred calls are not modelled.
- Numbers are integers: there is no NaN and no floating point. This matters only for the truthiness of a stored `timeStamp` or `timestamp`.
- `Emitter.EventEmitter.Emit` takes the event as a string. JavaScript's coercion of a non-string key through property lookup is not modelled.
- Only adapters created by `once` run a body of their own. A function called through an adapter is opaque even when it is itself an adapter.
- An `Obj` value with an `apply` property is not treated as callable.
- An adapter handed to another emitter still calls `off` on the emitter that runs it.
