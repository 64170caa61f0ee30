# Remote-object proxying core and event emitter, modelled in Dafny

This project models two parts of the repository.

1. The Comlink remote-object layer embedded in `demo/wwsw.js` (lines 13-296). A
   calling context touches a local stand-in (`proxy`). Property reads accumulate a
   call path. A call, a construction, an `await` or an assignment sends one request
   record, carrying a fresh correlation id, over a message endpoint. The exposing
   context (`expose`) walks the path from its root object and performs the
   operation. It replies with one tagged result: ERROR, PROXY (a reference on a
   fresh sub-channel) or OBJECT (a copy). Values marked with `proxyValue` travel by
   reference. The ArrayBuffers and MessagePorts inside the arguments of a call, and
   inside a reply, are moved, not copied. A GET or SET is sent with an empty
   transfer list.
2. The small `EventEmitter` of `src/eventemitter-2015.js`: per-namespace listener
   sets, persistent (`on`) and one-shot (`once`), and `emit`.

Modules, one per file:

- `Wrappers`: `Option`.
- `JsValues`: JavaScript values as finite trees, property reads and writes, the
  proxy marker.
- `StructuredClone`: the copy `postMessage` makes of a message, and the cases in
  which it throws a DataCloneError instead.
- `Transfer`: `iterateAllProperties` and `transferableProperties`.
- `Protocol`:
  - request, message and result records;
  - `makeInvocationResult` and its caller-side inverse;
  - argument proxification on the caller and its undoing on the exposer;
  - what of a request and of a reply survives the clone.
- `CallPath`: the `batchingProxy` state machine (`Step`, `Run`) and the class
  `BatchingProxy`, which holds the mutable `callPath`.
- `Correlation`: message ids and the class `Caller`, which holds the
  `pingPongMessage` counter, the attached reply handlers and the posted messages.
- `Dispatcher`: the `expose` message handler. `Respond` specifies one message. The
  class `Exposer`, with method `HandleMessage`, is proved against it.
- `Events`: the class `EventEmitter`.
- `EndToEnd`: round trips through the caller, the wire and the exposer.

How the world outside the core is modelled:

- Endpoints and channels are natural numbers. Creating a `MessageChannel` allocates
  the next number from a counter.
- `Math.random()` for the context uid is a parameter.
- Functions are opaque ids. What calling or constructing one does is an oracle
  parameter (`Dispatcher.Oracle`), which returns a value or throws an error.
- Message delivery is sequential. A reply reaches `Caller.Receive` as an explicit
  argument.
- `postMessage` delivers the structured clone of its message
  (`StructuredClone.Clone`). A message holding a function or a proxy cannot be
  cloned, and neither can one holding a MessagePort that is not on its transfer
  list; then `postMessage` throws.

Not every request is answered. Path resolution (`demo/wwsw.js:65-66`) sits outside
any `try`. Reading a segment off `undefined` or `null` therefore rejects the
handler's promise, nothing is posted, and the caller waits forever.
`Dispatcher.PerformsExactlyWhen` and `Dispatcher.AnsweredExactlyWhen` state when a
reply is posted. These inputs also leave the caller waiting:

- a nullish target, or an object whose own `constructor` property is `undefined`
  or `null` (`obj.constructor.name`, line 67; `JsValues.ConstructorReadFaults`);
- a `null` or `undefined` argument (`arg[transferMarker]`, line 74;
  `Protocol.NullishArgumentFaults`);
- an async generator function whose call returns `undefined` or `null`
  (`proxyValue`, line 89, outside the `try`);
- an OBJECT reply whose value holds a function or a proxy, which `postMessage`
  cannot clone (line 107).

On the calling side, an argument or a SET value that cannot be cloned makes the
`postMessage` of line 165 throw. A SET value holding a MessagePort is one of them,
because a SET goes out with the empty transfer list of line 28
(`EndToEnd.SetWithPortThrows`). The call's promise rejects, and its reply handler
stays attached (`Correlation.Caller.PingPongMessage`).

`proxyValue` (lines 51-54) sets the marker on the object itself. On an async
generator target of GET, SET, CONSTRUCT or a throwing APPLY, `iresult` is still the
target, so the function inside the exposed root is marked in place
(`Dispatcher.MarkAt`).

The `set` trap (`demo/wwsw.js:230-237`) sends a request but does not reset
`callPath`. `CallPath.SetKeepsPathForNextChain` states the consequence.

## Model

| member | source | states |
|---|---|---|
| JsValues.ReadProperty | demo/wwsw.js:65-66 | reading a property fails exactly on `undefined`/`null`; on a plain object it gives the own property or `undefined` |
| JsValues.IsProxyValue | demo/wwsw.js:263-265 | definition: the marker of a buffer, port, array or object; a remote proxy always counts as marked |
| JsValues.SetProp | demo/wwsw.js:100 | after `o[name] = v` the property reads back as `v`, every other property is unchanged, and a new name goes last in insertion order |
| JsValues.ProxyValue | demo/wwsw.js:51-54 | `proxyValue` fails exactly on `undefined`/`null`; its result is proxy-marked exactly when the value is an object |
| JsValues.Mark | demo/wwsw.js:52 | marking makes an object proxy-marked and leaves a primitive as it is, keeping the kind and truthiness of the value |
| JsValues.Truthy | demo/wwsw.js:244 | definition of JavaScript truthiness (`if (!obj)`, and `!event.data.id` at line 62); `Transfer.WalkIsPreOrder` and `Dispatcher.NoIdNoReply` state its effect |
| JsValues.IsTransferable | demo/wwsw.js:240-242 | definition of `isTransferable`: an ArrayBuffer or a MessagePort; `Transfer.Transferables` and `Transfer.TransferablesAreReachableHandles` state its effect |
| JsValues.IsAsyncGenerator | demo/wwsw.js:67 | definition of `obj.constructor.name === 'AsyncGeneratorFunction'`: an own `constructor` property decides by its own `name`, otherwise the kind of the callable does; `JsValues.AsyncGeneratorReadable`, `Dispatcher.ApplyAsyncGeneratorProxied`, `Dispatcher.GetAnswersTarget` and `Dispatcher.NonSetOnlyMarks` state its effect |
| JsValues.IsFunction | demo/wwsw.js:82 | definition of `typeof v === 'function'`: an object with a callable id; `Dispatcher.Called` uses it |
| JsValues.ConstructorReadFaults | demo/wwsw.js:67 | definition: reading `obj.constructor.name` throws on a nullish value and on an object whose own `constructor` is nullish; `Dispatcher.PerformsExactlyWhen` states its effect |
| JsValues.AsyncGeneratorReadable | demo/wwsw.js:67 | a value that passes the async generator test is an object whose constructor can be read |
| JsValues.IsConstructor | demo/wwsw.js:92 | definition: `new obj(...)` is attempted on a callable that is not an async generator function; `Dispatcher.ConstructIsProxied` and `Dispatcher.ConstructErrorCaught` state its effect |
| StructuredClone.Clone | demo/wwsw.js:165 | a copy is never proxy-marked; it keeps a value's nullishness and truthiness, leaves a string as it is, and keeps an object an object, never callable; a function or a proxy fails to clone; a port survives exactly when the ports are on the transfer list |
| StructuredClone.CloneElements | demo/wwsw.js:165 | definition of the element-wise clone; its contract only keeps the length, and `StructuredClone.CloneElementsPointwise` states its meaning |
| StructuredClone.CloneElementsPointwise | demo/wwsw.js:165 | the elements clone exactly when each of them does, and then each copy is in its element's place |
| StructuredClone.CloneProps | demo/wwsw.js:165 | definition of the property-wise clone; its contract only keeps the length, and `StructuredClone.CloneLookup` states its meaning |
| StructuredClone.CloneIdempotent | demo/wwsw.js:107 | a copy clones to itself, so a value stored from one message is sent back unchanged |
| StructuredClone.CloneLookup | demo/wwsw.js:165 | a property of the copy is the copy of the property |
| StructuredClone.UnlistedPortFails | demo/wwsw.js:165 | a MessagePort anywhere in a value makes its clone fail when the ports are not on the transfer list |
| StructuredClone.UnlistedCloneIsListedClone | demo/wwsw.js:165 | a value that clones without its ports listed gives the same copy with them listed |
| Transfer.Transferables | demo/wwsw.js:240-259 | the kept values are exactly the ArrayBuffers and MessagePorts of the input, in their order |
| Transfer.IterateAllProperties | demo/wwsw.js:243-254 | definition of the walk; its properties are stated by `Transfer.WalkIsPreOrder` and `Transfer.WalkYieldsReachable` |
| Transfer.TransferableProperties | demo/wwsw.js:255-262 | the push loop returns the transferable nodes of the walk, in walk order |
| Transfer.TransferablesAppend | demo/wwsw.js:255-262 | filtering for transferables commutes with concatenation, so the walk's order is kept |
| Transfer.WalkYieldsReachable | demo/wwsw.js:243-254 | the walk yields exactly the nodes reachable through array elements and property values that are truthy and not strings |
| Transfer.TransferablesAreReachableHandles | demo/wwsw.js:243-262 | `transferableProperties` finds exactly the ArrayBuffers and MessagePorts anywhere in the value tree |
| Transfer.WalkIsPreOrder | demo/wwsw.js:244-248 | the walk is empty exactly for falsy values and strings; otherwise it starts with the value itself |
| Protocol.MakeInvocationResult | demo/wwsw.js:266-294 | ERROR exactly when there is an error, with text `stack` else `toString()`; otherwise PROXY on the new channel exactly when the value is proxy-marked; otherwise OBJECT holding the value unchanged |
| Protocol.Unmarshal | demo/wwsw.js:43-48 | ERROR rejects with the reply's error text, PROXY resolves with a new proxy on the reply's endpoint, OBJECT resolves with `obj` |
| Protocol.MarshalRoundTrip | demo/wwsw.js:266-294 | through marshalling and unmarshalling, an error reaches the caller as a rejection with its text, a marked value as a proxy on the new channel, anything else unchanged |
| Protocol.ErrorText | demo/wwsw.js:270 | definition: the error's `stack` when it has one, else its `toString()` |
| Protocol.ResponseValue | demo/wwsw.js:105-106 | definition of the posted reply object: type, the error, endpoint or obj field, and the id |
| Protocol.CloneResult | demo/wwsw.js:105-107 | a result fails to clone exactly when it is OBJECT with an uncloneable value; ERROR and PROXY pass unchanged |
| Protocol.CloneReply | demo/wwsw.js:105-107 | the posted reply clones exactly when its result does, and the copy is the reply of the cloned result |
| Protocol.ResponseTransferables | demo/wwsw.js:107 | a reply's transfer list is the sub-channel's port for PROXY, the handles inside the value for OBJECT, and empty for ERROR |
| Protocol.ReplyShapeTransferables | demo/wwsw.js:105-107 | neither the tag nor the id of a reply contributes transferables |
| Protocol.PortTransferables | demo/wwsw.js:255-262 | the port of a PROXY reply is walked and transferred as itself |
| Protocol.CountProxied | demo/wwsw.js:29-41 | definition of the number of proxy-marked arguments; its bound only serves `Protocol.ProxifyArguments`, whose contract ties it to the exposures |
| Protocol.ProxyMarker | demo/wwsw.js:36-39 | definition of `{[transferMarker]: 'PROXY', endpoint: port2}` |
| Protocol.CloneMarker | demo/wwsw.js:36-39 | the marker object that replaces a proxied argument clones to itself |
| Protocol.ProxifyArguments | demo/wwsw.js:29-41 | the argument list keeps its length; one exposure per marked argument, on channels numbered consecutively from the next free one |
| Protocol.ProxifiedArgument | demo/wwsw.js:31-40 | an unmarked argument passes unchanged; the k-th marked argument becomes the marker for channel next+k, and that channel exposes it |
| Protocol.UnwrapArgument | demo/wwsw.js:73-78 | faults exactly on a nullish argument or a marker object whose `endpoint` is not a port; a marker with a port becomes a remote proxy on that port; every other argument passes unchanged |
| Protocol.UnwrapArguments | demo/wwsw.js:71-79 | the pass succeeds exactly when every argument unwraps, and then holds each unwrapped argument at its index |
| Protocol.Received | demo/wwsw.js:29-78 | definition of the callee's argument list; its contract only keeps the length, and `Protocol.ArgumentsRoundTrip` states its contents |
| Protocol.ArgumentsRoundTrip | demo/wwsw.js:29-79 | the exposer hands the callee the caller's arguments, with each marked one turned into a remote proxy on the channel it was exposed on |
| Protocol.UnwrapProxifiedAt | demo/wwsw.js:29-78 | argument i survives the round trip: a remote proxy on its channel if marked, itself otherwise |
| Protocol.UnwrapMarker | demo/wwsw.js:36-75 | the marker for channel c unwraps to a remote proxy on c |
| Protocol.UnwrapPlain | demo/wwsw.js:74-77 | a non-nullish argument that is not a marker object reaches the callee unchanged |
| Protocol.NullishArgumentFaults | demo/wwsw.js:31-74 | a nullish argument passes the caller untouched and makes the exposer's argument pass fault |
| Protocol.CloneRequest | demo/wwsw.js:164-165 | the clone fails exactly when the arguments of an APPLY or CONSTRUCT fail to clone with their handles listed, or the SET value fails to clone with none listed; a successful copy keeps kind, path and property, carries the cloned arguments or value, and a GET passes unchanged |
| Protocol.UnwrapClonedPlain | demo/wwsw.js:73-77 | the copy of a non-nullish argument that is not a marker is handed to the callee as it arrived |
| Protocol.Sendable | demo/wwsw.js:29-41 | definition: every argument that is not proxy-marked clones |
| Protocol.ReceivedCopies | demo/wwsw.js:29-78 | the callee's argument list has the caller's length, with a remote proxy at each marked position |
| Protocol.ArgumentsWireRoundTrip | demo/wwsw.js:29-79 | over the wire, the proxified arguments clone, and the exposer hands the callee a copy of each unmarked argument and a remote proxy for each marked one |
| Protocol.WireArgumentAt | demo/wwsw.js:29-78 | argument i survives proxification, the clone and unwrapping: a remote proxy on its channel if marked, its copy otherwise |
| CallPath.DropLast | demo/wwsw.js:192-196 | `slice(0, -1)`: the path is the result plus its last segment |
| CallPath.Reads | demo/wwsw.js:225-228 | one `get` trap per read name, in order |
| CallPath.Step | demo/wwsw.js:176-239 | definition of one trap on the accumulated path; its consequences are stated by the `Chain` lemmas and `TerminalTrapsReset` |
| CallPath.Run | demo/wwsw.js:176-239 | definition of a trap sequence on one proxy; `RunAppend` states how runs compose |
| CallPath.CallBound | demo/wwsw.js:194-198 | definition of a call of the function returned for a path ending in `bind`: APPLY on the saved path without its last segment; `CallPath.BindDefersApply` states its effect |
| CallPath.RunAppend | demo/wwsw.js:176-239 | running two trap sequences one after the other gives the concatenated requests |
| CallPath.ReadsAccumulate | demo/wwsw.js:225-228 | ordinary property reads append their names to the path in order and send nothing |
| CallPath.ChainApply | demo/wwsw.js:188-207 | `p.a.b(args)` sends exactly one APPLY with the read names and the arguments, and leaves the path empty |
| CallPath.ChainConstruct | demo/wwsw.js:179-187 | `new p.a.b(args)` sends exactly one CONSTRUCT with the read names and the arguments, and leaves the path empty |
| CallPath.ChainGet | demo/wwsw.js:209-224 | `then` on a non-empty path sends one GET with that path and empties it; on an empty path it sends nothing and returns a thenable of the proxy |
| CallPath.SequentialChainsIndependent | demo/wwsw.js:185-205 | two chains issued one after the other each send only their own names |
| CallPath.SetKeepsPathForNextChain | demo/wwsw.js:230-237 | SET carries the current path, property and value, and does not reset the path: the next chain's path starts with the same names |
| CallPath.SetAfterReads | demo/wwsw.js:230-237 | reads followed by an assignment send one SET and leave the read names on the path |
| CallPath.ApplyAfterReads | demo/wwsw.js:188-228 | from a non-empty path, reads and a call send one APPLY on the whole accumulated path |
| CallPath.BindDefersApply | demo/wwsw.js:191-199 | a call on a path ending in "bind" sends nothing, empties the path and returns a function; each later call sends APPLY on the path without "bind" with its own arguments |
| CallPath.TerminalTrapsReset | demo/wwsw.js:185-222 | apply, construct and `then` leave the path empty and send at most one request |
| CallPath.BatchingProxy.Get | demo/wwsw.js:208-229 | the `get` trap for a string name follows the state machine: push and return the proxy, or the `then` branches |
| CallPath.BatchingProxy.Then | demo/wwsw.js:209-224 | `then` yields a thenable on an empty path, else sends GET and resets the path |
| CallPath.BatchingProxy.AsyncIterator | demo/wwsw.js:212-216 | `Symbol.asyncIterator` returns a function giving the proxy and leaves the path alone |
| CallPath.BatchingProxy.Apply | demo/wwsw.js:188-207 | the `apply` trap follows the state machine, including the "bind" branch |
| CallPath.BatchingProxy.Construct | demo/wwsw.js:179-187 | the `construct` trap sends CONSTRUCT and resets the path |
| CallPath.BatchingProxy.Set | demo/wwsw.js:230-237 | the `set` trap sends SET and leaves the path unchanged |
| Correlation.DigitChar | demo/wwsw.js:155 | a decimal digit character |
| Correlation.Decimal | demo/wwsw.js:155 | the decimal text of a counter is non-empty and all digits, and has one digit exactly below ten |
| Correlation.DecimalInjective | demo/wwsw.js:155 | different numbers have different decimal texts |
| Correlation.MessageId | demo/wwsw.js:155 | an id is never empty, so the exposer never drops it as missing |
| Correlation.MessageIdInjective | demo/wwsw.js:155 | `${uid}-${n}` determines both the uid and the counter value |
| Correlation.DigitRunBeforeDash | demo/wwsw.js:155 | in `${uid}-${n}` the leading digit run is the uid's text |
| Correlation.Matching | demo/wwsw.js:157-161 | no more handlers resolve on a message than are attached (which ones is stated by `RoutedById`) |
| Correlation.Remaining | demo/wwsw.js:157-160 | no more handlers stay attached than were attached (which ones is stated by `RoutedById` and `RemainingWellKeyed`) |
| Correlation.WellKeyedIdsDistinct | demo/wwsw.js:155 | a counter that only grows gives every pending call its own id |
| Correlation.RemainingWellKeyed | demo/wwsw.js:158-160 | detaching the resolved handlers keeps the pending table keyed by distinct ids in counter order |
| Correlation.RoutedById | demo/wwsw.js:157-161 | a reply with the id of pending call k, on its endpoint, resolves exactly that call and detaches exactly its handler, whatever else is pending |
| Correlation.NoneMatch | demo/wwsw.js:155-159 | no earlier handler matches the id of a later counter value |
| Correlation.UnmatchedReplyIgnored | demo/wwsw.js:158-159 | a reply for an id nobody waits for settles nothing and detaches nothing |
| Correlation.SettledBy | demo/wwsw.js:43-48 | each resolved call settles with the unmarshalled reply |
| Correlation.Caller.PingPongMessage | demo/wwsw.js:154-167 | given the transfer list `Call` builds, the id is `${uid}-${counter}`, the counter advances by one, the id differs from every pending and every posted id, and one handler waits for it; the request goes out with the id and that list, unless it cannot be cloned against the list, in which case the call throws and nothing is posted |
| Correlation.Caller.Call | demo/wwsw.js:27-42 | APPLY and CONSTRUCT arguments are proxified, their channels exposed and their handles transferred; GET and SET are sent as they are, with no transferables; the send throws exactly when the sent request cannot be cloned |
| Correlation.Caller.Receive | demo/wwsw.js:157-162 | the matching handlers detach and settle with the unmarshalled result; all others stay attached, in order |
| Dispatcher.ResolveSnoc | demo/wwsw.js:65-66 | resolving one more segment reads it off the value the shorter path resolves to |
| Dispatcher.ResolvePrefix | demo/wwsw.js:65-66 | whenever the target resolves, the receiver (the path minus its last segment) resolves too |
| Dispatcher.Resolve | demo/wwsw.js:65-66 | definition of the `reduce` over the call path; failure on a segment read off a nullish value |
| Dispatcher.Assign | demo/wwsw.js:100 | definition of `obj[property] = value` written back into the root; `AssignThenRead` states its effect |
| Dispatcher.AssignThenRead | demo/wwsw.js:100 | after the SET assignment the property reads back as the value on the same path, and every other property of the target is unchanged |
| Dispatcher.MarkAt | demo/wwsw.js:52 | definition of marking the object a path leads to, in place; `MarkAtThenRead` and `MarkAtKeepsProperties` state its effect |
| Dispatcher.MarkAtThenRead | demo/wwsw.js:88-89 | after marking in place, the path leads to the marked target, and a path that did not resolve still does not |
| Dispatcher.MarkAtKeepsProperties | demo/wwsw.js:88-89 | marking in place changes no property of the target |
| Dispatcher.HasId | demo/wwsw.js:62 | definition of `event.data.id` being truthy; `Dispatcher.NoIdNoReply` and `Dispatcher.AnsweredExactlyWhen` state its effect |
| Dispatcher.Called | demo/wwsw.js:82 | definition of how `obj.apply(that, args)` ends: an own `apply` property is called on the target with `that` and the argument array, the built-in one calls the function with `that` as `this`, and a non-function throws a TypeError; `Dispatcher.ApplyUsesReceiver` and `Dispatcher.ApplyNonCallableIsError` state its effect |
| Dispatcher.HasApply | demo/wwsw.js:82 | definition: `obj.apply` is a function (the own property if there is one, else the built-in one of a function); `Dispatcher.ApplyNonCallableIsError` states its effect |
| Dispatcher.ApplyOutcome | demo/wwsw.js:80-86 | definition of the `try` around `obj.apply(that, args)`: the result, or the target with the caught error; `Dispatcher.ApplyUsesReceiver`, `Dispatcher.ApplyAsyncGeneratorProxied` and `Dispatcher.ApplyNonCallableIsError` state its effect |
| Dispatcher.ConstructOutcome | demo/wwsw.js:90-97 | definition of the `try` around `new obj(...)` and `proxyValue`: the marked instance, or the previous result with the caught error; `Dispatcher.ConstructIsProxied` and `Dispatcher.ConstructErrorCaught` state its effect |
| Dispatcher.PerformApply | demo/wwsw.js:80-89 | the APPLY step fails exactly for a nullish result of an async generator function; it changes the root at most by marking the target, and not at all for other targets |
| Dispatcher.Perform | demo/wwsw.js:64-104 | a request other than SET changes the root at most by marking its target, and not at all when the target is not an async generator function; it fails whenever the path does not resolve to a value whose `constructor` can be read |
| Dispatcher.Evaluate | demo/wwsw.js:64-104 | the handler's step-by-step updates of `iresult`/`ierror`, and its in-place marking of an async generator target, compute the specification `Perform` |
| Dispatcher.Respond | demo/wwsw.js:61-107 | definition of one message's handling; its properties are stated by the lemmas below |
| Dispatcher.NoIdNoReply | demo/wwsw.js:62-63 | a message without a truthy id gets no reply and changes nothing |
| Dispatcher.ReplyCarriesRequestId | demo/wwsw.js:105-107 | a reply carries the request's id; a sub-exposure occurs exactly with a PROXY reply, on the channel that reply names |
| Dispatcher.PerformsExactlyWhen | demo/wwsw.js:64-89 | the handler reaches `makeInvocationResult` exactly when the path resolves to a target whose `constructor.name` can be read (not nullish, no nullish own `constructor`), APPLY and CONSTRUCT arguments unwrap, and an async generator call did not return nullish |
| Dispatcher.AnsweredExactlyWhen | demo/wwsw.js:62-107 | a reply is posted exactly when the message has an id, the handler reaches `makeInvocationResult` (which excludes a target whose `constructor.name` read throws), and the result is not an OBJECT whose value fails to clone |
| Dispatcher.ApplyUsesReceiver | demo/wwsw.js:65-87 | APPLY of a function that is not an async generator function calls it with the receiver as `this` when it has no own `apply` property (otherwise that property takes the call); the return value is tagged and what is thrown becomes ERROR; the reply is posted when it clones; no reply when the function's own `constructor` is nullish; the root is unchanged |
| Dispatcher.ApplyAsyncGeneratorProxied | demo/wwsw.js:80-89 | APPLY of a target that passes the async generator test: an object result is marked and sent as PROXY with the root unchanged; a primitive is sent as OBJECT; a nullish result gets no reply; a throw (also the TypeError of a non-callable target) gives ERROR and marks the target inside the root |
| Dispatcher.ApplyNonCallableIsError | demo/wwsw.js:67-87 | an APPLY whose `obj.apply` is not a function is caught as an ERROR reply with the TypeError, the target marked in place when it passes the async generator test; no reply when its `constructor.name` read throws |
| Dispatcher.ConstructIsProxied | demo/wwsw.js:67-98 | a constructed object is marked and sent as PROXY, exposed on the new channel; on an async generator function `new` throws a TypeError, answered as ERROR; a target that passes the async generator test is marked inside the root, and one whose own `constructor` is nullish gets no reply |
| Dispatcher.ConstructErrorCaught | demo/wwsw.js:67-98 | a constructor that throws, a target that cannot be constructed (not callable, or an async generator function), or a nullish instance gives an ERROR reply with the error's text, the target marked inside the root when it passes the async generator test; a target whose `constructor.name` read throws gets no reply |
| Dispatcher.GetAnswersTarget | demo/wwsw.js:67-89 | GET answers with the target itself; a target whose `constructor.name` read throws gets no reply; one whose constructor is named 'AsyncGeneratorFunction' is marked inside the root and sent as PROXY; any other target leaves the root unchanged and is posted when its reply clones |
| Dispatcher.SetAssignsAndAnswersTrue | demo/wwsw.js:67-104 | SET assigns onto the (possibly just marked) target at `property` and replies `true`; the property then reads back as the value, and the target's other properties are unchanged; a target whose own `constructor` is nullish gets no reply and is left as it was |
| Dispatcher.NonSetOnlyMarks | demo/wwsw.js:80-98 | a request other than SET changes the exposed root at most by marking its target, also when the call throws; with a target that is not an async generator function it changes nothing |
| Dispatcher.Exposer.HandleMessage | demo/wwsw.js:61-108 | the new root, the sub-exposures, the channel counter and the posted replies with their transfer lists are those of `Respond` |
| Events.AddToSet | src/eventemitter-2015.js:16-39 | `set.add`: unchanged when present, appended when new; keeps the set duplicate-free; membership is the old one plus the callback; `Events.AddIdempotent` states that adding twice is adding once |
| Events.Without | src/eventemitter-2015.js:24-50 | `set.delete`: exactly the other members remain |
| Events.Registered | src/eventemitter-2015.js:43-47 | definition: the namespace's listener set, or the empty list when it has none |
| Events.WithoutNoDuplicates | src/eventemitter-2015.js:24-50 | deleting keeps a set duplicate-free |
| Events.WithoutHead | src/eventemitter-2015.js:48-51 | deleting the callback just visited leaves exactly the rest of the set |
| Events.AddThenDeleteRestores | src/eventemitter-2015.js:10-28 | `on` then `off` of a callback that was not registered restores the set |
| Events.Added | src/eventemitter-2015.js:10-40 | registering creates the namespace's set if absent and adds the callback; every other namespace is unchanged |
| Events.Calls | src/eventemitter-2015.js:44-51 | one call per listener, in order, each with the emitted data |
| Events.CallsAppend | src/eventemitter-2015.js:42-52 | the calls of two listener lists are those of the first, then those of the second |
| Events.EventEmitter.On | src/eventemitter-2015.js:10-17 | `on` adds the callback to the namespace's persistent set only; one-shot listeners are unchanged |
| Events.EventEmitter.AddEventListener | src/eventemitter-2015.js:18-20 | same effect as `on` |
| Events.EventEmitter.Off | src/eventemitter-2015.js:22-28 | with a callback, removes just it from the persistent set, and throws with nothing changed if the namespace has no set; without one, drops the namespace; one-shot listeners are untouched |
| Events.EventEmitter.RemoveEventListener | src/eventemitter-2015.js:29-31 | same effect as `off` |
| Events.EventEmitter.Once | src/eventemitter-2015.js:33-40 | `once` adds the callback to the one-shot set only; persistent listeners are unchanged |
| Events.EventEmitter.Emit | src/eventemitter-2015.js:42-52 | calls every persistent listener in order, then every one-shot listener, each with the data; afterwards the one-shot set is empty and the persistent listeners are unchanged; a namespace with no listeners gets no calls and no change |
| Events.EventEmitter.EmitOnce | src/eventemitter-2015.js:47-51 | the delete-as-you-go loop calls each one-shot listener once and empties the set |
| Events.EventEmitter.PostMessage | src/eventemitter-2015.js:53-55 | same effect as `emit` |
| Events.OnceCalledOnce | src/eventemitter-2015.js:47-51 | after an emit, the next emit of the namespace makes only the persistent calls |
| Events.RegisteredCalledExactlyOnce | src/eventemitter-2015.js:10-46 | after `on(ns, cb)` the persistent calls of the next `emit(ns, data)` call `cb` with `data` exactly once, and a second `on(ns, cb)` changes nothing |
| EndToEnd.RemoteCallReturnsCalleeResult | demo/wwsw.js:27-107 | end to end, `await p.a.b(args)` with cloneable arguments makes the exposer call the function at `a.b` on receiver `a` with copies of the arguments (through its own `apply` property if it has one); unless the function's own `constructor` is nullish, a reply is posted exactly when the outcome can be sent, and the caller then gets the callee's (copied) result, a proxy, or a rejection with the error text |
| EndToEnd.SetThenGetReadsBack | demo/wwsw.js:28-107 | a SET can be sent exactly when its value clones with no port listed; the exposer stores the copy and answers `true` unless the target's own `constructor` is nullish; a GET of the same property then gets no reply when the copy is nullish or has a nullish own `constructor`, is sent as PROXY (the stored copy marked in place) when the copy's `constructor` is named 'AsyncGeneratorFunction', and otherwise answers with the copy, which arrives unchanged |
| EndToEnd.SetWithPortThrows | demo/wwsw.js:28-42 | a SET whose value holds a MessagePort anywhere cannot be sent, since its transfer list is empty |

## Left out

- Transport plumbing is not modelled: `windowEndpoint`, `isEndpoint`, `isWindow`,
  `isMessagePort`, `activateEndpoint`, and the attaching and detaching of handlers
  (demo/wwsw.js:110-149). Endpoints are numbers, a new `MessageChannel` is the next
  channel number, and messages are delivered one at a time by whoever drives the
  model.
- Promise scheduling and the `await`s are left out. The awaits on path resolution
  and on calls are treated as already settled.
- The exposer's sub-exposures are records `Exposure(channel, value)`. No second
  `Exposer` is started for them.
- The context uid from `Math.random()` is a parameter.
- `Correlation.Caller.PingPongMessage`: the counter is unbounded. JavaScript
  numbers lose precision above 2^53, which is not modelled.
- The `Symbol.asyncIterator` feature test is taken to succeed.
- `isProxyValue` on a remote proxy pushes the symbol onto that proxy's call path.
  This side effect is not modelled.
- Numbers are integers. NaN (which is falsy), fractions and
  -0 are not modelled. Nothing in the core depends on them: no falsy value is
  transferable, and numbers are sent as OBJECT unchanged.
- `Protocol.UnwrapArgument`: `proxy(arg.endpoint)` (lines 21-26, 119-121) accepts any
  object with `addEventListener`, `removeEventListener` and `postMessage` keys. An
  endpoint-shaped plain object inside a marker would give a proxy there; here only
  a MessagePort does, and the rest fault.
- `JsValues.ReadProperty`: only the own properties of plain objects are modelled.
  Reading a property of anything else (an array index, `length`, a prototype
  member, a property of a remote proxy) gives `undefined`.
- Remote proxies are leaves with no properties and cannot be called. Forwarding a
  chain to a further context is not modelled.
- Values are trees, so aliasing is not modelled. An object reachable by two paths,
  or one a call returns, is a separate copy here: marking or assigning through one
  path does not show through another, and a marked object that a call returns is
  not marked inside the root.
- `StructuredClone.Clone`: functions, proxies and unlisted MessagePorts make the
  clone fail. The other DataCloneErrors are not modelled: a transfer list naming a
  handle twice, or a buffer or port that is already detached. Transferring does not
  detach the sender's buffers and ports here, and a copied ArrayBuffer keeps the
  same id as a transferred one. The flag `portsListed` stands for the transfer
  list, which in this core either holds every handle of the message or is empty. A
  cycle cannot occur in a tree.
- `Dispatcher.AnsweredExactlyWhen`: the transfer-list failures above are not part
  of the condition; nor is a failure inside `transferableProperties`, which cannot
  occur on trees.
- `Dispatcher.Assign`: a SET whose target is not a plain object leaves the root
  unchanged. Sloppy-mode assignment to a primitive is a no-op, but assigning to an
  array index is not.
- `Transfer.IterateAllProperties`: `Object.values` lists properties in insertion
  order. JavaScript lists integer-like keys first; that ordering is not modelled.
- Thrown values are Error-like objects. A thrown primitive is not modelled: for a
  string, `'stack' in err` would throw outside any `try`; a falsy thrown value
  would pass as "no error".
- `Dispatcher.ConstructIsProxied`: the outcome of a constructor comes from the
  oracle. The engine's rule that `new` always yields an object is not built in,
  so a nullish outcome is modelled as the TypeError of `proxyValue`. Async
  generator functions are the only callables that cannot be constructed
  (`JsValues.IsConstructor`). Arrow functions, methods and bound functions are left
  to the oracle, which may throw the TypeError.
- The text of the engine's TypeError is a fixed stand-in, `Dispatcher.TypeError`.
- `Events.EventEmitter.Emit`: listener calls are recorded, not run. A listener
  that throws (which would stop the loop) is not modelled, and neither is one that
  re-enters the emitter during the loop.
- The `others` field of `EventEmitter` is never used by the class and is left out.
- `JsValues.IsAsyncGenerator`: an own `constructor` property counts by its own
  `name` property only. The built-in `name` of a function stored as `constructor`
  (for example `{constructor: AsyncGeneratorFunction}`), getters on `constructor`,
  a remote proxy's `constructor` and the prototype chain are not modelled.
- `Dispatcher.ApplyUsesReceiver`: it covers targets that are not async generator
  functions. `Dispatcher.ApplyAsyncGeneratorProxied` states the async generator
  case.
- `Correlation.Caller.Call`: a send that throws is reported as `threw`. The
  DataCloneError value that rejects the promise is not modelled.
