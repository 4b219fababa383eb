# Quill's listener-subscription registry, in Dafny

Quill's core attaches DOM event listeners on behalf of editor components
through a `Subscriber`. A `Subscriber` is an ordered list of subscription
records. Each record is a (source, target, event, handler, options) tuple.
It supports four operations:

- `on` attaches a listener and records it.
- `off` detaches a listener and drops every record of that
  (target, event, handler, options) tuple, whatever its source.
- `removeSourceListeners` detaches and drops every record of one source.
- `removeAllListeners` detaches everything and empties the list.

A module-level map binds each owner object to its `Subscriber`, created on
first lookup by `findOrCreateSubscriber`.

The model has two files:

- `sequences.dfy` (module `Sequences`) holds `Filter`, the value-level
  `Array.prototype.filter` the subscriber uses to drop records. It also holds
  an independent characterisation of `Filter`: `KeepsExactly` says that a
  sequence holds exactly the elements at the passing positions, once each and
  in their original order. The two lemmas `FilterKeepsExactly` and
  `KeepsExactlyIsFilter` prove that the two agree, in both directions.
- `subscriber.dfy` (module `Subscribers`) holds the rest. The records, the
  options and the calls issued to targets are datatypes. Sources, targets,
  handlers and options objects are empty classes, because the source compares
  them only by reference (`===`, `!==`). `Subscriber` is a class whose
  `subscriptions: seq<Subscription>` field the methods reassign, as the source
  does. A ghost `log` field records every `addEventListener` and
  `removeEventListener` call the subscriber issues, in order. The two
  `forEach` loops are `for` loops that append to that log. The invariant
  `Subscriber.Valid()` says that every recorded listener was attached
  through a logged `addEventListener` call. Every method keeps it. The module-level
  `WeakMap` is the class `SubscriberMap`, with an ordinary
  `map<Source, Subscriber>` field. Its invariant `Valid()` says that no two
  owners share a `Subscriber` and that every bound `Subscriber` keeps its own
  invariant, so a looked-up `Subscriber` can be used at once.

The state-changing methods state their complete new state: the new list and
the new log. `on` appends one record and one `addEventListener` call. `off`
gives the new list as `Filter` of the old one and logs one
`removeEventListener` for the tuple, whether or not any record matches.
`removeSourceListeners` gives the new list as `Filter` of the old one and
logs `Removals` of the source's records. `removeAllListeners` logs
`Removals` of every prior record and leaves the list empty. The lemmas
beside them prove what those expressions mean:

- `off` and `removeSourceListeners` leave no matching record;
- they keep every other record once, in order;
- they are no-ops on the list when nothing matches;
- `off` and `removeSourceListeners` are idempotent;
- `off` undoes a fresh `on`;
- one `off` removes a tuple registered twice;
- the list shrinks by exactly the number of the source's records.

Three points of the code's behaviour that the model keeps:

- `on` is a method of one `Subscriber`. It does not look up or create the
  owner's registry.
- `off` searches only the `Subscriber` it is called on.
- `removeSourceListeners` detaches the source's listeners first and drops
  the records afterwards, both in registration order.

## Model

| member | source | states |
|---|---|---|
| `Sequences.Filter` | packages/quill/src/core/subscriber.ts:97-103 | the filtered list is no longer than the input and every record in it passes the test |
| `Sequences.FilterMembers` | packages/quill/src/core/subscriber.ts:97-103 | a record is in the filtered list exactly when it is in the input and passes the test |
| `Sequences.FilterPositions` | packages/quill/src/core/subscriber.ts:97-103 | the filtered list is the input read at a strictly increasing list of positions, and those are exactly the positions whose record passes |
| `Sequences.FilterKeepsExactly` | packages/quill/src/core/subscriber.ts:115-117 | filtering keeps exactly the passing records, each once, in their original relative order |
| `Sequences.KeepsExactlyIsFilter` | packages/quill/src/core/subscriber.ts:115-117 | any list that keeps exactly the passing records in order is the filtered list, so the two definitions agree |
| `Sequences.FilterAppend` | packages/quill/src/core/subscriber.ts:84-103 | filtering a list with records appended filters the old list and the appended records separately |
| `Sequences.FilterKeepingAll` | packages/quill/src/core/subscriber.ts:97-103 | when every record passes, filtering returns the list unchanged |
| `Sequences.FilterIdempotent` | packages/quill/src/core/subscriber.ts:97-103 | filtering twice with the same test gives the same list as filtering once |
| `Sequences.FilterPartition` | packages/quill/src/core/subscriber.ts:110-117 | the two complementary filters of removeSourceListeners split the list: their lengths add up to its length |
| `Subscribers.OffRemovesExactlyTheListener` | packages/quill/src/core/subscriber.ts:97-103 | after off, no record matches the (target, event, handler, options) tuple, whatever its source; every non-matching record is still there, once and in its original order |
| `Subscribers.OffUnmatchedIsNoop` | packages/quill/src/core/subscriber.ts:96-103 | off with a tuple that matches no record leaves the list unchanged |
| `Subscribers.OffIdempotent` | packages/quill/src/core/subscriber.ts:97-103 | a second identical off leaves the list as the first left it |
| `Subscribers.OffUndoesOn` | packages/quill/src/core/subscriber.ts:83-103 | on followed by off of the same tuple, not registered before, restores the list |
| `Subscribers.OnTwiceOffOnce` | packages/quill/src/core/subscriber.ts:84-103 | registering the same tuple twice and calling off once removes both records |
| `Subscribers.RemoveSourceSplits` | packages/quill/src/core/subscriber.ts:109-118 | no record of the source survives; the other sources' records are kept exactly and in order; the detached records are exactly the source's, in order; the new length is the old length minus the number of the source's records |
| `Subscribers.RemoveSourceIdempotent` | packages/quill/src/core/subscriber.ts:109-118 | removing a source's listeners a second time detaches nothing and leaves the list as the first call left it |
| `Subscribers.RemoveOnlySourceIsRemoveAll` | packages/quill/src/core/subscriber.ts:109-128 | when every record comes from one source, removing that source's listeners detaches all records in order and leaves none, as removeAllListeners does |
| `Subscribers.RemoveAbsentSourceIsNoop` | packages/quill/src/core/subscriber.ts:109-118 | for a source without records, nothing is detached and the list is unchanged |
| `Subscribers.Subscriber.constructor` | packages/quill/src/core/subscriber.ts:48-50 | a new Subscriber has no records, has issued no calls, and satisfies the invariant |
| `Subscribers.Subscriber.GetSubscriptions` | packages/quill/src/core/subscriber.ts:55-57 | returns a sequence equal to the current list of records and changes nothing |
| `Subscribers.Subscriber.On` | packages/quill/src/core/subscriber.ts:76-85 | issues one addEventListener(event, handler, options) call, then appends exactly the record {source, target, event, handler, options}; all earlier records are unchanged and the invariant is kept |
| `Subscribers.Subscriber.Off` | packages/quill/src/core/subscriber.ts:90-104 | issues one removeEventListener call for the tuple, even when no record matches; the new list is the old one without the matching records, with none left and the others kept in order; the invariant is kept |
| `Subscribers.Subscriber.RemoveSourceListeners` | packages/quill/src/core/subscriber.ts:109-118 | issues one removeEventListener per record of the source, in registration order, and none for other records; the new list is the other sources' records in order, with the length reduced by the number of the source's records; the invariant is kept |
| `Subscribers.Subscriber.RemoveAllListeners` | packages/quill/src/core/subscriber.ts:123-128 | issues one removeEventListener per prior record, in order, and leaves the list empty; the invariant is kept |
| `Subscribers.SubscriberMap.constructor` | packages/quill/src/core/subscriber.ts:25 | the owner map starts empty |
| `Subscribers.SubscriberMap.FindOrCreateSubscriber` | packages/quill/src/core/subscriber.ts:31-39 | returns the Subscriber already bound to the owner and leaves the map unchanged; otherwise binds a fresh, empty Subscriber to the owner and returns it; either way the returned Subscriber satisfies its invariant, no two owners ever share a Subscriber, and every bound Subscriber keeps its invariant |
| `Subscribers.RepeatedLookups` | packages/quill/src/core/subscriber.ts:31-39 | two lookups of the same owner return the identical Subscriber, and lookups of different owners return different ones; the map afterwards is the old map with exactly those two bindings, so a lookup never removes or rebinds another owner |
| `Subscribers.LookupThenOn` | packages/quill/src/core/subscriber.ts:31-39 | looking up an owner's Subscriber and calling on through it changes the map only at that owner, binding the existing Subscriber or a fresh one; no other owner's Subscriber changes; the owner's list gains exactly the new record and its log exactly one addEventListener call, both starting empty for a new owner; the map's invariant is kept |
| `Subscribers.TwoOwnersScenario` | packages/quill/src/core/subscriber.ts:31-39 | two new owners each attach one listener through the map; each then holds exactly its own record, and the second attachment does not disturb the first |
| `Subscribers.SourceRemovalScenario` | packages/quill/src/core/subscriber.ts:109-118 | with records from sources a, a and b, removing a's listeners leaves exactly b's record; the calls issued are the three addEventListener calls followed by removeEventListener for a's two listeners, in registration order |

## Left out

- The `debug.info` trace on creating a Subscriber (subscriber.ts:34) is logging output with no effect on state.
- The DOM's own listener behaviour is not modelled: dispatch, capture, `once`, `passive`, `signal` auto-removal, and de-duplication of identical listeners. Calls to targets appear only as entries in the ghost `log`.
- Because the DOM is not modelled, `Subscriber.Valid()` says only that every record's listener was attached by a logged call. It does not say that the listener is still live on its target. That stronger invariant also fails in the source. DOM identity is (event, handler, capture flag), but `off` compares options by reference. And two sources that register the same tuple share one DOM listener, which `removeSourceListeners` on either source detaches.
- Exceptions thrown by `addEventListener` or `removeEventListener` are foreign errors. In the source such an exception stops the operation before the list changes. The model's calls always return.
- The `WeakMap`'s weak references and garbage collection cannot be stated here. `SubscriberMap` is an ordinary map, and an explicit object stands in for the module-level singleton.
- The TypeScript overloads of `on` for `Document` and `HTMLElement` event maps (subscriber.ts:62-75) are static typing only. The model has one untyped `on` over string event names. `off`'s `Element` target is the same `EventTarget` class.
- Reentrancy, meaning a handler calling `off` or `on` during removal, does not arise because nothing is dispatched. In the source, `removeSourceListeners` iterates a filtered copy, but `removeAllListeners` (subscriber.ts:124) iterates the live array. The model's loops always run over the list as it was when the method was called.
- Subscribers.Subscriber.GetSubscriptions: subscription records are modelled as immutable values. In the source, the returned array is a shallow copy (subscriber.ts:56) whose elements are the subscriber's own mutable record objects. Changing a field of a returned record would change the subscriber's record; the model does not capture that sharing.
- The fields of `AddEventListenerOptions` are not modelled. An options object is an opaque reference, compared by identity as the source does.
