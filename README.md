# eventbus, modelled in Dafny

A model of the Go package `eventbus`: an in-process publish/subscribe
registry. An `EventBus` holds a table from event name to the ordered list of
listeners subscribed under that name. `Subscribe(name, listener)` appends a
listener to the list for `name`, and creates the entry when the name is new.
`Post(name, data...)` does nothing when `name` has no entry. Otherwise it builds
one `Event{Name, Data}` and calls every listener in the list, in order.

How the model is laid out:

- `eventbus.dfy`, module `Eventbus`, has the data types `EventData`, `Event`,
  `Call` and `Subscription`. `Registry` is the type of the table.
- `Eventbus.EventBus` is a class. Its field `listeners: map<string, seq<ListenerId>>`
  is updated in place by `Subscribe`.
- `Post` is a method whose loop builds the dispatch trace over the list as it
  was when the call began.
- Listeners are opaque identifiers (`ListenerId = nat`). `Post` returns the
  calls it would make as a `seq<Call>` and does not run any closures.
- Pure functions state what the methods compute: `Subscribed`, `MakeEvent`,
  `Trace` and `Deliveries`.
- A ghost field `history` records every `Subscribe` call. The object
  invariant `Valid()` says the table equals `Replay(history)`, the table those
  calls build. The lemmas about `Replay` then turn "delivery order equals
  subscription order" into a statement about the real bus.
- `eventbus_test.dfy`, module `EventbusTest`, restates the package's test
  scenario as a client of the class.

Go's `EventData` is a map that may be nil. The model writes that as
`Nil | Entries(map<string, Value>)`, where `Value` is an abstract type that
stands for Go's `interface{}`. The variadic payload argument is a
`seq<EventData>`.

## Model

| member | source | states |
|---|---|---|
| `Eventbus.EventBus.constructor` | eventbus.go:25-28 | A new bus has an empty table and an empty history. |
| `Eventbus.NewBusIsSilent` | eventbus.go:26-28 | On a new bus's table, every Post makes no call. |
| `Eventbus.Subscribed` | eventbus.go:34-39 | The list under `name` becomes the old list, or the empty list for an unseen name, with the listener appended. It grows by exactly one and keeps duplicates. Every other name's list is unchanged. The key set gains `name` only. Every list of the new table starts with the same name's old list. |
| `Eventbus.EventBus.Subscribe` | eventbus.go:30-40 | Sets the table to `Subscribed(old table, name, listener)` and keeps the object invariant. Existing lists are only extended. The history gains this one subscription. |
| `Eventbus.ReplayLists` | eventbus.go:34-39 | A table built by any sequence of Subscribe calls holds under each name exactly the listeners subscribed to that name, in subscription order. It has an entry for a name exactly when something was subscribed to it. |
| `Eventbus.ReplayAppendOnly` | eventbus.go:34-39 | After any further Subscribe calls, every earlier list is still there as a prefix: nothing is removed or reordered. |
| `Eventbus.ExtendsTransitive` | eventbus.go:34-39 | The append-only relation between tables is transitive, so it holds across any number of Subscribe calls. |
| `Eventbus.OncePerSubscription` | eventbus.go:38 | A listener appears under `name` as many times as `Subscribe(name, listener)` was called. Duplicates are kept, not merged. |
| `Eventbus.MakeEvent` | eventbus.go:51-54 | The event carries the posted name. Its data is the payload when exactly one payload is passed, and nil when zero or more than one are passed. |
| `Eventbus.Trace` | eventbus.go:55-57 | Dispatching over a list makes exactly one call per list element. |
| `Eventbus.TraceAt` | eventbus.go:55-57 | The k-th call goes to the k-th listener of the list and carries the one shared event. |
| `Eventbus.TraceSnoc` | eventbus.go:55-57 | One more loop iteration appends exactly one call, to the next listener. |
| `Eventbus.TraceDeliversInOrder` | eventbus.go:55-57 | The listeners called are exactly the list, in list order. Every call gets the same event. |
| `Eventbus.Deliveries` | eventbus.go:47-57 | Post on a name with no entry makes no call. Otherwise the listeners called are the stored list, in order, and every call carries the event built from `name` and the payloads. |
| `Eventbus.EventBus.Post` | eventbus.go:44-58 | Returns the calls given by `Deliveries` on the current table. They equal the trace over the listeners subscribed to `name`, in subscription order. Their number is the length of the list at call start. The method has no modifies clause, so it leaves the table unchanged. |
| `Eventbus.PostFollowsHistory` | eventbus.go:44-58 | On a bus built by Subscribe calls, Post calls the listeners subscribed to the posted name, in subscription order. It calls none if there are none. |
| `Eventbus.DeliveredOncePerSubscription` | eventbus.go:55-57 | Post calls a listener exactly as many times as that listener was subscribed to the posted name. |
| `Eventbus.NoCrossTalk` | eventbus.go:47-57 | A listener never subscribed to `name` is not called by `Post(name)`. This holds even if it is subscribed to other names. |
| `EventbusTest.TestEventBus` | eventbus_test.go:7-29 | After subscribing to "test", a Post without a payload calls the listener once with the event named "test" and nil data. A Post with the payload `{"pi": v}` calls it once with data whose "pi" entry is `v`. |

## Left out

- The `sync.RWMutex` and its locking (eventbus.go:21, 32-33, 45-46): concurrency is not modelled. Each operation is treated as atomic and single-threaded.
- A listener calling `Subscribe` during `Post`: in Go this deadlocks, because `Lock` is requested while the same goroutine holds `RLock`. It is not modelled. The loop iterates over a `seq` value taken at call start, which is already a snapshot.
- Listener bodies, their side effects and panics: listeners are foreign closures, so they are opaque identifiers here. A listener that panics aborts the remaining calls in Go. The trace always lists every call.
- Payload values are dynamically typed `interface{}` values, so `Value` is abstract. The float in the test is not modelled.
- The test calls `New()`, which eventbus.go does not define. The model uses the constructor as eventbus.go defines it, `NewEventBus`. The second and third posts of the test differ only in the static type of the map literal, which is the same value in the model, so the scenario posts the payload once.
- EventbusTest.TestEventBus: it checks the outcome through the returned traces, not through variables captured by a closure.
