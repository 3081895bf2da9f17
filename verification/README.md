# SignalHub registry, modelled in Dafny

`gobr`'s `SignalHub` maps string *signatures* to notification channels.
`Register` files a new channel under a signature and refuses a signature that
is already taken. `Deregister` removes a signature. `Signal` sends one
signal to the channel of one signature, or reports an error. `Broadcast`
sends one signal to every registered channel. `WaitForSignalOnce` is meant to
register, wait for one signal and deregister on the way out. As written, it
returns at once after a successful registration and blocks forever on a clash
(see Findings).

The model has two modules.

- `HubModel` (hub_model.dfy) describes the hub as a value: `Hub(receivers,
  pending, nextId)`. A channel is an endpoint identity: `make(chan struct{})`
  hands out the next unused number. `pending` counts, per endpoint, the
  signals delivered and not yet received. An endpoint stays in `pending` after
  its signature is deregistered, just as a channel outlives its map entry
  while its registrant still holds it. `Valid` is the invariant that every
  operation keeps: registered endpoints exist, identities are never reused,
  and no two signatures share an endpoint. Each operation is a function from
  the old hub to the new hub and its results. The lemmas relate the
  operations to each other.
- `Gobr` (signal_hub.dfy) is the hub as the program keeps it. It is a class
  `SignalHub` whose methods update its `receivers` map (and the endpoint
  counts) in place. Each method is proved to produce exactly the state that
  the matching `HubModel` function gives. `Broadcast` is a loop over the key
  set that picks each next signature by nondeterministic choice, because Go
  leaves map iteration order unspecified. Its invariant is that the state
  equals signalling the visited signatures one by one. `BroadcastIsSignalEach`
  then shows that any such order gives `HubModel.Broadcast`.

Details of the model:

- `Register` returns a channel and a *clash* flag.
- A clash returns `(nil, true)`.
- Any string, the empty one included, is accepted as a signature.
- A send is modelled as a delivery counted in `pending`, not as a blocking
  rendezvous.

The receive `<-ch` in `WaitForSignalOnce` is modelled by `Receive`. It has
three outcomes:

- it takes a pending signal;
- it waits, because nothing is pending;
- it blocks forever, because `ch` is nil.

`WaitForSignalOnce` is modelled twice: once as written, and once as evidently
intended (see Findings). The corrected form keeps the deferred, unconditional
`Deregister`. So on a clash it removes the entry of the task that registered
the signature first. `WaitOnce`'s contract states this
(`r.hub.receivers == h.receivers - {s}`).

## Model

| member | source | states |
|---|---|---|
| `HubModel.NewHub` | signal-hub.go:19-23 | a new hub has an empty receivers map and satisfies the hub invariant |
| `HubModel.Register` | signal-hub.go:50-62 | clash exactly when the signature is present; on a clash the result is (nil, true) and the hub is unchanged; otherwise the signature and only it is added, mapped to a fresh endpoint with nothing pending, that endpoint is returned with false, and every other entry and count is unchanged |
| `HubModel.Deregister` | signal-hub.go:65-69 | the signature is absent afterwards, every other entry is kept with its endpoint, and no endpoint count changes |
| `HubModel.Signal` | signal-hub.go:38-47 | an absent signature gives the not-found error and changes nothing; a present one gives no error, one more pending signal on its endpoint and on no other, and the same key set |
| `HubModel.Broadcast` | signal-hub.go:27-34 | every registered endpoint gets exactly one more pending signal, unregistered endpoints none, no key is added or removed, and an empty hub is left as it is |
| `HubModel.SignalEach` | signal-hub.go:30-33 | signalling signatures one after another keeps the invariant, the receivers map and the set of endpoints |
| `HubModel.SignalEachBumps` | signal-hub.go:30-33 | signalling distinct registered signatures one by one, in any order, adds exactly one signal to each of their endpoints and none elsewhere |
| `HubModel.BroadcastIsSignalEach` | signal-hub.go:27-34 | Broadcast equals sending one signal per registered signature in any order that visits each key once |
| `HubModel.DeregisterIdempotent` | signal-hub.go:65-69 | deregistering twice equals deregistering once; deregistering an absent signature changes nothing |
| `HubModel.RegisterTwiceClashes` | signal-hub.go:50-62 | a second Register of the same signature clashes, returns nil, changes nothing and leaves the signature on its first endpoint |
| `HubModel.RegisterThenDeregister` | signal-hub.go:50-69 | registering a new signature and deregistering it gives back the original receivers map |
| `HubModel.Receive` | signal-hub.go:79 | a receive takes one signal exactly when one is pending, blocks forever exactly on nil, waits with no change when nothing is pending, and touches no other endpoint or key |
| `HubModel.SignalThenReceive` | signal-hub.go:38-47 | one Signal is received exactly once: the receive after it restores the hub as it was before the Signal, and with nothing pending before, a further receive waits |
| `HubModel.WaitOnceAsWritten` | signal-hub.go:73-80 | as written, a successful registration returns without waiting and leaves the receivers map as it was, while a clash blocks forever on the nil channel with the hub unchanged |
| `HubModel.WaitOnce` | signal-hub.go:73-80 | as intended, the signature is absent after the call; a new signature waits on its new endpoint and the receivers map ends as it began; a clash returns without waiting |
| `HubModel.WaitOnceTakesOneSignal` | signal-hub.go:73-80 | in the corrected form, a new registration whose wait is ended by one Signal receives exactly that signal, and the registry then ends as WaitOnce says |
| `HubModel.WaitOnceOnNewHub` | signal-hub.go:73-80 | on a new hub the code as written returns without waiting while the corrected form waits and leaves the hub empty |
| `Gobr.SignalHub.constructor` | signal-hub.go:19-23 | the new hub's state is NewHub: an empty receivers map |
| `Gobr.SignalHub.Register` | signal-hub.go:50-62 | updates the receivers map in place to the state HubModel.Register gives and returns its channel and clash flag |
| `Gobr.SignalHub.Deregister` | signal-hub.go:65-69 | the receivers map becomes the old map without the signature, and nothing else changes |
| `Gobr.SignalHub.Signal` | signal-hub.go:38-47 | updates the hub to the state HubModel.Signal gives; the error is nil exactly when the signature was registered; the key set stays the same |
| `Gobr.SignalHub.Broadcast` | signal-hub.go:27-34 | the loop over the key set, in any order, ends in the state HubModel.Broadcast gives, with the receivers map unchanged |
| `Gobr.SignalHub.Receive` | signal-hub.go:79 | a receive on an endpoint of the hub, or on nil, has the effect and outcome HubModel.Receive gives |
| `Gobr.WaitForSignalOnce` | signal-hub.go:73-80 | the code as written ends as HubModel.WaitOnceAsWritten says: for a new signature it returns without waiting and the signature is gone |
| `Gobr.WaitForSignalOnceCorrected` | signal-hub.go:73-80 | the corrected code ends as HubModel.WaitOnce says, and the signature is never registered after it returns |

## Findings

| source | as written | input that shows it | evidently intended | confidence | as-written member | corrected member |
|---|---|---|---|---|---|---|
| signal-hub.go:75-78 | the second result of Register is the clash flag, but it is bound to `ok` and the function returns when `!ok`, that is when the registration succeeded | `WaitForSignalOnce("TEST_WAIT_ONCE", NewSignalHub())` returns at once without waiting (lemma `WaitOnceOnNewHub`); with the signature already taken it receives from the nil channel and never returns | return only on a clash, otherwise wait on the new channel, deregistering on the way out | high, not executed | `HubModel.WaitOnceAsWritten` | `HubModel.WaitOnce` |

## Left out

- The `sync.RWMutex` and its lock/unlock pairs. Each method is modelled as one atomic step, and concurrent interleaving is not modelled.
- Blocking channel semantics. An unbuffered send in `Signal` and `Broadcast` waits for a receiver. The model counts the signal as delivered at once in `pending`, so a receiver that never listens cannot stall a Broadcast in the model. In Go both sends run while the hub's lock is held (signal-hub.go:28-32, 39-45), so such a receiver stalls every hub operation, not only the Broadcast; the model does not capture this.
- A `SignalHub` not made by `NewSignalHub` (its zero value) has a nil receivers map, and Register on it panics at signal-hub.go:60. The model only builds hubs through `NewSignalHub`, so that panic path is not modelled.
- `HubModel.Receive`: the outcome `Blocks` marks that the receiver waits for a sender. The model does not continue the wait.
- `HubModel.WaitOnce`: a successful registration ends, after its wait, in the state before the wait with the signature deregistered. Signals and registrations made by other tasks during the wait are not modelled. `WaitOnceTakesOneSignal` states the case where one Signal ends the wait.
- The `fmt.Println` and `log.Println` output. It is I/O with no effect on the state.
- The self-import at signal-hub.go:9 would be rejected by Go as an import cycle. The model reads `gobr.SignalHub` in WaitForSignalOnce as this package's SignalHub. The `_ = "breakpoint"` statement has no effect.
- The order in which `Broadcast` visits the map. Go leaves it unspecified, so the model fixes no order and proves its result for every order.
- signal-hub_test.go is not part of this model. It drives goroutines, timers and random sleeps, and it calls `Broadcast` and `Signal` with an extra argument that the hub does not take.
- json.go and json-types.go are not part of this model. They only declare message structs and hold no logic.
