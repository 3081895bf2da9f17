/**
 The registry bookkeeping of a signal hub, as values.

 A hub maps string signatures to notification endpoints. A Go channel is
 modelled by an endpoint identity: `make(chan struct{})` hands out the next
 unused number. What a channel holds is modelled by `pending`, the number of
 signals delivered to each endpoint and not yet received. `pending` keeps an
 endpoint after its signature is deregistered, as a channel outlives its entry
 in the map while its registrant still holds it.

 Every operation of the hub is a function from the old state to the new state
 (and its results); the class in module Gobr is proved against them.
 */
module HubModel {

  datatype Option<T> = None | Some(value: T)

  /** A channel value as the hub hands it out: nil, or one of the endpoints it made. */
  datatype Chan = Nil | Endpoint(id: nat)

  datatype Error = Error(message: string)

  const SignalNotFound: string :=
    "SignalHub.Signal() failed: receiver with key (signature string passed to method) does not exist"

  /** The state of one hub: the receivers map, the signals waiting in each
      endpoint, and the identity the next new endpoint gets. */
  datatype Hub = Hub(receivers: map<string, nat>, pending: map<nat, nat>, nextId: nat)

  datatype RegisterResult = RegisterResult(hub: Hub, ch: Chan, clash: bool)
  datatype SignalResult = SignalResult(hub: Hub, err: Option<Error>)

  /** The outcome of a receive `<-ch`. */
  datatype Receipt =
    | Received       // a pending signal was taken
    | Blocks         // nothing pending: the receiver waits until a sender delivers
    | BlocksForever  // a receive from a nil channel never completes
  datatype ReceiveResult = ReceiveResult(hub: Hub, receipt: Receipt)

  /** How a call of WaitForSignalOnce ends: it returns before waiting, or it
      waits on a channel. */
  datatype WaitOutcome = ReturnedEarly | WaitedOn(receipt: Receipt)
  /** `hub` is the registry once the call returns or, when it never returns,
      while it blocks. */
  datatype WaitResult = WaitResult(hub: Hub, outcome: WaitOutcome)

  /** The representation invariant: every registered endpoint exists, every
      endpoint identity was handed out already, and no two signatures share an
      endpoint (each Register makes a new channel). */
  predicate Valid(h: Hub)
  {
    && (forall k :: k in h.receivers ==> h.receivers[k] in h.pending)
    && (forall id :: id in h.pending ==> id < h.nextId)
    && (forall k, k' :: k in h.receivers && k' in h.receivers && k != k' ==> h.receivers[k] != h.receivers[k'])
  }

  /** NewSignalHub: no receivers, no endpoints. */
  function NewHub(): (h: Hub)
    ensures Valid(h)
    ensures h.receivers == map[]
    ensures h.pending == map[]
  {
    Hub(map[], map[], 0)
  }

  /** Register: refuses a signature already present with (nil, true); otherwise
      makes a new endpoint, files it under the signature and returns it with
      the clash flag false. */
  function Register(h: Hub, s: string): (r: RegisterResult)
    requires Valid(h)
    ensures Valid(r.hub)
    ensures r.clash <==> s in h.receivers
    ensures r.clash ==> r.ch == Nil && r.hub == h
    ensures !r.clash ==>
      && r.ch.Endpoint?
      && r.ch.id !in h.pending
      && r.hub.receivers.Keys == h.receivers.Keys + {s}
      && r.hub.receivers[s] == r.ch.id
      && (forall k :: k in h.receivers ==> r.hub.receivers[k] == h.receivers[k])
      && r.hub.pending.Keys == h.pending.Keys + {r.ch.id}
      && r.hub.pending[r.ch.id] == 0
      && (forall id :: id in h.pending ==> r.hub.pending[id] == h.pending[id])
  {
    var clash := s in h.receivers;
    if clash then
      RegisterResult(h, Nil, clash)
    else
      var id := h.nextId;
      RegisterResult(Hub(h.receivers[s := id], h.pending[id := 0], h.nextId + 1), Endpoint(id), false)
  }

  /** Deregister: removes the signature if present; the endpoint itself stays. */
  function Deregister(h: Hub, s: string): (r: Hub)
    requires Valid(h)
    ensures Valid(r)
    ensures s !in r.receivers
    ensures forall k :: k != s ==> (k in r.receivers <==> k in h.receivers)
    ensures forall k :: k in r.receivers ==> r.receivers[k] == h.receivers[k]
    ensures r.pending == h.pending && r.nextId == h.nextId
  {
    h.(receivers := h.receivers - {s})
  }

  /** Signal: an error for an absent signature, otherwise one signal delivered
      to that signature's endpoint. */
  function Signal(h: Hub, s: string): (r: SignalResult)
    requires Valid(h)
    ensures Valid(r.hub)
    ensures r.hub.receivers == h.receivers && r.hub.nextId == h.nextId
    ensures r.hub.pending.Keys == h.pending.Keys
    ensures s !in h.receivers ==> r.err == Some(Error(SignalNotFound)) && r.hub == h
    ensures s in h.receivers ==>
      && r.err == None
      && r.hub.pending[h.receivers[s]] == h.pending[h.receivers[s]] + 1
      && (forall id :: id in h.pending && id != h.receivers[s] ==> r.hub.pending[id] == h.pending[id])
  {
    if s !in h.receivers then
      SignalResult(h, Some(Error(SignalNotFound)))
    else
      var id := h.receivers[s];
      SignalResult(h.(pending := h.pending[id := h.pending[id] + 1]), None)
  }

  /** One more signal in each endpoint of `ids`. */
  function Bumped(h: Hub, ids: set<nat>): Hub
  {
    h.(pending := map id | id in h.pending :: if id in ids then h.pending[id] + 1 else h.pending[id])
  }

  /** Broadcast: one signal to the endpoint of every registered signature. */
  function Broadcast(h: Hub): (r: Hub)
    requires Valid(h)
    ensures Valid(r)
    ensures r.receivers == h.receivers && r.nextId == h.nextId
    ensures r.pending.Keys == h.pending.Keys
    ensures forall k :: k in h.receivers ==> r.pending[h.receivers[k]] == h.pending[h.receivers[k]] + 1
    ensures forall id :: id in h.pending && id !in h.receivers.Values ==> r.pending[id] == h.pending[id]
    ensures h.receivers == map[] ==> r == h
  {
    Bumped(h, h.receivers.Values)
  }

  /** Signal, one signature after another, in the order given: what the loop of
      Broadcast does for one order of the map. */
  function SignalEach(h: Hub, order: seq<string>): (r: Hub)
    requires Valid(h)
    ensures Valid(r)
    ensures r.receivers == h.receivers && r.nextId == h.nextId
    ensures r.pending.Keys == h.pending.Keys
    decreases |order|
  {
    if order == [] then h
    else Signal(SignalEach(h, order[..|order| - 1]), order[|order| - 1]).hub
  }

  /** SignalEach on one more signature is one more Signal. */
  lemma SignalEachSnoc(h: Hub, order: seq<string>, k: string)
    requires Valid(h)
    ensures SignalEach(h, order + [k]) == Signal(SignalEach(h, order), k).hub
  {
  }

  /** The endpoints registered under the signatures of `order`. */
  function IdsOf(h: Hub, order: seq<string>): set<nat>
  {
    set k | k in order && k in h.receivers :: h.receivers[k]
  }

  predicate Distinct(order: seq<string>)
  {
    forall i, j :: 0 <= i < j < |order| ==> order[i] != order[j]
  }

  /** Adding one signal to an endpoint outside `ids` extends the bump to it. */
  lemma BumpedOneMore(h: Hub, ids: set<nat>, id: nat)
    requires id in h.pending && id !in ids
    ensures var b := Bumped(h, ids);
      b.(pending := b.pending[id := b.pending[id] + 1]) == Bumped(h, ids + {id})
  {
  }

  /** The endpoints of a prefix and its next signature, which is not in it. */
  lemma IdsOfSnoc(h: Hub, order: seq<string>)
    requires Valid(h)
    requires |order| > 0 && Distinct(order)
    requires order[|order| - 1] in h.receivers
    ensures var n := |order| - 1;
      && h.receivers[order[n]] !in IdsOf(h, order[..n])
      && IdsOf(h, order) == IdsOf(h, order[..n]) + {h.receivers[order[n]]}
  {
  }

  /** The induction step of SignalEachBumps: signalling one more registered
      signature after the bump of a prefix bumps the whole sequence. */
  lemma SignalAfterBump(h: Hub, order: seq<string>)
    requires Valid(h)
    requires |order| > 0 && Distinct(order)
    requires order[|order| - 1] in h.receivers
    ensures var n := |order| - 1;
      Signal(Bumped(h, IdsOf(h, order[..n])), order[n]).hub == Bumped(h, IdsOf(h, order))
  {
    var n := |order| - 1;
    IdsOfSnoc(h, order);
    BumpedOneMore(h, IdsOf(h, order[..n]), h.receivers[order[n]]);
  }

  /** Signalling distinct registered signatures one by one adds exactly one
      signal to each of their endpoints, whatever the order. */
  lemma {:induction false} SignalEachBumps(h: Hub, order: seq<string>)
    requires Valid(h)
    requires Distinct(order)
    requires forall i :: 0 <= i < |order| ==> order[i] in h.receivers
    ensures SignalEach(h, order) == Bumped(h, IdsOf(h, order))
  {
    if order != [] {
      var init := order[..|order| - 1];
      assert forall i :: 0 <= i < |init| ==> init[i] == order[i];
      SignalEachBumps(h, init);
      assert order == init + [order[|order| - 1]];
      SignalEachSnoc(h, init, order[|order| - 1]);
      SignalAfterBump(h, order);
    }
  }

  /** Broadcast delivers what signalling every registered signature once, in
      any order, delivers. */
  lemma BroadcastIsSignalEach(h: Hub, order: seq<string>)
    requires Valid(h)
    requires Distinct(order)
    requires forall k :: k in order <==> k in h.receivers
    ensures SignalEach(h, order) == Broadcast(h)
  {
    SignalEachBumps(h, order);
    assert IdsOf(h, order) == h.receivers.Values;
  }

  /** Deregister is idempotent: a second call changes nothing, and so does a
      call for an absent signature. */
  lemma DeregisterIdempotent(h: Hub, s: string)
    requires Valid(h)
    ensures Deregister(Deregister(h, s), s) == Deregister(h, s)
    ensures s !in h.receivers ==> Deregister(h, s) == h
  {
  }

  /** A second Register of the same signature, with no Deregister between,
      clashes and leaves the signature on the first endpoint. */
  lemma RegisterTwiceClashes(h: Hub, s: string)
    requires Valid(h)
    ensures var first := Register(h, s);
      var second := Register(first.hub, s);
      && second.clash
      && second.ch == Nil
      && second.hub == first.hub
      && (!first.clash ==> second.hub.receivers[s] == first.ch.id)
  {
  }

  /** Register followed by Deregister of a new signature gives back the
      receivers map it started from. */
  lemma RegisterThenDeregister(h: Hub, s: string)
    requires Valid(h)
    requires s !in h.receivers
    ensures Deregister(Register(h, s).hub, s).receivers == h.receivers
  {
    assert Deregister(Register(h, s).hub, s).receivers.Keys == h.receivers.Keys;
  }

  /** A receive `<-ch` on a channel made by the hub or on nil. */
  function Receive(h: Hub, ch: Chan): (r: ReceiveResult)
    requires ch.Endpoint? ==> ch.id in h.pending
    ensures r.hub.receivers == h.receivers && r.hub.nextId == h.nextId
    ensures r.hub.pending.Keys == h.pending.Keys
    ensures r.receipt == Received <==> ch.Endpoint? && h.pending[ch.id] > 0
    ensures r.receipt == BlocksForever <==> ch == Nil
    ensures r.receipt != Received ==> r.hub == h
    ensures r.receipt == Received ==>
      && r.hub.pending[ch.id] + 1 == h.pending[ch.id]
      && (forall id :: id in h.pending && id != ch.id ==> r.hub.pending[id] == h.pending[id])
  {
    match ch
    case Nil => ReceiveResult(h, BlocksForever)
    case Endpoint(id) =>
      if h.pending[id] == 0 then ReceiveResult(h, Blocks)
      else ReceiveResult(h.(pending := h.pending[id := h.pending[id] - 1]), Received)
  }

  /** One Signal is received exactly once: the receive after it takes the
      signal and leaves the hub as it was before the Signal, so that a second
      receive waits again when nothing was pending before. */
  lemma SignalThenReceive(h: Hub, s: string)
    requires Valid(h)
    requires s in h.receivers
    ensures var ch := Endpoint(h.receivers[s]);
      && Receive(Signal(h, s).hub, ch) == ReceiveResult(h, Received)
      && (h.pending[ch.id] == 0 ==> Receive(h, ch).receipt == Blocks)
  {
    var id := h.receivers[s];
    assert h.pending[id := h.pending[id] + 1][id := h.pending[id]] == h.pending;
  }

  /** The end of WaitForSignalOnce once it waits on `ch`: the deferred
      Deregister runs when the receive completes, that is unless it blocks forever. */
  function WaitThenDeregister(h: Hub, s: string, ch: Chan): WaitResult
    requires Valid(h)
    requires ch.Endpoint? ==> ch.id in h.pending
  {
    var rcv := Receive(h, ch);
    if rcv.receipt == BlocksForever then WaitResult(rcv.hub, WaitedOn(rcv.receipt))
    else WaitResult(Deregister(rcv.hub, s), WaitedOn(rcv.receipt))
  }

  /** WaitForSignalOnce as written: the clash flag from Register is read as
      `ok`, so a successful registration returns at once and a clash waits on
      the nil channel Register returned. */
  function WaitOnceAsWritten(h: Hub, s: string): (r: WaitResult)
    requires Valid(h)
    ensures Valid(r.hub)
    ensures s !in h.receivers ==> r.outcome == ReturnedEarly && r.hub.receivers == h.receivers
    ensures s in h.receivers ==> r.outcome == WaitedOn(BlocksForever) && r.hub == h
  {
    var reg := Register(h, s);
    var ok := reg.clash;
    if !ok then WaitResult(Deregister(reg.hub, s), ReturnedEarly)
    else WaitThenDeregister(reg.hub, s, reg.ch)
  }

  /** WaitForSignalOnce as intended: a clash returns at once; a successful
      registration waits on its new endpoint, which holds nothing yet, until a
      signal arrives. The deferred Deregister runs on both paths. */
  function WaitOnce(h: Hub, s: string): (r: WaitResult)
    requires Valid(h)
    ensures Valid(r.hub)
    ensures s !in r.hub.receivers
    ensures s !in h.receivers ==> r.outcome == WaitedOn(Blocks) && r.hub.receivers == h.receivers
    ensures s in h.receivers ==> r.outcome == ReturnedEarly && r.hub.receivers == h.receivers - {s}
  {
    var reg := Register(h, s);
    if reg.clash then WaitResult(Deregister(reg.hub, s), ReturnedEarly)
    else WaitThenDeregister(reg.hub, s, reg.ch)
  }

  /** The wait of the corrected WaitForSignalOnce, continued: when another
      task signals the new endpoint, the receive takes exactly that signal, and
      deregistering afterwards gives the registry WaitOnce ends in. */
  lemma WaitOnceTakesOneSignal(h: Hub, s: string)
    requires Valid(h)
    requires s !in h.receivers
    ensures var reg := Register(h, s);
      var sig := Signal(reg.hub, s);
      var rcv := Receive(sig.hub, reg.ch);
      && sig.err == None
      && rcv.receipt == Received
      && rcv.hub == reg.hub
      && Deregister(rcv.hub, s) == WaitOnce(h, s).hub
  {
    var reg := Register(h, s);
    SignalThenReceive(reg.hub, s);
  }

  /** The discrepancy on its smallest input: WaitForSignalOnce on a new hub
      returns without waiting, and its corrected form waits. */
  lemma WaitOnceOnNewHub(s: string)
    ensures WaitOnceAsWritten(NewHub(), s).outcome == ReturnedEarly
    ensures WaitOnce(NewHub(), s).outcome == WaitedOn(Blocks)
    ensures WaitOnce(NewHub(), s).hub.receivers == map[]
  {
  }
}
