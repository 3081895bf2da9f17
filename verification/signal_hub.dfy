/**
 The signal hub as the program keeps it: an object whose methods update its
 receivers map in place. Each method is atomic (the lock that makes it so is
 not modelled) and is proved against the matching function of HubModel.
 */
module Gobr {
  import opened HubModel

  class SignalHub {
    /** signature -> endpoint */
    var receivers: map<string, nat>
    /** signals delivered to each endpoint the hub has made and not yet received */
    var pending: map<nat, nat>
    /** the identity the next `make(chan struct{})` gets */
    var nextId: nat

    function State(): Hub
      reads this
    {
      Hub(receivers, pending, nextId)
    }

    predicate Valid()
      reads this
    {
      HubModel.Valid(State())
    }

    /** NewSignalHub: an empty receivers map. */
    constructor ()
      ensures Valid()
      ensures State() == NewHub()
      ensures receivers == map[]
    {
      receivers := map[];
      pending := map[];
      nextId := 0;
    }

    /** Register: (nil, true) and no change when the signature is taken;
        otherwise a new endpoint filed under it and returned with false. */
    method Register(signature: string) returns (ch: Chan, clash: bool)
      requires Valid()
      modifies this
      ensures Valid()
      ensures RegisterResult(State(), ch, clash) == HubModel.Register(old(State()), signature)
      ensures clash <==> signature in old(receivers)
      ensures clash ==> ch == Nil && receivers == old(receivers)
      ensures !clash ==> ch == Endpoint(receivers[signature]) && ch.id !in old(pending)
    {
      clash := signature in receivers;
      if clash {
        ch := Nil;
        return;
      }
      var id := nextId;
      nextId := nextId + 1;
      pending := pending[id := 0];
      receivers := receivers[signature := id];
      ch := Endpoint(receivers[signature]);
      clash := false;
    }

    /** Deregister: the signature is gone afterwards; nothing else changes. */
    method Deregister(signature: string)
      requires Valid()
      modifies this
      ensures Valid()
      ensures State() == HubModel.Deregister(old(State()), signature)
      ensures receivers == old(receivers) - {signature}
    {
      receivers := receivers - {signature};
    }

    /** Signal: an error and no change for an absent signature; otherwise one
        signal to its endpoint and nil. */
    method Signal(signature: string) returns (err: Option<Error>)
      requires Valid()
      modifies this
      ensures Valid()
      ensures SignalResult(State(), err) == HubModel.Signal(old(State()), signature)
      ensures err.None? <==> signature in old(receivers)
      ensures receivers == old(receivers)
    {
      var ok := signature in receivers;
      if !ok {
        return Some(Error(SignalNotFound));
      }
      var id := receivers[signature];
      pending := pending[id := pending[id] + 1];
      return None;
    }

    /** Broadcast: one signal to every registered endpoint, visiting the
        signatures in an order the model leaves open. */
    method Broadcast()
      requires Valid()
      modifies this
      ensures Valid()
      ensures State() == HubModel.Broadcast(old(State()))
      ensures receivers == old(receivers)
    {
      var todo := receivers.Keys;
      ghost var done: seq<string> := [];
      while todo != {}
        invariant Valid()
        invariant receivers == old(receivers)
        invariant todo <= receivers.Keys
        invariant Distinct(done)
        invariant forall k :: k in done <==> k in receivers && k !in todo
        invariant State() == SignalEach(old(State()), done)
        decreases todo
      {
        var signature :| signature in todo;
        ghost var before := State();
        var id := receivers[signature];
        pending := pending[id := pending[id] + 1];
        assert State() == HubModel.Signal(before, signature).hub;
        SignalEachSnoc(old(State()), done, signature);
        todo := todo - {signature};
        done := done + [signature];
      }
      BroadcastIsSignalEach(old(State()), done);
    }

    /** A receive `<-ch` on an endpoint this hub made, or on nil. */
    method Receive(ch: Chan) returns (receipt: Receipt)
      requires Valid()
      requires ch.Endpoint? ==> ch.id in pending
      modifies this
      ensures Valid()
      ensures ReceiveResult(State(), receipt) == HubModel.Receive(old(State()), ch)
    {
      match ch
      case Nil =>
        receipt := BlocksForever;
      case Endpoint(id) =>
        if pending[id] == 0 {
          receipt := Blocks;
        } else {
          pending := pending[id := pending[id] - 1];
          receipt := Received;
        }
    }
  }

  /** WaitForSignalOnce as written: the deferred Deregister runs on every
      return, and the clash flag of Register is tested as if it meant success. */
  method WaitForSignalOnce(s: string, ts: SignalHub) returns (outcome: WaitOutcome)
    requires ts.Valid()
    modifies ts
    ensures ts.Valid()
    ensures WaitResult(ts.State(), outcome) == WaitOnceAsWritten(old(ts.State()), s)
    ensures s !in old(ts.receivers) ==> outcome == ReturnedEarly && s !in ts.receivers
  {
    var signal, ok := ts.Register(s);
    if !ok {
      outcome := ReturnedEarly;
    } else {
      var receipt := ts.Receive(signal);
      outcome := WaitedOn(receipt);
    }
    // the deferred Deregister, run when the call returns; a receive that
    // never completes never returns
    if outcome != WaitedOn(BlocksForever) {
      ts.Deregister(s);
    }
  }

  /** WaitForSignalOnce with the flag read as the clash it is: wait on the new
      endpoint unless Register clashed; deregister on the way out. */
  method WaitForSignalOnceCorrected(s: string, ts: SignalHub) returns (outcome: WaitOutcome)
    requires ts.Valid()
    modifies ts
    ensures ts.Valid()
    ensures WaitResult(ts.State(), outcome) == WaitOnce(old(ts.State()), s)
    ensures s !in ts.receivers
  {
    var signal, clash := ts.Register(s);
    if clash {
      ts.Deregister(s);
      return ReturnedEarly;
    }
    // the receive on the new endpoint completes once a signal arrives
    var receipt := ts.Receive(signal);
    outcome := WaitedOn(receipt);
    ts.Deregister(s);
  }
}
