/**
  The strategy worker of client.py (`subscriber_worker`): for each tick it
  first reports the price to the ledger, then asks its strategy, and opens a
  position when the strategy's signal is truthy. The strategy is an opaque
  stateful oracle: a state plus a step function of the tick's price.
 */
module Worker {
  import opened Wrappers
  import opened PositionsManager
  import opened PubSub

  /** A strategy's answer `(signal, target, stop_loss)`; `signal` may be `None`. */
  datatype Advice = Advice(signal: Option<string>, target: real, stopLoss: real)

  /** Python truthiness of a signal: present and not the empty string. */
  predicate Truthy(signal: Option<string>) {
    signal.Some? && signal.value != ""
  }

  /** A clock that never runs backwards. */
  ghost predicate Monotone(clock: nat -> real) {
    forall a: nat, b: nat :: a <= b ==> clock(a) <= clock(b)
  }

  /**
    The ledger calls one tick causes: always the price update first, then an
    open at the tick's own price exactly when the strategy answered with a
    truthy signal.
   */
  function TickCalls(tick: Tick, advice: Option<Advice>, now: real): (calls: seq<LedgerCall>)
    ensures 1 <= |calls| <= 2
    ensures calls[0] == PriceUpdate(tick.identifier, tick.price, now)
    ensures |calls| == 2 <==> advice.Some? && Truthy(advice.value.signal)
    ensures |calls| == 2 ==>
      calls[1] == PositionUpdate(tick.identifier, advice.value.signal.value, tick.price,
                                 advice.value.target, advice.value.stopLoss, now)
  {
    var update := PriceUpdate(tick.identifier, tick.price, now);
    match advice
    case None => [update]
    case Some(Advice(signal, target, stopLoss)) =>
      if Truthy(signal) then
        [update, PositionUpdate(tick.identifier, signal.value, tick.price, target, stopLoss, now)]
      else
        [update]
  }

  /**
    The ledger calls the worker makes from message `i` of its queue on, with
    strategy state `s`, stopping at the first marker.
   */
  function Trace<S>(step: (S, real) -> (S, Option<Advice>), s: S, queue: seq<Message>, clock: nat -> real,
                    i: nat): (calls: seq<LedgerCall>)
    requires i <= |queue|
    decreases |queue| - i
  {
    if i == |queue| || queue[i].Eod? then []
    else
      var (next, advice) := step(s, queue[i].tick.price);
      TickCalls(queue[i].tick, advice, clock(i)) + Trace(step, next, queue, clock, i + 1)
  }

  /** One data message contributes its tick's calls ahead of the rest of the trace. */
  lemma TraceTick<S>(step: (S, real) -> (S, Option<Advice>), s: S, queue: seq<Message>, clock: nat -> real,
                     i: nat)
    requires i < |queue| && queue[i].Data?
    ensures Trace(step, s, queue, clock, i)
         == TickCalls(queue[i].tick, step(s, queue[i].tick.price).1, clock(i))
          + Trace(step, step(s, queue[i].tick.price).0, queue, clock, i + 1)
  {
  }

  /** Handling the data message at `i` moves it from the trace still to come to the calls already made. */
  lemma TraceAdvance<S>(step: (S, real) -> (S, Option<Advice>), s: S, queue: seq<Message>, clock: nat -> real,
                        i: nat, calls: seq<LedgerCall>, here: seq<LedgerCall>, next: S, whole: seq<LedgerCall>)
    requires i < |queue| && queue[i].Data?
    requires calls + Trace(step, s, queue, clock, i) == whole
    requires here == TickCalls(queue[i].tick, step(s, queue[i].tick.price).1, clock(i))
    requires next == step(s, queue[i].tick.price).0
    ensures (calls + here) + Trace(step, next, queue, clock, i + 1) == whole
  {
    TraceTick(step, s, queue, clock, i);
    var rest := Trace(step, next, queue, clock, i + 1);
    assert (calls + here) + rest == calls + (here + rest);
  }

  /**
    Every open in a worker's calls comes directly after the price update of
    the same tick at the same price and clock reading, so a new position is
    first checked against a price on the next tick's update.
   */
  lemma {:induction false} TraceOpensAfterPriceUpdate<S>(step: (S, real) -> (S, Option<Advice>), s: S,
                                                        queue: seq<Message>, clock: nat -> real, i: nat)
    requires i <= |queue|
    ensures var calls := Trace(step, s, queue, clock, i);
      forall j, k :: 0 <= j && k == j + 1 && k < |calls| && calls[k].PositionUpdate? ==>
        calls[j] == PriceUpdate(calls[k].identifier, calls[k].price, calls[k].now)
    ensures var calls := Trace(step, s, queue, clock, i);
      |calls| > 0 ==> calls[0].PriceUpdate?
    decreases |queue| - i
  {
    if i < |queue| && queue[i].Data? {
      var (next, advice) := step(s, queue[i].tick.price);
      var here := TickCalls(queue[i].tick, advice, clock(i));
      var rest := Trace(step, next, queue, clock, i + 1);
      TraceOpensAfterPriceUpdate(step, next, queue, clock, i + 1);
      var calls := here + rest;
      forall j, k | 0 <= j && k == j + 1 && k < |calls| && calls[k].PositionUpdate?
        ensures calls[j] == PriceUpdate(calls[k].identifier, calls[k].price, calls[k].now)
      {
        if j >= |here| {
          assert calls[j] == rest[j - |here|] && calls[k] == rest[k - |here|];
        }
      }
    }
  }

  /**
    The worker only ever sees what the broadcaster forwards: running it on
    the forwarded prefix gives the same calls as on the whole input.
   */
  lemma {:induction false} TraceSeesOnlyForwarded<S>(step: (S, real) -> (S, Option<Advice>), s: S,
                                                    queue: seq<Message>, clock: nat -> real, i: nat)
    requires i <= |Forwarded(queue)|
    requires forall j :: 0 <= j < i ==> queue[j].Data?
    ensures Trace(step, s, queue, clock, i) == Trace(step, s, Forwarded(queue), clock, i)
    decreases |queue| - i
  {
    var out := Forwarded(queue);
    if i < |out| && queue[i].Data? {
      assert out[i] == queue[i];
      var (next, advice) := step(s, queue[i].tick.price);
      TraceSeesOnlyForwarded(step, next, queue, clock, i + 1);
    }
  }

  /** Messages after the first marker cause no ledger call. */
  lemma TraceIgnoresAfterEod<S>(step: (S, real) -> (S, Option<Advice>), s: S, a: seq<Message>,
                                b: seq<Message>, c: seq<Message>, clock: nat -> real)
    requires Eod !in a
    ensures Trace(step, s, a + [Eod] + b, clock, 0) == Trace(step, s, a + [Eod] + c, clock, 0)
  {
    var x := a + [Eod] + b;
    var y := a + [Eod] + c;
    assert forall j :: 0 <= j < |a| ==> x[j] == a[j] && y[j] == a[j];
    ForwardedIgnoresTail(a, b, c);
    TraceSeesOnlyForwarded(step, s, x, clock, 0);
    TraceSeesOnlyForwarded(step, s, y, clock, 0);
  }

  /** Under a clock that never runs backwards, the calls' readings never decrease. */
  lemma {:induction false} TraceStamps<S>(step: (S, real) -> (S, Option<Advice>), s: S,
                                          queue: seq<Message>, clock: nat -> real, i: nat)
    requires i <= |queue| && Monotone(clock)
    ensures forall j :: 0 <= j < |Trace(step, s, queue, clock, i)| ==>
      clock(i) <= Trace(step, s, queue, clock, i)[j].now
    ensures forall j, k :: 0 <= j <= k < |Trace(step, s, queue, clock, i)| ==>
      Trace(step, s, queue, clock, i)[j].now <= Trace(step, s, queue, clock, i)[k].now
    decreases |queue| - i
  {
    if i < |queue| && queue[i].Data? {
      var (next, advice) := step(s, queue[i].tick.price);
      var here := TickCalls(queue[i].tick, advice, clock(i));
      var rest := Trace(step, next, queue, clock, i + 1);
      TraceStamps(step, next, queue, clock, i + 1);
      assert clock(i) <= clock(i + 1);
      var calls := Trace(step, s, queue, clock, i);
      assert calls == here + rest;
      assert forall j :: 0 <= j < |here| ==> here[j].now == clock(i);
      forall j, k | 0 <= j <= k < |calls|
        ensures clock(i) <= calls[j].now <= calls[k].now
      {
        if k >= |here| {
          assert calls[k] == rest[k - |here|];
        }
        if j >= |here| {
          assert calls[j] == rest[j - |here|];
        }
      }
    }
  }

  /**
    The worker loop: an unknown strategy name ends the worker before it takes
    any message. Otherwise take the next message; stop on the marker; else
    call the ledger's price update for the tick, ask the strategy, and call
    the ledger's open when the answer carries a truthy signal. Returns the
    ledger calls made, in order, how many messages were taken, and whether a
    marker stopped the loop (the source would otherwise keep waiting).
   */
  method SubscriberWorker<S>(name: string, registry: map<string, S>, step: (S, real) -> (S, Option<Advice>),
                             queue: seq<Message>, clock: nat -> real)
    returns (calls: seq<LedgerCall>, consumed: nat, stopped: bool)
    ensures name !in registry ==> calls == [] && consumed == 0 && !stopped
    ensures name in registry ==>
      && calls == Trace(step, registry[name], queue, clock, 0)
      && consumed == |Forwarded(queue)|
      && (stopped <==> Eod in queue)
  {
    if name !in registry {
      return [], 0, false;
    }
    var strategy := registry[name];
    calls := [];
    consumed := 0;
    stopped := false;
    while consumed < |queue|
      invariant consumed <= |queue|
      invariant forall j :: 0 <= j < consumed ==> queue[j].Data?
      invariant calls + Trace(step, strategy, queue, clock, consumed) == Trace(step, registry[name], queue, clock, 0)
    {
      var data := queue[consumed];
      if data.Eod? {
        consumed := consumed + 1;
        stopped := true;
        break;
      }
      var here, next := HandleTick(step, strategy, data.tick, clock(consumed));
      TraceAdvance(step, strategy, queue, clock, consumed, calls, here, next, Trace(step, registry[name], queue, clock, 0));
      calls := calls + here;
      strategy := next;
      consumed := consumed + 1;
    }
    WorkerStops(queue, consumed, stopped);
  }

  /**
    The worker's handling of one tick: the price update call first, then the
    strategy's answer, then an open at the tick's price when its signal is
    truthy. Returns the calls made and the strategy's next state.
   */
  method HandleTick<S>(step: (S, real) -> (S, Option<Advice>), strategy: S, tick: Tick, now: real)
    returns (here: seq<LedgerCall>, next: S)
    ensures here == TickCalls(tick, step(strategy, tick.price).1, now)
    ensures next == step(strategy, tick.price).0
  {
    var price := tick.price;
    var identifier := tick.identifier;
    here := [PriceUpdate(identifier, price, now)];
    var answer := step(strategy, price);
    next := answer.0;
    var result := answer.1;
    if result.Some? {
      var Advice(signal, target, stopLoss) := result.value;
      if Truthy(signal) {
        here := here + [PositionUpdate(identifier, signal.value, price, target, stopLoss, now)];
      }
    }
  }

  /** Where the worker loop ends: just past the first marker, or at the end of a queue without one. */
  lemma WorkerStops(queue: seq<Message>, consumed: nat, stopped: bool)
    requires consumed <= |queue|
    requires stopped ==> 0 < consumed && queue[consumed - 1] == Eod
    requires forall j :: 0 <= j < consumed - (if stopped then 1 else 0) ==> queue[j].Data?
    requires !stopped ==> consumed == |queue|
    ensures consumed == |Forwarded(queue)|
    ensures stopped <==> Eod in queue
  {
    if stopped {
      ForwardedUpToFirstEod(queue, consumed - 1);
    }
  }
}
