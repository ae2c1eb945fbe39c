/**
  The sequential meaning of client.py's pipeline: the broadcaster feeds one
  subscriber queue, the worker turns it into ledger calls, the ledger serves
  them in order, and the trade log and realized PnL are read at the end.
 */
module Pipeline {
  import opened Wrappers
  import opened Positions
  import opened PositionsManager
  import opened PubSub
  import opened Worker

  /** The ledger after the worker named `name` has handled `input`, starting from an empty ledger. */
  function Run<S>(input: seq<Message>, name: string, registry: map<string, S>,
                  step: (S, real) -> (S, Option<Advice>), clock: nat -> real): (r: Ledger)
    ensures Valid(r)
    ensures name !in registry ==> r == Empty()
  {
    if name !in registry then Empty()
    else
      var calls := Trace(step, registry[name], input, clock, 0);
      ApplyAllKeepsValid(Empty(), calls);
      ApplyAll(Empty(), calls)
  }

  /**
    The whole run: broadcast to one subscriber queue, run the worker on it,
    serve its calls, read the trade log and the realized PnL. Going through
    the broadcaster changes nothing, and the total equals the logged PnLs.
   */
  method RunPipeline<S>(input: seq<Message>, name: string, registry: map<string, S>,
                        step: (S, real) -> (S, Option<Advice>), clock: nat -> real)
    returns (tradeLog: seq<TradeRecord>, realizedPnl: real)
    ensures tradeLog == Run(input, name, registry, step, clock).tradeLog
    ensures realizedPnl == Run(input, name, registry, step, clock).realizedPnl
    ensures realizedPnl == SumPnl(tradeLog)
    ensures forall k :: 0 <= k < |tradeLog| ==>
      tradeLog[k].pnl == Pnl(tradeLog[k].side, tradeLog[k].entry, tradeLog[k].exit)
    ensures name !in registry ==> tradeLog == [] && realizedPnl == 0.0
  {
    var queues, _, _ := PubSubManager(input, 1);
    var calls, _, _ := SubscriberWorker(name, registry, step, queues[0], clock);
    if name in registry {
      TraceSeesOnlyForwarded(step, registry[name], input, clock, 0);
    }
    var ledger := ApplyAll(Empty(), calls);
    ApplyAllKeepsValid(Empty(), calls);
    tradeLog := GetTradeLog(ledger);
    realizedPnl := GetRealizedPnl(ledger);
  }

  /** Messages after the first marker never change the outcome. */
  lemma RunIgnoresAfterEod<S>(a: seq<Message>, b: seq<Message>, c: seq<Message>, name: string,
                              registry: map<string, S>, step: (S, real) -> (S, Option<Advice>),
                              clock: nat -> real)
    requires Eod !in a
    ensures Run(a + [Eod] + b, name, registry, step, clock) == Run(a + [Eod] + c, name, registry, step, clock)
  {
    if name in registry {
      TraceIgnoresAfterEod(step, registry[name], a, b, c, clock);
    }
  }

  /** With a clock that never runs backwards, every trade exits no earlier than it entered. */
  lemma RunStampsOrdered<S>(input: seq<Message>, name: string, registry: map<string, S>,
                            step: (S, real) -> (S, Option<Advice>), clock: nat -> real)
    requires Monotone(clock)
    ensures var log := Run(input, name, registry, step, clock).tradeLog;
      forall k :: 0 <= k < |log| ==> log[k].entryTime <= log[k].exitTime
  {
    if name in registry {
      TraceStamps(step, registry[name], input, clock, 0);
      ApplyAllKeepsStamps(Empty(), Trace(step, registry[name], input, clock, 0), clock(0));
    }
  }

  /** A stand-in strategy for the scenario below: "BUY" with target 110 and stop 95 on its first tick only. */
  function BuyOnFirstTick(fired: bool, price: real): (bool, Option<Advice>) {
    if fired then (true, None) else (true, Some(Advice(Some("BUY"), 110.0, 95.0)))
  }

  function TickClock(k: nat): real {
    k as real
  }

  function ScenarioInput(): seq<Message> {
    [Data(Tick("X", 100.0)), Data(Tick("X", 102.0)), Data(Tick("X", 108.0)), Data(Tick("X", 111.0)), Eod]
  }

  function ScenarioPosition(): Position {
    Position(Long, 100.0, 110.0, 95.0, 0.0)
  }

  function ScenarioCalls(): seq<LedgerCall> {
    [PriceUpdate("X", 100.0, 0.0), PositionUpdate("X", "BUY", 100.0, 110.0, 95.0, 0.0),
     PriceUpdate("X", 102.0, 1.0), PriceUpdate("X", 108.0, 2.0), PriceUpdate("X", 111.0, 3.0)]
  }

  /** The ledger while the scenario's position is open, last priced at `price`. */
  function ScenarioOpen(price: real): Ledger {
    Ledger(map["X" := [ScenarioPosition()]], map["X" := price], [], 0.0)
  }

  function ScenarioTrade(): TradeRecord {
    TradeRecord("X", Long, 100.0, 111.0, 11.0, 0.0, 3.0)
  }

  /** The ledger after the first price update, before anything opens. */
  function ScenarioPriced(): Ledger {
    Ledger(map[], map["X" := 100.0], [], 0.0)
  }

  /** The ledger once the position has closed at 111. */
  function ScenarioClosed(): Ledger {
    Ledger(map["X" := []], map["X" := 111.0], [ScenarioTrade()], 11.0)
  }

  /** The calls of the scenario's worker: an open right after the first price update, then three price updates. */
  lemma ScenarioTrace()
    ensures Trace(BuyOnFirstTick, false, ScenarioInput(), TickClock, 0) == ScenarioCalls()
  {
    var input := ScenarioInput();
    assert Trace(BuyOnFirstTick, true, input, TickClock, 4) == [];
    assert Trace(BuyOnFirstTick, true, input, TickClock, 3) == [PriceUpdate("X", 111.0, 3.0)];
    assert Trace(BuyOnFirstTick, true, input, TickClock, 2)
        == [PriceUpdate("X", 108.0, 2.0), PriceUpdate("X", 111.0, 3.0)];
  }

  /** The first tick: the price is recorded, nothing is open yet, then the long opens. */
  lemma ScenarioFirstTick()
    ensures Apply(Empty(), PriceUpdate("X", 100.0, 0.0)) == ScenarioPriced()
    ensures Apply(ScenarioPriced(), PositionUpdate("X", "BUY", 100.0, 110.0, 95.0, 0.0)) == ScenarioOpen(100.0)
  {
    NoPositionsOnlyPrice(Empty(), "X", 100.0, 0.0);
    assert [] + [ScenarioPosition()] == [ScenarioPosition()];
  }

  /** Prices below the target and above the stop leave the position open and log nothing. */
  lemma ScenarioHolds(from: real, price: real, now: real)
    requires 95.0 < price < 110.0
    ensures UpdateMarketPrice(ScenarioOpen(from), "X", price, now) == ScenarioOpen(price)
  {
    var p := ScenarioPosition();
    assert Kept([p], price) == [p] && Closed([p], price) == [];
    assert Records("X", [], price, now) == [];
  }

  /** A lone position that reaches a level closes: its list empties and its one record is logged. */
  lemma LoneClose(identifier: string, p: Position, price: real, now: real)
    requires ShouldClose(p, price)
    ensures AutoClose(Ledger(map[identifier := [p]], map[identifier := price], [], 0.0), identifier, now)
         == Ledger(map[identifier := []], map[identifier := price], [CloseRecord(identifier, p, price, now)],
                   Pnl(p.side, p.entry, price))
  {
    var l := Ledger(map[identifier := [p]], map[identifier := price], [], 0.0);
    AutoCloseUnfolds(l, identifier, now);
    assert [p][..0] == [];
    assert Kept([p], price) == [] && Closed([p], price) == [p];
    var closed := Records(identifier, [p], price, now);
    assert closed == [CloseRecord(identifier, p, price, now)];
    assert SumPnl(closed) == Pnl(p.side, p.entry, price) by {
      assert closed[..0] == [];
    }
    assert l.positions[identifier := []] == map[identifier := []];
  }

  /** The price 111 reaches the target: the position closes with PnL 11. */
  lemma ScenarioCloses()
    ensures UpdateMarketPrice(ScenarioOpen(108.0), "X", 111.0, 3.0) == ScenarioClosed()
  {
    assert ScenarioOpen(108.0).(prices := ScenarioOpen(108.0).prices["X" := 111.0]) == ScenarioOpen(111.0);
    LoneClose("X", ScenarioPosition(), 111.0, 3.0);
    assert CloseRecord("X", ScenarioPosition(), 111.0, 3.0) == ScenarioTrade();
  }

  /** Each of the scenario's later calls moves the ledger to the next expected state. */
  lemma ScenarioSteps()
    ensures Apply(ScenarioOpen(100.0), PriceUpdate("X", 102.0, 1.0)) == ScenarioOpen(102.0)
    ensures Apply(ScenarioOpen(102.0), PriceUpdate("X", 108.0, 2.0)) == ScenarioOpen(108.0)
    ensures Apply(ScenarioOpen(108.0), PriceUpdate("X", 111.0, 3.0))
         == ScenarioClosed()
  {
    ScenarioHolds(100.0, 102.0, 1.0);
    ScenarioHolds(102.0, 108.0, 2.0);
    ScenarioCloses();
  }

  /** The ledger serves the scenario's calls through the expected states. */
  lemma ScenarioServed()
    ensures ApplyAll(Empty(), ScenarioCalls()) == ScenarioClosed()
  {
    var c0 := PriceUpdate("X", 100.0, 0.0);
    var c1 := PositionUpdate("X", "BUY", 100.0, 110.0, 95.0, 0.0);
    var c2 := PriceUpdate("X", 102.0, 1.0);
    var c3 := PriceUpdate("X", 108.0, 2.0);
    var c4 := PriceUpdate("X", 111.0, 3.0);
    assert ScenarioCalls() == [c0] + ([c1] + ([c2] + ([c3] + [c4])));
    ScenarioFirstTick();
    ScenarioSteps();
    ApplyAllCons(Empty(), c0, [c1] + ([c2] + ([c3] + [c4])));
    ApplyAllCons(ScenarioPriced(), c1, [c2] + ([c3] + [c4]));
    ApplyAllCons(ScenarioOpen(100.0), c2, [c3] + [c4]);
    ApplyAllCons(ScenarioOpen(102.0), c3, [c4]);
    ApplyAllCons(ScenarioOpen(108.0), c4, []);
    assert [c4] + [] == [c4];
  }

  /**
    Ticks for "X" at 100 (a long opens, target 110, stop 95), 102, 108 and
    111, then the marker: one trade closes at 111 with PnL 11.
   */
  lemma LongScenario()
    ensures var r := Run(ScenarioInput(), "BuyOnFirstTick", map["BuyOnFirstTick" := false],
                         BuyOnFirstTick, TickClock);
      && r.tradeLog == [ScenarioTrade()]
      && r.realizedPnl == 11.0
  {
    ScenarioTrace();
    ScenarioServed();
  }
}
