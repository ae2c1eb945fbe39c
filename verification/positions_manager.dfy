/**
  The positions ledger of positions_manager.py: open positions per identifier,
  last price per identifier, the append-only trade log and the realized PnL
  total, with the two operations the pipeline calls.
 */
module PositionsManager {
  import opened Positions

  datatype Ledger = Ledger(
    positions: map<string, seq<Position>>,
    prices: map<string, real>,
    tradeLog: seq<TradeRecord>,
    realizedPnl: real)

  /**
    The ledger's conservation invariant: the realized total is the sum of the
    logged PnLs, and each logged PnL is the one its side, entry and exit give.
   */
  ghost predicate Valid(l: Ledger) {
    && l.realizedPnl == SumPnl(l.tradeLog)
    && forall k :: 0 <= k < |l.tradeLog| ==>
         l.tradeLog[k].pnl == Pnl(l.tradeLog[k].side, l.tradeLog[k].entry, l.tradeLog[k].exit)
  }

  /** The state a fresh ledger starts in. */
  function Empty(): (l: Ledger)
    ensures Valid(l)
    ensures l.positions == map[] && l.prices == map[]
    ensures l.tradeLog == [] && l.realizedPnl == 0.0
  {
    Ledger(map[], map[], [], 0.0)
  }

  /** The positions open for `identifier`, none when it was never seen. */
  function OpenFor(l: Ledger, identifier: string): seq<Position> {
    if identifier in l.positions then l.positions[identifier] else []
  }

  /**
    The auto-close scan as a stable partition: the positions of `identifier`
    that reach a level at the recorded price are closed and logged in order,
    the rest stay open in order. Without a position list or a price the
    ledger is left alone.
   */
  function AutoClose(l: Ledger, identifier: string, now: real): (r: Ledger)
    ensures r.prices == l.prices && r.positions.Keys == l.positions.Keys
    ensures forall id :: id in l.positions && id != identifier ==> r.positions[id] == l.positions[id]
    ensures identifier !in l.positions || identifier !in l.prices ==> r == l
  {
    if identifier !in l.positions || identifier !in l.prices then l
    else
      var price := l.prices[identifier];
      var ps := l.positions[identifier];
      var closed := Records(identifier, Closed(ps, price), price, now);
      l.(positions := l.positions[identifier := Kept(ps, price)],
         tradeLog := l.tradeLog + closed,
         realizedPnl := l.realizedPnl + SumPnl(closed))
  }

  /** The auto-close scan of an identifier with positions and a price, spelled out field by field. */
  lemma AutoCloseUnfolds(l: Ledger, identifier: string, now: real)
    requires identifier in l.positions && identifier in l.prices
    ensures var price := l.prices[identifier];
      var ps := l.positions[identifier];
      var closed := Records(identifier, Closed(ps, price), price, now);
      AutoClose(l, identifier, now)
        == Ledger(l.positions[identifier := Kept(ps, price)], l.prices, l.tradeLog + closed, l.realizedPnl + SumPnl(closed))
  {
  }

  /** Records `price` for `identifier`, then closes what that price triggers. */
  function UpdateMarketPrice(l: Ledger, identifier: string, price: real, now: real): (r: Ledger)
    ensures r.prices == l.prices[identifier := price]
    ensures r.positions.Keys == l.positions.Keys
    ensures forall id :: id in l.positions && id != identifier ==> r.positions[id] == l.positions[id]
    ensures identifier !in l.positions ==> r == l.(prices := l.prices[identifier := price])
  {
    AutoClose(l.(prices := l.prices[identifier := price]), identifier, now)
  }

  /**
    What a price update does to `identifier`'s positions and to the log: the
    positions that reach a level at `price` leave the list, which keeps the
    others in order; their records, exiting at `price` at reading `now`, are
    appended in the same order; the total grows by exactly their PnL; and the
    positions that left are as many as the records that arrived.
   */
  lemma UpdateMarketPriceCloses(l: Ledger, identifier: string, price: real, now: real)
    ensures var r := UpdateMarketPrice(l, identifier, price, now);
      identifier in l.positions ==>
        && r.positions[identifier] == Kept(l.positions[identifier], price)
        && forall p :: p in r.positions[identifier] <==> p in l.positions[identifier] && !ShouldClose(p, price)
    ensures var r := UpdateMarketPrice(l, identifier, price, now);
      |l.tradeLog| <= |r.tradeLog| && r.tradeLog[..|l.tradeLog|] == l.tradeLog
    ensures var r := UpdateMarketPrice(l, identifier, price, now);
      |r.tradeLog| - |l.tradeLog| + |OpenFor(r, identifier)| == |OpenFor(l, identifier)|
    ensures var r := UpdateMarketPrice(l, identifier, price, now);
      r.tradeLog[|l.tradeLog|..] == Records(identifier, Closed(OpenFor(l, identifier), price), price, now)
    ensures var r := UpdateMarketPrice(l, identifier, price, now);
      forall k :: |l.tradeLog| <= k < |r.tradeLog| ==>
        && r.tradeLog[k].identifier == identifier
        && r.tradeLog[k].exit == price
        && r.tradeLog[k].exitTime == now
        && r.tradeLog[k].pnl == Pnl(r.tradeLog[k].side, r.tradeLog[k].entry, price)
    ensures var r := UpdateMarketPrice(l, identifier, price, now);
      r.realizedPnl == l.realizedPnl + SumPnl(r.tradeLog[|l.tradeLog|..])
  {
    var r := UpdateMarketPrice(l, identifier, price, now);
    if identifier in l.positions {
      var ps := l.positions[identifier];
      PartitionIsExact(ps, price);
      PartitionMembers(ps, price);
      var closed := Records(identifier, Closed(ps, price), price, now);
      assert r.tradeLog == l.tradeLog + closed;
      assert r.tradeLog[|l.tradeLog|..] == closed;
      assert |multiset(Kept(ps, price))| + |multiset(Closed(ps, price))| == |multiset(ps)|;
    } else {
      assert r.tradeLog[|l.tradeLog|..] == [];
    }
  }

  /**
    Opens a position at the tail of `identifier`'s list: long for "BUY",
    short otherwise, entered at `price`. Nothing else changes.
   */
  function UpdatePosition(l: Ledger, identifier: string, signal: string, price: real, target: real,
                          stopLoss: real, now: real): (r: Ledger)
    ensures r.positions.Keys == l.positions.Keys + {identifier}
    ensures forall id :: id in l.positions && id != identifier ==> r.positions[id] == l.positions[id]
    ensures |r.positions[identifier]| == |OpenFor(l, identifier)| + 1
    ensures r.positions[identifier][..|OpenFor(l, identifier)|] == OpenFor(l, identifier)
    ensures var p := r.positions[identifier][|OpenFor(l, identifier)|];
      && (p.side == Long <==> signal == "BUY")
      && p.entry == price && p.target == target && p.stop == stopLoss && p.openTime == now
    ensures r.prices == l.prices && r.tradeLog == l.tradeLog && r.realizedPnl == l.realizedPnl
  {
    var p := Position(SideOf(signal), price, target, stopLoss, now);
    var ps := OpenFor(l, identifier) + [p];
    assert ps[..|ps| - 1] == OpenFor(l, identifier);
    l.(positions := l.positions[identifier := ps])
  }

  /** A copy of the trade log, in close order; on a valid ledger its PnLs add up to the realized total. */
  function GetTradeLog(l: Ledger): (r: seq<TradeRecord>)
    ensures r == l.tradeLog
    ensures Valid(l) ==> SumPnl(r) == l.realizedPnl
  {
    l.tradeLog
  }

  /** The realized PnL total; on a valid ledger it is the sum of the logged trades' PnLs. */
  function GetRealizedPnl(l: Ledger): (r: real)
    ensures Valid(l) ==> r == SumPnl(GetTradeLog(l))
  {
    l.realizedPnl
  }

  /** The per-position close test of the scan, target before stop. */
  method CloseDecision(pos: Position, price: real) returns (shouldClose: bool)
    ensures shouldClose <==> ShouldClose(pos, price)
  {
    shouldClose := false;
    if pos.side == Long {
      if price >= pos.target {
        shouldClose := true;
      } else if price <= pos.stop {
        shouldClose := true;
      }
    } else if pos.side == Short {
      if price <= pos.target {
        shouldClose := true;
      } else if price >= pos.stop {
        shouldClose := true;
      }
    }
  }

  /**
    The state of the auto-close loop after examining the first `seen`
    positions: the working list is the kept ones followed by the unexamined
    ones, the index points at the first unexamined one, and the log and the
    total hold the records of the closed ones.
   */
  ghost predicate ScanState(identifier: string, positions: seq<Position>, price: real, now: real,
                            tradeLog0: seq<TradeRecord>, realizedPnl0: real, seen: nat,
                            current: seq<Position>, i: nat, tradeLog: seq<TradeRecord>, realizedPnl: real)
  {
    && seen <= |positions|
    && current == Kept(positions[..seen], price) + positions[seen..]
    && i == |Kept(positions[..seen], price)|
    && tradeLog == tradeLog0 + Records(identifier, Closed(positions[..seen], price), price, now)
    && realizedPnl == realizedPnl0 + SumPnl(Records(identifier, Closed(positions[..seen], price), price, now))
  }

  /** Removing a closing position at the index, logging it and adding its PnL moves the scan on by one. */
  lemma ScanCloses(identifier: string, positions: seq<Position>, price: real, now: real,
                   tradeLog0: seq<TradeRecord>, realizedPnl0: real, seen: nat,
                   current: seq<Position>, i: nat, tradeLog: seq<TradeRecord>, realizedPnl: real)
    requires ScanState(identifier, positions, price, now, tradeLog0, realizedPnl0, seen, current, i, tradeLog, realizedPnl)
    requires i < |current| && ShouldClose(current[i], price)
    ensures ScanState(identifier, positions, price, now, tradeLog0, realizedPnl0, seen + 1,
                      current[..i] + current[i + 1..], i,
                      tradeLog + [CloseRecord(identifier, current[i], price, now)],
                      realizedPnl + Pnl(current[i].side, current[i].entry, price))
  {
    var kept := Kept(positions[..seen], price);
    var closed := Closed(positions[..seen], price);
    SliceStep(kept, positions, seen, current, i);
    PartitionStep(positions, seen, price);
    assert Kept(positions[..seen + 1], price) == kept;
    assert Closed(positions[..seen + 1], price) == closed + [positions[seen]];
    ScanLogs(identifier, closed, positions[seen], price, now);
  }

  /** In a list made of a done part followed by the rest of `ps` from `seen` on, index `i` holds `ps[seen]`. */
  lemma SliceStep<T>(done: seq<T>, ps: seq<T>, seen: nat, current: seq<T>, i: nat)
    requires seen < |ps| && current == done + ps[seen..] && i == |done|
    ensures i < |current| && current[i] == ps[seen]
    ensures current[..i] + current[i + 1..] == done + ps[seen + 1..]
    ensures current == (done + [ps[seen]]) + ps[seen + 1..]
  {
    assert current[i + 1..] == ps[seen + 1..];
  }

  /** Logging one more closed position appends its record and adds its PnL to the total. */
  lemma ScanLogs(identifier: string, closed: seq<Position>, pos: Position, price: real, now: real)
    ensures Records(identifier, closed + [pos], price, now)
      == Records(identifier, closed, price, now) + [CloseRecord(identifier, pos, price, now)]
    ensures SumPnl(Records(identifier, closed + [pos], price, now))
      == SumPnl(Records(identifier, closed, price, now)) + Pnl(pos.side, pos.entry, price)
  {
    var before := Records(identifier, closed, price, now);
    var trade := CloseRecord(identifier, pos, price, now);
    assert Records(identifier, closed + [pos], price, now) == before + [trade];
    SumPnlSnoc(before, trade);
  }

  /** Stepping over a position that stays open moves the scan on by one. */
  lemma ScanKeeps(identifier: string, positions: seq<Position>, price: real, now: real,
                  tradeLog0: seq<TradeRecord>, realizedPnl0: real, seen: nat,
                  current: seq<Position>, i: nat, tradeLog: seq<TradeRecord>, realizedPnl: real)
    requires ScanState(identifier, positions, price, now, tradeLog0, realizedPnl0, seen, current, i, tradeLog, realizedPnl)
    requires i < |current| && !ShouldClose(current[i], price)
    ensures ScanState(identifier, positions, price, now, tradeLog0, realizedPnl0, seen + 1,
                      current, i + 1, tradeLog, realizedPnl)
  {
    var kept := Kept(positions[..seen], price);
    SliceStep(kept, positions, seen, current, i);
    PartitionStep(positions, seen, price);
    assert Kept(positions[..seen + 1], price) == kept + [positions[seen]];
    assert Closed(positions[..seen + 1], price) == Closed(positions[..seen], price);
  }

  /** When the index reaches the end of the working list, every position has been examined. */
  lemma ScanEnds(identifier: string, positions: seq<Position>, price: real, now: real,
                 tradeLog0: seq<TradeRecord>, realizedPnl0: real, seen: nat,
                 current: seq<Position>, i: nat, tradeLog: seq<TradeRecord>, realizedPnl: real)
    requires ScanState(identifier, positions, price, now, tradeLog0, realizedPnl0, seen, current, i, tradeLog, realizedPnl)
    requires i >= |current|
    ensures current == Kept(positions, price)
    ensures tradeLog == tradeLog0 + Records(identifier, Closed(positions, price), price, now)
    ensures realizedPnl == realizedPnl0 + SumPnl(Records(identifier, Closed(positions, price), price, now))
  {
    assert positions[..seen] == positions;
  }

  /** Appending one record adds its PnL to the total. */
  lemma SumPnlSnoc(log: seq<TradeRecord>, trade: TradeRecord)
    ensures SumPnl(log + [trade]) == SumPnl(log) + trade.pnl
  {
    assert (log + [trade])[..|log|] == log;
  }

  /**
    One pass of the auto-close loop body: a position that reaches a level is
    removed at the index, logged and added to the total; any other position
    is stepped over.
   */
  method ScanOne(identifier: string, ghost positions: seq<Position>, price: real, now: real,
                 ghost tradeLog0: seq<TradeRecord>, ghost realizedPnl0: real, ghost seen: nat,
                 current: seq<Position>, i: nat, tradeLog: seq<TradeRecord>, realizedPnl: real)
    returns (current': seq<Position>, i': nat, tradeLog': seq<TradeRecord>, realizedPnl': real)
    requires ScanState(identifier, positions, price, now, tradeLog0, realizedPnl0, seen, current, i, tradeLog, realizedPnl)
    requires i < |current|
    ensures ScanState(identifier, positions, price, now, tradeLog0, realizedPnl0, seen + 1,
                      current', i', tradeLog', realizedPnl')
    ensures |current'| - i' < |current| - i
  {
    var pos := current[i];
    var shouldClose := CloseDecision(pos, price);
    if shouldClose {
      ScanCloses(identifier, positions, price, now, tradeLog0, realizedPnl0, seen, current, i, tradeLog, realizedPnl);
      current' := current[..i] + current[i + 1..];
      i' := i;
      var pnl := Pnl(pos.side, pos.entry, price);
      realizedPnl' := realizedPnl + pnl;
      var trade := TradeRecord(identifier, pos.side, pos.entry, price, pnl, pos.openTime, now);
      tradeLog' := tradeLog + [trade];
    } else {
      ScanKeeps(identifier, positions, price, now, tradeLog0, realizedPnl0, seen, current, i, tradeLog, realizedPnl);
      current', i', tradeLog', realizedPnl' := current, i + 1, tradeLog, realizedPnl;
    }
  }

  /**
    The auto-close loop as the source writes it, over a working copy of one
    identifier's positions: a closing position is removed at the current
    index without advancing, a position that stays open is stepped over, and
    each close appends its record and adds its PnL on the spot. It computes
    the stable partition: no position is skipped and none is examined twice.
   */
  method ScanPositions(identifier: string, positions: seq<Position>, price: real, now: real,
                       tradeLog0: seq<TradeRecord>, realizedPnl0: real)
    returns (current: seq<Position>, tradeLog: seq<TradeRecord>, realizedPnl: real)
    ensures current == Kept(positions, price)
    ensures tradeLog == tradeLog0 + Records(identifier, Closed(positions, price), price, now)
    ensures realizedPnl == realizedPnl0 + SumPnl(Records(identifier, Closed(positions, price), price, now))
  {
    current := positions;
    tradeLog := tradeLog0;
    realizedPnl := realizedPnl0;
    var i: nat := 0;
    ghost var seen := 0;
    assert positions[..0] == [];
    while i < |current|
      invariant ScanState(identifier, positions, price, now, tradeLog0, realizedPnl0, seen, current, i, tradeLog, realizedPnl)
      decreases |current| - i
    {
      current, i, tradeLog, realizedPnl :=
        ScanOne(identifier, positions, price, now, tradeLog0, realizedPnl0, seen, current, i, tradeLog, realizedPnl);
      seen := seen + 1;
    }
    ScanEnds(identifier, positions, price, now, tradeLog0, realizedPnl0, seen, current, i, tradeLog, realizedPnl);
  }

  /**
    The whole auto-close step of the ledger: leave it alone without a position
    list or a price for `identifier`, otherwise run the loop and store the
    positions that stay open. It agrees with the two-pass AutoClose.
   */
  method AutoCloseScan(l: Ledger, identifier: string, now: real) returns (r: Ledger)
    ensures r == AutoClose(l, identifier, now)
  {
    if identifier !in l.positions || identifier !in l.prices {
      return l;
    }
    var price := l.prices[identifier];
    var current, tradeLog, realizedPnl :=
      ScanPositions(identifier, l.positions[identifier], price, now, l.tradeLog, l.realizedPnl);
    r := l.(positions := l.positions[identifier := current], tradeLog := tradeLog, realizedPnl := realizedPnl);
  }

  /** `update_market_price` with the in-place scan: record the price, then run the loop. */
  method UpdateMarketPriceScan(l: Ledger, identifier: string, price: real, now: real) returns (r: Ledger)
    ensures r == UpdateMarketPrice(l, identifier, price, now)
  {
    var priced := l.(prices := l.prices[identifier := price]);
    r := AutoCloseScan(priced, identifier, now);
  }

  /** One call into the ledger's public operations, with the clock reading it takes. */
  datatype LedgerCall =
    | PriceUpdate(identifier: string, price: real, now: real)
    | PositionUpdate(identifier: string, signal: string, price: real, target: real, stopLoss: real, now: real)

  function Apply(l: Ledger, call: LedgerCall): Ledger {
    match call
    case PriceUpdate(id, price, now) => UpdateMarketPrice(l, id, price, now)
    case PositionUpdate(id, signal, price, target, stopLoss, now) =>
      UpdatePosition(l, id, signal, price, target, stopLoss, now)
  }

  /** The ledger after serving `calls` one at a time, in order. */
  function ApplyAll(l: Ledger, calls: seq<LedgerCall>): Ledger
    decreases |calls|
  {
    if |calls| == 0 then l else ApplyAll(Apply(l, calls[0]), calls[1..])
  }

  /** Serving a call and then the rest is serving them all. */
  lemma ApplyAllCons(l: Ledger, call: LedgerCall, rest: seq<LedgerCall>)
    ensures ApplyAll(l, [call] + rest) == ApplyAll(Apply(l, call), rest)
  {
    assert ([call] + rest)[1..] == rest;
  }

  /** A price update keeps realized PnL equal to the sum of the logged PnLs. */
  lemma UpdateMarketPriceKeepsValid(l: Ledger, identifier: string, price: real, now: real)
    requires Valid(l)
    ensures Valid(UpdateMarketPrice(l, identifier, price, now))
  {
    var r := UpdateMarketPrice(l, identifier, price, now);
    UpdateMarketPriceCloses(l, identifier, price, now);
    assert r.tradeLog == l.tradeLog + r.tradeLog[|l.tradeLog|..];
    SumPnlAppend(l.tradeLog, r.tradeLog[|l.tradeLog|..]);
  }

  /** One call of either kind keeps the invariant and leaves the existing log in place. */
  lemma ApplyKeepsValid(l: Ledger, call: LedgerCall)
    requires Valid(l)
    ensures Valid(Apply(l, call))
    ensures |l.tradeLog| <= |Apply(l, call).tradeLog|
    ensures Apply(l, call).tradeLog[..|l.tradeLog|] == l.tradeLog
  {
    match call {
      case PriceUpdate(id, price, now) =>
        UpdateMarketPriceKeepsValid(l, id, price, now);
        UpdateMarketPriceCloses(l, id, price, now);
      case PositionUpdate(id, signal, price, target, stopLoss, now) =>
        var r := UpdatePosition(l, id, signal, price, target, stopLoss, now);
        assert r.tradeLog == l.tradeLog && r.realizedPnl == l.realizedPnl;
        assert r.tradeLog[..|l.tradeLog|] == l.tradeLog;
    }
  }

  /**
    Conservation over any sequence of calls, each served whole before the
    next: the realized total always equals the sum of the logged PnLs, and the
    log only grows at its end.
   */
  lemma {:induction false} ApplyAllKeepsValid(l: Ledger, calls: seq<LedgerCall>)
    requires Valid(l)
    ensures Valid(ApplyAll(l, calls))
    ensures |l.tradeLog| <= |ApplyAll(l, calls).tradeLog|
    ensures ApplyAll(l, calls).tradeLog[..|l.tradeLog|] == l.tradeLog
    decreases |calls|
  {
    if |calls| > 0 {
      var next := Apply(l, calls[0]);
      ApplyKeepsValid(l, calls[0]);
      ApplyAllKeepsValid(next, calls[1..]);
      var r := ApplyAll(next, calls[1..]);
      assert r.tradeLog[..|next.tradeLog|][..|l.tradeLog|] == r.tradeLog[..|l.tradeLog|];
    }
  }

  /**
    A second price update at the same price closes nothing: every position
    still open does not reach a level at that price.
   */
  lemma RepeatedPriceIsIdempotent(l: Ledger, identifier: string, price: real, t1: real, t2: real)
    ensures var once := UpdateMarketPrice(l, identifier, price, t1);
      UpdateMarketPrice(once, identifier, price, t2) == once
  {
    var once := UpdateMarketPrice(l, identifier, price, t1);
    assert once.prices == once.prices[identifier := price];
    assert UpdateMarketPrice(once, identifier, price, t2) == AutoClose(once, identifier, t2);
    if identifier in l.positions {
      var kept := Kept(l.positions[identifier], price);
      assert once.positions[identifier] == kept;
      KeptIsStable(l.positions[identifier], price);
      assert Records(identifier, Closed(kept, price), price, t2) == [];
      assert once.positions[identifier := kept] == once.positions;
    }
  }

  /** With no open position for `identifier`, a price update changes only its price. */
  lemma NoPositionsOnlyPrice(l: Ledger, identifier: string, price: real, now: real)
    requires OpenFor(l, identifier) == []
    ensures UpdateMarketPrice(l, identifier, price, now) == l.(prices := l.prices[identifier := price])
  {
    if identifier in l.positions {
      var r := UpdateMarketPrice(l, identifier, price, now);
      UpdateMarketPriceCloses(l, identifier, price, now);
      assert r.positions == l.positions;
      assert r.tradeLog[|l.tradeLog|..] == [];
    }
  }

  /**
    Every clock reading the ledger holds is at most `t`, and every logged
    trade closed no earlier than it opened.
   */
  ghost predicate StampedBy(l: Ledger, t: real) {
    && (forall id :: id in l.positions ==> OpenedBy(l.positions[id], t))
    && LogStamped(l.tradeLog, t)
  }

  /** Every logged trade closed no earlier than it opened, and no later than `t`. */
  ghost predicate LogStamped(log: seq<TradeRecord>, t: real) {
    forall k :: 0 <= k < |log| ==> log[k].entryTime <= log[k].exitTime <= t
  }

  /** Records of positions opened by `t`, closed at reading `now` no earlier than `t`, are stamped by `now`. */
  lemma RecordsStamped(identifier: string, closed: seq<Position>, price: real, now: real, t: real)
    requires OpenedBy(closed, t) && t <= now
    ensures LogStamped(Records(identifier, closed, price, now), now)
  {
  }

  /** Appending records stamped by `now` to a log stamped by an earlier `t` gives a log stamped by `now`. */
  lemma LogStampedAppend(log: seq<TradeRecord>, added: seq<TradeRecord>, t: real, now: real)
    requires LogStamped(log, t) && LogStamped(added, now) && t <= now
    ensures LogStamped(log + added, now)
  {
  }

  /** A price update served no earlier than every reading the ledger holds closes trades no earlier than they opened. */
  lemma PriceUpdateKeepsStamps(l: Ledger, id: string, price: real, now: real, t: real)
    requires StampedBy(l, t) && t <= now
    ensures StampedBy(UpdateMarketPrice(l, id, price, now), now)
  {
    var r := UpdateMarketPrice(l, id, price, now);
    if id in l.positions {
      var ps := l.positions[id];
      PartitionOpenedBy(ps, price, t);
      var recs := Records(id, Closed(ps, price), price, now);
      assert r.positions == l.positions[id := Kept(ps, price)];
      assert r.tradeLog == l.tradeLog + recs;
      RecordsStamped(id, Closed(ps, price), price, now, t);
      LogStampedAppend(l.tradeLog, recs, t, now);
    } else {
      assert r.positions == l.positions && r.tradeLog == l.tradeLog;
    }
  }

  /** Opening a position at a reading no earlier than every reading the ledger holds keeps all readings bounded by it. */
  lemma PositionUpdateKeepsStamps(l: Ledger, id: string, signal: string, price: real, target: real,
                                  stopLoss: real, now: real, t: real)
    requires StampedBy(l, t) && t <= now
    ensures StampedBy(UpdatePosition(l, id, signal, price, target, stopLoss, now), now)
  {
    var r := UpdatePosition(l, id, signal, price, target, stopLoss, now);
    forall id' | id' in r.positions
      ensures OpenedBy(r.positions[id'], now)
    {
      if id' == id {
        forall k | 0 <= k < |r.positions[id']|
          ensures r.positions[id'][k].openTime <= now
        {
          if k < |OpenFor(l, id)| {
            assert r.positions[id'][k] == r.positions[id'][..|OpenFor(l, id)|][k];
          }
        }
      }
    }
  }

  /**
    Served in order with clock readings that never decrease and start no
    earlier than every reading the ledger holds, calls keep every logged
    trade's exit time no earlier than its entry time.
   */
  lemma {:induction false} ApplyAllKeepsStamps(l: Ledger, calls: seq<LedgerCall>, t: real)
    requires StampedBy(l, t)
    requires forall j :: 0 <= j < |calls| ==> t <= calls[j].now
    requires forall j, k :: 0 <= j <= k < |calls| ==> calls[j].now <= calls[k].now
    ensures forall k :: 0 <= k < |ApplyAll(l, calls).tradeLog| ==>
      ApplyAll(l, calls).tradeLog[k].entryTime <= ApplyAll(l, calls).tradeLog[k].exitTime
    decreases |calls|
  {
    if |calls| > 0 {
      var call := calls[0];
      match call {
        case PriceUpdate(id, price, now) =>
          PriceUpdateKeepsStamps(l, id, price, now, t);
        case PositionUpdate(id, signal, price, target, stopLoss, now) =>
          PositionUpdateKeepsStamps(l, id, signal, price, target, stopLoss, now, t);
      }
      assert forall j :: 0 <= j < |calls[1..]| ==> calls[1..][j] == calls[j + 1];
      ApplyAllKeepsStamps(Apply(l, call), calls[1..], call.now);
    }
  }
}
