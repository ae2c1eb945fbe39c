/**
  Positions, the auto-close rule, profit and loss, and trade records of the
  positions ledger (positions_manager.py).
 */
module Positions {
  import opened Wrappers

  /** The source stores the side as the string "LONG" or "SHORT"; nothing else is ever stored. */
  datatype Side = Long | Short

  /** One open position; several may be open for one identifier, in opening order. */
  datatype Position = Position(side: Side, entry: real, target: real, stop: real, openTime: real)

  /** One closed trade, appended to the trade log when a position closes. */
  datatype TradeRecord = TradeRecord(
    identifier: string,
    side: Side,
    entry: real,
    exit: real,
    pnl: real,
    entryTime: real,
    exitTime: real)

  /** Which level a price update crossed. */
  datatype Exit = TargetHit | StopHit

  /** A "BUY" signal opens a long position, every other signal a short one. */
  function SideOf(signal: string): (side: Side)
    ensures side == Long <==> signal == "BUY"
  {
    if signal == "BUY" then Long else Short
  }

  /** The target level is reached: at or above it for a long, at or below it for a short. */
  predicate TargetReached(p: Position, price: real) {
    match p.side
    case Long => price >= p.target
    case Short => price <= p.target
  }

  /** The stop level is reached: at or below it for a long, at or above it for a short. */
  predicate StopReached(p: Position, price: real) {
    match p.side
    case Long => price <= p.stop
    case Short => price >= p.stop
  }

  /** The close decision of one position at one price, the target checked before the stop. */
  function CloseReason(p: Position, price: real): (exit: Option<Exit>)
    ensures exit == Some(TargetHit) <==> TargetReached(p, price)
    ensures exit == Some(StopHit) <==> !TargetReached(p, price) && StopReached(p, price)
    ensures exit.Some? <==>
      || (p.side == Long && (price >= p.target || price <= p.stop))
      || (p.side == Short && (price <= p.target || price >= p.stop))
  {
    match p.side
    case Long =>
      if price >= p.target then Some(TargetHit)
      else if price <= p.stop then Some(StopHit)
      else None
    case Short =>
      if price <= p.target then Some(TargetHit)
      else if price >= p.stop then Some(StopHit)
      else None
  }

  predicate ShouldClose(p: Position, price: real) {
    CloseReason(p, price).Some?
  }

  /** Profit of closing a position of `side` opened at `entry` at price `exit`. */
  function Pnl(side: Side, entry: real, exit: real): (pnl: real)
    ensures pnl > 0.0 <==> (side == Long && exit > entry) || (side == Short && exit < entry)
    ensures pnl == 0.0 <==> exit == entry
    ensures side == Long ==> entry + pnl == exit
    ensures side == Short ==> exit + pnl == entry
  {
    match side
    case Long => exit - entry
    case Short => entry - exit
  }

  /**
    An exit is never better than its level promised on a stop, and never
    worse on a target: the scan closes at the tick's price, which may lie
    beyond the level it reached.
   */
  lemma ExitPnlBounds(p: Position, price: real)
    ensures CloseReason(p, price) == Some(TargetHit) ==>
      Pnl(p.side, p.entry, price) >= Pnl(p.side, p.entry, p.target)
    ensures CloseReason(p, price) == Some(StopHit) ==>
      Pnl(p.side, p.entry, price) <= Pnl(p.side, p.entry, p.stop)
  {
  }

  /**
    With levels on the usual sides of the entry, a target hit never loses
    money and a stop hit never makes money.
   */
  lemma ExitPnlSign(p: Position, price: real)
    requires p.side == Long ==> p.stop <= p.entry <= p.target
    requires p.side == Short ==> p.target <= p.entry <= p.stop
    ensures CloseReason(p, price) == Some(TargetHit) ==> Pnl(p.side, p.entry, price) >= 0.0
    ensures CloseReason(p, price) == Some(StopHit) ==> Pnl(p.side, p.entry, price) <= 0.0
  {
  }

  /** The positions that stay open at `price`, in their original order. */
  function Kept(ps: seq<Position>, price: real): (kept: seq<Position>)
    ensures |kept| <= |ps|
    decreases |ps|
  {
    if |ps| == 0 then []
    else
      var last := ps[|ps| - 1];
      assert ps == ps[..|ps| - 1] + [last];
      var rest := Kept(ps[..|ps| - 1], price);
      if ShouldClose(last, price) then rest else rest + [last]
  }

  /** The positions that close at `price`, in their original order. */
  function Closed(ps: seq<Position>, price: real): (closed: seq<Position>)
    ensures |closed| <= |ps|
    decreases |ps|
  {
    if |ps| == 0 then []
    else
      var last := ps[|ps| - 1];
      assert ps == ps[..|ps| - 1] + [last];
      var rest := Closed(ps[..|ps| - 1], price);
      if ShouldClose(last, price) then rest + [last] else rest
  }

  /** Examining one more position of a prefix extends exactly one side of the split. */
  lemma PartitionStep(ps: seq<Position>, n: nat, price: real)
    requires n < |ps|
    ensures Kept(ps[..n + 1], price) ==
      if ShouldClose(ps[n], price) then Kept(ps[..n], price) else Kept(ps[..n], price) + [ps[n]]
    ensures Closed(ps[..n + 1], price) ==
      if ShouldClose(ps[n], price) then Closed(ps[..n], price) + [ps[n]] else Closed(ps[..n], price)
  {
    assert ps[..n + 1][..n] == ps[..n];
  }

  /**
    A long entered at 100 with target 110 and stop 90, priced at 110, 85 and
    105: the stop exit at 85 loses 15, the full distance from the entry.
   */
  lemma LongExamples(openTime: real)
    ensures var p := Position(Long, 100.0, 110.0, 90.0, openTime);
      && CloseReason(p, 110.0) == Some(TargetHit) && Pnl(Long, 100.0, 110.0) == 10.0
      && CloseReason(p, 85.0) == Some(StopHit) && Pnl(Long, 100.0, 85.0) == -15.0
      && CloseReason(p, 105.0) == None
  {
  }

  /** A short entered at 100 with target 90 and stop 110, priced at 88 and 112. */
  lemma ShortExamples(openTime: real)
    ensures var p := Position(Short, 100.0, 90.0, 110.0, openTime);
      && CloseReason(p, 88.0) == Some(TargetHit) && Pnl(Short, 100.0, 88.0) == 12.0
      && CloseReason(p, 112.0) == Some(StopHit) && Pnl(Short, 100.0, 112.0) == -12.0
      && CloseReason(p, 100.0) == None
  {
  }

  /** Kept holds exactly the positions that stay open, Closed exactly those that close. */
  lemma {:induction false} PartitionMembers(ps: seq<Position>, price: real)
    ensures forall p :: p in Kept(ps, price) <==> p in ps && !ShouldClose(p, price)
    ensures forall p :: p in Closed(ps, price) <==> p in ps && ShouldClose(p, price)
    decreases |ps|
  {
    if |ps| > 0 {
      var init := ps[..|ps| - 1];
      assert ps == init + [ps[|ps| - 1]];
      PartitionMembers(init, price);
    }
  }

  /** Kept and Closed split the positions: every position lands in exactly one of them. */
  lemma {:induction false} PartitionIsExact(ps: seq<Position>, price: real)
    ensures multiset(Kept(ps, price)) + multiset(Closed(ps, price)) == multiset(ps)
    ensures |Kept(ps, price)| + |Closed(ps, price)| == |ps|
    decreases |ps|
  {
    if |ps| > 0 {
      var init := ps[..|ps| - 1];
      assert ps == init + [ps[|ps| - 1]];
      PartitionIsExact(init, price);
    }
  }

  /** Every position in `ps` was opened at a clock reading no later than `t`. */
  ghost predicate OpenedBy(ps: seq<Position>, t: real) {
    forall k :: 0 <= k < |ps| ==> ps[k].openTime <= t
  }

  /** Both sides of the split keep the bound on opening times. */
  lemma {:induction false} PartitionOpenedBy(ps: seq<Position>, price: real, t: real)
    requires OpenedBy(ps, t)
    ensures OpenedBy(Kept(ps, price), t) && OpenedBy(Closed(ps, price), t)
    decreases |ps|
  {
    if |ps| > 0 {
      var init := ps[..|ps| - 1];
      assert OpenedBy(init, t) by {
        forall k | 0 <= k < |init| ensures init[k].openTime <= t {
          assert init[k] == ps[k];
        }
      }
      PartitionOpenedBy(init, price, t);
    }
  }

  /** Nothing that stays open at a price closes at that same price. */
  lemma {:induction false} KeptIsStable(ps: seq<Position>, price: real)
    ensures Kept(Kept(ps, price), price) == Kept(ps, price)
    ensures Closed(Kept(ps, price), price) == []
    decreases |ps|
  {
    var kept := Kept(ps, price);
    PartitionMembers(ps, price);
    PartitionMembers(kept, price);
    if |ps| > 0 {
      var init := ps[..|ps| - 1];
      var last := ps[|ps| - 1];
      KeptIsStable(init, price);
      if !ShouldClose(last, price) {
        var k := Kept(init, price) + [last];
        assert k[..|k| - 1] == Kept(init, price);
      }
    }
  }

  /** The record of `p` closing at `price` at time `now`. */
  function CloseRecord(identifier: string, p: Position, price: real, now: real): TradeRecord {
    TradeRecord(identifier, p.side, p.entry, price, Pnl(p.side, p.entry, price), p.openTime, now)
  }

  /** One record per closed position, in the positions' order. */
  function Records(identifier: string, closed: seq<Position>, price: real, now: real): (records: seq<TradeRecord>)
    ensures |records| == |closed|
    ensures forall k :: 0 <= k < |closed| ==> records[k] == CloseRecord(identifier, closed[k], price, now)
  {
    seq(|closed|, k requires 0 <= k < |closed| => CloseRecord(identifier, closed[k], price, now))
  }

  /** The total of the records' PnL, accumulated front to back. */
  function SumPnl(log: seq<TradeRecord>): real
    decreases |log|
  {
    if |log| == 0 then 0.0 else SumPnl(log[..|log| - 1]) + log[|log| - 1].pnl
  }

  lemma {:induction false} SumPnlAppend(a: seq<TradeRecord>, b: seq<TradeRecord>)
    ensures SumPnl(a + b) == SumPnl(a) + SumPnl(b)
    decreases |b|
  {
    if |b| == 0 {
      assert a + b == a;
    } else {
      var init := b[..|b| - 1];
      assert (a + b)[..|a + b| - 1] == a + init;
      SumPnlAppend(a, init);
    }
  }
}
