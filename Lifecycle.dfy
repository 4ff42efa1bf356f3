/**
 * `reconstruct_lifecycle`: folds one account's trades, in time order, into
 * position snapshots carrying the net size, the volume-weighted average entry
 * price and a taint flag that marks positions touched by other builders.
 */
module Lifecycle {
  import opened Wrappers
  import opened JsonValue
  import opened Addresses
  import opened FillNormalizer

  /** One emitted snapshot (`PositionState`). */
  datatype Snapshot = Snapshot(time: int, coin: string, netSize: real, avgEntryPx: real, tainted: bool)

  /** The state carried from trade to trade. */
  datatype Position = Position(qty: real, avgPx: real, tainted: bool)

  /** The state before the first trade. */
  const Flat: Position := Position(0.0, 0.0, false)

  /** A reducing trade that leaves less than this snaps the position to flat (`1e-9`). */
  const Epsilon: real := 0.000000001

  function Abs(x: real): real {
    if x < 0.0 then -x else x
  }

  function Direction(side: Side): real {
    if side == Buy then 1.0 else -1.0
  }

  /** The trade's size with the sign of its direction. */
  function Signed(t: Trade): real {
    t.sz * Direction(t.side)
  }

  /** The trade's label equals the target (`row.get('builder') == target_builder`). */
  predicate Attributed(t: Trade, target: string) {
    t.builder == Some(target)
  }

  /** An opening or same-direction trade: it adds to the position. */
  predicate Extends(p: Position, t: Trade) {
    (p.qty >= 0.0 && t.side == Buy) || (p.qty <= 0.0 && t.side == Sell)
  }

  /** An opposite-direction trade that leaves (almost) nothing: it closes the position. */
  predicate Closes(p: Position, t: Trade) {
    !Extends(p, t) && Abs(p.qty + Signed(t)) < Epsilon
  }

  /** The taint flag after the attribution checks, before the position update. */
  function TaintCheck(p: Position, t: Trade, target: string): bool {
    var attributed := Attributed(t, target);
    var tainted := if Abs(p.qty) > 0.0 && !attributed then true else p.tainted;
    if p.qty == 0.0 && !attributed then true else tainted
  }

  /** One iteration of the loop, as a function of the state before it. */
  function Step(p: Position, t: Trade, target: string): (q: Position)
    ensures q.qty == 0.0 ==> q.avgPx == 0.0
  {
    var tainted := TaintCheck(p, t, target);
    if Extends(p, t) then
      var totalCost := Abs(p.qty) * p.avgPx + t.sz * t.px;
      var qty := p.qty + Signed(t);
      Position(qty, if qty != 0.0 then totalCost / Abs(qty) else 0.0, tainted)
    else
      var qty := p.qty + Signed(t);
      if Abs(qty) < Epsilon then Flat else Position(qty, p.avgPx, tainted)
  }

  /** Step on an adding trade, unfolded (used by the loop). */
  lemma StepAdds(p: Position, t: Trade, target: string, totalCost: real, qty: real)
    requires Extends(p, t)
    requires totalCost == Abs(p.qty) * p.avgPx + t.sz * t.px && qty == p.qty + Signed(t)
    ensures Step(p, t, target) ==
      Position(qty, if qty != 0.0 then totalCost / Abs(qty) else 0.0, TaintCheck(p, t, target))
  {
  }

  /** Step on a reducing trade, unfolded (used by the loop). */
  lemma StepReduces(p: Position, t: Trade, target: string, qty: real)
    requires !Extends(p, t) && qty == p.qty + Signed(t)
    ensures Step(p, t, target) ==
      if Abs(qty) < Epsilon then Flat else Position(qty, p.avgPx, TaintCheck(p, t, target))
  {
  }

  // ---------------------------------------------------------------------------
  // What one step does.
  // ---------------------------------------------------------------------------

  /** The net size moves by the signed trade size, except that a close lands on exactly 0. */
  lemma StepSize(p: Position, t: Trade, target: string)
    ensures Step(p, t, target).qty == if Closes(p, t) then 0.0 else p.qty + Signed(t)
  {
  }

  /**
   * An adding trade keeps the cost basis: the new size times the new average
   * is the old size times the old average plus the trade's notional.
   */
  lemma StepCostBasis(p: Position, t: Trade, target: string)
    requires Extends(p, t)
    ensures var q := Step(p, t, target);
      q.qty != 0.0 ==> Abs(q.qty) * q.avgPx == Abs(p.qty) * p.avgPx + t.sz * t.px
  {
    var q := Step(p, t, target);
    if q.qty != 0.0 {
      var totalCost := Abs(p.qty) * p.avgPx + t.sz * t.px;
      assert q.avgPx == totalCost / Abs(q.qty);
    }
  }

  /** A reducing trade that does not close leaves the average entry price alone. */
  lemma StepReduceKeepsPrice(p: Position, t: Trade, target: string)
    requires !Extends(p, t) && !Closes(p, t)
    ensures Step(p, t, target).avgPx == p.avgPx
  {
  }

  /**
   * The taint rule: a close clears taint; otherwise the position is tainted
   * afterwards exactly when it was before or the trade is not attributed.
   */
  lemma StepTaint(p: Position, t: Trade, target: string)
    ensures Step(p, t, target).tainted <==> !Closes(p, t) && (p.tainted || !Attributed(t, target))
  {
  }

  /** With non-negative prices and sizes the average entry price stays non-negative. */
  lemma StepNonNegative(p: Position, t: Trade, target: string)
    requires p.avgPx >= 0.0 && t.px >= 0.0 && t.sz >= 0.0
    ensures Step(p, t, target).avgPx >= 0.0
  {
    if Extends(p, t) {
      var totalCost := Abs(p.qty) * p.avgPx + t.sz * t.px;
      assert Abs(p.qty) * p.avgPx >= 0.0;
      assert t.sz * t.px >= 0.0;
      var qty := p.qty + Signed(t);
      if qty != 0.0 {
        assert Abs(qty) > 0.0;
        assert totalCost / Abs(qty) >= 0.0;
      }
    }
  }

  // ---------------------------------------------------------------------------
  // `df.sort_values("time")`
  // ---------------------------------------------------------------------------

  predicate SortedByTime(ts: seq<Trade>) {
    forall i, j :: 0 <= i < j < |ts| ==> ts[i].time <= ts[j].time
  }

  /** Insertion of one trade after every trade that is strictly earlier. */
  function Insert(t: Trade, ts: seq<Trade>): seq<Trade> {
    if ts == [] || t.time <= ts[0].time then [t] + ts
    else [ts[0]] + Insert(t, ts[1..])
  }

  lemma {:induction false} InsertPermutes(t: Trade, ts: seq<Trade>)
    ensures multiset(Insert(t, ts)) == multiset(ts) + multiset{t}
  {
    if ts != [] && t.time > ts[0].time {
      InsertPermutes(t, ts[1..]);
      assert ts == [ts[0]] + ts[1..];
    }
  }

  lemma {:induction false} InsertLowerBound(t: Trade, ts: seq<Trade>, b: int)
    requires b <= t.time && forall k :: 0 <= k < |ts| ==> b <= ts[k].time
    ensures forall k :: 0 <= k < |Insert(t, ts)| ==> b <= Insert(t, ts)[k].time
  {
    if ts != [] && t.time > ts[0].time {
      InsertLowerBound(t, ts[1..], b);
    }
  }

  lemma {:induction false} InsertSorted(t: Trade, ts: seq<Trade>)
    requires SortedByTime(ts)
    ensures SortedByTime(Insert(t, ts))
  {
    if ts != [] && t.time > ts[0].time {
      var rest := Insert(t, ts[1..]);
      InsertSorted(t, ts[1..]);
      InsertLowerBound(t, ts[1..], ts[0].time);
      var r := [ts[0]] + rest;
      assert Insert(t, ts) == r;
      forall i, j | 0 <= i < j < |r| ensures r[i].time <= r[j].time {
        if i > 0 {
          assert r[i] == rest[i - 1] && r[j] == rest[j - 1];
        } else {
          assert r[j] == rest[j - 1];
        }
      }
    }
  }

  /** Some ordering of the trades by non-decreasing time. */
  function SortByTime(ts: seq<Trade>): (r: seq<Trade>)
    ensures SortedByTime(r) && multiset(r) == multiset(ts)
  {
    if ts == [] then []
    else
      assert ts == [ts[0]] + ts[1..];
      InsertSorted(ts[0], SortByTime(ts[1..]));
      InsertPermutes(ts[0], SortByTime(ts[1..]));
      Insert(ts[0], SortByTime(ts[1..]))
  }

  // ---------------------------------------------------------------------------
  // The lifecycle as a function of the (already ordered) trades.
  // ---------------------------------------------------------------------------

  /** The state after folding all of `ts` from flat. */
  function PositionAfter(ts: seq<Trade>, target: string): Position {
    if ts == [] then Flat
    else Step(PositionAfter(ts[..|ts| - 1], target), ts[|ts| - 1], target)
  }

  function SnapshotOf(t: Trade, p: Position): Snapshot {
    Snapshot(t.time, t.coin, p.qty, p.avgPx, p.tainted)
  }

  function PositionOf(s: Snapshot): Position {
    Position(s.netSize, s.avgEntryPx, s.tainted)
  }

  /** One snapshot per trade, in the same order, with that trade's time and coin. */
  function History(ts: seq<Trade>, target: string): (h: seq<Snapshot>)
    ensures |h| == |ts|
    ensures forall k :: 0 <= k < |ts| ==> h[k].time == ts[k].time && h[k].coin == ts[k].coin
  {
    if ts == [] then []
    else History(ts[..|ts| - 1], target) + [SnapshotOf(ts[|ts| - 1], PositionAfter(ts, target))]
  }

  /** Folding one more trade appends one snapshot (used by the loop). */
  lemma LifecycleExtend(ts: seq<Trade>, target: string, i: nat)
    requires i < |ts|
    ensures PositionAfter(ts[..i + 1], target) == Step(PositionAfter(ts[..i], target), ts[i], target)
    ensures History(ts[..i + 1], target) ==
      History(ts[..i], target) + [SnapshotOf(ts[i], Step(PositionAfter(ts[..i], target), ts[i], target))]
  {
    assert ts[..i + 1][..i] == ts[..i];
  }

  /** Snapshot `k` shows the state after the first `k + 1` trades. */
  lemma {:induction false} LifecycleAt(ts: seq<Trade>, target: string, k: nat)
    requires k < |ts|
    ensures History(ts, target)[k] == SnapshotOf(ts[k], PositionAfter(ts[..k + 1], target))
  {
    if k == |ts| - 1 {
      assert ts[..k + 1] == ts;
    } else {
      var prefix := ts[..|ts| - 1];
      LifecycleAt(prefix, target, k);
      assert prefix[..k + 1] == ts[..k + 1];
    }
  }

  /** Each snapshot is one step from the previous one (from flat for the first). */
  lemma LifecycleSteps(ts: seq<Trade>, target: string, k: nat)
    requires k < |ts|
    ensures var h := History(ts, target);
      PositionOf(h[k]) == Step(if k == 0 then Flat else PositionOf(h[k - 1]), ts[k], target)
  {
    LifecycleAt(ts, target, k);
    assert ts[..k + 1][..k] == ts[..k];
    if k > 0 {
      LifecycleAt(ts, target, k - 1);
      assert ts[..k - 1 + 1] == ts[..k];
    }
  }

  /** In every snapshot a flat position has a zero average entry price. */
  lemma FlatHasNoPrice(ts: seq<Trade>, target: string)
    ensures forall k :: 0 <= k < |ts| && History(ts, target)[k].netSize == 0.0 ==>
      History(ts, target)[k].avgEntryPx == 0.0
  {
    forall k | 0 <= k < |ts| && History(ts, target)[k].netSize == 0.0
      ensures History(ts, target)[k].avgEntryPx == 0.0
    {
      LifecycleSteps(ts, target, k);
    }
  }

  /**
   * The converse does not hold: opening at price 0 gives an open position
   * whose average entry price is 0.
   */
  lemma ZeroPriceOpenPosition(t: Trade, target: string)
    requires t.side == Buy && t.sz == 10.0 && t.px == 0.0
    ensures History([t], target)[0].netSize == 10.0
    ensures History([t], target)[0].avgEntryPx == 0.0
  {
    LifecycleAt([t], target, 0);
    assert [t][..1] == [t];
    assert [t][..0] == [];
  }

  /** With non-negative prices and sizes every average entry price is non-negative. */
  lemma {:induction false} NonNegativePrices(ts: seq<Trade>, target: string)
    requires forall i :: 0 <= i < |ts| ==> ts[i].px >= 0.0 && ts[i].sz >= 0.0
    ensures forall k :: 0 <= k < |ts| ==> History(ts, target)[k].avgEntryPx >= 0.0
  {
    if ts != [] {
      var prefix := ts[..|ts| - 1];
      NonNegativePrices(prefix, target);
      var k := |ts| - 1;
      LifecycleSteps(ts, target, k);
      if k > 0 {
        assert History(ts, target)[k - 1] == History(prefix, target)[k - 1];
      }
      StepNonNegative(if k == 0 then Flat else PositionOf(History(ts, target)[k - 1]), ts[k], target);
    }
  }

  /**
   * Taint persists while the position stays open: once a snapshot is tainted,
   * every later one is, up to the first that is flat.
   */
  lemma {:induction false} TaintPersists(ts: seq<Trade>, target: string, k: nat, m: nat)
    requires k <= m < |ts|
    requires History(ts, target)[k].tainted
    requires forall j :: k < j <= m ==> History(ts, target)[j].netSize != 0.0
    ensures History(ts, target)[m].tainted
  {
    if m > k {
      TaintPersists(ts, target, k, m - 1);
      var h := History(ts, target);
      LifecycleSteps(ts, target, m);
      StepTaint(PositionOf(h[m - 1]), ts[m], target);
      StepSize(PositionOf(h[m - 1]), ts[m], target);
    }
  }

  /** A closing trade's snapshot is flat, priceless and untainted. */
  lemma CloseResets(ts: seq<Trade>, target: string, k: nat)
    requires k < |ts|
    requires Closes(if k == 0 then Flat else PositionOf(History(ts, target)[k - 1]), ts[k])
    ensures History(ts, target)[k].netSize == 0.0
    ensures History(ts, target)[k].avgEntryPx == 0.0
    ensures !History(ts, target)[k].tainted
  {
    LifecycleSteps(ts, target, k);
  }

  /** A trade that is not attributed and does not close leaves a tainted snapshot. */
  lemma UnattributedTaints(ts: seq<Trade>, target: string, k: nat)
    requires k < |ts| && !Attributed(ts[k], target)
    requires !Closes(if k == 0 then Flat else PositionOf(History(ts, target)[k - 1]), ts[k])
    ensures History(ts, target)[k].tainted
  {
    LifecycleSteps(ts, target, k);
  }

  /** When every trade is attributed, no snapshot is tainted. */
  lemma {:induction false} AttributedNeverTainted(ts: seq<Trade>, target: string)
    requires forall i :: 0 <= i < |ts| ==> Attributed(ts[i], target)
    ensures forall k :: 0 <= k < |ts| ==> !History(ts, target)[k].tainted
  {
    if ts != [] {
      var prefix := ts[..|ts| - 1];
      AttributedNeverTainted(prefix, target);
      var k := |ts| - 1;
      LifecycleSteps(ts, target, k);
      if k > 0 {
        assert History(ts, target)[k - 1] == History(prefix, target)[k - 1];
      }
    }
  }

  /**
   * Attribution compares the label, so a trade routed by the target builder,
   * whose label is "Insilico", never matches the target address.
   */
  lemma TargetAddressNotAttributed(fill: RawFill, resolved: Option<Json>)
    requires Normalize(fill, resolved).builderAddress == Some(TargetBuilderAddress)
    ensures !Attributed(Normalize(fill, resolved), TargetBuilderAddress)
  {
    TargetTradeIsLabelled(fill, resolved);
  }

  /**
   * Two buys, the second by another builder: the position doubles, the average
   * is volume-weighted and the position is tainted.
   */
  lemma AddingScenario(t1: Trade, t2: Trade)
    requires t1.side == Buy && t1.sz == 10.0 && t1.px == 100.0 && t1.builder == Some("X")
    requires t2.side == Buy && t2.sz == 10.0 && t2.px == 4.0 && t2.builder == Some("Y")
    ensures PositionOf(History([t1, t2], "X")[0]) == Position(10.0, 100.0, false)
    ensures PositionOf(History([t1, t2], "X")[1]) == Position(20.0, 52.0, true)
  {
    LifecycleSteps([t1, t2], "X", 0);
    LifecycleSteps([t1, t2], "X", 1);
  }

  /** A tainted long position closed by an equal sell ends flat and untainted. */
  lemma ClosingScenario(t1: Trade, t2: Trade)
    requires t1.side == Buy && t1.sz == 10.0 && t1.px == 100.0 && t1.builder == None
    requires t2.side == Sell && t2.sz == 10.0
    ensures PositionOf(History([t1, t2], "X")[0]) == Position(10.0, 100.0, true)
    ensures PositionOf(History([t1, t2], "X")[1]) == Flat
  {
    LifecycleSteps([t1, t2], "X", 0);
    LifecycleSteps([t1, t2], "X", 1);
  }

  /**
   * The body of the loop in `reconstruct_lifecycle`: the attribution checks,
   * then the position update, on the three state variables.
   */
  method ApplyTrade(qty: real, avgPx: real, tainted: bool, t: Trade, target: string)
    returns (qty': real, avgPx': real, tainted': bool)
    ensures Position(qty', avgPx', tainted') == Step(Position(qty, avgPx, tainted), t, target)
  {
    ghost var before := Position(qty, avgPx, tainted);
    var size, price := t.sz, t.px;
    var direction := if t.side == Buy then 1.0 else -1.0;
    var signedSize := size * direction;
    var isBuilderTrade := t.builder == Some(target);
    tainted' := tainted;
    if Abs(qty) > 0.0 && !isBuilderTrade {
      tainted' := true;
    }
    if qty == 0.0 && !isBuilderTrade {
      tainted' := true;
    }
    assert tainted' == TaintCheck(before, t, target);
    assert signedSize == Signed(t);
    if (qty >= 0.0 && direction == 1.0) || (qty <= 0.0 && direction == -1.0) {
      var totalCost := Abs(qty) * avgPx + size * price;
      qty' := qty + signedSize;
      StepAdds(before, t, target, totalCost, qty');
      avgPx' := if qty' != 0.0 then totalCost / Abs(qty') else 0.0;
    } else {
      qty' := qty + signedSize;
      avgPx' := avgPx;
      StepReduces(before, t, target, qty');
      if Abs(qty') < Epsilon {
        qty', avgPx', tainted' := 0.0, 0.0, false;
      }
    }
  }

  /**
   * `reconstruct_lifecycle`: order the trades by time, then fold them through
   * the position state, emitting one snapshot per trade. The order among trades
   * with equal times is not promised.
   */
  method Reconstruct(trades: seq<Trade>, target: string)
    returns (history: seq<Snapshot>, ghost order: seq<Trade>)
    ensures SortedByTime(order) && multiset(order) == multiset(trades)
    ensures history == History(order, target)
    ensures |history| == |trades|
    ensures forall i, j :: 0 <= i < j < |history| ==> history[i].time <= history[j].time
  {
    if |trades| == 0 {
      return [], [];
    }
    var sorted := SortByTime(trades);
    order := sorted;
    history := [];
    var qty, avgPx, tainted := 0.0, 0.0, false;
    var i := 0;
    while i < |sorted|
      invariant 0 <= i <= |sorted|
      invariant history == History(sorted[..i], target)
      invariant Position(qty, avgPx, tainted) == PositionAfter(sorted[..i], target)
    {
      var t := sorted[i];
      qty, avgPx, tainted := ApplyTrade(qty, avgPx, tainted, t, target);
      LifecycleExtend(sorted, target, i);
      history := history + [Snapshot(t.time, t.coin, qty, avgPx, tainted)];
      i := i + 1;
    }
    assert sorted[..i] == sorted;
    assert |sorted| == |multiset(sorted)| == |multiset(trades)| == |trades|;
  }
}
