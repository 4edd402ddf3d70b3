/**
 * One greedy pass over a list of makers, independent of how the engine loops: the reference the matching
 * loop is compared with, and the proof that no other way of filling the same quantity trades at a better total.
 */
module Sweep {
  import opened Arithmetic
  import opened Sums
  import opened Orders

  datatype Fill = Fill(maker: nat, price: int, quantity: int)

  ghost predicate Rows(orders: seq<Order>, makers: seq<nat>) {
    forall k :: 0 <= k < |makers| ==> makers[k] < |orders|
  }

  ghost predicate RowsWithQuantity(orders: seq<Order>, makers: seq<nat>) {
    forall k :: 0 <= k < |makers| ==> makers[k] < |orders| && 0 < orders[makers[k]].remaining
  }

  /** Takes from each maker in turn as much as is still wanted. */
  function GreedySweep(orders: seq<Order>, makers: seq<nat>, want: int): seq<Fill>
    requires RowsWithQuantity(orders, makers)
  {
    if makers == [] || want <= 0 then []
    else
      var o := orders[makers[0]];
      var quantity := Min(want, o.remaining);
      [Fill(makers[0], o.price, quantity)] + GreedySweep(orders, makers[1..], want - quantity)
  }

  function FillQuantityOf(): Fill -> int { (f: Fill) => f.quantity }
  function FillValueOf(): Fill -> int { (f: Fill) => f.price * f.quantity }
  function RemainingOf(orders: seq<Order>): nat -> int {
    (m: nat) => if m < |orders| then orders[m].remaining else 0
  }

  function FilledBy(fills: seq<Fill>): int { SumBy(fills, FillQuantityOf()) }
  function PaidBy(fills: seq<Fill>): int { SumBy(fills, FillValueOf()) }
  function Capacity(orders: seq<Order>, makers: seq<nat>): int { SumBy(makers, RemainingOf(orders)) }

  lemma SumHead<T>(x: T, s: seq<T>, f: T -> int)
    ensures SumBy([x] + s, f) == f(x) + SumBy(s, f)
  {
    SumConcat([x], s, f);
    SumAppend([], x, f);
    assert [] + [x] == [x];
  }

  lemma CapacityHead(orders: seq<Order>, makers: seq<nat>)
    requires makers != [] && makers[0] < |orders|
    ensures Capacity(orders, makers) == orders[makers[0]].remaining + Capacity(orders, makers[1..])
  {
    assert makers == [makers[0]] + makers[1..];
    SumHead(makers[0], makers[1..], RemainingOf(orders));
  }

  /** A sweep goes down the list in order and leaves every maker but possibly the last with nothing. */
  lemma {:induction false} SweepFillsInOrder(orders: seq<Order>, makers: seq<nat>, want: int)
    requires RowsWithQuantity(orders, makers)
    ensures var fills := GreedySweep(orders, makers, want);
      && |fills| <= |makers|
      && (forall k :: 0 <= k < |fills| ==>
            && fills[k].maker == makers[k] && fills[k].price == orders[makers[k]].price
            && 0 < fills[k].quantity <= orders[makers[k]].remaining)
      && (forall k :: 0 <= k < |fills| - 1 ==> fills[k].quantity == orders[makers[k]].remaining)
  {
    if makers != [] && 0 < want {
      var quantity := Min(want, orders[makers[0]].remaining);
      var rest := GreedySweep(orders, makers[1..], want - quantity);
      SweepFillsInOrder(orders, makers[1..], want - quantity);
      var fills := GreedySweep(orders, makers, want);
      assert forall k :: 0 < k < |fills| ==> fills[k] == rest[k - 1] && makers[k] == makers[1..][k - 1];
    }
  }

  /** A sweep fills all that is wanted or all there is. */
  lemma {:induction false} SweepFillsTheMinimum(orders: seq<Order>, makers: seq<nat>, want: int)
    requires RowsWithQuantity(orders, makers) && 0 <= want
    ensures FilledBy(GreedySweep(orders, makers, want)) == Min(want, Capacity(orders, makers))
    ensures 0 <= Capacity(orders, makers)
  {
    SumBoundsTerm(makers, RemainingOf(orders));
    if makers != [] && 0 < want {
      var quantity := Min(want, orders[makers[0]].remaining);
      SweepFillsTheMinimum(orders, makers[1..], want - quantity);
      CapacityHead(orders, makers);
      SumHead(Fill(makers[0], orders[makers[0]].price, quantity),
              GreedySweep(orders, makers[1..], want - quantity), FillQuantityOf());
    }
  }

  lemma {:induction false} SweepOfWhatWasFilled(orders: seq<Order>, makers: seq<nat>, want: int)
    requires RowsWithQuantity(orders, makers) && 0 <= want
    ensures GreedySweep(orders, makers, FilledBy(GreedySweep(orders, makers, want)))
         == GreedySweep(orders, makers, want)
  {
    SweepFillsTheMinimum(orders, makers, want);
    if makers != [] && 0 < want {
      var remaining := orders[makers[0]].remaining;
      CapacityHead(orders, makers);
      SweepFillsTheMinimum(orders, makers[1..], want - Min(want, remaining));
      SweepOfWhatWasFilled(orders, makers[1..], want - Min(want, remaining));
    }
  }

  // ---------- best execution ----------

  /** Another way to fill: how much to take from each maker of the list. */
  ghost predicate IsAllocation(orders: seq<Order>, makers: seq<nat>, allocation: seq<int>)
    requires Rows(orders, makers)
  {
    && |allocation| == |makers|
    && forall k :: 0 <= k < |makers| ==> 0 <= allocation[k] <= orders[makers[k]].remaining
  }

  function Identity(): int -> int { (x: int) => x }

  function Allocated(allocation: seq<int>): int { SumBy(allocation, Identity()) }

  function AllocationValue(orders: seq<Order>, makers: seq<nat>, allocation: seq<int>): int
    requires |allocation| == |makers|
    requires Rows(orders, makers)
  {
    if makers == [] then 0
    else orders[makers[0]].price * allocation[0] + AllocationValue(orders, makers[1..], allocation[1..])
  }

  /** `p` is at least as good for a taker of `side` as `q`. */
  predicate NoWorse(side: Side, p: int, q: int) {
    if side == Buy then p <= q else q <= p
  }

  ghost predicate PriceSorted(orders: seq<Order>, side: Side, makers: seq<nat>)
    requires Rows(orders, makers)
  {
    forall a, b :: 0 <= a < b < |makers| ==> NoWorse(side, orders[makers[a]].price, orders[makers[b]].price)
  }

  lemma ScaledDifference(side: Side, p: int, q: int, amount: int)
    requires NoWorse(side, p, q) && 0 <= amount
    ensures NoWorse(side, p * amount, q * amount)
  {
  }

  lemma PaidHead(orders: seq<Order>, makers: seq<nat>, want: int)
    requires RowsWithQuantity(orders, makers) && makers != [] && 0 <= want
    ensures var quantity := Min(want, orders[makers[0]].remaining);
      PaidBy(GreedySweep(orders, makers, want))
        == orders[makers[0]].price * quantity + PaidBy(GreedySweep(orders, makers[1..], want - quantity))
  {
    var quantity := Min(want, orders[makers[0]].remaining);
    if 0 < want {
      SumHead(Fill(makers[0], orders[makers[0]].price, quantity),
              GreedySweep(orders, makers[1..], want - quantity), FillValueOf());
    }
  }

  lemma Distribute(p: int, x: int, y: int)
    ensures p * (x + y) == p * x + p * y
  {
  }

  /** Filling `extra` more costs at least `price` a unit when no maker is better than `price`. */
  lemma {:induction false} MarginalValue(orders: seq<Order>, side: Side, makers: seq<nat>,
                                         less: int, extra: int, price: int)
    requires RowsWithQuantity(orders, makers)
    requires forall k :: 0 <= k < |makers| ==> NoWorse(side, price, orders[makers[k]].price)
    requires 0 <= less && 0 <= extra && less + extra <= Capacity(orders, makers)
    ensures NoWorse(side, PaidBy(GreedySweep(orders, makers, less)) + price * extra,
                          PaidBy(GreedySweep(orders, makers, less + extra)))
  {
    if makers == [] {
    } else {
      var o := orders[makers[0]];
      var quantity := Min(less, o.remaining);
      var step := Min(less + extra, o.remaining) - quantity;
      CapacityHead(orders, makers);
      SweepFillsTheMinimum(orders, makers[1..], 0);
      MarginalValue(orders, side, makers[1..], less - quantity, extra - step, price);
      PaidHead(orders, makers, less);
      PaidHead(orders, makers, less + extra);
      ScaledDifference(side, price, o.price, step);
      Distribute(o.price, quantity, step);
      Distribute(price, step, extra - step);
    }
  }

  lemma {:induction false} AllocationFits(orders: seq<Order>, makers: seq<nat>, allocation: seq<int>)
    requires Rows(orders, makers)
    requires IsAllocation(orders, makers, allocation)
    ensures 0 <= Allocated(allocation) <= Capacity(orders, makers)
  {
    if makers != [] {
      AllocationFits(orders, makers[1..], allocation[1..]);
      CapacityHead(orders, makers);
      assert allocation == [allocation[0]] + allocation[1..];
      SumHead(allocation[0], allocation[1..], Identity());
    }
  }

  /** The step of the exchange argument: the sweep takes from the first maker at least what the allocation takes. */
  lemma ShiftToFirst(orders: seq<Order>, side: Side, makers: seq<nat>, allocation: seq<int>, rest: int)
    requires RowsWithQuantity(orders, makers) && makers != [] && IsAllocation(orders, makers, allocation)
    requires rest == Allocated(allocation[1..]) && 0 <= rest <= Capacity(orders, makers[1..])
    requires forall k :: 1 <= k < |makers| ==> NoWorse(side, orders[makers[0]].price, orders[makers[k]].price)
    ensures var price, total := orders[makers[0]].price, allocation[0] + rest;
      NoWorse(side, PaidBy(GreedySweep(orders, makers, total)),
                    price * allocation[0] + PaidBy(GreedySweep(orders, makers[1..], rest)))
  {
    var o, total := orders[makers[0]], allocation[0] + rest;
    var quantity := Min(total, o.remaining);
    assert forall k :: 0 <= k < |makers[1..]| ==> makers[1..][k] == makers[k + 1];
    MarginalValue(orders, side, makers[1..], total - quantity, quantity - allocation[0], o.price);
    PaidHead(orders, makers, total);
    Distribute(o.price, allocation[0], quantity - allocation[0]);
  }

  lemma TailOfAllocation(orders: seq<Order>, side: Side, makers: seq<nat>, allocation: seq<int>)
    requires RowsWithQuantity(orders, makers) && makers != [] && IsAllocation(orders, makers, allocation)
    requires PriceSorted(orders, side, makers)
    ensures RowsWithQuantity(orders, makers[1..]) && IsAllocation(orders, makers[1..], allocation[1..])
    ensures PriceSorted(orders, side, makers[1..])
    ensures Allocated(allocation) == allocation[0] + Allocated(allocation[1..])
    ensures 0 <= Allocated(allocation[1..]) <= Capacity(orders, makers[1..])
  {
    assert allocation == [allocation[0]] + allocation[1..];
    SumHead(allocation[0], allocation[1..], Identity());
    AllocationFits(orders, makers[1..], allocation[1..]);
  }

  lemma {:induction false} SweepBeatsAllocation(orders: seq<Order>, side: Side, makers: seq<nat>, allocation: seq<int>)
    requires RowsWithQuantity(orders, makers)
    requires IsAllocation(orders, makers, allocation)
    requires PriceSorted(orders, side, makers)
    ensures NoWorse(side, PaidBy(GreedySweep(orders, makers, Allocated(allocation))),
                          AllocationValue(orders, makers, allocation))
  {
    if makers != [] {
      TailOfAllocation(orders, side, makers, allocation);
      SweepBeatsAllocation(orders, side, makers[1..], allocation[1..]);
      ShiftToFirst(orders, side, makers, allocation, Allocated(allocation[1..]));
    }
  }

  /**
   * Best execution: among all ways to take the same total from the same makers, a BUY that sweeps pays the
   * least and a SELL that sweeps receives the most.
   */
  lemma SweepIsBestExecution(orders: seq<Order>, side: Side, makers: seq<nat>, want: int, allocation: seq<int>)
    requires RowsWithQuantity(orders, makers) && 0 <= want
    requires PriceSorted(orders, side, makers)
    requires IsAllocation(orders, makers, allocation)
    requires Allocated(allocation) == FilledBy(GreedySweep(orders, makers, want))
    ensures NoWorse(side, PaidBy(GreedySweep(orders, makers, want)), AllocationValue(orders, makers, allocation))
  {
    SweepOfWhatWasFilled(orders, makers, want);
    SweepBeatsAllocation(orders, side, makers, allocation);
  }
}
