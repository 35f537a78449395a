/**
 * The processed-order ledger `PROCESSED_ORDERS`: the ids of orders whose
 * stickers were downloaded during this process's lifetime. The workflow drops
 * orders already in it before the per-order loop, and `process_single_order`
 * checks it again and adds an id only once files exist for it.
 */
module Ledger {
  import opened Wrappers

  /** An order as the API lists it: its `id` and its optional `quantity` field. */
  datatype Order = Order(id: Option<int>, quantity: Option<int>)

  predicate HasId(o: Order) { o.id.Some? }

  /**
   * The filter in `main_workflow`: `None` is the `KeyError` raised by an order
   * without an id; otherwise the orders whose id is not in the ledger, in
   * their original order.
   */
  function Unprocessed(orders: seq<Order>, processed: set<int>): (r: Option<seq<Order>>)
    ensures r.Some? ==> |r.value| <= |orders|
  {
    if orders == [] then Some([])
    else
      var init, last := orders[..|orders| - 1], orders[|orders| - 1];
      match Unprocessed(init, processed)
      case None => None
      case Some(kept) =>
        if last.id.None? then None
        else if last.id.value in processed then Some(kept)
        else Some(kept + [last])
  }

  /** One more order at the end: it is kept or dropped on its own. */
  lemma UnprocessedSnoc(orders: seq<Order>, o: Order, processed: set<int>)
    ensures Unprocessed(orders, processed).None? || o.id.None? <==> Unprocessed(orders + [o], processed).None?
    ensures Unprocessed(orders, processed).Some? && o.id.Some? ==>
      Unprocessed(orders + [o], processed).value
        == Unprocessed(orders, processed).value + (if o.id.value in processed then [] else [o])
  {
    assert (orders + [o])[..|orders|] == orders;
  }

  /** The filter fails exactly when some order has no id. */
  lemma {:induction false} UnprocessedFails(orders: seq<Order>, processed: set<int>)
    ensures Unprocessed(orders, processed).None? <==> exists i :: 0 <= i < |orders| && !HasId(orders[i])
    decreases |orders|
  {
    if orders != [] {
      var init, last := orders[..|orders| - 1], orders[|orders| - 1];
      UnprocessedFails(init, processed);
      assert forall i :: 0 <= i < |init| ==> init[i] == orders[i];
    }
  }

  /** The kept orders are exactly the listed orders whose id is not in the ledger. */
  lemma {:induction false} UnprocessedMembers(orders: seq<Order>, processed: set<int>)
    requires Unprocessed(orders, processed).Some?
    ensures forall o :: o in Unprocessed(orders, processed).value <==> o in orders && o.id.Some? && o.id.value !in processed
    decreases |orders|
  {
    if orders != [] {
      var init, last := orders[..|orders| - 1], orders[|orders| - 1];
      assert orders == init + [last];
      UnprocessedMembers(init, processed);
    }
  }

  /** The filter keeps the order of the orders: it distributes over concatenation. */
  lemma {:induction false} UnprocessedAppend(a: seq<Order>, b: seq<Order>, processed: set<int>)
    requires Unprocessed(a, processed).Some? && Unprocessed(b, processed).Some?
    ensures Unprocessed(a + b, processed) == Some(Unprocessed(a, processed).value + Unprocessed(b, processed).value)
    decreases |b|
  {
    if b == [] {
      assert a + b == a;
      assert Unprocessed(a, processed).value + Unprocessed(b, processed).value == Unprocessed(a, processed).value;
    } else {
      var init, last := b[..|b| - 1], b[|b| - 1];
      assert b == init + [last];
      UnprocessedSnoc(init, last, processed);
      UnprocessedAppend(a, init, processed);
      assert a + b == (a + init) + [last];
      UnprocessedSnoc(a + init, last, processed);
      var ka, ki := Unprocessed(a, processed).value, Unprocessed(init, processed).value;
      var x := if last.id.value in processed then [] else [last];
      assert Unprocessed(b, processed).value == ki + x;
      assert Unprocessed(a + b, processed).value == (ka + ki) + x;
      assert ka + (ki + x) == (ka + ki) + x;
    }
  }

  /** Filtering a second time against the same ledger changes nothing. */
  lemma {:induction false} UnprocessedIdempotent(orders: seq<Order>, processed: set<int>)
    requires Unprocessed(orders, processed).Some?
    ensures Unprocessed(Unprocessed(orders, processed).value, processed) == Unprocessed(orders, processed)
    decreases |orders|
  {
    if orders != [] {
      var init, last := orders[..|orders| - 1], orders[|orders| - 1];
      assert orders == init + [last];
      UnprocessedSnoc(init, last, processed);
      UnprocessedIdempotent(init, processed);
      var kept := Unprocessed(init, processed).value;
      if last.id.value !in processed {
        UnprocessedSnoc(kept, last, processed);
      }
    }
  }

  /** Against an empty ledger every order with an id is kept. */
  lemma {:induction false} UnprocessedEmptyLedger(orders: seq<Order>)
    requires forall i :: 0 <= i < |orders| ==> HasId(orders[i])
    ensures Unprocessed(orders, {}) == Some(orders)
    decreases |orders|
  {
    if orders != [] {
      var init, last := orders[..|orders| - 1], orders[|orders| - 1];
      assert orders == init + [last];
      UnprocessedEmptyLedger(init);
      UnprocessedSnoc(init, last, {});
    }
  }

  /** `PROCESSED_ORDERS`. */
  class OrderLedger {
    var processed: set<int>

    constructor ()
      ensures processed == {}
    {
      processed := {};
    }

    /** The loop building `filtered_orders`. */
    method FilterUnprocessed(orders: seq<Order>) returns (r: Option<seq<Order>>)
      ensures r == Unprocessed(orders, processed)
    {
      var kept: seq<Order> := [];
      var i := 0;
      while i < |orders|
        invariant 0 <= i <= |orders|
        invariant Unprocessed(orders[..i], processed) == Some(kept)
      {
        var o := orders[i];
        if o.id.None? {
          UnprocessedFails(orders, processed);
          return None;
        }
        assert orders[..i + 1] == orders[..i] + [o];
        UnprocessedSnoc(orders[..i], o, processed);
        if o.id.value !in processed {
          kept := kept + [o];
        }
        i := i + 1;
      }
      assert orders[..i] == orders;
      r := Some(kept);
    }

    /** `PROCESSED_ORDERS.add(order_id)`: the ledger only ever grows. */
    method Record(id: int)
      modifies this
      ensures processed == old(processed) + {id}
    {
      processed := processed + {id};
    }
  }
}
