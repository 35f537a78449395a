/**
 * The bounded retry loops around HTTP calls: the four `WBApiClient` calls to
 * the marketplace API and the two Telegram senders. Each call's outcome per
 * attempt is an input; each loop reports how many attempts it made, the base
 * delays it asked to sleep for (before the 1.5 scaling of `adaptive_sleep`),
 * and its result.
 */
module Retry {
  import opened Wrappers

  /** Attempts made by every `WBApiClient` call. */
  const ApiAttempts: nat := 3

  /** Attempts made by `send_telegram_message` and `send_telegram_document`. */
  const TelegramAttempts: nat := 5

  function Pow2(n: nat): (r: nat)
    ensures r >= 1
  {
    if n == 0 then 1 else 2 * Pow2(n - 1)
  }

  /** The delays requested by the first `n` attempts, in order. */
  function Waits<T>(outcomes: seq<T>, n: nat, wait: (T, nat) -> seq<nat>): seq<nat>
    requires n <= |outcomes|
  {
    if n == 0 then [] else Waits(outcomes, n - 1, wait) + wait(outcomes[n - 1], n - 1)
  }

  lemma WaitsStep<T>(outcomes: seq<T>, n: nat, wait: (T, nat) -> seq<nat>)
    requires n < |outcomes|
    ensures Waits(outcomes, n + 1, wait) == Waits(outcomes, n, wait) + wait(outcomes[n], n)
  {
  }

  // ---------------------------------------------------------------- get_new_orders

  /** One request for new orders: an HTTP status with the orders of a 200 body, a timeout, or another exception. */
  datatype OrdersReply<T> = Answered(status: int, orders: seq<T>) | TimedOut | Raised

  /** The delay requested after attempt `a` of `get_new_orders`. */
  function OrdersWait<T>(r: OrdersReply<T>, a: nat): (d: seq<nat>)
    ensures |d| <= 1
  {
    match r
    case Answered(status, _) =>
      if status == 200 then []
      else if status == 429 then [30]
      else if a < ApiAttempts - 1 then [10 * (a + 1)] else []
    case TimedOut => if a < ApiAttempts - 1 then [15 * (a + 1)] else []
    case Raised => if a < ApiAttempts - 1 then [10 * (a + 1)] else []
  }

  predicate OrdersOk<T>(r: OrdersReply<T>) { r.Answered? && r.status == 200 }

  /**
   * `get_new_orders`: the orders of the first 200 answer among three attempts,
   * or `[]` once all three failed; a 429 uses up its attempt.
   */
  method GetNewOrders<T>(replies: seq<OrdersReply<T>>) returns (orders: seq<T>, attempts: nat, delays: seq<nat>)
    requires |replies| >= ApiAttempts
    ensures 1 <= attempts <= ApiAttempts
    ensures forall k :: 0 <= k < attempts - 1 ==> !OrdersOk(replies[k])
    ensures OrdersOk(replies[attempts - 1]) ==> orders == replies[attempts - 1].orders
    ensures !OrdersOk(replies[attempts - 1]) ==> attempts == ApiAttempts && orders == []
    ensures delays == Waits(replies, attempts, OrdersWait)
  {
    orders, attempts, delays := [], 0, [];
    while attempts < ApiAttempts
      invariant attempts <= ApiAttempts
      invariant forall k :: 0 <= k < attempts ==> !OrdersOk(replies[k])
      invariant delays == Waits(replies, attempts, OrdersWait)
    {
      var r := replies[attempts];
      WaitsStep(replies, attempts, OrdersWait);
      if OrdersOk(r) {
        orders, attempts := r.orders, attempts + 1;
        return;
      }
      delays := delays + OrdersWait(r, attempts);
      attempts := attempts + 1;
    }
  }

  /** Three answers of 429 in a row: each waits 30 seconds, even the last, and the result is `[]`. */
  lemma OrdersAllThrottled<T>(replies: seq<OrdersReply<T>>)
    requires |replies| >= ApiAttempts
    requires forall k :: 0 <= k < ApiAttempts ==> replies[k].Answered? && replies[k].status == 429
    ensures Waits(replies, ApiAttempts, OrdersWait) == [30, 30, 30]
  {
    assert Waits(replies, 1, OrdersWait) == [30];
    assert Waits(replies, 2, OrdersWait) == [30, 30];
  }

  /** A timeout then a 200: one wait of 15 seconds. */
  lemma OrdersTimeoutThenOk<T>(replies: seq<OrdersReply<T>>)
    requires |replies| >= ApiAttempts && replies[0].TimedOut? && OrdersOk(replies[1])
    ensures Waits(replies, 2, OrdersWait) == [15]
  {
    assert Waits(replies, 1, OrdersWait) == [15];
  }

  /** Every delay of `get_new_orders` lies between 10 and 30 seconds. */
  lemma {:induction false} OrdersWaitsBounded<T>(replies: seq<OrdersReply<T>>, n: nat)
    requires n <= |replies| && n <= ApiAttempts
    ensures forall i :: 0 <= i < |Waits(replies, n, OrdersWait)| ==> 10 <= Waits(replies, n, OrdersWait)[i] <= 30
  {
    if n > 0 {
      OrdersWaitsBounded(replies, n - 1);
      var w := OrdersWait(replies[n - 1], n - 1);
      assert forall i :: 0 <= i < |w| ==> 10 <= w[i] <= 30;
    }
  }

  // --------------------------------------- create_supply, add_orders_to_supply, deliver_supply

  /** One call whose response is used only for the value it yields: a value, a timeout, or another exception. */
  datatype CallOutcome<T> = Returned(value: T) | TimedOut | Raised

  /** Every failure of a supply call waits `10 * (attempt + 1)`, except after the last attempt. */
  function CallWait<T>(r: CallOutcome<T>, a: nat): (d: seq<nat>)
    ensures |d| <= 1
  {
    if r.Returned? then []
    else if a < ApiAttempts - 1 then [10 * (a + 1)] else []
  }

  /**
   * The retry loop shared by `create_supply`, `add_orders_to_supply` and
   * `deliver_supply`: the value of the first attempt that returned, or `None`
   * for the exception raised after three failures.
   */
  method CallWithRetry<T>(outcomes: seq<CallOutcome<T>>) returns (result: Option<T>, attempts: nat, delays: seq<nat>)
    requires |outcomes| >= ApiAttempts
    ensures 1 <= attempts <= ApiAttempts
    ensures forall k :: 0 <= k < attempts - 1 ==> !outcomes[k].Returned?
    ensures outcomes[attempts - 1].Returned? ==> result == Some(outcomes[attempts - 1].value)
    ensures !outcomes[attempts - 1].Returned? ==> attempts == ApiAttempts && result == None
    ensures delays == Waits(outcomes, attempts, CallWait)
  {
    result, attempts, delays := None, 0, [];
    while attempts < ApiAttempts
      invariant attempts <= ApiAttempts
      invariant forall k :: 0 <= k < attempts ==> !outcomes[k].Returned?
      invariant delays == Waits(outcomes, attempts, CallWait)
    {
      var r := outcomes[attempts];
      WaitsStep(outcomes, attempts, CallWait);
      if r.Returned? {
        result, attempts := Some(r.value), attempts + 1;
        return;
      }
      delays := delays + CallWait(r, attempts);
      attempts := attempts + 1;
    }
  }

  /**
   * `create_supply`: the outcome of an attempt is the supply id read from the
   * response, `TimedOut`, or `Raised` (a transport error, or a response
   * without an id). `None` is the exception raised after three failures.
   */
  method CreateSupply(outcomes: seq<CallOutcome<string>>) returns (supplyId: Option<string>, attempts: nat, delays: seq<nat>)
    requires |outcomes| >= ApiAttempts
    ensures 1 <= attempts <= ApiAttempts
    ensures supplyId.Some? <==> exists k :: 0 <= k < ApiAttempts && outcomes[k].Returned?
    ensures supplyId.Some? ==> outcomes[attempts - 1].Returned? && supplyId.value == outcomes[attempts - 1].value
    ensures delays == Waits(outcomes, attempts, CallWait)
  {
    supplyId, attempts, delays := CallWithRetry(outcomes);
  }

  /**
   * `add_orders_to_supply` and `deliver_supply`: any HTTP response counts as
   * done, whatever its status; only exceptions are retried. `false` is the
   * exception raised after three failures.
   */
  method PatchSupply(outcomes: seq<CallOutcome<()>>) returns (done: bool, attempts: nat, delays: seq<nat>)
    requires |outcomes| >= ApiAttempts
    ensures 1 <= attempts <= ApiAttempts
    ensures done <==> exists k :: 0 <= k < ApiAttempts && outcomes[k].Returned?
    ensures done ==> outcomes[attempts - 1].Returned?
    ensures delays == Waits(outcomes, attempts, CallWait)
  {
    var result;
    result, attempts, delays := CallWithRetry(outcomes);
    done := result.Some?;
  }

  /** Three failures: waits of 10 and 20 seconds, none after the third. */
  lemma CallAllFail<T>(outcomes: seq<CallOutcome<T>>)
    requires |outcomes| >= ApiAttempts
    requires forall k :: 0 <= k < ApiAttempts ==> !outcomes[k].Returned?
    ensures Waits(outcomes, ApiAttempts, CallWait) == [10, 20]
  {
    assert Waits(outcomes, 1, CallWait) == [10];
    assert Waits(outcomes, 2, CallWait) == [10, 20];
  }

  /** A supply call waits at most once per attempt, and never after its third. */
  lemma {:induction false} CallWaitsTotal<T>(outcomes: seq<CallOutcome<T>>, n: nat)
    requires n <= |outcomes| && n <= ApiAttempts
    ensures |Waits(outcomes, n, CallWait)| <= n
    ensures n == ApiAttempts ==> |Waits(outcomes, n, CallWait)| <= ApiAttempts - 1
  {
    if n > 0 {
      CallWaitsTotal(outcomes, n - 1);
    }
  }

  // --------------------------------------- send_telegram_message, send_telegram_document

  /** One POST to the Bot API: an HTTP status, or an exception. */
  datatype PostOutcome = Status(code: int) | Raised

  /** After an exception, wait `2 ** attempt`, except after the fifth attempt; a non-200 status is retried at once. */
  function PostWait(r: PostOutcome, a: nat): (d: seq<nat>)
    ensures |d| <= 1
  {
    if r.Raised? && a < TelegramAttempts - 1 then [Pow2(a)] else []
  }

  predicate Delivered(r: PostOutcome) { r.Status? && r.code == 200 }

  /**
   * `send_telegram_document`, and `send_telegram_message` past its early exit:
   * true at the first 200, false once five attempts failed.
   */
  method PostWithRetry(outcomes: seq<PostOutcome>) returns (sent: bool, attempts: nat, delays: seq<nat>)
    requires |outcomes| >= TelegramAttempts
    ensures 1 <= attempts <= TelegramAttempts
    ensures forall k :: 0 <= k < attempts - 1 ==> !Delivered(outcomes[k])
    ensures sent <==> Delivered(outcomes[attempts - 1])
    ensures !sent ==> attempts == TelegramAttempts
    ensures delays == Waits(outcomes, attempts, PostWait)
  {
    sent, attempts, delays := false, 0, [];
    while attempts < TelegramAttempts
      invariant attempts <= TelegramAttempts
      invariant forall k :: 0 <= k < attempts ==> !Delivered(outcomes[k])
      invariant delays == Waits(outcomes, attempts, PostWait)
      invariant !sent
    {
      var r := outcomes[attempts];
      WaitsStep(outcomes, attempts, PostWait);
      if Delivered(r) {
        sent, attempts := true, attempts + 1;
        return;
      }
      delays := delays + PostWait(r, attempts);
      attempts := attempts + 1;
    }
  }

  /**
   * `send_telegram_message`: a message marked important-only is dropped, as
   * if sent, in production mode; otherwise it is posted with retries.
   */
  method SendTelegramMessage(importantOnly: bool, mode: Option<string>, outcomes: seq<PostOutcome>)
    returns (sent: bool, attempts: nat, delays: seq<nat>)
    requires |outcomes| >= TelegramAttempts
    ensures importantOnly && mode == Some("production") ==> sent && attempts == 0 && delays == []
    ensures !(importantOnly && mode == Some("production")) ==>
      1 <= attempts <= TelegramAttempts && (sent <==> exists k :: 0 <= k < TelegramAttempts && Delivered(outcomes[k]))
    ensures delays == Waits(outcomes, attempts, PostWait)
  {
    if importantOnly && mode == Some("production") {
      return true, 0, [];
    }
    sent, attempts, delays := PostWithRetry(outcomes);
  }

  /** Five exceptions in a row: waits of 1, 2, 4 and 8 seconds, none after the fifth. */
  lemma PostAllRaise(outcomes: seq<PostOutcome>)
    requires |outcomes| >= TelegramAttempts
    requires forall k :: 0 <= k < TelegramAttempts ==> outcomes[k].Raised?
    ensures Waits(outcomes, TelegramAttempts, PostWait) == [1, 2, 4, 8]
  {
    assert Waits(outcomes, 1, PostWait) == [1];
    assert Waits(outcomes, 2, PostWait) == [1, 2];
    assert Waits(outcomes, 3, PostWait) == [1, 2, 4];
    assert Waits(outcomes, 4, PostWait) == [1, 2, 4, 8];
  }

  /** Statuses other than 200 are retried without any wait. */
  lemma {:induction false} PostStatusesNoWait(outcomes: seq<PostOutcome>, n: nat)
    requires n <= |outcomes|
    requires forall k :: 0 <= k < n ==> outcomes[k].Status?
    ensures Waits(outcomes, n, PostWait) == []
  {
    if n > 0 {
      PostStatusesNoWait(outcomes, n - 1);
    }
  }
}
