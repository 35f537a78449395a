/**
 * `process_single_order`: one order goes through the marketplace API (a
 * supply is created and the order added to it), the seller's web page (the
 * create-box search, the box sticker, one sticker per item) and the delivery
 * hand-over, and ends with the sticker files that were saved.
 *
 * The screen, the API and the disk are an `OrderEnv`: the answer each step
 * gets. `PROCESS_CANCELLED`, set by the other thread, is seen by the
 * function's checkpoints in the order they run; the first checkpoint that
 * sees it is `cancelAt`, and every later one sees it too.
 */
module Pipeline {
  import opened Wrappers
  import opened Retry
  import opened Ledger
  import opened Confirmation
  import opened Ordering

  const MaxBoxAttempts: nat := 5
  /** From this attempt on the create-box search runs in slow mode. */
  const SlowFromAttempt: nat := 3
  const FastTimeout: nat := 8
  const SlowTimeout: nat := 12

  /** The three steps of one item sticker: the item's menu, its print entry, the download. */
  datatype ItemStep = ItemStep(menu: bool, printEntry: bool, download: bool)

  /** What the marketplace, the screen and the disk answer while one order is processed. */
  datatype OrderEnv = OrderEnv(
    supply: seq<CallOutcome<string>>,
    added: seq<CallOutcome<()>>,
    assemblyTab: bool,
    packaging: bool,
    createBox: seq<bool>,
    printerIcon: bool,
    boxSticker: bool,
    orderList: bool,
    orderListShown: bool,
    items: nat -> ItemStep,
    delivered: seq<CallOutcome<()>>,
    deliverButton: bool,
    confirmButton: bool,
    successShown: bool,
    saved: set<string>,
    cancelAt: nat)

  /** `range(order.get("quantity", 1))`: a missing quantity is one item, a negative one none. */
  function ItemCount(quantity: Option<int>): (n: nat)
    ensures quantity.None? ==> n == 1
    ensures quantity.Some? ==> (n == 0 <==> quantity.value <= 0)
    ensures quantity.Some? && quantity.value > 0 ==> n == quantity.value
  {
    match quantity
    case None => 1
    case Some(q) => if q < 0 then 0 else q
  }

  /** The environment answers every step the order can reach. */
  predicate Fits(env: OrderEnv)
  {
    && |env.supply| >= ApiAttempts && |env.added| >= ApiAttempts && |env.delivered| >= ApiAttempts
    && |env.createBox| >= MaxBoxAttempts
  }

  /** Some attempt of a retried API call returns; otherwise the call raises. */
  predicate Succeeds<T>(outcomes: seq<CallOutcome<T>>)
    requires |outcomes| >= ApiAttempts
  {
    exists k :: 0 <= k < ApiAttempts && outcomes[k].Returned?
  }

  /**
   * What the function returns: `[]` (`Aborted`), the saved files, `False`
   * (`Unconfirmed`) or, falling off its end, `None` (`NoFiles`).
   */
  datatype OrderResult = Aborted | Stickers(files: seq<string>) | Unconfirmed | NoFiles

  // ---------------------------------------------------------------- create box

  /** How the create-box search ends: found (with the next checkpoint number), not found, or cancelled. */
  datatype BoxSearch = BoxFound(attempt: nat, next: nat) | BoxMissing | BoxCancelled

  /** The create-box search from attempt `a`, the next checkpoint being number `c`. */
  function SearchBox(createBox: seq<bool>, a: nat, c: nat, cancelAt: nat): (r: BoxSearch)
    requires a <= MaxBoxAttempts <= |createBox|
    ensures r.BoxFound? ==> a <= r.attempt < MaxBoxAttempts && createBox[r.attempt] && r.next == c + (r.attempt - a) + 1
    decreases MaxBoxAttempts - a
  {
    if a == MaxBoxAttempts then BoxMissing
    else if cancelAt <= c then BoxCancelled
    else if createBox[a] then BoxFound(a, c + 1)
    else SearchBox(createBox, a + 1, c + 1, cancelAt)
  }

  /**
   * The button is taken at the first attempt that finds it; the search fails
   * only after five misses with no cancellation; when nothing cancels it, it
   * succeeds exactly when some attempt finds the button.
   */
  lemma {:induction false} SearchBoxFirst(createBox: seq<bool>, a: nat, c: nat, cancelAt: nat)
    requires a <= MaxBoxAttempts <= |createBox|
    ensures SearchBox(createBox, a, c, cancelAt).BoxFound? ==>
      forall i :: a <= i < SearchBox(createBox, a, c, cancelAt).attempt ==> !createBox[i]
    ensures SearchBox(createBox, a, c, cancelAt).BoxMissing? <==>
      (forall i :: a <= i < MaxBoxAttempts ==> !createBox[i]) && (a < MaxBoxAttempts ==> c + (MaxBoxAttempts - a) <= cancelAt)
    ensures c + (MaxBoxAttempts - a) <= cancelAt ==>
      (SearchBox(createBox, a, c, cancelAt).BoxFound? <==> exists i :: a <= i < MaxBoxAttempts && createBox[i])
    decreases MaxBoxAttempts - a
  {
    if a < MaxBoxAttempts && cancelAt > c && !createBox[a] {
      var r := SearchBox(createBox, a, c, cancelAt);
      assert r == SearchBox(createBox, a + 1, c + 1, cancelAt);
      SearchBoxFirst(createBox, a + 1, c + 1, cancelAt);
      if c + (MaxBoxAttempts - a) <= cancelAt && !r.BoxFound? {
        forall i | a <= i < MaxBoxAttempts ensures !createBox[i] {
          if i > a {
            assert !(a + 1 <= i < MaxBoxAttempts && createBox[i]);
          }
        }
      }
    }
  }

  /**
   * The create-box loop: each attempt first checks for cancellation, turns
   * slow mode on from the fourth attempt, and searches with the timeout of
   * its mode; it stops at the first hit.
   */
  method FindCreateBox(createBox: seq<bool>, c0: nat, cancelAt: nat) returns (r: BoxSearch, timeouts: seq<nat>)
    requires MaxBoxAttempts <= |createBox|
    ensures r == SearchBox(createBox, 0, c0, cancelAt)
    ensures forall i :: 0 <= i < |timeouts| ==> timeouts[i] == (if i >= SlowFromAttempt then SlowTimeout else FastTimeout)
    ensures r.BoxFound? ==> |timeouts| == r.attempt + 1
    ensures r.BoxMissing? ==> |timeouts| == MaxBoxAttempts
  {
    var slow := false;
    var a, c := 0, c0;
    timeouts := [];
    while a < MaxBoxAttempts
      invariant 0 <= a <= MaxBoxAttempts && c == c0 + a && |timeouts| == a
      invariant slow <==> a > SlowFromAttempt
      invariant forall i :: 0 <= i < a ==> timeouts[i] == (if i >= SlowFromAttempt then SlowTimeout else FastTimeout)
      invariant SearchBox(createBox, 0, c0, cancelAt) == SearchBox(createBox, a, c, cancelAt)
    {
      if cancelAt <= c {
        return BoxCancelled, timeouts;
      }
      if a >= SlowFromAttempt && !slow {
        slow := true;
      }
      timeouts := timeouts + [if slow then SlowTimeout else FastTimeout];
      if createBox[a] {
        return BoxFound(a, c + 1), timeouts;
      }
      a, c := a + 1, c + 1;
    }
    r := BoxMissing;
  }

  /** Without a hit, the five searches wait 8, 8, 8, 12 and 12 seconds. */
  lemma MissingBoxTimeouts(timeouts: seq<nat>)
    requires |timeouts| == MaxBoxAttempts
    requires forall i :: 0 <= i < |timeouts| ==> timeouts[i] == (if i >= SlowFromAttempt then SlowTimeout else FastTimeout)
    ensures timeouts == [8, 8, 8, 12, 12]
  {
  }

  // ---------------------------------------------------------------- item stickers

  /** How the item loop ends: the downloaded files so far (with the next checkpoint number), or cancelled. */
  datatype ItemsRun = ItemsDone(names: seq<string>, next: nat) | ItemsCancelled

  /** The sticker of item `j` (0-based) of the order at 1-based position `order`. */
  function ItemName(order: nat): nat -> string
  {
    (j: nat) => ArtifactName(order, j + 2)
  }

  /** Different items of one order have different stickers. */
  lemma ItemNameInjective(order: nat)
    ensures forall j1: nat, j2: nat :: ItemName(order)(j1) == ItemName(order)(j2) ==> j1 == j2
  {
    forall j1: nat, j2: nat | ItemName(order)(j1) == ItemName(order)(j2) ensures j1 == j2 {
      ArtifactNameInjective(order, j1 + 2, order, j2 + 2);
    }
  }

  /**
   * The item loop from item `k`, item `j`'s sticker being `name(j)`: `acc`
   * holds the files downloaded so far. A missing menu on the first item ends
   * the loop; on a later item, like a missing print entry or a failed
   * download, it only skips that item.
   */
  function ItemsFrom(items: nat -> ItemStep, count: nat, k: nat, name: nat -> string, c: nat, cancelAt: nat, acc: seq<string>): (r: ItemsRun)
    requires k <= count
    ensures r.ItemsDone? ==> acc <= r.names && |r.names| <= |acc| + (count - k)
    decreases count - k
  {
    if k == count then ItemsDone(acc, c)
    else if cancelAt <= c then ItemsCancelled
    else if !items(k).menu then
      if k == 0 then ItemsDone(acc, c + 1) else ItemsFrom(items, count, k + 1, name, c + 1, cancelAt, acc)
    else if cancelAt <= c + 1 then ItemsCancelled
    else if !items(k).printEntry then ItemsFrom(items, count, k + 1, name, c + 2, cancelAt, acc)
    else if cancelAt <= c + 2 then ItemsCancelled
    else if !items(k).download then ItemsFrom(items, count, k + 1, name, c + 3, cancelAt, acc)
    else ItemsFrom(items, count, k + 1, name, c + 3, cancelAt, acc + [name(k)])
  }

  /** The item loop as the source runs it; `downloaded` already holds the box sticker. */
  method DownloadItems(items: nat -> ItemStep, count: nat, name: nat -> string, c0: nat, cancelAt: nat, downloaded: seq<string>)
    returns (r: ItemsRun)
    ensures r == ItemsFrom(items, count, 0, name, c0, cancelAt, downloaded)
  {
    var names := downloaded;
    var k, c := 0, c0;
    while k < count
      invariant 0 <= k <= count
      invariant ItemsFrom(items, count, 0, name, c0, cancelAt, downloaded) == ItemsFrom(items, count, k, name, c, cancelAt, names)
    {
      if cancelAt <= c {
        return ItemsCancelled;
      }
      c := c + 1;
      if !items(k).menu {
        if k == 0 {
          break;
        }
        k := k + 1;
        continue;
      }
      if cancelAt <= c {
        return ItemsCancelled;
      }
      c := c + 1;
      if !items(k).printEntry {
        k := k + 1;
        continue;
      }
      if cancelAt <= c {
        return ItemsCancelled;
      }
      c := c + 1;
      if !items(k).download {
        k := k + 1;
        continue;
      }
      names := names + [name(k)];
      k := k + 1;
    }
    r := ItemsDone(names, c);
  }

  /** The three steps of an item all succeed. */
  predicate Complete(it: ItemStep) { it.menu && it.printEntry && it.download }

  /** The stickers of the items from `k` on whose three steps all succeed, in item order. */
  function Succeeded(items: nat -> ItemStep, count: nat, k: nat, name: nat -> string): (names: seq<string>)
    requires k <= count
    ensures |names| <= count - k
    decreases count - k
  {
    if k == count then []
    else (if Complete(items(k)) then [name(k)] else []) + Succeeded(items, count, k + 1, name)
  }

  /**
   * Uncancelled, and unless the first item's menu is missing, the loop
   * downloads exactly the stickers of the items whose steps all succeed,
   * using at most three checkpoints per item.
   */
  lemma {:induction false} ItemsUncancelled(items: nat -> ItemStep, count: nat, k: nat, name: nat -> string, c: nat, cancelAt: nat, acc: seq<string>)
    requires k <= count
    requires c + 3 * (count - k) <= cancelAt
    requires k > 0 || count == 0 || items(0).menu
    ensures var r := ItemsFrom(items, count, k, name, c, cancelAt, acc);
      r.ItemsDone? && r.names == acc + Succeeded(items, count, k, name) && r.next <= c + 3 * (count - k)
    decreases count - k
  {
    if k < count {
      var it := items(k);
      var rest := Succeeded(items, count, k + 1, name);
      if !it.menu {
        ItemsUncancelled(items, count, k + 1, name, c + 1, cancelAt, acc);
        assert Succeeded(items, count, k, name) == rest;
      } else if !it.printEntry {
        ItemsUncancelled(items, count, k + 1, name, c + 2, cancelAt, acc);
        assert Succeeded(items, count, k, name) == rest;
      } else if !it.download {
        ItemsUncancelled(items, count, k + 1, name, c + 3, cancelAt, acc);
        assert Succeeded(items, count, k, name) == rest;
      } else {
        ItemsUncancelled(items, count, k + 1, name, c + 3, cancelAt, acc + [name(k)]);
        assert Succeeded(items, count, k, name) == [name(k)] + rest;
        assert acc + [name(k)] + rest == acc + ([name(k)] + rest);
      }
    }
  }

  /** Every file the loop adds is the sticker of an item whose three steps all succeed. */
  lemma {:induction false} ItemsNamed(items: nat -> ItemStep, count: nat, k: nat, name: nat -> string, c: nat, cancelAt: nat, acc: seq<string>)
    requires k <= count
    requires ItemsFrom(items, count, k, name, c, cancelAt, acc).ItemsDone?
    ensures forall f :: f in ItemsFrom(items, count, k, name, c, cancelAt, acc).names ==>
      f in acc || f in Succeeded(items, count, k, name)
    decreases count - k
  {
    if k < count && c < cancelAt && (items(k).menu || k > 0) {
      var it := items(k);
      var rest := Succeeded(items, count, k + 1, name);
      if !it.menu {
        ItemsNamed(items, count, k + 1, name, c + 1, cancelAt, acc);
      } else if !it.printEntry {
        ItemsNamed(items, count, k + 1, name, c + 2, cancelAt, acc);
      } else if !it.download {
        ItemsNamed(items, count, k + 1, name, c + 3, cancelAt, acc);
      } else {
        ItemsNamed(items, count, k + 1, name, c + 3, cancelAt, acc + [name(k)]);
        assert Succeeded(items, count, k, name) == [name(k)] + rest;
      }
    }
  }

  /**
   * With distinct names, item `j`'s sticker is among the successful ones
   * exactly when `j` is in range and its three steps succeed.
   */
  lemma {:induction false} SucceededMembers(items: nat -> ItemStep, count: nat, k: nat, name: nat -> string, j: nat)
    requires k <= count
    requires forall j1: nat, j2: nat :: name(j1) == name(j2) ==> j1 == j2
    ensures name(j) in Succeeded(items, count, k, name) <==> k <= j < count && Complete(items(j))
    decreases count - k
  {
    if k < count {
      SucceededMembers(items, count, k + 1, name, j);
      assert name(j) == name(k) ==> j == k;
    }
  }

  /** Every successful sticker is the sticker of an item in range. */
  lemma {:induction false} SucceededNamed(items: nat -> ItemStep, count: nat, k: nat, name: nat -> string)
    requires k <= count
    ensures forall f :: f in Succeeded(items, count, k, name) ==> exists j :: k <= j < count && f == name(j)
    decreases count - k
  {
    if k < count {
      SucceededNamed(items, count, k + 1, name);
    }
  }

  // ---------------------------------------------------------------- delivery

  /** How the hand-over to delivery ends: handed over (with the next checkpoint number), aborted, or unconfirmed. */
  datatype Delivery = Handed(next: nat) | DeliveryAborted | DeliveryUnconfirmed

  /**
   * `deliver_supply`, and when it raises the deliver button: without the
   * button the order is aborted; with it, after a checkpoint, a confirm
   * button that leads to no success message makes the order unconfirmed,
   * while a missing confirm button is let through.
   */
  function Deliver(env: OrderEnv, c: nat): (d: Delivery)
    requires |env.delivered| >= ApiAttempts
    ensures Succeeds(env.delivered) ==> d == Handed(c)
    ensures d == DeliveryAborted <==> !Succeeds(env.delivered) && (!env.deliverButton || env.cancelAt <= c)
    ensures d.DeliveryUnconfirmed? <==>
      !Succeeds(env.delivered) && env.deliverButton && c < env.cancelAt && env.confirmButton && !env.successShown
    ensures !Succeeds(env.delivered) && env.deliverButton && c < env.cancelAt && !env.confirmButton ==> d == Handed(c + 1)
  {
    if Succeeds(env.delivered) then Handed(c)
    else if !env.deliverButton || env.cancelAt <= c then DeliveryAborted
    else if env.confirmButton && !env.successShown then DeliveryUnconfirmed
    else Handed(c + 1)
  }

  // ---------------------------------------------------------------- the whole order

  /** The order reaches the confirmation after its supply: not cancelled, with an unprocessed id and a supply. */
  predicate SupplyReady(order: Order, processed: set<int>, env: OrderEnv)
    requires Fits(env)
  {
    0 < env.cancelAt && order.id.Some? && order.id.value !in processed && Succeeds(env.supply) && Succeeds(env.added)
  }

  /** The checkpoints 1 to 4 pass and the assembly tab and the packaging view are found. */
  predicate ReachesBoxSearch(env: OrderEnv)
  {
    4 < env.cancelAt && env.assemblyTab && env.packaging
  }

  /** From the checkpoint after the box search: printer icon, box sticker and the order list, three more checkpoints between. */
  predicate BoxStickerDone(env: OrderEnv, n: nat)
  {
    n + 3 < env.cancelAt && env.printerIcon && env.boxSticker && env.orderList && env.orderListShown
  }

  /** The box sticker of the order at 0-based index `idx`. */
  function BoxName(idx: nat): string
  {
    ArtifactName(idx + 1, 1)
  }

  /** What `process_single_order` returns from the checkpoint after the box search, numbered `n`. */
  function AfterBoxOutcome(order: Order, idx: nat, env: OrderEnv, n: nat): OrderResult
    requires Fits(env)
  {
    if !BoxStickerDone(env, n) then Aborted
    else match ItemsFrom(env.items, ItemCount(order.quantity), 0, ItemName(idx + 1), n + 4, env.cancelAt, [BoxName(idx)])
      case ItemsCancelled => Aborted
      case ItemsDone(downloaded, m) =>
        if env.cancelAt <= m then Aborted
        else match Deliver(env, m + 1)
          case DeliveryAborted => Aborted
          case DeliveryUnconfirmed => Unconfirmed
          case Handed(p) =>
            if env.cancelAt <= p then Aborted
            else
              var files := Present(downloaded, env.saved);
              if files == [] then NoFiles else Stickers(files)
  }

  /** What `process_single_order` returns for the order at 0-based index `idx`. */
  function OrderOutcome(order: Order, idx: nat, processed: set<int>, env: OrderEnv): OrderResult
    requires Fits(env)
  {
    if !SupplyReady(order, processed, env) || !ReachesBoxSearch(env) then Aborted
    else match SearchBox(env.createBox, 0, 5, env.cancelAt)
      case BoxMissing => Aborted
      case BoxCancelled => Aborted
      case BoxFound(_, n) => AfterBoxOutcome(order, idx, env, n)
  }

  /**
   * `process_single_order`. The ledger gains the order's id exactly when
   * files are returned; a ticket is minted in test mode once the supply
   * exists.
   */
  method ProcessSingleOrder(order: Order, idx: nat, ledger: OrderLedger, gate: ConfirmationGate, mode: Option<string>, env: OrderEnv)
    returns (r: OrderResult)
    requires Fits(env) && gate.Valid()
    modifies ledger, gate
    ensures r == OrderOutcome(order, idx, old(ledger.processed), env)
    ensures r.Stickers? ==> order.id.Some? && ledger.processed == old(ledger.processed) + {order.id.value}
    ensures !r.Stickers? ==> ledger.processed == old(ledger.processed)
    ensures gate.Valid()
    ensures gate.stepId == old(gate.stepId) + (if mode == Some("test") && SupplyReady(order, old(ledger.processed), env) then 1 else 0)
    ensures Grows(old(gate.tickets), gate.tickets)
    ensures mode != Some("test") ==> gate.tickets == old(gate.tickets)
  {
    if env.cancelAt <= 0 || order.id.None? || order.id.value in ledger.processed {
      return Aborted;
    }
    var id := order.id.value;
    var supplyId, _, _ := CreateSupply(env.supply);
    if supplyId.None? {
      return Aborted;
    }
    var added, _, _ := PatchSupply(env.added);
    if !added {
      return Aborted;
    }
    var _ := gate.WaitForConfirmation(mode);
    var c := 1;
    if env.cancelAt <= c || !env.assemblyTab {
      return Aborted;
    }
    c := c + 1;
    if env.cancelAt <= c {
      return Aborted;
    }
    c := c + 1;
    if env.cancelAt <= c || !env.packaging {
      return Aborted;
    }
    c := c + 1;
    if env.cancelAt <= c {
      return Aborted;
    }
    c := c + 1;
    var box, _ := FindCreateBox(env.createBox, c, env.cancelAt);
    if !box.BoxFound? {
      return Aborted;
    }
    r := AfterBox(order, idx, ledger, env, box.next);
  }

  /** `process_single_order` from the checkpoint after the box search, numbered `n`. */
  method AfterBox(order: Order, idx: nat, ledger: OrderLedger, env: OrderEnv, n: nat) returns (r: OrderResult)
    requires Fits(env) && order.id.Some?
    modifies ledger
    ensures r == AfterBoxOutcome(order, idx, env, n)
    ensures r.Stickers? ==> ledger.processed == old(ledger.processed) + {order.id.value}
    ensures !r.Stickers? ==> ledger.processed == old(ledger.processed)
  {
    var c := n;
    if env.cancelAt <= c || !env.printerIcon {
      return Aborted;
    }
    c := c + 1;
    if env.cancelAt <= c {
      return Aborted;
    }
    c := c + 1;
    if env.cancelAt <= c || !env.boxSticker {
      return Aborted;
    }
    c := c + 1;
    if env.cancelAt <= c || !env.orderList || !env.orderListShown {
      return Aborted;
    }
    c := c + 1;
    var items := DownloadItems(env.items, ItemCount(order.quantity), ItemName(idx + 1), c, env.cancelAt, [BoxName(idx)]);
    if items.ItemsCancelled? {
      return Aborted;
    }
    c := items.next;
    if env.cancelAt <= c {
      return Aborted;
    }
    c := c + 1;
    var handed, _, _ := PatchSupply(env.delivered);
    if !handed {
      if !env.deliverButton || env.cancelAt <= c {
        return Aborted;
      }
      c := c + 1;
      if env.confirmButton && !env.successShown {
        return Unconfirmed;
      }
    }
    if env.cancelAt <= c {
      return Aborted;
    }
    var files := Present(items.names, env.saved);
    if files == [] {
      return NoFiles;
    }
    ledger.Record(order.id.value);
    r := Stickers(files);
  }

  // ---------------------------------------------------------------- properties of the whole order

  /**
   * Where the order reaches the hand-over to delivery: the downloads (box
   * sticker first) and the number of the checkpoint the hand-over starts
   * from; `None` when the order returns `[]` before that.
   */
  function AtDelivery(order: Order, idx: nat, processed: set<int>, env: OrderEnv): (r: Option<(seq<string>, nat)>)
    requires Fits(env)
    ensures r.Some? ==> |r.value.0| > 0 && r.value.0[0] == BoxName(idx) && r.value.1 <= env.cancelAt
    ensures r.Some? ==> SupplyReady(order, processed, env) && ReachesBoxSearch(env)
  {
    if !SupplyReady(order, processed, env) || !ReachesBoxSearch(env) then None
    else match SearchBox(env.createBox, 0, 5, env.cancelAt)
      case BoxFound(_, n) =>
        if !BoxStickerDone(env, n) then None
        else (match ItemsFrom(env.items, ItemCount(order.quantity), 0, ItemName(idx + 1), n + 4, env.cancelAt, [BoxName(idx)])
          case ItemsDone(names, m) =>
            assert [BoxName(idx)] <= names;
            if env.cancelAt <= m then None else Some((names, m + 1))
          case ItemsCancelled => None)
      case _ => None
  }

  /** What the order returns once handed over and not cancelled: the saved downloads, or `None` when there are none. */
  function HandOver(names: seq<string>, env: OrderEnv): (r: OrderResult)
    ensures r == NoFiles || (r.Stickers? && r.files != [])
  {
    var files := Present(names, env.saved);
    if files == [] then NoFiles else Stickers(files)
  }

  /** An order that never reaches the hand-over returns `[]`. */
  lemma OrderBeforeDelivery(order: Order, idx: nat, processed: set<int>, env: OrderEnv)
    requires Fits(env) && AtDelivery(order, idx, processed, env).None?
    ensures OrderOutcome(order, idx, processed, env) == Aborted
  {
    if SupplyReady(order, processed, env) && ReachesBoxSearch(env) {
      var box := SearchBox(env.createBox, 0, 5, env.cancelAt);
      if box.BoxFound? && BoxStickerDone(env, box.next) {
        var run := ItemsFrom(env.items, ItemCount(order.quantity), 0, ItemName(idx + 1), box.next + 4, env.cancelAt, [BoxName(idx)]);
        assert run.ItemsDone? ==> env.cancelAt <= run.next;
      }
    }
  }

  /** From the hand-over on, the order's answer is decided by `Deliver` and the saved files alone. */
  lemma OrderAtDelivery(order: Order, idx: nat, processed: set<int>, env: OrderEnv)
    requires Fits(env) && AtDelivery(order, idx, processed, env).Some?
    ensures var (names, c) := AtDelivery(order, idx, processed, env).value;
      OrderOutcome(order, idx, processed, env)
        == match Deliver(env, c)
           case DeliveryAborted => Aborted
           case DeliveryUnconfirmed => Unconfirmed
           case Handed(p) => if env.cancelAt <= p then Aborted else HandOver(names, env)
  {
    var box := SearchBox(env.createBox, 0, 5, env.cancelAt);
    assert box.BoxFound?;
    var run := ItemsFrom(env.items, ItemCount(order.quantity), 0, ItemName(idx + 1), box.next + 4, env.cancelAt, [BoxName(idx)]);
    assert run.ItemsDone?;
  }

  /**
   * `False` exactly when the order reaches the hand-over, every API attempt
   * fails, the deliver button is found with no cancellation at the next
   * checkpoint, and the confirm button is found but the success message is not.
   */
  lemma OrderUnconfirmedExactly(order: Order, idx: nat, processed: set<int>, env: OrderEnv)
    requires Fits(env)
    ensures OrderOutcome(order, idx, processed, env) == Unconfirmed <==>
      && AtDelivery(order, idx, processed, env).Some?
      && !Succeeds(env.delivered) && env.deliverButton && AtDelivery(order, idx, processed, env).value.1 < env.cancelAt
      && env.confirmButton && !env.successShown
  {
    if AtDelivery(order, idx, processed, env).Some? {
      OrderAtDelivery(order, idx, processed, env);
    } else {
      OrderBeforeDelivery(order, idx, processed, env);
    }
  }

  /** Without the deliver button, an order whose API hand-over failed returns `[]`. */
  lemma OrderNoDeliverButton(order: Order, idx: nat, processed: set<int>, env: OrderEnv)
    requires Fits(env) && !Succeeds(env.delivered) && !env.deliverButton
    ensures OrderOutcome(order, idx, processed, env) == Aborted
  {
    if AtDelivery(order, idx, processed, env).Some? {
      OrderAtDelivery(order, idx, processed, env);
    } else {
      OrderBeforeDelivery(order, idx, processed, env);
    }
  }

  /**
   * A missing confirm button is let through: after the deliver button and
   * one more checkpoint the order returns its saved files (or `None`), unless
   * that checkpoint sees a cancellation.
   */
  lemma OrderNoConfirmButton(order: Order, idx: nat, processed: set<int>, env: OrderEnv)
    requires Fits(env) && AtDelivery(order, idx, processed, env).Some?
    requires !Succeeds(env.delivered) && env.deliverButton && !env.confirmButton
    ensures var (names, c) := AtDelivery(order, idx, processed, env).value;
      OrderOutcome(order, idx, processed, env) == if env.cancelAt <= c + 1 then Aborted else HandOver(names, env)
  {
    OrderAtDelivery(order, idx, processed, env);
  }

  /**
   * `None` exactly when the order is handed over (by the API or the
   * buttons), no checkpoint cancels it, and none of its downloads was saved.
   */
  lemma OrderNoFilesExactly(order: Order, idx: nat, processed: set<int>, env: OrderEnv)
    requires Fits(env)
    ensures OrderOutcome(order, idx, processed, env) == NoFiles <==>
      && AtDelivery(order, idx, processed, env).Some?
      && Deliver(env, AtDelivery(order, idx, processed, env).value.1).Handed?
      && Deliver(env, AtDelivery(order, idx, processed, env).value.1).next < env.cancelAt
      && Present(AtDelivery(order, idx, processed, env).value.0, env.saved) == []
  {
    if AtDelivery(order, idx, processed, env).Some? {
      OrderAtDelivery(order, idx, processed, env);
    } else {
      OrderBeforeDelivery(order, idx, processed, env);
    }
  }

  /** Files on disk keep the order of the downloads when every download was saved. */
  lemma {:induction false} PresentAll(stems: seq<string>, present: set<string>)
    requires forall s :: s in stems ==> s in present
    ensures Present(stems, present) == stems
    decreases |stems|
  {
    if stems != [] {
      PresentAll(stems[1..], present);
      assert [stems[0]] + stems[1..] == stems;
    }
  }

  /**
   * Any answer other than `[]` means nothing cancelled the order before its
   * box sticker was downloaded: the earliest such point is the tenth checkpoint.
   */
  lemma OrderLateCancel(order: Order, idx: nat, processed: set<int>, env: OrderEnv)
    requires Fits(env)
    requires OrderOutcome(order, idx, processed, env) != Aborted
    ensures SupplyReady(order, processed, env) && ReachesBoxSearch(env)
    ensures 9 < env.cancelAt
  {
    var box := SearchBox(env.createBox, 0, 5, env.cancelAt);
    assert box.BoxFound? && BoxStickerDone(env, box.next);
  }

  /** An order is aborted when the create-box button never shows in five attempts. */
  lemma OrderBoxNeverFound(order: Order, idx: nat, processed: set<int>, env: OrderEnv)
    requires Fits(env)
    requires forall i :: 0 <= i < MaxBoxAttempts ==> !env.createBox[i]
    ensures OrderOutcome(order, idx, processed, env) == Aborted
  {
    var box := SearchBox(env.createBox, 0, 5, env.cancelAt);
    assert !box.BoxFound?;
  }

  /**
   * Returned files are saved files of this order: its box sticker or the
   * sticker of an item whose three steps succeeded; the order was not in the
   * ledger before.
   */
  lemma OrderStickers(order: Order, idx: nat, processed: set<int>, env: OrderEnv)
    requires Fits(env)
    requires OrderOutcome(order, idx, processed, env).Stickers?
    ensures order.id.Some? && order.id.value !in processed
    ensures var files := OrderOutcome(order, idx, processed, env).files;
      && files != []
      && forall f :: f in files ==>
           f in env.saved && (f == BoxName(idx) || f in Succeeded(env.items, ItemCount(order.quantity), 0, ItemName(idx + 1)))
  {
    var box := SearchBox(env.createBox, 0, 5, env.cancelAt);
    var n := box.next;
    var run := ItemsFrom(env.items, ItemCount(order.quantity), 0, ItemName(idx + 1), n + 4, env.cancelAt, [BoxName(idx)]);
    assert box.BoxFound? && run.ItemsDone?;
    ItemsNamed(env.items, ItemCount(order.quantity), 0, ItemName(idx + 1), n + 4, env.cancelAt, [BoxName(idx)]);
  }

  /** When no file was saved, not even the box sticker, the function falls off its end. */
  lemma OrderNoFiles(order: Order, idx: nat, processed: set<int>, env: OrderEnv)
    requires Fits(env)
    requires OrderOutcome(order, idx, processed, env) == NoFiles
    ensures BoxName(idx) !in env.saved
  {
    var box := SearchBox(env.createBox, 0, 5, env.cancelAt);
    var n := box.next;
    var run := ItemsFrom(env.items, ItemCount(order.quantity), 0, ItemName(idx + 1), n + 4, env.cancelAt, [BoxName(idx)]);
    assert box.BoxFound? && run.ItemsDone?;
    assert [BoxName(idx)] <= run.names;
    assert BoxName(idx) in run.names;
  }

  /**
   * The UI hand-over reports `False` only when the API hand-over failed and
   * the confirm button was pressed without the success message showing.
   */
  lemma OrderUnconfirmed(order: Order, idx: nat, processed: set<int>, env: OrderEnv)
    requires Fits(env)
    requires OrderOutcome(order, idx, processed, env) == Unconfirmed
    ensures !Succeeds(env.delivered) && env.deliverButton && env.confirmButton && !env.successShown
  {
    var box := SearchBox(env.createBox, 0, 5, env.cancelAt);
    var n := box.next;
    var run := ItemsFrom(env.items, ItemCount(order.quantity), 0, ItemName(idx + 1), n + 4, env.cancelAt, [BoxName(idx)]);
    assert box.BoxFound? && run.ItemsDone?;
    assert Deliver(env, run.next + 1).DeliveryUnconfirmed?;
  }

  /**
   * With no cancellation, every step found at first sight, the API
   * hand-over working and every download saved, the order returns its box
   * sticker followed by the stickers of its items whose steps succeed.
   */
  lemma OrderHappyPath(order: Order, idx: nat, processed: set<int>, env: OrderEnv)
    requires Fits(env) && SupplyReady(order, processed, env) && ReachesBoxSearch(env)
    requires env.createBox[0] && env.printerIcon && env.boxSticker && env.orderList && env.orderListShown
    requires ItemCount(order.quantity) == 0 || env.items(0).menu
    requires 12 + 3 * ItemCount(order.quantity) <= env.cancelAt && Succeeds(env.delivered)
    requires BoxName(idx) in env.saved
    requires forall f :: f in Succeeded(env.items, ItemCount(order.quantity), 0, ItemName(idx + 1)) ==> f in env.saved
    ensures OrderOutcome(order, idx, processed, env)
      == Stickers([BoxName(idx)] + Succeeded(env.items, ItemCount(order.quantity), 0, ItemName(idx + 1)))
  {
    var count, name := ItemCount(order.quantity), ItemName(idx + 1);
    assert SearchBox(env.createBox, 0, 5, env.cancelAt) == BoxFound(0, 6);
    ItemsUncancelled(env.items, count, 0, name, 10, env.cancelAt, [BoxName(idx)]);
    var downloaded := [BoxName(idx)] + Succeeded(env.items, count, 0, name);
    PresentAll(downloaded, env.saved);
  }

  /** The box sticker and the item stickers of the order at position `idx` all sort under that position. */
  lemma StickerNamesKeyed(files: seq<string>, items: nat -> ItemStep, count: nat, idx: nat)
    requires forall f :: f in files ==> f == BoxName(idx) || f in Succeeded(items, count, 0, ItemName(idx + 1))
    ensures forall f :: f in files ==> SortKey(f).Some? && SortKey(f).value.0 == idx + 1
  {
    var name := ItemName(idx + 1);
    SucceededNamed(items, count, 0, name);
    forall f | f in files ensures SortKey(f).Some? && SortKey(f).value.0 == idx + 1 {
      if f == BoxName(idx) {
        SortKeyOfName(idx + 1, 1);
      } else {
        var j: nat :| j < count && f == name(j);
        SortKeyOfName(idx + 1, j + 2);
      }
    }
  }

  /** Every returned file sorts under this order's position, so the merge can always key it. */
  lemma OrderStickersKeyed(order: Order, idx: nat, processed: set<int>, env: OrderEnv)
    requires Fits(env)
    requires OrderOutcome(order, idx, processed, env).Stickers?
    ensures forall f :: f in OrderOutcome(order, idx, processed, env).files ==>
      SortKey(f).Some? && SortKey(f).value.0 == idx + 1
  {
    OrderStickers(order, idx, processed, env);
    StickerNamesKeyed(OrderOutcome(order, idx, processed, env).files, env.items, ItemCount(order.quantity), idx);
  }
}
