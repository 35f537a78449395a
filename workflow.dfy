/**
 * `main_workflow`: wait for a mode, bring the seller's page up, fetch the new
 * orders, drop those already in the ledger, process the rest one by one,
 * merge the returned stickers into one document and send it, then send
 * every PDF of the downloads directory in batches of five and report. Its
 * `finally` clears the run flags on every path that leaves the function.
 */
module Workflow {
  import opened Wrappers
  import opened Text
  import opened Retry
  import opened Ledger
  import opened Confirmation
  import opened Ordering
  import opened Batches
  import opened Pipeline
  import opened RunControl

  const BatchSize: nat := 5
  /** The stem of the merged document. */
  const MergedName := "все_стикеры_объединенные"

  /** How the browser is brought up: through its taskbar icon (with or without the mouse move) or by fixed coordinates. */
  datatype ChromeStep = IconMoved | IconClicked | Coordinates(clicked: bool)

  /** The desktop steps before the orders: minimising the windows, the browser, the marketplace tab. */
  datatype Desktop = Desktop(minimized: bool, chrome: ChromeStep, tabSwitched: bool)

  predicate DesktopReady(d: Desktop)
  {
    d.minimized && (d.chrome.Coordinates? ==> d.chrome.clicked) && d.tabSwitched
  }

  /** The confirmations asked for while bringing the browser up. */
  function ChromeConfirmations(step: ChromeStep): (n: nat)
    ensures n <= 2 && (n == 0 <==> step.Coordinates?)
  {
    match step
    case IconMoved => 2
    case IconClicked => 1
    case Coordinates(_) => 0
  }

  /**
   * What the outside world answers during one run: the events while the run
   * waits for a mode, the desktop, the order listing attempts, each order's
   * environment (by position), the position before which the order loop
   * first sees a cancellation, whether the cover page could be made, the
   * attempts to send the merged document, the stems of the other PDF files
   * in the downloads directory in listing order, and the attempts to send
   * each listed file.
   */
  datatype WorkflowEnv = WorkflowEnv(
    events: seq<Event>,
    desktop: Desktop,
    replies: seq<OrdersReply<Order>>,
    orderEnv: nat -> OrderEnv,
    cancelBefore: nat,
    coverMade: bool,
    documentPosts: seq<PostOutcome>,
    leftovers: seq<string>,
    batchTries: seq<FileTries>)

  ghost predicate WorkflowFits(env: WorkflowEnv)
  {
    && |env.replies| >= ApiAttempts && |env.documentPosts| >= TelegramAttempts
    && |env.batchTries| > |env.leftovers|
    && forall j: nat :: Fits(env.orderEnv(j))
  }

  // ---------------------------------------------------------------- fetching

  /** The orders `get_new_orders` returns: those of the first successful attempt, or none. */
  function Fetched(replies: seq<OrdersReply<Order>>, k: nat): seq<Order>
    requires k <= ApiAttempts <= |replies|
    decreases ApiAttempts - k
  {
    if k == ApiAttempts then []
    else if OrdersOk(replies[k]) then replies[k].orders
    else Fetched(replies, k + 1)
  }

  /** Failed attempts are skipped. */
  lemma {:induction false} FetchedSkips(replies: seq<OrdersReply<Order>>, k: nat, n: nat)
    requires k <= n <= ApiAttempts <= |replies|
    requires forall j :: k <= j < n ==> !OrdersOk(replies[j])
    ensures Fetched(replies, k) == Fetched(replies, n)
    decreases n - k
  {
    if k < n {
      FetchedSkips(replies, k + 1, n);
    }
  }

  /** The retry loop returns exactly the fetched orders. */
  method FetchOrders(replies: seq<OrdersReply<Order>>) returns (orders: seq<Order>)
    requires |replies| >= ApiAttempts
    ensures orders == Fetched(replies, 0)
  {
    var attempts, delays;
    orders, attempts, delays := GetNewOrders(replies);
    FetchedSkips(replies, 0, attempts - 1);
    if !OrdersOk(replies[attempts - 1]) {
      FetchedSkips(replies, 0, ApiAttempts);
    }
  }

  // ---------------------------------------------------------------- the order loop

  datatype LoopEnd = Finished | CancelSeen | BadResult

  /**
   * The order loop's state: the returned stickers so far, the count of
   * orders that returned files, the ledger, and how the loop ended.
   */
  datatype LoopState = LoopState(stickers: seq<string>, count: nat, processed: set<int>, end: LoopEnd)

  predicate AllHaveIds(orders: seq<Order>)
  {
    forall j :: 0 <= j < |orders| ==> HasId(orders[j])
  }

  /**
   * The loop from order `i`: a cancellation seen before an order stops the
   * loop; files are appended to the stickers; `[]` adds nothing; `False`
   * or `None` cannot be appended to a list, and the loop crashes.
   */
  function RunOrders(orders: seq<Order>, envs: nat -> OrderEnv, cancelBefore: nat, i: nat, s: LoopState): LoopState
    requires i <= |orders| && AllHaveIds(orders) && forall j: nat :: Fits(envs(j))
    decreases |orders| - i
  {
    if i == |orders| then s
    else if cancelBefore <= i then s.(end := CancelSeen)
    else match OrderOutcome(orders[i], i, s.processed, envs(i))
      case Aborted => RunOrders(orders, envs, cancelBefore, i + 1, s)
      case Stickers(files) =>
        RunOrders(orders, envs, cancelBefore, i + 1,
          LoopState(s.stickers + files, s.count + 1, s.processed + {orders[i].id.value}, s.end))
      case _ => s.(end := BadResult)
  }

  /**
   * The orders from `i` on whose supply is made and filled before the loop
   * stops: in test mode each of them mints one confirmation ticket.
   */
  function SuppliesReady(orders: seq<Order>, envs: nat -> OrderEnv, cancelBefore: nat, i: nat, processed: set<int>): (n: nat)
    requires i <= |orders| && AllHaveIds(orders) && forall j: nat :: Fits(envs(j))
    ensures n <= |orders| - i
    decreases |orders| - i
  {
    if i == |orders| || cancelBefore <= i then 0
    else
      var ready := if SupplyReady(orders[i], processed, envs(i)) then 1 else 0;
      match OrderOutcome(orders[i], i, processed, envs(i))
      case Aborted => ready + SuppliesReady(orders, envs, cancelBefore, i + 1, processed)
      case Stickers(_) => ready + SuppliesReady(orders, envs, cancelBefore, i + 1, processed + {orders[i].id.value})
      case _ => ready
  }

  /** One step of `SuppliesReady`, by the outcome of order `i`. */
  lemma SuppliesStep(orders: seq<Order>, envs: nat -> OrderEnv, cancelBefore: nat, i: nat, processed: set<int>)
    requires i < |orders| && i < cancelBefore && AllHaveIds(orders) && forall j: nat :: Fits(envs(j))
    ensures var ready := if SupplyReady(orders[i], processed, envs(i)) then 1 else 0;
      var r := OrderOutcome(orders[i], i, processed, envs(i));
      SuppliesReady(orders, envs, cancelBefore, i, processed)
        == if r.Aborted? then ready + SuppliesReady(orders, envs, cancelBefore, i + 1, processed)
           else if r.Stickers? then ready + SuppliesReady(orders, envs, cancelBefore, i + 1, processed + {orders[i].id.value})
           else ready
  {
  }

  /** Every order that returned files had its supply made first: no fewer tickets than orders processed. */
  lemma {:induction false} SuppliesCoverOrders(orders: seq<Order>, envs: nat -> OrderEnv, cancelBefore: nat, i: nat, s: LoopState)
    requires i <= |orders| && AllHaveIds(orders) && forall j: nat :: Fits(envs(j))
    ensures RunOrders(orders, envs, cancelBefore, i, s).count - s.count <= SuppliesReady(orders, envs, cancelBefore, i, s.processed)
    decreases |orders| - i
  {
    if i < |orders| && i < cancelBefore {
      var o := orders[i];
      var r := OrderOutcome(o, i, s.processed, envs(i));
      if r.Aborted? {
        SuppliesCoverOrders(orders, envs, cancelBefore, i + 1, s);
      } else {
        OrderLateCancel(o, i, s.processed, envs(i));
        if r.Stickers? {
          var s' := LoopState(s.stickers + r.files, s.count + 1, s.processed + {o.id.value}, s.end);
          assert RunOrders(orders, envs, cancelBefore, i, s) == RunOrders(orders, envs, cancelBefore, i + 1, s');
          SuppliesCoverOrders(orders, envs, cancelBefore, i + 1, s');
        }
      }
    }
  }

  /**
   * The loop of `main_workflow` over the filtered orders. In test mode one
   * ticket is minted per order whose supply is made; tickets are never
   * dropped; outside test mode the store does not change.
   */
  method ProcessOrders(orders: seq<Order>, envs: nat -> OrderEnv, cancelBefore: nat, ledger: OrderLedger,
                       gate: ConfirmationGate, mode: Option<string>)
    returns (s: LoopState)
    requires AllHaveIds(orders) && (forall j: nat :: Fits(envs(j))) && gate.Valid()
    modifies ledger, gate
    ensures s == RunOrders(orders, envs, cancelBefore, 0, LoopState([], 0, old(ledger.processed), Finished))
    ensures ledger.processed == s.processed && gate.Valid()
    ensures gate.stepId == old(gate.stepId)
      + (if mode == Some(TestMode) then SuppliesReady(orders, envs, cancelBefore, 0, old(ledger.processed)) else 0)
    ensures Grows(old(gate.tickets), gate.tickets)
    ensures mode != Some(TestMode) ==> gate.tickets == old(gate.tickets)
  {
    s := LoopState([], 0, ledger.processed, Finished);
    var i := 0;
    while i < |orders|
      invariant 0 <= i <= |orders| && s.end == Finished
      invariant ledger.processed == s.processed && gate.Valid()
      invariant RunOrders(orders, envs, cancelBefore, 0, LoopState([], 0, old(ledger.processed), Finished))
        == RunOrders(orders, envs, cancelBefore, i, s)
      invariant old(gate.stepId) + (if mode == Some(TestMode) then SuppliesReady(orders, envs, cancelBefore, 0, old(ledger.processed)) else 0)
        == gate.stepId + (if mode == Some(TestMode) then SuppliesReady(orders, envs, cancelBefore, i, s.processed) else 0)
      invariant Grows(old(gate.tickets), gate.tickets)
      invariant mode != Some(TestMode) ==> gate.tickets == old(gate.tickets)
    {
      if cancelBefore <= i {
        s := s.(end := CancelSeen);
        return;
      }
      ghost var before := gate.tickets;
      SuppliesStep(orders, envs, cancelBefore, i, s.processed);
      var r := ProcessSingleOrder(orders[i], i, ledger, gate, mode, envs(i));
      GrowsTrans(old(gate.tickets), before, gate.tickets);
      if r.Stickers? {
        s := LoopState(s.stickers + r.files, s.count + 1, ledger.processed, Finished);
      } else if !r.Aborted? {
        s := s.(end := BadResult);
        return;
      }
      i := i + 1;
    }
  }

  /**
   * The ledger only grows, by exactly one new id for each order that
   * returned files, and the count never exceeds the orders.
   */
  lemma {:induction false} RunOrdersCount(orders: seq<Order>, envs: nat -> OrderEnv, cancelBefore: nat, i: nat, s: LoopState)
    requires i <= |orders| && AllHaveIds(orders) && forall j: nat :: Fits(envs(j))
    ensures var r := RunOrders(orders, envs, cancelBefore, i, s);
      && s.processed <= r.processed
      && r.count - s.count == |r.processed| - |s.processed|
      && s.count <= r.count <= s.count + (|orders| - i)
    decreases |orders| - i
  {
    if i < |orders| && i < cancelBefore {
      var o := orders[i];
      var r := OrderOutcome(o, i, s.processed, envs(i));
      if r.Aborted? {
        RunOrdersCount(orders, envs, cancelBefore, i + 1, s);
      } else if r.Stickers? {
        OrderStickers(o, i, s.processed, envs(i));
        var s' := LoopState(s.stickers + r.files, s.count + 1, s.processed + {o.id.value}, s.end);
        assert RunOrders(orders, envs, cancelBefore, i, s) == RunOrders(orders, envs, cancelBefore, i + 1, s');
        assert |s'.processed| == |s.processed| + 1;
        RunOrdersCount(orders, envs, cancelBefore, i + 1, s');
      }
    }
  }

  /** Every sticker the loop collects can be keyed by the merge. */
  lemma {:induction false} RunOrdersKeyed(orders: seq<Order>, envs: nat -> OrderEnv, cancelBefore: nat, i: nat, s: LoopState)
    requires i <= |orders| && AllHaveIds(orders) && forall j: nat :: Fits(envs(j))
    requires AllKeyed(s.stickers)
    ensures AllKeyed(RunOrders(orders, envs, cancelBefore, i, s).stickers)
    decreases |orders| - i
  {
    if i < |orders| && i < cancelBefore {
      var o := orders[i];
      var r := OrderOutcome(o, i, s.processed, envs(i));
      if r.Aborted? {
        RunOrdersKeyed(orders, envs, cancelBefore, i + 1, s);
      } else if r.Stickers? {
        OrderStickersKeyed(o, i, s.processed, envs(i));
        var all := s.stickers + r.files;
        forall k | 0 <= k < |all| ensures SortKey(all[k]).Some? {
          if k >= |s.stickers| {
            assert all[k] == r.files[k - |s.stickers|];
            assert all[k] in r.files;
          }
        }
        RunOrdersKeyed(orders, envs, cancelBefore, i + 1, LoopState(all, s.count + 1, s.processed + {o.id.value}, s.end));
      }
    }
  }

  /** The loop over the first `k` orders, when it finishes, is where the loop over all of them stands at order `k`. */
  lemma {:induction false} RunOrdersPrefix(orders: seq<Order>, envs: nat -> OrderEnv, cancelBefore: nat, k: nat, i: nat, s: LoopState)
    requires i <= k <= |orders| && AllHaveIds(orders) && forall j: nat :: Fits(envs(j))
    ensures var t := RunOrders(orders[..k], envs, cancelBefore, i, s);
      t.end == Finished ==> RunOrders(orders, envs, cancelBefore, i, s) == RunOrders(orders, envs, cancelBefore, k, t)
    decreases k - i
  {
    if i < k && i < cancelBefore {
      assert orders[..k][i] == orders[i];
      var o := orders[i];
      var r := OrderOutcome(o, i, s.processed, envs(i));
      if r.Aborted? {
        RunOrdersPrefix(orders, envs, cancelBefore, k, i + 1, s);
      } else if r.Stickers? {
        RunOrdersPrefix(orders, envs, cancelBefore, k, i + 1,
          LoopState(s.stickers + r.files, s.count + 1, s.processed + {o.id.value}, s.end));
      }
    }
  }

  /**
   * An order that answers `False` or `None` ends the run with the crash on
   * appending it: the ledger keeps what the orders before it added, and
   * nothing is sent.
   */
  lemma BadOrderFailsRun(env: WorkflowEnv, processed: set<int>, k: nat)
    requires WorkflowFits(env) && StartOutcome(env, processed).Go?
    requires k < |StartOutcome(env, processed).orders| && k < env.cancelBefore
    ensures var orders := StartOutcome(env, processed).orders;
      var t := RunOrders(orders[..k], env.orderEnv, env.cancelBefore, 0, LoopState([], 0, processed, Finished));
      var r := OrderOutcome(orders[k], k, t.processed, env.orderEnv(k));
      t.end == Finished && (r == Unconfirmed || r == NoFiles) ==> RunOutcome(env, processed) == (Failed(NotAList), t.processed)
  {
    var orders := StartOutcome(env, processed).orders;
    RunOrdersPrefix(orders, env.orderEnv, env.cancelBefore, k, 0, LoopState([], 0, processed, Finished));
  }

  // ---------------------------------------------------------------- after the loop

  /** The stems `DOWNLOADS_DIR.glob("*.pdf")` lists: the other files, then the merged document if one was written. */
  function Listing(env: WorkflowEnv, merged: bool): seq<string>
  {
    env.leftovers + (if merged then [MergedName] else [])
  }

  /** A stem of three parts is not an artifact name: `sort_key` gives it (999, 999). */
  lemma ThreePartsUnsplit(a: string, b: string, c: string)
    requires '_' !in a && '_' !in b && '_' !in c
    ensures SortKey(a + ['_'] + (b + ['_'] + c)) == Some(Unsplit)
  {
    SplitFirst(a, b + ['_'] + c, '_');
    SplitFirst(b, c, '_');
    SplitNone(c, '_');
  }

  /** The merged document's stem has three parts, so `sort_key` places it last. */
  lemma MergedNameSortsLast()
    ensures SortKey(MergedName) == Some(Unsplit)
  {
    var a, b, c := "все", "стикеры", "объединенные";
    assert MergedName == a + ['_'] + (b + ['_'] + c);
    ThreePartsUnsplit(a, b, c);
  }

  /** How the run itself (after the wait) ends. */
  datatype Crash = OrderWithoutId | NotAList | UnsortableFile
  datatype RunEnd = DesktopFailed | NoNewOrders | NothingNew | Interrupted | Failed(reason: Crash) | Reported(processed: nat, sent: nat)

  /** Where the steps before the order loop leave the run: stopped, or with the orders to process. */
  datatype Start = Stop(end: RunEnd) | Go(orders: seq<Order>)

  /**
   * The steps before the order loop: the desktop, the fetch and the filter.
   * The run goes on only with a non-empty list of orders that all carry an
   * id and are none of them in the ledger.
   */
  function StartOutcome(env: WorkflowEnv, processed: set<int>): (r: Start)
    requires |env.replies| >= ApiAttempts
    ensures r.Go? ==> r.orders != [] && AllHaveIds(r.orders)
    ensures r.Go? ==> forall o :: o in r.orders ==> o.id.value !in processed
  {
    var orders := Fetched(env.replies, 0);
    if !DesktopReady(env.desktop) then Stop(DesktopFailed)
    else if orders == [] then Stop(NoNewOrders)
    else match Unprocessed(orders, processed)
      case None => Stop(Failed(OrderWithoutId))
      case Some(pending) =>
        FreshHaveIds(orders, processed);
        UnprocessedMembers(orders, processed);
        if pending == [] then Stop(NothingNew) else Go(pending)
  }

  /**
   * The steps after the order loop: the merged document is written when
   * `merge_pdfs_by_order` succeeds, the directory is listed and sorted (a
   * stem of two parts that are not digit strings is fatal), and the files
   * are sent in batches; the report gives the orders processed and the
   * files sent.
   */
  function Finale(env: WorkflowEnv, s: LoopState): (r: RunEnd)
    requires |env.batchTries| > |env.leftovers|
    ensures r.Failed? || r.Reported?
    ensures r.Failed? ==> r.reason == UnsortableFile
    ensures r.Reported? ==> r.processed == s.count && r.sent <= |env.leftovers| + 1
  {
    var merged := MergedPages(s.stickers, (set f | f in s.stickers), env.coverMade).Some?;
    match SortStems(Listing(env, merged))
    case None => Failed(UnsortableFile)
    case Some(sorted) =>
      assert |sorted| == |Listing(env, merged)| by {
        assert |multiset(sorted)| == |multiset(Listing(env, merged))|;
      }
      var tries := env.batchTries[..|sorted|];
      Reported(s.count, |sorted| - |Unsent(sorted, tries)|)
  }

  /** The body of `main_workflow` after the wait: how it ends and the ledger it leaves. */
  function RunOutcome(env: WorkflowEnv, processed: set<int>): (RunEnd, set<int>)
    requires WorkflowFits(env)
  {
    match StartOutcome(env, processed)
    case Stop(end) => (end, processed)
    case Go(orders) =>
      var s := RunOrders(orders, env.orderEnv, env.cancelBefore, 0, LoopState([], 0, processed, Finished));
      if s.end == CancelSeen then (Interrupted, s.processed)
      else if s.end == BadResult then (Failed(NotAList), s.processed)
      else (Finale(env, s), s.processed)
  }

  /** The confirmations asked for on the desktop: none when minimising the windows failed. */
  function DesktopTickets(d: Desktop): (n: nat)
    ensures n <= 2
    ensures n == 0 <==> !d.minimized || d.chrome.Coordinates?
  {
    if d.minimized then ChromeConfirmations(d.chrome) else 0
  }

  /**
   * The confirmations a run in test mode asks for: those on the desktop, one
   * per order whose supply is made, and one before sending when the order
   * loop finished.
   */
  function RunTickets(env: WorkflowEnv, processed: set<int>): nat
    requires WorkflowFits(env)
  {
    DesktopTickets(env.desktop) +
    match StartOutcome(env, processed)
    case Stop(_) => 0
    case Go(orders) =>
      var s := RunOrders(orders, env.orderEnv, env.cancelBefore, 0, LoopState([], 0, processed, Finished));
      SuppliesReady(orders, env.orderEnv, env.cancelBefore, 0, processed) + (if s.end == Finished then 1 else 0)
  }

  /**
   * In test mode a run that reports asked for at least one confirmation per
   * order it processed and one before sending, and no run asks for more
   * than the desktop's two, one per fetched order and the last one.
   */
  lemma TicketsPerOrder(env: WorkflowEnv, processed: set<int>)
    requires WorkflowFits(env)
    ensures RunOutcome(env, processed).0.Reported? ==>
      RunTickets(env, processed) >= DesktopTickets(env.desktop) + RunOutcome(env, processed).0.processed + 1
    ensures StartOutcome(env, processed).Stop? ==> RunTickets(env, processed) == DesktopTickets(env.desktop)
    ensures RunTickets(env, processed) <= 3 + |Fetched(env.replies, 0)|
  {
    var st := StartOutcome(env, processed);
    if st.Go? {
      var orders := Fetched(env.replies, 0);
      var s0 := LoopState([], 0, processed, Finished);
      SuppliesCoverOrders(st.orders, env.orderEnv, env.cancelBefore, 0, s0);
    }
  }

  /** The filtered orders all carry an id. */
  lemma FreshHaveIds(orders: seq<Order>, processed: set<int>)
    requires Unprocessed(orders, processed).Some?
    ensures AllHaveIds(Unprocessed(orders, processed).value)
  {
    UnprocessedMembers(orders, processed);
    var pending := Unprocessed(orders, processed).value;
    forall j | 0 <= j < |pending| ensures HasId(pending[j]) {
      assert pending[j] in pending;
    }
  }

  /**
   * The desktop steps (with their confirmations in test mode), the fetch and
   * the filter. The ledger is only read.
   */
  method Prepare(env: WorkflowEnv, ledger: OrderLedger, gate: ConfirmationGate, mode: Option<string>) returns (st: Start)
    requires |env.replies| >= ApiAttempts && gate.Valid()
    modifies gate
    ensures st == StartOutcome(env, ledger.processed) && gate.Valid()
    ensures gate.stepId == old(gate.stepId) + (if mode == Some(TestMode) then DesktopTickets(env.desktop) else 0)
    ensures Grows(old(gate.tickets), gate.tickets)
    ensures mode != Some(TestMode) ==> gate.tickets == old(gate.tickets)
  {
    if !env.desktop.minimized {
      return Stop(DesktopFailed);
    }
    var n := 0;
    while n < ChromeConfirmations(env.desktop.chrome)
      invariant n <= ChromeConfirmations(env.desktop.chrome) && gate.Valid()
      invariant gate.stepId == old(gate.stepId) + (if mode == Some(TestMode) then n else 0)
      invariant Grows(old(gate.tickets), gate.tickets)
      invariant mode != Some(TestMode) ==> gate.tickets == old(gate.tickets)
    {
      ghost var before := gate.tickets;
      var _ := gate.WaitForConfirmation(mode);
      GrowsTrans(old(gate.tickets), before, gate.tickets);
      n := n + 1;
    }
    if !DesktopReady(env.desktop) {
      return Stop(DesktopFailed);
    }
    var orders := FetchOrders(env.replies);
    if orders == [] {
      return Stop(NoNewOrders);
    }
    var pending := ledger.FilterUnprocessed(orders);
    if pending.None? {
      return Stop(Failed(OrderWithoutId));
    }
    st := if pending.value == [] then Stop(NothingNew) else Go(pending.value);
  }

  /** The confirmation before sending (test mode), the merged document, and the batches. */
  method SendResults(env: WorkflowEnv, s: LoopState, gate: ConfirmationGate, mode: Option<string>) returns (end: RunEnd)
    requires |env.batchTries| > |env.leftovers| && |env.documentPosts| >= TelegramAttempts && gate.Valid()
    modifies gate
    ensures end == Finale(env, s) && gate.Valid()
    ensures gate.stepId == old(gate.stepId) + (if mode == Some(TestMode) then 1 else 0)
    ensures Grows(old(gate.tickets), gate.tickets)
    ensures mode != Some(TestMode) ==> gate.tickets == old(gate.tickets)
  {
    if mode == Some(TestMode) {
      var _ := gate.WaitForConfirmation(mode);
    }
    var pages := MergedPages(s.stickers, (set f | f in s.stickers), env.coverMade);
    if pages.Some? {
      var _, _, _ := PostWithRetry(env.documentPosts);
    }
    var listing := Listing(env, pages.Some?);
    var sorted := SortStems(listing);
    if sorted.None? {
      return Failed(UnsortableFile);
    }
    assert |multiset(sorted.value)| == |multiset(listing)|;
    var sent, _, _, _, _ := SendStickersInBatches(sorted.value, BatchSize, env.batchTries[..|sorted.value|]);
    end := Reported(s.count, sent);
  }

  /**
   * The body of `main_workflow` after the wait, with the mode read once the
   * wait is over.
   */
  method Run(env: WorkflowEnv, ledger: OrderLedger, gate: ConfirmationGate, mode: Option<string>) returns (end: RunEnd)
    requires WorkflowFits(env) && gate.Valid()
    modifies ledger, gate
    ensures (end, ledger.processed) == RunOutcome(env, old(ledger.processed))
    ensures gate.Valid()
    ensures gate.stepId == old(gate.stepId) + (if mode == Some(TestMode) then RunTickets(env, old(ledger.processed)) else 0)
    ensures Grows(old(gate.tickets), gate.tickets)
    ensures mode != Some(TestMode) ==> gate.tickets == old(gate.tickets)
  {
    var st := Prepare(env, ledger, gate, mode);
    ghost var afterPrepare := gate.tickets;
    if st.Stop? {
      return st.end;
    }
    var s := ProcessOrders(st.orders, env.orderEnv, env.cancelBefore, ledger, gate, mode);
    GrowsTrans(old(gate.tickets), afterPrepare, gate.tickets);
    ghost var afterOrders := gate.tickets;
    if s.end == CancelSeen {
      return Interrupted;
    }
    if s.end == BadResult {
      return Failed(NotAList);
    }
    end := SendResults(env, s, gate, mode);
    GrowsTrans(old(gate.tickets), afterOrders, gate.tickets);
  }

  /**
   * A run fails on an order without an id exactly when the desktop came up
   * and one of the fetched orders has none: the filter reads every id.
   */
  lemma MissingIdFails(env: WorkflowEnv, processed: set<int>)
    requires WorkflowFits(env)
    ensures RunOutcome(env, processed).0 == Failed(OrderWithoutId) ==> DesktopReady(env.desktop)
    ensures RunOutcome(env, processed).0 == Failed(OrderWithoutId) ==>
      exists i :: 0 <= i < |Fetched(env.replies, 0)| && !HasId(Fetched(env.replies, 0)[i])
    ensures DesktopReady(env.desktop) && (exists i :: 0 <= i < |Fetched(env.replies, 0)| && !HasId(Fetched(env.replies, 0)[i])) ==>
      RunOutcome(env, processed).0 == Failed(OrderWithoutId)
  {
    var orders := Fetched(env.replies, 0);
    UnprocessedFails(orders, processed);
    if DesktopReady(env.desktop) && Unprocessed(orders, processed).None? {
      assert orders != [];
      assert StartOutcome(env, processed) == Stop(Failed(OrderWithoutId));
    }
  }

  /**
   * The ledger only grows, and only past the filter; a reported run counts
   * exactly the orders it added to the ledger, and sends at most the files
   * it listed.
   */
  lemma ReportCounts(env: WorkflowEnv, processed: set<int>)
    requires WorkflowFits(env)
    ensures var (end, after) := RunOutcome(env, processed);
      && processed <= after
      && (StartOutcome(env, processed).Stop? ==> after == processed)
      && (end.Reported? ==> end.processed == |after| - |processed| && end.sent <= |env.leftovers| + 1)
  {
    var st := StartOutcome(env, processed);
    if st.Go? {
      var s0 := LoopState([], 0, processed, Finished);
      RunOrdersCount(st.orders, env.orderEnv, env.cancelBefore, 0, s0);
    }
  }

  /**
   * The merged document is written exactly when the orders returned some
   * stickers, and it carries each of them and nothing else.
   */
  lemma MergedHoldsStickers(orders: seq<Order>, envs: nat -> OrderEnv, cancelBefore: nat, processed: set<int>, coverMade: bool)
    requires AllHaveIds(orders) && forall j: nat :: Fits(envs(j))
    ensures var s := RunOrders(orders, envs, cancelBefore, 0, LoopState([], 0, processed, Finished));
      var r := MergedPages(s.stickers, (set f | f in s.stickers), coverMade);
      && (r.Some? <==> s.stickers != [])
      && (r.Some? ==> forall f :: Sticker(f) in r.value <==> f in s.stickers)
  {
    var s := RunOrders(orders, envs, cancelBefore, 0, LoopState([], 0, processed, Finished));
    RunOrdersKeyed(orders, envs, cancelBefore, 0, LoopState([], 0, processed, Finished));
    if s.stickers != [] {
      MergedPagesContents(s.stickers, (set f | f in s.stickers), coverMade);
      assert s.stickers[0] in s.stickers;
    }
  }

  /** How `main_workflow` ends: still waiting for a mode, cancelled before it started, or after running. */
  datatype WorkflowEnd = Waiting | CancelledAtStart | Ran(end: RunEnd, mode: Option<string>)

  /**
   * `main_workflow`. Every path that leaves the function clears the run
   * flags; a run still waiting for a mode has changed nothing but the flags.
   */
  method MainWorkflow(env: WorkflowEnv, rc: RunController, ledger: OrderLedger, gate: ConfirmationGate)
    returns (end: WorkflowEnd)
    requires WorkflowFits(env) && rc.Valid() && gate.Valid()
    modifies rc, ledger, gate
    ensures rc.Valid() && gate.Valid()
    ensures end.Waiting? ==> unchanged(rc) && rc.runLock && !rc.confirmed && !rc.processCancelled
    ensures !end.Waiting? ==> rc.Idle()
    ensures end.Waiting? || end.CancelledAtStart? ==> unchanged(ledger) && unchanged(gate)
    ensures end.Ran? ==> (end.end, ledger.processed) == RunOutcome(env, old(ledger.processed))
    ensures end.Ran? ==>
      gate.stepId == old(gate.stepId) + (if end.mode == Some(TestMode) then RunTickets(env, old(ledger.processed)) else 0)
    ensures Grows(old(gate.tickets), gate.tickets)
    ensures end.Ran? && end.mode != Some(TestMode) ==> gate.tickets == old(gate.tickets)
  {
    var wait := rc.AwaitStart(env.events);
    if wait == WaitEnd.StillWaiting {
      return Waiting;
    }
    if wait == Cancelled {
      rc.Finish();
      return CancelledAtStart;
    }
    var mode := rc.currentMode;
    var r := Run(env, ledger, gate, mode);
    rc.Finish();
    end := Ran(r, mode);
  }
}
