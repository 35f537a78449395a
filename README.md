# Wildberries sticker agent: the orchestration core in Dafny

`wb_agent.py` is a desktop agent for a Wildberries seller. It is driven from a
Telegram group and a Telegram mini-app. On `/process` (or a start from the
mini-app) it waits for a mode ("test" or "production"), brings the seller's page
up in Chrome, fetches the new orders from the marketplace API, and processes
each order that is not yet in its ledger. For each such order it creates a
supply, finds the create-box button, downloads the box sticker and one sticker
per item, and hands the supply over to delivery. It then merges the stickers
into one PDF, sends it, sends every PDF of the downloads directory in batches of
five, and reports.

This project models that core. The screen, the HTTP services, the clock and the
disk are abstract inputs: the outcome each step gets. Over those inputs the
model states, and proves, what the script does.

- `wrappers.dfy` (`Wrappers`): `Option`.
- `text.dfy` (`Text`): the string operations the script relies on.
  - `int()` and `str.isdigit` over ASCII digit strings, and `str(n)`.
  - `split`, `strip`, `replace(pat, "")` and `startswith`.
  - The bot-mention strip, and the digit/underscore filter of `type_slowly_numbers`.
- `token.dfy` (`TokenCheck`): the days-left classification of the Wildberries token, and the token-prefix check.
- `retry.dfy` (`Retry`): the bounded retry loops.
  - The four `WBApiClient` calls.
  - The two Telegram senders.
- `confirmation.dfy` (`Confirmation`): the confirmation tickets of test mode (class `ConfirmationGate`).
- `ledger.dfy` (`Ledger`): the processed-order ledger `PROCESSED_ORDERS` (class `OrderLedger`) and its filter.
- `ordering.dfy` (`Ordering`): artifact names, `sort_key`, the stable sort, and the page order of the merged PDF.
- `batches.dfy` (`Batches`): `send_stickers_in_batches`.
- `access.dfy` (`Access`): who may drive the agent.
  - `AUTHORIZED_USERS` and its file, with `/allow` and `/deny` (class `AccessControl`).
  - The settings-access request map (class `SettingsAccess`).
- `runcontrol.dfy` (`RunControl`): the run flags (class `RunController`).
  - The flags are `RUN_LOCK`, `CONFIRMED`, `PROCESS_CANCELLED`, `STOP_CURRENT_TASK` and `CURRENT_MODE`.
  - Each handler that changes them is a method.
- `pipeline.dfy` (`Pipeline`): `process_single_order` as a decision procedure over an `OrderEnv` of step outcomes.
- `workflow.dfy` (`Workflow`): `main_workflow`.

How cancellation is modelled:
- `PROCESS_CANCELLED` is set by another thread. Inside one order, the cancellation checks are numbered in the order they run.
- The first check that sees the flag is `cancelAt`; every later check sees it too.
- In the order loop of `main_workflow`, the first order position that sees the flag is `cancelBefore`.

All paths in the Source column are files of the repository; line numbers are those of `wb_agent.py`.

## Model

| member | source | states |
|---|---|---|
| Text.DigitChar | wb_agent.py:186 | the digit written for a value below ten is a digit and reads back as that value |
| Text.ParseNat | wb_agent.py:1359-1360 | `int(s)` succeeds exactly on non-empty ASCII digit strings |
| Text.NatToString | wb_agent.py:1195 | `str(n)` is a digit string without a leading zero |
| Text.ParseNatToString | wb_agent.py:1359-1360 | `int(str(n)) == n` for every natural `n` |
| Text.NatToStringInjective | wb_agent.py:1226 | different numbers print differently |
| Text.IndexOf | wb_agent.py:1357 | the index of the first separator: no separator before it, the separator at it, or the length when there is none |
| Text.Split | wb_agent.py:1357 | `str.split(sep)` always yields at least one part |
| Text.SplitHead | wb_agent.py:2236 | the first part runs up to the first separator; there is one part exactly when the separator is absent |
| Text.SplitRest | wb_agent.py:2236 | the parts after the first are the split of the text after the first separator |
| Text.JoinSplit | wb_agent.py:1357 | joining the parts with the separator gives the text back |
| Text.SplitNone | wb_agent.py:1357 | a text without the separator is its own single part |
| Text.SplitFirst | wb_agent.py:1357 | `(a + sep + b).split(sep)` is `[a]` followed by the parts of `b` when `a` holds no separator |
| Text.SplitAround | wb_agent.py:1357-1358 | a text with exactly one separator splits into its two sides |
| Text.StripLeft | wb_agent.py:134 | `lstrip()` never lengthens and leaves no leading whitespace (its kept suffix: `Text.StripLeftSuffix`) |
| Text.StripLeftSuffix | wb_agent.py:134 | `lstrip()` keeps a suffix of the text, and everything it drops is whitespace |
| Text.StripRight | wb_agent.py:134 | `rstrip()` leaves a prefix of the text with no trailing whitespace |
| Text.StripRightPrefix | wb_agent.py:134 | everything `rstrip()` drops is whitespace |
| Text.Strip | wb_agent.py:134 | `strip()` leaves no whitespace at either end (its position in the text: `Text.StripInfix`) |
| Text.StripInfix | wb_agent.py:134 | `strip()` keeps an infix of the text with only whitespace before and after it |
| Text.StripUntrimmed | wb_agent.py:739 | a text without surrounding whitespace is unchanged by `strip()` |
| Text.StripNumeralLine | wb_agent.py:133-136 | a numeral followed by a newline, as read from the file, strips to the numeral |
| Text.RemoveAll | wb_agent.py:1945 | `replace(pat, "")` never lengthens the text (what it keeps: `Text.RemoveAllFirst`) |
| Text.RemoveAllStep | wb_agent.py:1945 | one step of the left-to-right scan: an occurrence at the front is dropped whole, any other first character is kept |
| Text.RemoveAllFirst | wb_agent.py:1945 | `replace(pat, "")` keeps the text before the first occurrence, drops that occurrence, and goes on with the text after it |
| Text.RemoveAllAbsent | wb_agent.py:1945 | removing a pattern that does not occur changes nothing |
| Text.StripPrefixRoundTrip | wb_agent.py:1945 | `(pat + key).replace(pat, "")` is `key` when `key` holds no copy of `pat` |
| Text.AbsentFirstChar | wb_agent.py:1945 | a pattern cannot occur where its first character is absent |
| Text.StripMention | wb_agent.py:2051-2052 | the command before the first '@': an '@'-free prefix of the text, the whole text when it has no '@' |
| Text.Typed | wb_agent.py:688-693 | `type_slowly_numbers` types only digits and '_', never more characters than given |
| Text.TypedAppend | wb_agent.py:688-693 | typing a concatenation types each part in turn |
| Text.TypedExactly | wb_agent.py:688-693 | a text is typed unchanged exactly when it is made of digits and '_' |
| TokenCheck.Classify | wb_agent.py:339-348 | expired iff at most 0 days are left, expiring soon iff 1 to 5, valid iff more than 5 |
| TokenCheck.ClassifyMonotone | wb_agent.py:339-348 | fewer days left is never less urgent |
| TokenCheck.AlertsChat | wb_agent.py:339-348 | the expiry check messages the chat exactly when at most five days are left |
| TokenCheck.ReportLine | wb_agent.py:1490-1496 | the report has a token line exactly when the expiry check returned a day count, and the line's class follows the count |
| TokenCheck.AcceptToken | wb_agent.py:1994-2001 | a typed token is taken exactly when it starts with `eyJhbGci` |
| Retry.Pow2 | wb_agent.py:455 | the backoff `2 ** attempt` is at least one second |
| Retry.WaitsStep | wb_agent.py:903-935 | one more attempt appends its own delays to the delays so far |
| Retry.OrdersWait | wb_agent.py:915-933 | each attempt of `get_new_orders` asks for at most one sleep |
| Retry.GetNewOrders | wb_agent.py:901-937 | at most three attempts; the orders of the first 200 answer, every earlier attempt failed; `[]` only after three failures; the delays are those of the attempts made |
| Retry.OrdersAllThrottled | wb_agent.py:918-921 | three 429 answers wait 30 seconds each, the last one included |
| Retry.OrdersTimeoutThenOk | wb_agent.py:926-929 | a timeout followed by a 200 waits 15 seconds once |
| Retry.OrdersWaitsBounded | wb_agent.py:915-933 | every delay of `get_new_orders` is between 10 and 30 seconds |
| Retry.CallWait | wb_agent.py:953-962 | each failed supply call asks for at most one sleep |
| Retry.CallWithRetry | wb_agent.py:940-1002 | at most three attempts; the value of the first attempt that returns, every earlier attempt failed; nothing only after three failures |
| Retry.CreateSupply | wb_agent.py:940-963 | a supply id exactly when one of the three attempts returns, and then it is that attempt's id |
| Retry.PatchSupply | wb_agent.py:966-1002 | adding orders and delivering succeed exactly when one of the three attempts gets any response, whatever its status |
| Retry.CallAllFail | wb_agent.py:953-963 | three failures wait 10 and 20 seconds and nothing after the third |
| Retry.CallWaitsTotal | wb_agent.py:953-963 | at most one wait per attempt, and at most two in all |
| Retry.PostWait | wb_agent.py:452-455 | each Telegram attempt asks for at most one sleep |
| Retry.OrdersOk | wb_agent.py:913 | an attempt is good exactly when it answered 200 |
| Retry.Delivered | wb_agent.py:449 | a post is good exactly when it answered 200 |
| Retry.PostWithRetry | wb_agent.py:496-521 | at most five attempts; true exactly when the last attempt made answered 200, every earlier one failed; false only after five |
| Retry.SendTelegramMessage | wb_agent.py:425-460 | an important-only message is dropped in production mode without any attempt; otherwise it is posted with retries |
| Retry.PostAllRaise | wb_agent.py:452-455 | five exceptions wait 1, 2, 4 and 8 seconds and nothing after the fifth |
| Retry.PostStatusesNoWait | wb_agent.py:449-451 | answers other than 200 are retried at once, without a wait |
| Confirmation.StepNumber | wb_agent.py:373 | a ticket number is read only from a key `step_` followed by digits |
| Confirmation.StepNumberOfKey | wb_agent.py:373 | the key of ticket `n` reads back as `n` |
| Confirmation.StepKeyInjective | wb_agent.py:372-374 | tickets of different numbers have different keys, so no key is reused |
| Confirmation.ConfirmedKey | wb_agent.py:1944-1946 | the key read from callback data is never longer than the data |
| Confirmation.ConfirmRoundTrip | wb_agent.py:371-380 | the confirm button of ticket `n` names ticket `n` again |
| Confirmation.ConfirmationGate.constructor | wb_agent.py:357-358 | no tickets, counter at zero |
| Confirmation.GrowsTrans | wb_agent.py:361-404 | a ticket store that only gains unset tickets, twice over, has only gained unset tickets |
| Confirmation.ConfirmationGate.NextKeyFresh | wb_agent.py:372-374 | the next key to be minted is not stored yet |
| Confirmation.ConfirmationGate.WaitForConfirmation | wb_agent.py:361-404 | always true; outside test mode nothing changes; in test mode the counter moves on by one and a fresh, unset ticket is stored under the new key, and no ticket is ever removed |
| Confirmation.ConfirmationGate.ConfirmStep | wb_agent.py:418-421 | sets the ticket of a stored key; an absent key changes nothing |
| Confirmation.ConfirmationGate.ConfirmCallback | wb_agent.py:1944-1947 | the key is read back from the callback data and confirmed as `confirm_step` does |
| Confirmation.ConfirmLatest | wb_agent.py:371-380 | a test-mode ticket and a press of its own button set exactly that new ticket |
| Ledger.HasId | wb_agent.py:2166 | an order can be filtered only when it carries an id |
| Ledger.Unprocessed | wb_agent.py:2164-2170 | the filter never lengthens the list |
| Ledger.UnprocessedSnoc | wb_agent.py:2165-2170 | one more order is kept or dropped on its own, after the others |
| Ledger.UnprocessedFails | wb_agent.py:2166 | the filter raises exactly when some order has no id |
| Ledger.UnprocessedMembers | wb_agent.py:2167-2170 | the kept orders are exactly the listed orders whose id is not in the ledger |
| Ledger.UnprocessedAppend | wb_agent.py:2164-2170 | the filter keeps the listed order: it distributes over concatenation |
| Ledger.UnprocessedIdempotent | wb_agent.py:2164-2170 | filtering again against the same ledger changes nothing |
| Ledger.UnprocessedEmptyLedger | wb_agent.py:2164-2170 | against an empty ledger every order is kept |
| Ledger.OrderLedger.constructor | wb_agent.py:81 | the ledger starts empty |
| Ledger.OrderLedger.FilterUnprocessed | wb_agent.py:2164-2170 | the filtering loop computes the filter |
| Ledger.OrderLedger.Record | wb_agent.py:1305 | adding an id only grows the ledger, by that id |
| Ordering.SortKey | wb_agent.py:1355-1362 | a stem without exactly two '_' parts has key (999, 999); one with two parts has a key exactly when both are digit strings |
| Ordering.SortKeyOfName | wb_agent.py:1355-1362 | `sort_key` reads back the (order, sub) pair an artifact was named after |
| Ordering.ArtifactNameInjective | wb_agent.py:1195-1226 | distinct (order, sub) pairs name distinct files |
| Ordering.TypedArtifactName | wb_agent.py:739-748 | an artifact name survives `strip()` and the digit/underscore filter unchanged |
| Ordering.Insert | wb_agent.py:1364 | insertion adds exactly the element |
| Ordering.SortedCons | wb_agent.py:1364 | a head no larger than a sorted tail gives a sorted sequence |
| Ordering.SortedUncons | wb_agent.py:1364 | the tail of a sorted sequence is sorted and bounded by the head |
| Ordering.InsertAtLeast | wb_agent.py:1364 | insertion keeps a lower bound on the keys |
| Ordering.InsertSorted | wb_agent.py:1364 | insertion keeps a sorted sequence sorted |
| Ordering.InsertWithKey | wb_agent.py:1364 | insertion goes after the elements of an equal key |
| Ordering.SortBy | wb_agent.py:1364 | the sort is a permutation |
| Ordering.SortBySorted | wb_agent.py:1364 | the sort is ascending in the key |
| Ordering.SortByStable | wb_agent.py:1364 | the sort is stable: elements of equal key keep their order |
| Ordering.SortStems | wb_agent.py:2241 | the sort raises exactly when some stem's key raises; otherwise it is a permutation of the stems |
| Ordering.SortStemsOrdered | wb_agent.py:1364 | with every key defined, the sort succeeds, ascends in the key and is stable |
| Ordering.SortTwoBy | wb_agent.py:1364 | two stems out of order are swapped |
| Ordering.InsertLastOfTwo | wb_agent.py:1364 | a stem of the largest key goes last |
| Ordering.SortThreeBy | wb_agent.py:1364 | three stems in descending key order come out reversed |
| Ordering.SortThree | wb_agent.py:1364 | the same, for keys read by `sort_key` |
| Ordering.SortExample | wb_agent.py:1355-1364 | `2_1, 1_2, 1_1` sorts to `1_1, 1_2, 2_1` |
| Ordering.Present | wb_agent.py:1383 | the existing files are exactly the given files that exist |
| Ordering.PresentSorted | wb_agent.py:1382-1383 | skipping missing files keeps the rest in key order |
| Ordering.StickerPages | wb_agent.py:1382-1391 | one sticker entry per file, in order |
| Ordering.MergedPages | wb_agent.py:1347-1415 | no merge without stickers or with a stem `sort_key` rejects; a merged document is never empty and starts with the cover exactly when one was made |
| Ordering.StickerPagesHold | wb_agent.py:1382-1391 | the sticker pages name exactly the given files |
| Ordering.PagesOf | wb_agent.py:1373-1391 | the pages hold the cover when made and exactly the existing files |
| Ordering.MergedPagesContents | wb_agent.py:1347-1415 | with keyed stickers, a document is written exactly when there is a cover or an existing file, and it holds exactly the existing files |
| Ordering.MergedPagesOrdered | wb_agent.py:1364-1391 | after the optional cover, the pages are the existing files in ascending key order |
| Batches.SlicesFlatten | wb_agent.py:1425-1426 | the batches, put back together, are the files in their order |
| Batches.SlicesShape | wb_agent.py:1425-1426 | every batch but the last is full, the last holds 1 to `batch_size` files, and there are no batches exactly when there are no files |
| Batches.SlicesCount | wb_agent.py:1428 | the number of batches is `(total + batch_size - 1) // batch_size` |
| Batches.SevenInBatchesOfFive | wb_agent.py:1425-1428 | seven files go out as a batch of five and a batch of two |
| Batches.SendFile | wb_agent.py:1436-1452 | a file is sent exactly when one of its three attempts delivers it; it stops at the first delivery; the delays are `2 ** attempt` after a raising attempt but the last |
| Batches.UnsentUpTo | wb_agent.py:1454-1455 | no more files unsent than files looked at |
| Batches.UnsentNone | wb_agent.py:1463-1473 | when every file goes out, none is reported unsent |
| Batches.UnsentFailure | wb_agent.py:1454-1455 | a file that failed all its attempts is reported after the earlier failures |
| Batches.SendBatch | wb_agent.py:1433-1458 | a batch sends each of its files in turn; sent and unsent files add up to the batch |
| Batches.SendStickersInBatches | wb_agent.py:1418-1473 | the batches are the slices; the count sent is the total less the unsent files; each batch's count fits the batch and they add up; the shortfall warning is sent exactly when not all went out |
| Batches.ThirdFileFails | wb_agent.py:1418-1473 | with seven files where only the third fails, exactly that file is unsent |
| Access.LoadedId | wb_agent.py:133-136 | a line contributes an id exactly when its stripped text is a digit string |
| Access.Collect | wb_agent.py:131-136 | the loaded ids are natural numbers, at most one per line |
| Access.CollectLines | wb_agent.py:131-136 | an id is loaded exactly when some line reads as it |
| Access.IdLine | wb_agent.py:186 | the appended line is the id and a newline |
| Access.IdLineLoads | wb_agent.py:130-136 | an appended line loads back as its id |
| Access.AppendLine | wb_agent.py:185-186 | writing to the end of a file: a line of its own when the file ends in a newline, otherwise joined to the unterminated last line; a file with only its last line unterminated is terminated once a terminated line is appended |
| Access.AllowPersists | wb_agent.py:182-188 | on a file whose lines all end in a newline, after `/allow` reloading yields the old ids and the new one |
| Access.AllowJoinsLastLine | wb_agent.py:182-188 | on a file whose last line has no newline, `/allow` joins its id to that line: the reload sees the joined line instead of both |
| Access.AllowAfterUnterminated | wb_agent.py:182-188 | a file holding `5` with no newline reloads as {57} after `/allow 7` |
| Access.Filter | wb_agent.py:198-201 | the rewritten file keeps only accepted lines, in order |
| Access.FilterTerminated | wb_agent.py:198-201 | rewriting a file whose lines all end in a newline keeps them so |
| Access.FilterWellSplit | wb_agent.py:198-201 | rewriting keeps every line but the last ending in a newline |
| Access.CollectFilter | wb_agent.py:198-201 | dropping lines that read as `id` loses no other id and gains none |
| Access.CollectFilterSurvivor | wb_agent.py:198-201 | `id` survives exactly when a kept line reads as it |
| Access.DenyPersists | wb_agent.py:192-205 | after `/deny`, reloading yields no new id, every old id but the denied one, and the denied one exactly when a line spells it other than in plain decimal |
| Access.DenyKeepsPadded | wb_agent.py:200 | a line `007` survives `/deny 7` and still authorizes user 7 |
| Access.SpaceIndex | wb_agent.py:2010 | the first word ends at the first whitespace |
| Access.SplitOnce | wb_agent.py:2010 | `split(maxsplit=1)` yields at most two parts |
| Access.SplitOnceWord | wb_agent.py:2010 | a word, a space and more text split into the word and the rest |
| Access.ParseAccessCommand | wb_agent.py:2009-2035 | a message is an access command exactly when it starts with `/allow ` or `/deny ` |
| Access.ParseAccessCommandWord | wb_agent.py:2009-2020 | after the command word, the id is `int()` of the rest |
| Access.AccessCommandNeverMalformed | wb_agent.py:2009-2035 | once the message is stripped, the "wrong format" and "unknown command" answers are never given |
| Access.AllowRoundTrip | wb_agent.py:2020-2023 | `/allow N` names user `N` |
| Access.DenyRoundTrip | wb_agent.py:2027-2030 | `/deny N` names user `N` |
| Access.NumeralAfterWord | wb_agent.py:2010-2018 | a numeral after the command word is the argument |
| Access.ParsePaddedSeven | wb_agent.py:2018 | `int("007")` is 7 |
| Access.DenyPaddedId | wb_agent.py:2018-2030 | `/deny 007` denies user 7 |
| Access.AccessControl.Load | wb_agent.py:130-136 | the set is the ids of the digit-only lines plus the admin |
| Access.AccessControl.Allow | wb_agent.py:182-188 | `N` joins the set, its line is appended to the file as the file stands, and `N` is allowed; a file with only its last line unterminated ends with every line terminated |
| Access.AccessControl.Deny | wb_agent.py:192-205 | `N` leaves the set, its decimal lines leave the file, and `N` stays allowed only as the admin; the rewrite keeps the file's line termination |
| Access.AccessControl.ApplyAccessCommand | wb_agent.py:2009-2035 | allow and deny change the set and the file; the error answers change neither |
| Access.ReadSettingsAnswer | wb_agent.py:1676-1720 | an answer is read exactly from data starting with either prefix, and its session is shorter than the data |
| Access.AnswerData | wb_agent.py:1640-1648 | each button's data starts with its prefix |
| Access.SettingsAnswerRoundTrip | wb_agent.py:1638-1650 | a button names its own session when the session holds no copy of its prefix |
| Access.SettingsAnswerMisread | wb_agent.py:1677 | a session id holding the prefix is misread |
| Access.SettingsAccess.constructor | wb_agent.py:88 | no pending request |
| Access.SettingsAccess.Request | wb_agent.py:1635 | the session is recorded, replacing an earlier request for it |
| Access.SettingsAccess.Resolve | wb_agent.py:1673-1752 | an answer for a pending session reaches its user and deletes the request; anything else changes nothing |
| Access.RequestThenAnswer | wb_agent.py:1673-1752 | a request answered by its own button reaches the user who asked and is then gone |
| RunControl.RunController.constructor | wb_agent.py:74-79 | the flags start idle, with no mode |
| RunControl.RunController.StartFromMiniApp | wb_agent.py:1815-1837 | accepted exactly for an allowed user while unlocked; refused with no change; accepted sets the mode (default "test"), confirmed, not cancelled, locked, and starts a workflow |
| RunControl.RunController.CancelFromMiniApp | wb_agent.py:1850-1852 | an allowed user raises only the cancel flag; the lock stays |
| RunControl.RunController.Process | wb_agent.py:2044-2062 | accepted exactly for an allowed user whose command is `/process` while unlocked; accepted locks and clears confirmed, cancelled and the mode |
| RunControl.RunController.SelectMode | wb_agent.py:1925-1937 | the mode is set, confirmed, not cancelled, a workflow started; the lock is neither checked nor changed |
| RunControl.RunController.CancelButton | wb_agent.py:1939-1942 | cancelled and unlocked at once |
| RunControl.RunController.Apply | wb_agent.py:1925-1942 | each event's whole effect: a mode button sets that mode, confirms, clears the cancel flag and starts a workflow, leaving the lock and the stop flag; the cancel button cancels and unlocks and changes nothing else; a mini-app cancel raises only the cancel flag; any other event changes nothing |
| RunControl.RunController.AwaitStart | wb_agent.py:2109-2114 | the wait ends cancelled exactly when the cancel flag is up; it proceeds only when confirmed or unlocked; while it waits nothing changes |
| RunControl.RunController.Finish | wb_agent.py:2252-2257 | every flag is cleared and the mode forgotten |
| RunControl.StartTwice | wb_agent.py:1821-1831 | a second start from the mini-app while the first holds the lock is refused |
| RunControl.ProcessThenSelect | wb_agent.py:2055-2062 | `/process` and a mode button leave a locked, confirmed run in that mode |
| Pipeline.ItemCount | wb_agent.py:1048 | a missing quantity is one item, a quantity of at most 0 none, a positive quantity that many |
| Pipeline.SearchBox | wb_agent.py:1105-1121 | a found button is at an attempt that found it, with the checkpoints counted |
| Pipeline.SearchBoxFirst | wb_agent.py:1105-1177 | the first hit is taken; the search fails only after five uncancelled misses; uncancelled, it succeeds exactly when some attempt hits |
| Pipeline.FindCreateBox | wb_agent.py:1101-1164 | the loop computes the search; attempts from the fourth on use the slow timeout 12, earlier ones 8 |
| Pipeline.MissingBoxTimeouts | wb_agent.py:1109-1119 | five misses wait 8, 8, 8, 12 and 12 seconds |
| Pipeline.ItemNameInjective | wb_agent.py:1225-1226 | different items of one order have different stickers |
| Pipeline.ItemsFrom | wb_agent.py:1221-1260 | the item loop only appends, at most one file per item |
| Pipeline.DownloadItems | wb_agent.py:1218-1260 | the loop computes the item run from the box sticker on |
| Pipeline.Complete | wb_agent.py:1236-1260 | an item is saved exactly when its three steps succeed |
| Pipeline.Succeeded | wb_agent.py:1221-1260 | at most one sticker per item |
| Pipeline.ItemsUncancelled | wb_agent.py:1221-1260 | uncancelled, and unless the first menu is missing, the loop downloads exactly the stickers of the complete items, in item order |
| Pipeline.ItemsNamed | wb_agent.py:1221-1260 | every file the loop adds is the sticker of a complete item |
| Pipeline.SucceededMembers | wb_agent.py:1221-1260 | item `j`'s sticker is saved exactly when `j` is in range and its steps succeed |
| Pipeline.SucceededNamed | wb_agent.py:1226 | every saved item sticker names an item in range |
| Pipeline.Deliver | wb_agent.py:1265-1287 | a working API hands over; otherwise aborted exactly when the deliver button is missing or the next checkpoint cancels, `False` exactly when the confirm button is found and no success message appears, and a missing confirm button is let through one checkpoint later |
| Pipeline.ProcessSingleOrder | wb_agent.py:1040-1309 | the result is the order's outcome; the ledger gains the id exactly when files are returned; a ticket is minted in test mode once the supply exists; no ticket is removed, and outside test mode the tickets do not change |
| Pipeline.AfterBox | wb_agent.py:1181-1306 | the rest of the order after the box search, with the ledger update |
| Pipeline.PresentAll | wb_agent.py:1303 | when every download was saved, the existing files are the downloads, in order |
| Pipeline.AtDelivery | wb_agent.py:1043-1264 | an order that reaches the hand-over has its supply, and its downloads start with the box sticker |
| Pipeline.HandOver | wb_agent.py:1301-1306 | after an uncancelled hand-over the answer is `None` or a non-empty list of files |
| Pipeline.OrderBeforeDelivery | wb_agent.py:1043-1263 | an order that stops before the hand-over returns `[]` |
| Pipeline.OrderAtDelivery | wb_agent.py:1265-1306 | from the hand-over on, the answer depends only on the delivery and the saved files |
| Pipeline.OrderLateCancel | wb_agent.py:1043-1193 | any answer but `[]` means the supply, the two screens and the box search got through, and no cancellation up to the tenth checkpoint |
| Pipeline.OrderBoxNeverFound | wb_agent.py:1166-1177 | five misses of the create-box button abort the order |
| Pipeline.OrderStickers | wb_agent.py:1303-1306 | returned files are non-empty, saved, and the box sticker or complete items' stickers; the order was not in the ledger |
| Pipeline.OrderNoFiles | wb_agent.py:1303-1306 | `None` is returned only when not even the box sticker was saved |
| Pipeline.OrderNoFilesExactly | wb_agent.py:1265-1306 | `None` exactly when the order is handed over, no checkpoint after cancels, and none of its downloads was saved |
| Pipeline.OrderUnconfirmed | wb_agent.py:1265-1282 | `False` is returned only when the API failed and the UI hand-over showed no success |
| Pipeline.OrderUnconfirmedExactly | wb_agent.py:1265-1282 | `False` exactly when the order reaches the hand-over, all three API attempts fail, the deliver button is found, the next checkpoint does not cancel, the confirm button is found and no success message appears |
| Pipeline.OrderNoDeliverButton | wb_agent.py:1268-1290 | without the deliver button, an order whose API hand-over failed returns `[]` |
| Pipeline.OrderNoConfirmButton | wb_agent.py:1272-1306 | a missing confirm button is let through: the order returns its saved files or `None`, unless the next checkpoint cancels |
| Pipeline.OrderHappyPath | wb_agent.py:1040-1306 | with no cancellation, every screen found at first sight, the API working and the downloads saved, the result is the box sticker followed by the complete items' stickers |
| Pipeline.OrderStickersKeyed | wb_agent.py:1355-1362 | every returned file has a key, and its first component is the order's position |
| Pipeline.StickerNamesKeyed | wb_agent.py:1355-1362 | the box sticker and the item stickers of an order all have a key whose first component is its position |
| Workflow.ChromeConfirmations | wb_agent.py:2128-2152 | at most two confirmations; none exactly when the browser is started by coordinates |
| Workflow.FetchedSkips | wb_agent.py:2158 | failed attempts do not change which orders are fetched |
| Workflow.FetchOrders | wb_agent.py:2157-2158 | the retry loop returns exactly the orders of the first good answer |
| Workflow.SuppliesReady | wb_agent.py:2187-2207 | no more supplies are made than orders remain |
| Workflow.SuppliesCoverOrders | wb_agent.py:2187-2207 | every order that returned files had its supply made first: at least one ticket per processed order |
| Workflow.ProcessOrders | wb_agent.py:2185-2210 | the order loop computes the run over the orders and the ledger is the loop's; in test mode the ticket counter moves on by one per order whose supply was made; no ticket is removed, and outside test mode the tickets do not change |
| Workflow.RunOrdersCount | wb_agent.py:2189-2210 | the ledger only grows, by one new id per order that returned files, and the count is that growth |
| Workflow.RunOrdersKeyed | wb_agent.py:1355-1364 | every collected sticker has a sort key |
| Workflow.RunOrdersPrefix | wb_agent.py:2187-2210 | the loop over the first `k` orders, when it finishes, is where the whole loop stands at order `k` |
| Workflow.BadOrderFailsRun | wb_agent.py:2189-2207 | an order answering `False` or `None` ends the run with the crash on `extend`, and the ledger keeps only what the earlier orders added |
| Workflow.ThreePartsUnsplit | wb_agent.py:2234-2239 | a stem of three parts has key (999, 999) |
| Workflow.MergedNameSortsLast | wb_agent.py:2232-2241 | the merged document's stem has key (999, 999) and so cannot make the final sort raise |
| Workflow.StartOutcome | wb_agent.py:2124-2174 | the run goes on only with a non-empty list of orders that all have ids, none of them in the ledger |
| Workflow.Finale | wb_agent.py:2218-2244 | after the loop the run either reports or fails on an unsortable file; the report counts the orders processed and at most the files listed |
| Workflow.FreshHaveIds | wb_agent.py:2164-2170 | the filtered orders all carry an id |
| Workflow.DesktopTickets | wb_agent.py:2124-2152 | at most two confirmations on the desktop; none when minimising fails or the browser is started by coordinates |
| Workflow.TicketsPerOrder | wb_agent.py:2124-2216 | a reported run in test mode asked for a confirmation per processed order and one before sending; a run that stops before the loop asks only the desktop's; none asks for more than three plus one per fetched order |
| Workflow.Prepare | wb_agent.py:2124-2174 | the desktop steps, the fetch and the filter compute the start of the run; in test mode each browser step mints one ticket; no ticket is removed, and outside test mode the tickets do not change |
| Workflow.SendResults | wb_agent.py:2212-2244 | the confirmation, the merged document and the batches compute the end of the run; test mode mints exactly one ticket; no ticket is removed, and outside test mode the tickets do not change |
| Workflow.Run | wb_agent.py:2116-2250 | the body after the wait computes the run's outcome and its ledger; in test mode the ticket counter moves on by the run's confirmations; no ticket is removed, and outside test mode the tickets do not change |
| Workflow.MissingIdFails | wb_agent.py:2164-2174 | the run fails on a missing id exactly when the desktop came up and a fetched order has no id |
| Workflow.ReportCounts | wb_agent.py:2187-2244 | the ledger only grows, not at all when the run stops before the loop; a report counts exactly the orders added to the ledger and at most the files listed |
| Workflow.MergedHoldsStickers | wb_agent.py:1347-1415 | the merged document is written exactly when orders returned stickers, and it holds each of them and nothing else |
| Workflow.MainWorkflow | wb_agent.py:2103-2257 | every exit but a wait still in progress leaves the flags idle; a wait in progress or a cancellation changes nothing else; otherwise the run's outcome and ledger, with the tickets of the mode read when the wait ended |

## Left out

- Screen actuation (locating images, moving, clicking, typing, scrolling, hot keys) is not modelled. Each actuator call is a boolean input of an `OrderEnv` or a `Desktop`.
- Confirmations inside the actuator helpers are not modelled. Only the explicit `wait_for_confirmation` calls of `process_single_order` and `main_workflow` mint tickets.
- HTTP transport is not modelled: sessions, SSL, JSON decoding. Each attempt's result is an input: a status, a timeout or an exception.
- Sleeps are not modelled. Two kinds of delay are recorded, as integers before the 1.5 scaling of `adaptive_sleep`. The first is the retry backoffs of the API and Telegram calls (wb_agent.py:452-456, 515-517, 915-1000).
- The second is the find timeouts of the box search (wb_agent.py:1109-1119). These are timeouts of the search itself, not `adaptive_sleep` calls.
- The fixed pauses are not recorded. These include the 1.0 s after each sent file (wb_agent.py:1446), the 2 s after each batch (wb_agent.py:1459), the 1.5 s after each order (wb_agent.py:2210) and the pauses of the box search (wb_agent.py:1125, 1159, 1179).
- Telegram message texts are not modelled, including the list of sticker names in the per-order message. Messages only matter through their retries.
- Threads are not modelled. The other thread's changes reach the workflow's wait as a sequence of events. Inside one order, a cancellation is a monotone threshold on the numbered checks.
- The order loop's cancellation position is an input of its own. It is independent of the per-order thresholds, because a mode button or a mini-app start can clear `PROCESS_CANCELLED` while a run is in progress.
- The mode is read once, when the wait ends. The source reads `CURRENT_MODE` at every use, so a mode button pressed during a run could switch it midway.
- PDF rendering and merging are not modelled: the cover page, pages per file, file sizes. A merged document is the sequence of its pages, the cover as one entry and each sticker file as one entry.
- Printing is not modelled.
- The downloads directory is not modelled. The clean-up at the start, and the unlinking of the cover file, are not modelled.
- The final listing of the directory is an input: the stems of the files other than the merged document.
- Workflow.Listing: always puts the merged document last. `glob` lists in no set order and the sort is stable, so in the source the merged document (key (999, 999)) may come before other stems of that key.
- Python's `int()` is modelled only on ASCII digit strings. Any other text is treated as a `ValueError`, where Python accepts signs, surrounding whitespace, underscores between digits and non-ASCII digits. The model therefore differs from the source on such input.
- Ordering.SortStems: the stems `-1_2` and `1_ 2` make it fail, and the run ends with `Failed(UnsortableFile)`. The source sorts them under (-1, 2) and (1, 2).
- Access.ParseAccessCommand: `/allow +7` is answered as not a number. The source allows user 7, and allows user -5 on `/allow -5`.
- `str.isspace` is modelled only on ASCII characters.
- JSON nulls are not modelled. A null `quantity` or `mode` in the source raises or is used as given.
- Configuration loading and saving are not modelled, apart from the authorized-users file. That file is a sequence of lines.
- Token dates are not modelled. `days_left` is an integer input.
- The `check_status`, `get_logs`, `/settings`, printer and new-member handlers are not modelled. They do not change the state modelled here.
- Workflow.MainWorkflow: when the events run out while the run still waits for a mode, the model stops without the `finally`. The source would poll on.
- Pipeline.OrderOutcome: an order whose processing raises past the modelled steps is folded into `[]`. That happens, for instance, when `create_supply` or `add_orders_to_supply` raise.
- Access.SettingsAccess.Request: the session is a string. The source stores `session_id` as whatever JSON value the mini-app sent (wb_agent.py:1629-1635), while the answer's session is always a string cut from the callback data (wb_agent.py:1677-1679). A numeric session id is therefore stored under an int key that no answer finds; the model, and `Access.RequestThenAnswer`, do not cover that case.
- Access.AllowPersists: covers a file whose every line ends in a newline, which `/allow` and `/deny` keep. On a file whose last line has no newline the appended id joins that line; `Access.AllowJoinsLastLine` and `Access.AllowAfterUnterminated` state that case.
- Text.StripLeft: its own contract bounds the result and its first character. `Text.StripLeftSuffix` states what it keeps and drops.
- Text.StripRight: its own contract gives the kept prefix and its last character. `Text.StripRightPrefix` states that the dropped tail is whitespace.
- Text.Strip: its own contract speaks of the ends only. `Text.StripInfix` states where the result sits in the text.
- Text.RemoveAll: its own contract bounds the length only. `Text.RemoveAllFirst`, `Text.RemoveAllStep` and `Text.RemoveAllAbsent` state what is kept.
