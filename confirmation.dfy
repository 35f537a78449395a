/**
 * The confirmation tickets of test mode: `wait_for_confirmation` mints a key
 * `step_{n}` from the counter `current_step_id`, stores an unset event under
 * it and offers a button whose callback data is `confirm_` followed by the
 * key; `confirm_step` sets the event of a key that is present.
 *
 * `wait_for_confirmation` returns True right after posting the buttons, on
 * success and on failure alike, so the wait for the event and the removal of
 * the ticket that follow in the source are never reached: tickets are never
 * waited on and never removed.
 */
module Confirmation {
  import opened Wrappers
  import opened Text

  const StepPrefix := "step_"
  const ConfirmPrefix := "confirm_"

  /** The key of the `n`-th ticket. */
  function StepKey(n: nat): string
  {
    StepPrefix + NatToString(n)
  }

  /** The ticket number a key was minted from, if it is a ticket key at all. */
  function StepNumber(key: string): (r: Option<nat>)
    ensures r.Some? ==> StartsWith(key, StepPrefix) && IsDigitString(key[|StepPrefix|..])
  {
    if StartsWith(key, StepPrefix) then ParseNat(key[|StepPrefix|..]) else None
  }

  /** A ticket key names its own number. */
  lemma StepNumberOfKey(n: nat)
    ensures StepNumber(StepKey(n)) == Some(n)
  {
    var key := StepKey(n);
    assert key[..|StepPrefix|] == StepPrefix;
    assert key[|StepPrefix|..] == NatToString(n);
    ParseNatToString(n);
  }

  /** Tickets minted from different numbers have different keys, so no key is ever reused. */
  lemma StepKeyInjective(n: nat, m: nat)
    requires StepKey(n) == StepKey(m)
    ensures n == m
  {
    StepNumberOfKey(n);
    StepNumberOfKey(m);
  }

  /** The callback data of the confirm button of ticket `n`. */
  function ConfirmData(n: nat): string
  {
    ConfirmPrefix + StepKey(n)
  }

  /** The key a confirm callback names: its data with every `confirm_` removed. */
  function ConfirmedKey(data: string): (key: string)
    ensures |key| <= |data|
  {
    RemoveAll(data, ConfirmPrefix)
  }

  /** The confirm button of ticket `n` names ticket `n` again: a ticket key holds no `c`, so no `confirm_` either. */
  lemma ConfirmRoundTrip(n: nat)
    ensures ConfirmedKey(ConfirmData(n)) == StepKey(n)
  {
    var key := StepKey(n);
    var digits := NatToString(n);
    forall i | 0 <= i < |key| ensures key[i] != 'c' {
      if i >= |StepPrefix| {
        assert key[i] == digits[i - |StepPrefix|];
      }
    }
    AbsentFirstChar(ConfirmPrefix, key);
    StripPrefixRoundTrip(ConfirmPrefix, key);
  }

  /** A later ticket store: every earlier ticket is still stored with its event as it was, and every new ticket is unset. */
  predicate Grows(before: map<string, bool>, after: map<string, bool>)
  {
    && (forall key :: key in before ==> key in after && after[key] == before[key])
    && (forall key :: key in after && key !in before ==> !after[key])
  }

  /** Stores that grow in two steps grow in one. */
  lemma GrowsTrans(a: map<string, bool>, b: map<string, bool>, c: map<string, bool>)
    requires Grows(a, b) && Grows(b, c)
    ensures Grows(a, c)
  {
    forall key | key in c && key !in a ensures !c[key] {
      if key in b {
        assert c[key] == b[key];
      }
    }
  }

  /** The ticket store: the event of each key (set or not) and the counter behind the keys. */
  class ConfirmationGate {
    var tickets: map<string, bool>
    var stepId: nat

    /** Every stored key was minted from a number the counter has already reached. */
    ghost predicate Valid()
      reads this
    {
      forall key :: key in tickets ==>
        StepNumber(key).Some? && 1 <= StepNumber(key).value <= stepId && StepKey(StepNumber(key).value) == key
    }

    constructor ()
      ensures Valid() && tickets == map[] && stepId == 0
    {
      tickets := map[];
      stepId := 0;
    }

    /** The next key to be minted is not stored yet. */
    lemma NextKeyFresh()
      requires Valid()
      ensures StepKey(stepId + 1) !in tickets
    {
      if StepKey(stepId + 1) in tickets {
        StepNumberOfKey(stepId + 1);
      }
    }

    /**
     * `wait_for_confirmation`: outside test mode nothing is stored; in test
     * mode the counter moves on and a fresh, unset ticket is stored. The
     * answer is true either way.
     */
    method WaitForConfirmation(mode: Option<string>) returns (ok: bool)
      requires Valid()
      modifies this
      ensures Valid() && ok
      ensures Grows(old(tickets), tickets)
      ensures mode != Some("test") ==> tickets == old(tickets) && stepId == old(stepId)
      ensures mode == Some("test") ==>
        stepId == old(stepId) + 1 && StepKey(stepId) !in old(tickets) && tickets == old(tickets)[StepKey(stepId) := false]
    {
      if mode != Some("test") {
        return true;
      }
      NextKeyFresh();
      stepId := stepId + 1;
      var key := StepKey(stepId);
      StepNumberOfKey(stepId);
      tickets := tickets[key := false];
      ok := true;
    }

    /** `confirm_step`: sets the event of a stored key; an unknown key changes nothing. */
    method ConfirmStep(key: string)
      requires Valid()
      modifies this
      ensures Valid() && stepId == old(stepId)
      ensures key in old(tickets) ==> tickets == old(tickets)[key := true]
      ensures key !in old(tickets) ==> tickets == old(tickets)
    {
      if key in tickets {
        tickets := tickets[key := true];
      }
    }

    /** A `confirm_` callback: the key is read back from the data and confirmed. */
    method ConfirmCallback(data: string)
      requires Valid()
      modifies this
      ensures Valid() && stepId == old(stepId)
      ensures ConfirmedKey(data) in old(tickets) ==> tickets == old(tickets)[ConfirmedKey(data) := true]
      ensures ConfirmedKey(data) !in old(tickets) ==> tickets == old(tickets)
    {
      ConfirmStep(ConfirmedKey(data));
    }
  }

  /**
   * A test-mode ticket followed by a press of its own button: the new ticket,
   * and only it, is set.
   */
  method ConfirmLatest(gate: ConfirmationGate)
    requires gate.Valid()
    modifies gate
    ensures gate.Valid() && gate.stepId == old(gate.stepId) + 1
    ensures StepKey(gate.stepId) !in old(gate.tickets)
    ensures gate.tickets == old(gate.tickets)[StepKey(gate.stepId) := true]
  {
    var _ := gate.WaitForConfirmation(Some("test"));
    var n := gate.stepId;
    ConfirmRoundTrip(n);
    gate.ConfirmCallback(ConfirmData(n));
  }
}
