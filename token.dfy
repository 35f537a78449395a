/**
 * Wildberries token bookkeeping: the days-left classification used by the
 * expiry check and the final report, and the format check applied to a token
 * typed in by the administrator.
 */
module TokenCheck {
  import opened Wrappers
  import opened Text

  datatype TokenState = Valid | ExpiringSoon | Expired

  /** Higher is more urgent. */
  function Urgency(s: TokenState): nat
  {
    match s
    case Valid => 0
    case ExpiringSoon => 1
    case Expired => 2
  }

  /** Classification of the whole number of days left before the token expires. */
  function Classify(daysLeft: int): (s: TokenState)
    ensures s == Expired <==> daysLeft <= 0
    ensures s == ExpiringSoon <==> 1 <= daysLeft <= 5
    ensures s == Valid <==> daysLeft > 5
  {
    if daysLeft <= 5 && daysLeft > 0 then ExpiringSoon
    else if daysLeft <= 0 then Expired
    else Valid
  }

  /** Fewer days left never makes the state less urgent. */
  lemma ClassifyMonotone(a: int, b: int)
    requires a <= b
    ensures Urgency(Classify(b)) <= Urgency(Classify(a))
  {
  }

  /** The expiry check alerts the chat (a warning or an error message) exactly when at most five days are left. */
  function AlertsChat(daysLeft: int): (alert: bool)
    ensures alert <==> daysLeft <= 5
  {
    Classify(daysLeft) != Valid
  }

  /**
   * The token line of the final report: none when the expiry check failed
   * (`days_left is None`), otherwise the line for the day count's class.
   */
  function ReportLine(daysLeft: Option<int>): (line: Option<TokenState>)
    ensures line.None? <==> daysLeft.None?
    ensures line.Some? ==> (line.value == Expired <==> daysLeft.value <= 0)
    ensures line.Some? ==> (line.value == Valid <==> daysLeft.value > 5)
  {
    match daysLeft
    case None => None
    case Some(d) => Some(Classify(d))
  }

  const TokenPrefix: string := "eyJhbGci"

  /** A token typed by the administrator replaces the stored one only when it starts like a JWT. */
  function AcceptToken(text: string): (r: Option<string>)
    ensures r.Some? ==> r.value == text && |text| >= 8 && text[..8] == "eyJhbGci"
    ensures r.None? ==> !StartsWith(text, "eyJhbGci")
  {
    if StartsWith(text, TokenPrefix) then Some(text) else None
  }
}
