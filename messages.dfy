/**
 * The summary notification execute shows at the end of a run, chosen from
 * the success and failure counters and the number of final candidates.
 */
module Messages {
  import opened Wrappers
  import opened Host

  const NoSelectionMessage := "Select vertices, edges, or faces to begin."
  const FailureMessage := "Failed to create a fillet arc given the selected geometry.\nTry selecting faces, connected edges, or vertices with at least 2 attached edges, and try again."

  predicate IsDigit(c: char) {
    '0' <= c <= '9'
  }

  /** The decimal spelling of n, as string concatenation renders a count. */
  function NatToString(n: nat): (s: string)
    ensures |s| > 0
    ensures forall i :: 0 <= i < |s| ==> IsDigit(s[i])
    ensures n > 0 ==> s[0] != '0'
    decreases n
  {
    if n < 10 then ["0123456789"[n]]
    else NatToString(n / 10) + ["0123456789"[n % 10]]
  }

  /** The number a string of decimal digits denotes. */
  function DecimalValue(s: string): nat
    requires forall i :: 0 <= i < |s| ==> IsDigit(s[i])
    decreases |s|
  {
    if s == [] then 0
    else
      assert IsDigit(s[|s| - 1]);
      DecimalValue(s[..|s| - 1]) * 10 + (s[|s| - 1] as int - '0' as int)
  }

  /** Reading the count back from its spelling gives the count. */
  lemma {:induction false} DecimalRoundTrip(n: nat)
    ensures DecimalValue(NatToString(n)) == n
  {
    var s := NatToString(n);
    if n >= 10 {
      DecimalRoundTrip(n / 10);
      assert s[..|s| - 1] == NatToString(n / 10);
    }
  }

  /** " vertex." for one, " vertices." for more. */
  function VertexWord(n: nat): string {
    if n > 1 then " vertices." else " vertex."
  }

  /**
   * The notification at the end of a run: success when some succeeded and
   * none failed, partial success when both, failure when there were no
   * candidates or only failures, and nothing otherwise.
   */
  function ChooseNotification(succeeded: nat, failed: nat, candidates: nat): Option<Notification> {
    if succeeded > 0 && failed == 0 then
      Some(Notification(Success, "Created a new fillet arc at " + NatToString(succeeded) + VertexWord(succeeded)))
    else if succeeded > 0 && failed > 0 then
      Some(Notification(Information, "Created a new fillet arc at " + NatToString(succeeded) +
                                     " vertices, but failed to fillet at " + NatToString(failed) + VertexWord(failed)))
    else if candidates == 0 || (succeeded == 0 && failed > 0) then
      Some(Notification(Error, FailureMessage))
    else None
  }

  /**
   * The three notifications by their type, each characterised by the
   * counters alone: success exactly when all attempts succeeded, information
   * exactly when some succeeded and some failed, error exactly when nothing
   * succeeded and either there were no candidates or something failed; in
   * every other case no notification.
   */
  lemma NotificationChoice(succeeded: nat, failed: nat, candidates: nat)
    ensures var r := ChooseNotification(succeeded, failed, candidates);
            && (r.Some? && r.value.kind == Success <==> succeeded > 0 && failed == 0)
            && (r.Some? && r.value.kind == Information <==> succeeded > 0 && failed > 0)
            && (r.Some? && r.value.kind == Error <==> succeeded == 0 && (candidates == 0 || failed > 0))
            && (r.None? <==> succeeded == 0 && failed == 0 && candidates > 0)
  {
  }

  /**
   * The success message reads back the number of vertices and says
   * "vertex." exactly when that number is one.
   */
  lemma SuccessMessageCount(succeeded: nat, candidates: nat)
    requires succeeded > 0
    ensures var r := ChooseNotification(succeeded, 0, candidates);
            var prefix := "Created a new fillet arc at ";
            && r.Some? && r.value.kind == Success
            && r.value.message[..|prefix|] == prefix
            && (exists digits, word ::
                  && r.value.message == prefix + digits + word
                  && (forall i :: 0 <= i < |digits| ==> IsDigit(digits[i]))
                  && DecimalValue(digits) == succeeded
                  && (word == " vertex." <==> succeeded == 1))
  {
    DecimalRoundTrip(succeeded);
    var prefix := "Created a new fillet arc at ";
    var r := ChooseNotification(succeeded, 0, candidates);
    assert r.value.message == prefix + NatToString(succeeded) + VertexWord(succeeded);
  }

  /**
   * With the failure counter at zero, as it always is, the partial-success
   * notification is never shown, and a run whose candidates all failed
   * shows no notification at all.
   */
  lemma FailuresNeverReported(succeeded: nat, candidates: nat)
    ensures var r := ChooseNotification(succeeded, 0, candidates);
            && !(r.Some? && r.value.kind == Information)
            && (r.None? <==> succeeded == 0 && candidates > 0)
  {
  }
}
