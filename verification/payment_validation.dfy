/** Payment validation at checkout. */
module PaymentValidation {
  import opened Results
  import opened Entities

  /** `{ valid, error? }`. */
  datatype Verdict = Verdict(valid: bool, error: Option<string>)

  /** `validatePayment`: the list must be non-empty (checked first) and the
      given paid amount must cover the amount due; overpayment is accepted.
      The paid amount is taken as given, not summed from `payments`. */
  function ValidatePayment(totalPaid: int, totalDue: int, payments: seq<Payment>): (r: Verdict)
    ensures r.valid <==> |payments| > 0 && totalPaid >= totalDue
    ensures r.valid <==> r.error.None?
    ensures |payments| == 0 ==> r.error == Some("No payments added")
    ensures |payments| > 0 && totalPaid < totalDue ==> r.error == Some("Insufficient payment")
  {
    if |payments| == 0 then Verdict(false, Some("No payments added"))
    else if totalPaid < totalDue then Verdict(false, Some("Insufficient payment"))
    else Verdict(true, None)
  }

  /** Only whether the list is empty matters, never what it holds. */
  lemma IgnoresPaymentContents(totalPaid: int, totalDue: int, p1: seq<Payment>, p2: seq<Payment>)
    requires (|p1| == 0) == (|p2| == 0)
    ensures ValidatePayment(totalPaid, totalDue, p1) == ValidatePayment(totalPaid, totalDue, p2)
  {
  }
}
