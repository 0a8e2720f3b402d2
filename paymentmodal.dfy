/**
 * The payment dialog (components/PaymentModal.tsx): the amount field, the
 * preview of the new balance, the "pay in full" shortcut, and the amount it
 * hands to the ledger on submit.
 */
module PaymentModal {
  import opened Types
  import opened JsText
  import opened Ledger
  import DebtCard

  /** `Number(amount) || 0`: the typed amount, with an empty or unreadable field counting as 0. */
  function PayAmount(amount: string): (r: int)
    ensures JsNumber(amount).None? ==> r == 0
    ensures JsNumber(amount).Some? ==> r == JsNumber(amount).value
    ensures !(amount == "" || AllDigits(amount) || Negative(amount)) ==> r == 0
    ensures AllDigits(amount) ==> r == DigitsValue(amount)
    ensures Negative(amount) ==> r == 0 - DigitsValue(amount[1..])
  {
    match JsNumber(amount)
    case Some(n) => n
    case None => 0
  }

  /** `Math.max(0, currentDebt - payAmount)`. */
  function Remaining(current: int, pay: int): (r: int)
    ensures r >= 0 && r >= current - pay
    ensures r == 0 || r == current - pay
  {
    Max0(current - pay)
  }

  /** What the open dialog shows. */
  datatype PaymentView = PaymentView(current: int, nom: string, pay: int, remaining: int, fullyPaid: bool, canSubmit: bool)

  /**
   * The dialog renders nothing when closed or without a debt; otherwise it
   * shows the balance, the amount typed, the new balance (or "fully paid"
   * once something is paid and nothing remains), and enables its button
   * only for a positive amount.
   */
  function View(isOpen: bool, debt: Option<Debt>, amount: string): (r: Option<PaymentView>)
    ensures r.None? <==> !isOpen || debt.None?
    ensures r.Some? ==> r.value.current == debt.value.montant && r.value.nom == debt.value.nom
    ensures r.Some? ==> r.value.pay == PayAmount(amount)
    ensures r.Some? ==> r.value.remaining == Max0(debt.value.montant - PayAmount(amount))
    ensures r.Some? ==> (r.value.fullyPaid <==> PayAmount(amount) >= debt.value.montant && PayAmount(amount) > 0)
    ensures r.Some? ==> (r.value.canSubmit <==> PayAmount(amount) > 0)
  {
    if !isOpen || debt.None? then None
    else
      var d := debt.value;
      var pay := PayAmount(amount);
      var remaining := Remaining(d.montant, pay);
      Some(PaymentView(d.montant, d.nom, pay, remaining, remaining == 0 && pay > 0, pay > 0))
  }

  /** The state of the dialog: the text of its amount field. */
  class PaymentForm {
    var amount: string

    /** `useState('')`. */
    constructor ()
      ensures amount == ""
    {
      amount := "";
    }

    /** The reset effect when the dialog opens on a debt: the field starts empty. */
    method Open()
      modifies this`amount
      ensures amount == "" && PayAmount(amount) == 0
    {
      amount := "";
    }

    /** Typing in the field. */
    method Edit(text: string)
      modifies this`amount
      ensures amount == text
    {
      amount := text;
    }

    /** The "pay in full" button: the field receives the whole balance, written out. */
    method PayFull(d: Debt)
      modifies this`amount
      ensures amount == IntToString(d.montant)
      ensures PayAmount(amount) == d.montant
      ensures Remaining(d.montant, PayAmount(amount)) == 0
    {
      amount := IntToString(d.montant);
      NumberRoundTrip(d.montant);
    }

    /**
     * `handleSubmit`: a positive amount is handed to the ledger (and the
     * dialog closes); anything else, an empty field included, does nothing.
     * The balance does not bound the amount here.
     */
    method Submit() returns (confirmed: Option<int>)
      ensures confirmed.Some? <==> PayAmount(amount) > 0
      ensures confirmed.Some? ==> confirmed.value == PayAmount(amount)
      ensures amount == "" ==> confirmed.None?
    {
      var pay := PayAmount(amount);
      if pay > 0 {
        confirmed := Some(pay);
      } else {
        confirmed := None;
      }
    }
  }

  /** After "pay in full" on a debt that is owed something, the preview reads "fully paid". */
  lemma PayFullPreview(d: Debt)
    requires d.montant > 0
    ensures var v := View(true, Some(d), IntToString(d.montant));
      v.Some? && v.value.fullyPaid && v.value.remaining == 0 && v.value.canSubmit
  {
    NumberRoundTrip(d.montant);
  }

  /**
   * The preview tells the truth: for any positive amount, the ledger leaves
   * the balance the dialog shows, and marks the debt paid exactly when the
   * dialog says "fully paid".
   */
  lemma PreviewMatchesLedger(d: Debt, amount: string, stamp: int, nowText: string)
    requires PayAmount(amount) > 0
    ensures var v := View(true, Some(d), amount).value;
      var paid := Pay(d, PayAmount(amount), stamp, nowText);
      paid.montant == v.remaining && (paid.isPaid <==> v.fullyPaid)
  {
  }

  /**
   * A positive payment up to the balance lowers it by exactly the amount; a
   * larger one clears it, and the history still records the whole amount.
   */
  lemma PaymentWithinBalance(d: Debt, amount: string, stamp: int, nowText: string)
    requires 0 < PayAmount(amount) <= d.montant
    ensures Pay(d, PayAmount(amount), stamp, nowText).montant == d.montant - PayAmount(amount)
    ensures Pay(d, PayAmount(amount), stamp, nowText).isPaid <==> PayAmount(amount) == d.montant
  {
  }

  lemma OverpaymentClears(d: Debt, amount: string, stamp: int, nowText: string)
    requires PayAmount(amount) > d.montant
    ensures var paid := Pay(d, PayAmount(amount), stamp, nowText);
      paid.montant == 0 && paid.isPaid &&
      paid.transactions[|paid.transactions| - 1].amount == PayAmount(amount)
  {
  }

  /**
   * Paying a debt in full archives it: its card shows the paid badge and
   * offers no payment or reminder any more.
   */
  lemma FullPaymentArchives(d: Debt, stamp: int, nowText: string, jours: int, selectionMode: bool)
    ensures var paid := Pay(d, PayAmount(IntToString(d.montant)), stamp, nowText);
      DebtCard.UrgencyOf(paid, jours) == DebtCard.PaidBadge &&
      DebtCard.ActionsOf(paid, selectionMode) <= {DebtCard.DeleteDebt}
  {
    NumberRoundTrip(d.montant);
  }
}
