/**
 * The form for a new debt (components/AddDebtModal.tsx): four text fields,
 * the check made on submit, the record handed to the ledger, and the reset
 * that follows.
 *
 * `today` is the date part of the current ISO timestamp, which the form
 * puts in the date field when it starts and after each debt added.
 */
module AddDebtModal {
  import opened Types
  import opened JsText
  import opened Ledger

  /** The phone field's starting text, the Mauritanian country code. */
  const PhonePrefix: string := "222"

  /**
   * The record `handleSubmit` builds from the field texts: nothing when the
   * name, the amount or the phone is empty (the date is not checked), else
   * the four fields with the amount read as a number. The amount field is a
   * numeric input, so its text is empty or a number.
   */
  function ToRecord(nom: string, montant: string, date: string, tel: string): (r: Option<DebtInput>)
    requires montant == "" || JsNumber(montant).Some?
    ensures r.None? <==> nom == "" || montant == "" || tel == ""
    ensures r.Some? ==> r.value.nom == nom && r.value.date == date && r.value.tel == tel
    ensures r.Some? ==> Some(r.value.montant) == JsNumber(montant)
  {
    if nom == "" || montant == "" || tel == "" then None
    else Some(DebtInput(nom, JsNumber(montant).value, date, tel))
  }

  /** Writing a record back into the fields and submitting it gives the same record. */
  lemma RecordRoundTrip(input: DebtInput)
    requires input.nom != "" && input.tel != ""
    ensures ToRecord(input.nom, IntToString(input.montant), input.date, input.tel) == Some(input)
  {
    NumberRoundTrip(input.montant);
  }

  datatype Field = Nom | Montant | Date | Tel

  class AddDebtForm {
    var nom: string
    var montant: string
    var date: string
    var tel: string

    /** The fields as the form starts and as it is reset. */
    predicate Fresh(today: string)
      reads this
    {
      nom == "" && montant == "" && date == today && tel == PhonePrefix
    }

    /** The amount field holds what a numeric input holds: nothing, or a number. */
    predicate Valid()
      reads this
    {
      montant == "" || JsNumber(montant).Some?
    }

    constructor (today: string)
      ensures Fresh(today) && Valid()
    {
      nom := "";
      montant := "";
      date := today;
      tel := PhonePrefix;
    }

    /** An `onChange` of one field: that field takes the text, the others keep theirs. */
    method Edit(field: Field, text: string)
      requires Valid()
      requires field == Montant ==> text == "" || JsNumber(text).Some?
      modifies this
      ensures Valid()
      ensures field == Nom ==> nom == text
      ensures field == Montant ==> montant == text
      ensures field == Date ==> date == text
      ensures field == Tel ==> tel == text
      ensures field != Nom ==> nom == old(nom)
      ensures field != Montant ==> montant == old(montant)
      ensures field != Date ==> date == old(date)
      ensures field != Tel ==> tel == old(tel)
    {
      match field
      case Nom => nom := text;
      case Montant => montant := text;
      case Date => date := text;
      case Tel => tel := text;
    }

    /**
     * `handleSubmit`: with a name, an amount and a phone, the record goes to
     * the ledger, the form is reset and closes; otherwise the form stays as
     * it is and open. Neither the date nor the sign of the amount is checked.
     */
    method Submit(today: string) returns (added: Option<DebtInput>, closed: bool)
      requires Valid()
      modifies this
      ensures added == ToRecord(old(nom), old(montant), old(date), old(tel))
      ensures closed <==> added.Some?
      ensures added.Some? ==> Fresh(today)
      ensures added.None? ==> nom == old(nom) && montant == old(montant) && date == old(date) && tel == old(tel)
      ensures Valid()
    {
      added := ToRecord(nom, montant, date, tel);
      if added.None? {
        return added, false;
      }
      nom, montant, date, tel := "", "", today, PhonePrefix;
      closed := true;
    }
  }

  /**
   * A debt added through the form with a non-negative amount owes what it
   * was opened for: its balance is the typed amount, its history holds the
   * one credit that explains it, and it is unpaid.
   */
  lemma FormDebtConsistent(nom: string, montant: string, date: string, tel: string, stamp: int, creditStamp: int)
    requires JsNumber(montant).Some? && JsNumber(montant).value >= 0
    requires nom != "" && montant != "" && tel != ""
    ensures var d := NewDebt(ToRecord(nom, montant, date, tel).value, stamp, creditStamp);
      BalanceConsistent(d) && !d.isPaid && Some(d.montant) == JsNumber(montant)
  {
    NewDebtConsistent(ToRecord(nom, montant, date, tel).value, stamp, creditStamp);
  }
}
