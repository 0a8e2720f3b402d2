/**
 * The records of the debt book ("carnet de crédit"), as declared in types.ts.
 * Amounts are whole numbers; dates stay the text the app stores (an ISO day
 * such as "2024-01-01" for a debt, a full ISO timestamp for a payment).
 */
module Types {

  datatype Option<+T> = None | Some(value: T)

  datatype TxKind = Credit | Payment

  /** One entry of a debt's history; the app never edits or removes one. */
  datatype Transaction = Transaction(id: int, kind: TxKind, amount: int, date: string)

  datatype DebtStatus = Active | Contentious | Paid

  /**
   * A customer's debt. `montant` is the balance still owed. `isPaid` is the
   * flag the app writes; `status` is only ever read, and is absent on every
   * record the app itself creates.
   */
  datatype Debt = Debt(
    id: int,
    nom: string,
    montant: int,
    date: string,
    tel: string,
    isPaid: bool,
    status: Option<DebtStatus>,
    transactions: seq<Transaction>)

  /** What the add form hands to the ledger: a debt without id, paid flag or history. */
  datatype DebtInput = DebtInput(nom: string, montant: int, date: string, tel: string)

  /** The six orders of the debt list. */
  datatype SortOption = DateDesc | DateAsc | AmountDesc | AmountAsc | DateCreditAsc | DateCreditDesc

  /** The two reminder templates. */
  datatype Tone = Soft | Firm

  /** Milliseconds in a day, the unit of every day computation in the app. */
  const MsPerDay: int := 24 * 60 * 60 * 1000

  function Max0(x: int): (r: int)
    ensures r >= 0 && r >= x
    ensures r == 0 || r == x
  {
    if x < 0 then 0 else x
  }
}
