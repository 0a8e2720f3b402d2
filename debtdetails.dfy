/**
 * The details dialog of a debt (components/DebtDetailsModal.tsx): the
 * history, newest first, and the text receipt the share button builds.
 *
 * The receipt is kept as a list of line values; how each line is spelled
 * (the locale's number and date formatting, the app title and currency of
 * the language) is not part of this model.
 */
module DebtDetailsModal {
  import opened Types
  import opened Ledger

  // ---------------------------------------------------------------------------
  // The history

  /** One row of the history: credits read `+`, payments `-`. */
  datatype HistoryRow = HistoryRow(kind: TxKind, sign: char, amount: int, date: string)

  function RowOf(t: Transaction): (r: HistoryRow)
    ensures r.sign == '+' <==> t.kind == Credit
    ensures r.sign == '-' <==> t.kind == Payment
    ensures r.kind == t.kind && r.amount == t.amount && r.date == t.date
  {
    HistoryRow(t.kind, if t.kind == Credit then '+' else '-', t.amount, t.date)
  }

  /** `[...debt.transactions].reverse().map(...)`: every transaction, newest first. */
  function History(txs: seq<Transaction>): (r: seq<HistoryRow>)
    ensures |r| == |txs|
    ensures forall i :: 0 <= i < |txs| ==> r[i] == RowOf(txs[|txs| - 1 - i])
  {
    if txs == [] then [] else [RowOf(txs[|txs| - 1])] + History(txs[..|txs| - 1])
  }

  /** What the rows add up to, counting `+` rows up and `-` rows down. */
  function SignedTotal(rows: seq<HistoryRow>): int {
    if rows == [] then 0
    else (if rows[0].sign == '+' then rows[0].amount else -rows[0].amount) + SignedTotal(rows[1..])
  }

  /** The history adds up to what was lent minus what was paid back. */
  lemma {:induction false} HistoryAddsUp(txs: seq<Transaction>)
    ensures SignedTotal(History(txs)) == SumKind(txs, Credit) - SumKind(txs, Payment)
  {
    if txs != [] {
      var n := |txs|;
      HistoryAddsUp(txs[..n - 1]);
      assert History(txs)[1..] == History(txs[..n - 1]);
      assert txs == txs[..n - 1] + [txs[n - 1]];
      SumKindAppend(txs[..n - 1], txs[n - 1], Credit);
      SumKindAppend(txs[..n - 1], txs[n - 1], Payment);
    }
  }

  /** So for a consistent debt, the history the dialog shows explains the balance. */
  lemma HistoryExplainsBalance(d: Debt)
    requires BalanceConsistent(d)
    ensures d.montant == Max0(SignedTotal(History(d.transactions)))
  {
    HistoryAddsUp(d.transactions);
  }

  /** A payment shows up at the top of the history, above everything that was there. */
  lemma PaymentOnTop(d: Debt, amountPaid: int, stamp: int, nowText: string)
    ensures var h := History(Pay(d, amountPaid, stamp, nowText).transactions);
      h[0] == HistoryRow(Payment, '-', amountPaid, nowText) && h[1..] == History(d.transactions)
  {
    var txs := Pay(d, amountPaid, stamp, nowText).transactions;
    assert txs[..|txs| - 1] == d.transactions;
  }

  // ---------------------------------------------------------------------------
  // The receipt

  /** The lines of the shared receipt. */
  datatype ReceiptLine =
    | Title                                   // receipt title with the app name
    | Rule                                    // a dashed separator
    | Client(nom: string)                     // the customer
    | Issued                                  // today's date
    | Due(montant: int)                       // the balance still owed
    | LastOps                                 // heading of the operations
    | Operation(caption: string, amount: int, date: string)
    | Thanks                                  // closing line

  function OperationLabel(k: TxKind): string {
    if k == Credit then "🔴 Crédit" else "🟢 Paiement"
  }

  function OperationLine(t: Transaction): (r: ReceiptLine)
    ensures r.Operation? && r.amount == t.amount && r.date == t.date
    ensures r.caption == OperationLabel(t.kind)
  {
    Operation(OperationLabel(t.kind), t.amount, t.date)
  }

  /** The seven lines before the operations. */
  function Header(d: Debt): (r: seq<ReceiptLine>)
    ensures |r| == 7
  {
    [Title, Rule, Client(d.nom), Issued, Due(d.montant), Rule, LastOps]
  }

  function OperationLines(ops: seq<Transaction>): (r: seq<ReceiptLine>)
    ensures |r| == |ops|
    ensures forall i :: 0 <= i < |ops| ==> r[i] == OperationLine(ops[i])
  {
    if ops == [] then [] else OperationLines(ops[..|ops| - 1]) + [OperationLine(ops[|ops| - 1])]
  }

  /** The receipt for a debt listing the operations `ops`, in their order. */
  function Receipt(d: Debt, ops: seq<Transaction>): (r: seq<ReceiptLine>)
    ensures |r| == |ops| + 9
    ensures r[..7] == Header(d)
    ensures forall i :: 0 <= i < |ops| ==> r[7 + i] == OperationLine(ops[i])
    ensures r[|r| - 2..] == [Rule, Thanks]
  {
    Header(d) + OperationLines(ops) + [Rule, Thanks]
  }

  /** Builds the receipt line by line, as `handleShare` pushes them. */
  method ReceiptLines(d: Debt, ops: seq<Transaction>) returns (lines: seq<ReceiptLine>)
    ensures lines == Receipt(d, ops)
  {
    lines := [Title, Rule, Client(d.nom), Issued, Due(d.montant), Rule, LastOps];
    var i := 0;
    while i < |ops|
      invariant 0 <= i <= |ops|
      invariant lines == Header(d) + OperationLines(ops[..i])
    {
      assert ops[..i + 1][..i] == ops[..i];
      lines := lines + [OperationLine(ops[i])];
      i := i + 1;
    }
    assert ops[..i] == ops;
    lines := lines + [Rule, Thanks];
  }

  function Min(a: int, b: int): int {
    if a <= b then a else b
  }

  /** `handleShare` as written: the receipt lists `transactions.slice(0, 5)`. */
  method ShareLinesAsWritten(d: Debt) returns (lines: seq<ReceiptLine>)
    ensures lines == Receipt(d, d.transactions[..Min(5, |d.transactions|)])
  {
    lines := ReceiptLines(d, d.transactions[..Min(5, |d.transactions|)]);
  }

  /** The `k` newest transactions, newest first. */
  function Newest(txs: seq<Transaction>, k: nat): (r: seq<Transaction>)
    ensures |r| == Min(k, |txs|)
    ensures forall i :: 0 <= i < |r| ==> r[i] == txs[|txs| - 1 - i]
  {
    if k == 0 || txs == [] then [] else [txs[|txs| - 1]] + Newest(txs[..|txs| - 1], k - 1)
  }

  /** The receipt as its heading "latest operations" means it: the five newest, newest first as in the history. */
  method ShareLines(d: Debt) returns (lines: seq<ReceiptLine>)
    ensures lines == Receipt(d, Newest(d.transactions, 5))
  {
    lines := ReceiptLines(d, Newest(d.transactions, 5));
  }

  /**
   * Once a debt has more than five transactions, the receipt as written
   * leaves out the newest one (a payment just recorded, say) whenever its
   * line differs from those of the five oldest.
   */
  lemma ReceiptAsWrittenOmitsNewest(d: Debt)
    requires |d.transactions| > 5
    requires forall i :: 0 <= i < 5 ==> OperationLine(d.transactions[i]) != OperationLine(d.transactions[|d.transactions| - 1])
    ensures OperationLine(d.transactions[|d.transactions| - 1]) !in Receipt(d, d.transactions[..5])
  {
    var r := Receipt(d, d.transactions[..5]);
    var line := OperationLine(d.transactions[|d.transactions| - 1]);
    forall j | 0 <= j < |r|
      ensures r[j] != line
    {
      if 7 <= j < 12 {
        assert r[j] == OperationLine(d.transactions[..5][j - 7]);
      } else if j < 7 {
        assert r[j] == Header(d)[j];
      } else {
        assert r[j] == [Rule, Thanks][j - 12];
      }
    }
  }

  /**
   * The receipt meant: it lists the newest transactions first, so the latest
   * operation, however long the history, is always the first one shown.
   */
  lemma ReceiptShowsNewest(d: Debt)
    requires |d.transactions| > 0
    ensures var r := Receipt(d, Newest(d.transactions, 5));
      r[7] == OperationLine(d.transactions[|d.transactions| - 1])
  {
  }

  /** The receipt states the customer and the balance still owed, right after the title. */
  lemma ReceiptStatesBalance(d: Debt, ops: seq<Transaction>)
    ensures Receipt(d, ops)[2] == Client(d.nom) && Receipt(d, ops)[4] == Due(d.montant)
  {
    assert Receipt(d, ops)[..7][2] == Client(d.nom);
    assert Receipt(d, ops)[..7][4] == Due(d.montant);
  }
}
