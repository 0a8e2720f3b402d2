/**
 * The debt book held by the application (App.tsx): the list of debts and the
 * pieces of screen state its mutators consult (the debt chosen for payment or
 * deletion, the selection set). Every mutator replaces the list with a new
 * one computed from the old, as `setDebts(prev => ...)` does.
 */
module Ledger {
  import opened Types
  import opened Seqs

  // ---------------------------------------------------------------------------
  // Balance bookkeeping

  /** Sum of the amounts of the transactions of kind `k`. */
  function SumKind(txs: seq<Transaction>, k: TxKind): int {
    if txs == [] then 0
    else SumKind(txs[..|txs| - 1], k) + (if txs[|txs| - 1].kind == k then txs[|txs| - 1].amount else 0)
  }

  /** The balance a debt's history implies: what was lent minus what was paid, never below zero. */
  function ImpliedBalance(txs: seq<Transaction>): int {
    Max0(SumKind(txs, Credit) - SumKind(txs, Payment))
  }

  /** The stored balance agrees with the history. */
  ghost predicate BalanceConsistent(d: Debt) {
    d.montant == ImpliedBalance(d.transactions)
  }

  ghost predicate AllConsistent(debts: seq<Debt>) {
    forall i :: 0 <= i < |debts| ==> BalanceConsistent(debts[i])
  }

  lemma SumKindAppend(txs: seq<Transaction>, t: Transaction, k: TxKind)
    ensures SumKind(txs + [t], k) == SumKind(txs, k) + (if t.kind == k then t.amount else 0)
  {
    assert (txs + [t])[..|txs|] == txs;
  }

  // ---------------------------------------------------------------------------
  // Adding a debt

  /**
   * The record `addDebt` builds: the input, unpaid, one opening credit. The
   * debt's id and the credit's id come from two separate reads of the clock,
   * `stamp` and `creditStamp`, which may differ.
   */
  function NewDebt(input: DebtInput, stamp: int, creditStamp: int): (d: Debt)
    ensures d.id == stamp && d.nom == input.nom && d.montant == input.montant
    ensures d.date == input.date && d.tel == input.tel
    ensures !d.isPaid && d.status == None
    ensures |d.transactions| == 1
    ensures d.transactions[0] == Transaction(creditStamp, Credit, input.montant, input.date)
  {
    Debt(stamp, input.nom, input.montant, input.date, input.tel, false, None,
         [Transaction(creditStamp, Credit, input.montant, input.date)])
  }

  /** A new debt of a non-negative amount owes exactly its opening credit. */
  lemma NewDebtConsistent(input: DebtInput, stamp: int, creditStamp: int)
    requires input.montant >= 0
    ensures BalanceConsistent(NewDebt(input, stamp, creditStamp))
  {
    SumKindAppend([], Transaction(creditStamp, Credit, input.montant, input.date), Credit);
    SumKindAppend([], Transaction(creditStamp, Credit, input.montant, input.date), Payment);
  }

  // ---------------------------------------------------------------------------
  // Recording a payment

  /** The transaction `handlePayment` appends. */
  function PaymentEntry(amountPaid: int, stamp: int, nowText: string): Transaction {
    Transaction(stamp, Payment, amountPaid, nowText)
  }

  /**
   * One debt after a payment: the balance drops by the amount but not below
   * zero, the paid flag says whether the amount covered the balance, the
   * payment is appended to the history, and nothing else changes.
   */
  function Pay(d: Debt, amountPaid: int, stamp: int, nowText: string): (r: Debt)
    ensures r.montant >= 0 && r.montant >= d.montant - amountPaid
    ensures r.montant == 0 || r.montant == d.montant - amountPaid
    ensures amountPaid >= 0 ==> r.montant <= Max0(d.montant)
    ensures r.isPaid <==> d.montant - amountPaid <= 0
    ensures r.isPaid <==> r.montant == 0
    ensures r.transactions == d.transactions + [PaymentEntry(amountPaid, stamp, nowText)]
    ensures r.id == d.id && r.nom == d.nom && r.date == d.date && r.tel == d.tel && r.status == d.status
  {
    var newAmount := d.montant - amountPaid;
    d.(montant := Max0(newAmount), isPaid := newAmount <= 0,
       transactions := d.transactions + [PaymentEntry(amountPaid, stamp, nowText)])
  }

  /** A payment of a non-negative amount keeps the balance equal to what the history implies. */
  lemma PayKeepsBalanceConsistent(d: Debt, amountPaid: int, stamp: int, nowText: string)
    requires BalanceConsistent(d)
    requires amountPaid >= 0
    ensures BalanceConsistent(Pay(d, amountPaid, stamp, nowText))
  {
    var t := PaymentEntry(amountPaid, stamp, nowText);
    SumKindAppend(d.transactions, t, Credit);
    SumKindAppend(d.transactions, t, Payment);
  }

  /** `prev.map(...)` in `handlePayment`: every debt with the id is paid, the others are kept. */
  function PayMatching(debts: seq<Debt>, id: int, amountPaid: int, stamp: int, nowText: string): (r: seq<Debt>)
    ensures |r| == |debts|
    ensures forall i :: 0 <= i < |debts| && debts[i].id != id ==> r[i] == debts[i]
    ensures forall i :: 0 <= i < |debts| && debts[i].id == id ==> r[i] == Pay(debts[i], amountPaid, stamp, nowText)
  {
    if debts == [] then []
    else
      [if debts[0].id == id then Pay(debts[0], amountPaid, stamp, nowText) else debts[0]]
      + PayMatching(debts[1..], id, amountPaid, stamp, nowText)
  }

  /** A payment of a non-negative amount keeps every balance consistent. */
  lemma PayMatchingKeepsConsistent(debts: seq<Debt>, id: int, amountPaid: int, stamp: int, nowText: string)
    requires AllConsistent(debts)
    requires amountPaid >= 0
    ensures AllConsistent(PayMatching(debts, id, amountPaid, stamp, nowText))
  {
    var r := PayMatching(debts, id, amountPaid, stamp, nowText);
    forall i | 0 <= i < |r|
      ensures BalanceConsistent(r[i])
    {
      if debts[i].id == id {
        PayKeepsBalanceConsistent(debts[i], amountPaid, stamp, nowText);
      }
    }
  }

  /** A payment keeps every earlier transaction of every debt, in place. */
  lemma PayMatchingAppendsOnly(debts: seq<Debt>, id: int, amountPaid: int, stamp: int, nowText: string, i: int)
    requires 0 <= i < |debts|
    ensures var r := PayMatching(debts, id, amountPaid, stamp, nowText);
      |r[i].transactions| >= |debts[i].transactions| &&
      r[i].transactions[..|debts[i].transactions|] == debts[i].transactions
  {
    var r := PayMatching(debts, id, amountPaid, stamp, nowText);
    if debts[i].id == id {
      assert r[i].transactions == debts[i].transactions + [PaymentEntry(amountPaid, stamp, nowText)];
    }
  }

  // ---------------------------------------------------------------------------
  // Deleting and selecting

  /** `d => d.id !== id`, the test of `confirmDelete`. */
  function NotId(id: int): Debt -> bool {
    (d: Debt) => d.id != id
  }

  /** `d => !selectedDebtIds.has(d.id)`, the test of `handleConfirmBulkDelete`. */
  function NotSelected(ids: set<int>): Debt -> bool {
    (d: Debt) => d.id !in ids
  }

  /** Deleting an id keeps exactly the debts with another id. */
  lemma {:induction false} DeleteKeepsOthers(debts: seq<Debt>, id: int)
    ensures var r := Filter(debts, NotId(id));
      (forall i :: 0 <= i < |r| ==> r[i].id != id) &&
      (forall i :: 0 <= i < |debts| && debts[i].id != id ==> debts[i] in r)
  {
    FilterMembers(debts, NotId(id));
  }

  /** Deleting an id no debt carries is a no-op. */
  lemma DeleteMissingIsNoOp(debts: seq<Debt>, id: int)
    requires forall i :: 0 <= i < |debts| ==> debts[i].id != id
    ensures Filter(debts, NotId(id)) == debts
  {
    FilterKeepsAll(debts, NotId(id));
  }

  /** Deleting a debt just added under a fresh id gives back the list it was added to. */
  lemma {:induction false} DeleteUndoesAdd(debts: seq<Debt>, input: DebtInput, stamp: int, creditStamp: int)
    requires forall i :: 0 <= i < |debts| ==> debts[i].id != stamp
    ensures Filter([NewDebt(input, stamp, creditStamp)] + debts, NotId(stamp)) == debts
  {
    FilterConcat([NewDebt(input, stamp, creditStamp)], debts, NotId(stamp));
    FilterKeepsAll(debts, NotId(stamp));
  }

  /** Deleting keeps every remaining balance consistent. */
  lemma DeleteKeepsConsistent(debts: seq<Debt>, p: Debt -> bool)
    requires AllConsistent(debts)
    ensures AllConsistent(Filter(debts, p))
  {
    var r := Filter(debts, p);
    FilterMembers(debts, p);
    forall i | 0 <= i < |r|
      ensures BalanceConsistent(r[i])
    {
      assert r[i] in debts;
    }
  }

  /** Bulk deletion keeps exactly the debts whose id is not selected. */
  lemma {:induction false} BulkDeleteKeepsUnselected(debts: seq<Debt>, ids: set<int>)
    ensures var r := Filter(debts, NotSelected(ids));
      (forall i :: 0 <= i < |r| ==> r[i].id !in ids) &&
      (forall i :: 0 <= i < |debts| && debts[i].id !in ids ==> debts[i] in r)
  {
    FilterMembers(debts, NotSelected(ids));
  }

  /** The selection after a click on `id`: `id` flips, every other id stays as it was. */
  function Toggle(ids: set<int>, id: int): (r: set<int>)
    ensures id in r <==> id !in ids
    ensures forall x :: x != id ==> (x in r <==> x in ids)
  {
    if id in ids then ids - {id} else ids + {id}
  }

  /** Clicking the same debt twice restores the selection. */
  lemma ToggleTwice(ids: set<int>, id: int)
    ensures Toggle(Toggle(ids, id), id) == ids
  {
  }

  /** `debts.find(d => d.id === id)`: the first debt with the id, if any. */
  function FindById(debts: seq<Debt>, id: int): (r: Option<Debt>)
    ensures r.Some? ==> r.value in debts && r.value.id == id
    ensures r.Some? ==> exists i :: 0 <= i < |debts| && debts[i] == r.value && forall j :: 0 <= j < i ==> debts[j].id != id
    ensures r.None? <==> forall i :: 0 <= i < |debts| ==> debts[i].id != id
  {
    if debts == [] then None
    else if debts[0].id == id then
      assert debts[0] == debts[0];
      Some(debts[0])
    else
      var r := FindById(debts[1..], id);
      if r.Some? then
        var k :| 0 <= k < |debts[1..]| && debts[1..][k] == r.value && forall j :: 0 <= j < k ==> debts[1..][j].id != id;
        assert debts[k + 1] == r.value;
        assert forall j :: 0 <= j < k + 1 ==> debts[j].id != id by {
          forall j | 0 <= j < k + 1
            ensures debts[j].id != id
          {
            if j > 0 {
              assert debts[j] == debts[1..][j - 1];
            }
          }
        }
        r
      else
        assert forall i :: 1 <= i < |debts| ==> debts[i] == debts[1..][i - 1];
        r
  }

  // ---------------------------------------------------------------------------
  // The seed list

  /**
   * The three debts the app starts with when nothing is saved; the four
   * arguments are the day texts of 45, 12, 25 and 10 days ago.
   */
  function InitialData(ago45: string, ago12: string, ago25: string, ago10: string): (r: seq<Debt>)
    ensures |r| == 3
  {
    [ Debt(1, "Ahmed Ould Sidi", 5500, ago45, "22244444444", false, None,
           [Transaction(101, Credit, 6000, ago45), Transaction(102, Payment, 500, ago10)]),
      Debt(2, "Mariem Mint Ahmed", 1200, ago12, "22233333333", false, None,
           [Transaction(201, Credit, 1200, ago12)]),
      Debt(3, "Oumar Diop", 8000, ago25, "22222222222", false, None,
           [Transaction(301, Credit, 8000, ago25)]) ]
  }

  /** A debt whose whole history is one credit of its balance is consistent. */
  lemma {:induction false} OneCreditConsistent(d: Debt)
    requires |d.transactions| == 1 && d.transactions[0].kind == Credit
    requires d.montant == d.transactions[0].amount >= 0
    ensures BalanceConsistent(d)
  {
    SumKindAppend([], d.transactions[0], Credit);
    SumKindAppend([], d.transactions[0], Payment);
    assert [] + [d.transactions[0]] == d.transactions;
  }

  /** Every seeded balance is what its history implies (6000 - 500 = 5500 for the first). */
  lemma {:induction false} InitialDataConsistent(ago45: string, ago12: string, ago25: string, ago10: string)
    ensures AllConsistent(InitialData(ago45, ago12, ago25, ago10))
  {
    var r := InitialData(ago45, ago12, ago25, ago10);
    var t1 := Transaction(101, Credit, 6000, ago45);
    var t2 := Transaction(102, Payment, 500, ago10);
    SumKindAppend([], t1, Credit);
    SumKindAppend([], t1, Payment);
    assert [] + [t1] == [t1];
    SumKindAppend([t1], t2, Credit);
    SumKindAppend([t1], t2, Payment);
    assert [t1] + [t2] == r[0].transactions;
    OneCreditConsistent(r[1]);
    OneCreditConsistent(r[2]);
  }

  // ---------------------------------------------------------------------------
  // The application state

  class App {
    /** The debt list (`debts`). */
    var debts: seq<Debt>
    /** The debt whose payment dialog is open (`paymentModalDebtId`). */
    var paymentDebtId: Option<int>
    /** The debt awaiting delete confirmation (`deleteModalDebtId`). */
    var deleteDebtId: Option<int>
    /** Whether the list is in selection mode (`isSelectionMode`). */
    var selectionMode: bool
    /** The selected debt ids (`selectedDebtIds`). */
    var selectedIds: set<int>
    /** Whether the bulk delete confirmation is open (`isBulkDeleteModalOpen`). */
    var bulkDeleteOpen: bool

    /** Starts from the saved list (or the seed list when nothing is saved), every dialog closed. */
    constructor (saved: seq<Debt>)
      ensures debts == saved
      ensures paymentDebtId == None && deleteDebtId == None
      ensures !selectionMode && selectedIds == {} && !bulkDeleteOpen
    {
      debts := saved;
      paymentDebtId := None;
      deleteDebtId := None;
      selectionMode := false;
      selectedIds := {};
      bulkDeleteOpen := false;
    }

    /** `addDebt`: the new debt goes to the head of the list; older debts keep their order. */
    method AddDebt(input: DebtInput, stamp: int, creditStamp: int)
      modifies this`debts
      ensures debts == [NewDebt(input, stamp, creditStamp)] + old(debts)
      ensures |debts| == |old(debts)| + 1 && debts[1..] == old(debts)
      ensures old(AllConsistent(debts)) && input.montant >= 0 ==> AllConsistent(debts)
    {
      var debt := NewDebt(input, stamp, creditStamp);
      ghost var before := debts;
      debts := [debt] + debts;
      if AllConsistent(before) && input.montant >= 0 {
        NewDebtConsistent(input, stamp, creditStamp);
        forall i | 0 <= i < |debts|
          ensures BalanceConsistent(debts[i])
        {
          if i > 0 {
            assert debts[i] == before[i - 1];
          }
        }
      }
    }

    /** The pay button of a card (`onPay`): opens the payment dialog on that debt. */
    method OpenPayment(id: int)
      modifies this`paymentDebtId
      ensures paymentDebtId == Some(id)
    {
      paymentDebtId := Some(id);
    }

    /** The debt the payment dialog shows (`selectedDebtForPayment`). */
    function PaymentTarget(): (r: Option<Debt>)
      reads this
      ensures paymentDebtId.None? ==> r.None?
      ensures r.Some? ==> r.value in debts && Some(r.value.id) == paymentDebtId
      ensures paymentDebtId.Some? && (exists i :: 0 <= i < |debts| && debts[i].id == paymentDebtId.value) ==> r.Some?
      ensures r.Some? ==> exists i :: 0 <= i < |debts| && debts[i] == r.value && forall j :: 0 <= j < i ==> debts[j].id != r.value.id
    {
      match paymentDebtId
      case None => None
      case Some(id) => FindById(debts, id)
    }

    /**
     * `handlePayment`: with no debt chosen, nothing happens; otherwise every
     * debt with the chosen id is paid, the list keeps its length and order,
     * and the dialog is closed.
     */
    method HandlePayment(amountPaid: int, stamp: int, nowText: string)
      modifies this`debts, this`paymentDebtId
      ensures old(paymentDebtId).None? ==> debts == old(debts)
      ensures old(paymentDebtId).Some? ==> debts == PayMatching(old(debts), old(paymentDebtId).value, amountPaid, stamp, nowText)
      ensures paymentDebtId == None
      ensures old(AllConsistent(debts)) && amountPaid >= 0 ==> AllConsistent(debts)
    {
      if paymentDebtId == None {
        return;
      }
      var id := paymentDebtId.value;
      if AllConsistent(debts) && amountPaid >= 0 {
        PayMatchingKeepsConsistent(debts, id, amountPaid, stamp, nowText);
      }
      debts := PayMatching(debts, id, amountPaid, stamp, nowText);
      paymentDebtId := None;
    }

    /** The delete button of a card (`initiateDelete`): asks for confirmation. */
    method InitiateDelete(id: int)
      modifies this`deleteDebtId
      ensures deleteDebtId == Some(id)
    {
      deleteDebtId := Some(id);
    }

    /** `confirmDelete`: removes every debt with the chosen id and closes the dialog. */
    method ConfirmDelete()
      modifies this`debts, this`deleteDebtId
      ensures old(deleteDebtId).None? ==> debts == old(debts)
      ensures old(deleteDebtId).Some? ==> debts == Filter(old(debts), NotId(old(deleteDebtId).value))
      ensures deleteDebtId == None
      ensures old(AllConsistent(debts)) ==> AllConsistent(debts)
    {
      if deleteDebtId != None {
        if AllConsistent(debts) {
          DeleteKeepsConsistent(debts, NotId(deleteDebtId.value));
        }
        debts := Filter(debts, NotId(deleteDebtId.value));
        deleteDebtId := None;
      }
    }

    /** `handleToggleSelectDebt`: flips one id in a copy of the selection. */
    method ToggleSelectDebt(id: int)
      modifies this`selectedIds
      ensures selectedIds == Toggle(old(selectedIds), id)
    {
      var next := selectedIds;
      if id in next {
        next := next - {id};
      } else {
        next := next + {id};
      }
      selectedIds := next;
    }

    /** The selection button of the toolbar: enters or leaves selection mode; the selection itself is kept. */
    method ToggleSelectionMode()
      modifies this`selectionMode
      ensures selectionMode == !old(selectionMode)
    {
      selectionMode := !selectionMode;
    }

    /** The bulk delete button: asks for confirmation. */
    method OpenBulkDelete()
      modifies this`bulkDeleteOpen
      ensures bulkDeleteOpen
    {
      bulkDeleteOpen := true;
    }

    /**
     * `handleConfirmBulkDelete`: removes exactly the selected debts, leaves
     * selection mode, empties the selection and closes the dialog.
     */
    method ConfirmBulkDelete()
      modifies this`debts, this`selectionMode, this`selectedIds, this`bulkDeleteOpen
      ensures debts == Filter(old(debts), NotSelected(old(selectedIds)))
      ensures !selectionMode && selectedIds == {} && !bulkDeleteOpen
      ensures old(AllConsistent(debts)) ==> AllConsistent(debts)
    {
      if AllConsistent(debts) {
        DeleteKeepsConsistent(debts, NotSelected(selectedIds));
      }
      debts := Filter(debts, NotSelected(selectedIds));
      selectionMode := false;
      selectedIds := {};
      bulkDeleteOpen := false;
    }
  }
}
