/**
 * The read-only views App.tsx derives from the debt list: the list shown on
 * screen (`filteredDebts`: unpaid debts, then the search, then the date
 * range, then the chosen order) and the two totals of the summary card.
 *
 * Date texts are turned into milliseconds by `timeOf`, which stands for
 * `new Date(text).getTime()`.
 */
module LedgerViews {
  import opened Types
  import opened Seqs
  import opened JsText
  import opened Ledger

  /** The two date inputs of the filter bar; an empty text is an unset bound. */
  datatype DateRange = DateRange(start: string, end: string)

  /** The search test, for a search text already lower-cased: name (lower-cased), phone or date contains it. */
  predicate SearchHit(d: Debt, search: string) {
    Includes(Lower(d.nom), search) || Includes(d.tel, search) || Includes(d.date, search)
  }

  /**
   * The date test: with both bounds set, the debt's date lies between the
   * start and the last millisecond of the end day; otherwise every debt passes.
   */
  predicate InRange(d: Debt, range: DateRange, timeOf: string -> int) {
    range.start == "" || range.end == "" ||
    (timeOf(range.start) <= timeOf(d.date) && timeOf(d.date) <= timeOf(range.end) + (MsPerDay - 1))
  }

  /** `d => !d.isPaid` */
  function Unpaid(): Debt -> bool {
    (d: Debt) => !d.isPaid
  }

  /** The search stage, lower-casing the term as the app does. */
  function Searched(term: string): Debt -> bool {
    (d: Debt) => SearchHit(d, Lower(term))
  }

  function Dated(range: DateRange, timeOf: string -> int): Debt -> bool {
    (d: Debt) => InRange(d, range, timeOf)
  }

  /** A debt the list shows, whatever the order. */
  predicate Listed(d: Debt, term: string, range: DateRange, timeOf: string -> int) {
    !d.isPaid && SearchHit(d, Lower(term)) && InRange(d, range, timeOf)
  }

  // ---------------------------------------------------------------------------
  // Orders

  /** `transactions.find(tx => tx.type === 'CREDIT')`. */
  function FirstCredit(txs: seq<Transaction>): (r: Option<Transaction>)
    ensures r.Some? ==> r.value in txs && r.value.kind == Credit
    ensures r.Some? ==> exists i :: 0 <= i < |txs| && txs[i] == r.value && forall j :: 0 <= j < i ==> txs[j].kind != Credit
    ensures r.None? <==> forall i :: 0 <= i < |txs| ==> txs[i].kind != Credit
  {
    if txs == [] then None
    else if txs[0].kind == Credit then
      assert txs[0] == txs[0];
      Some(txs[0])
    else
      var r := FirstCredit(txs[1..]);
      if r.Some? then
        var k :| 0 <= k < |txs[1..]| && txs[1..][k] == r.value && forall j :: 0 <= j < k ==> txs[1..][j].kind != Credit;
        assert txs[k + 1] == r.value;
        assert forall j :: 0 <= j < k + 1 ==> txs[j].kind != Credit by {
          forall j | 0 <= j < k + 1
            ensures txs[j].kind != Credit
          {
            if j > 0 {
              assert txs[j] == txs[1..][j - 1];
            }
          }
        }
        r
      else
        assert forall i :: 1 <= i < |txs| ==> txs[i] == txs[1..][i - 1];
        r
  }

  /** The date of the first credit, or the debt's own date when there is none or it is empty. */
  function CreditDate(d: Debt): (r: string)
    ensures FirstCredit(d.transactions).Some? && FirstCredit(d.transactions).value.date != "" ==>
      r == FirstCredit(d.transactions).value.date
    ensures FirstCredit(d.transactions).None? || FirstCredit(d.transactions).value.date == "" ==> r == d.date
  {
    match FirstCredit(d.transactions)
    case Some(t) => if t.date != "" then t.date else d.date
    case None => d.date
  }

  /** The quantity each order compares. */
  function SortKey(sortBy: SortOption, d: Debt, timeOf: string -> int): int {
    match sortBy
    case AmountDesc => d.montant
    case AmountAsc => d.montant
    case DateDesc => timeOf(d.date)
    case DateCreditAsc => timeOf(CreditDate(d))
    case DateCreditDesc => timeOf(CreditDate(d))
    case DateAsc => timeOf(d.date)
  }

  predicate Descending(sortBy: SortOption) {
    sortBy == AmountDesc || sortBy == DateDesc || sortBy == DateCreditDesc
  }

  /**
   * The comparator as a key: sorting ascending by `Rank` orders exactly as the
   * comparator `a - b` (ascending options) or `b - a` (descending options) does.
   */
  function Rank(sortBy: SortOption, timeOf: string -> int): Debt -> int {
    (d: Debt) => if Descending(sortBy) then -SortKey(sortBy, d, timeOf) else SortKey(sortBy, d, timeOf)
  }

  // ---------------------------------------------------------------------------
  // The list on screen

  function Listing(term: string, range: DateRange, timeOf: string -> int): Debt -> bool {
    (d: Debt) => Listed(d, term, range, timeOf)
  }

  /** The three filter stages of `filteredDebts`, before sorting. */
  function Shown(debts: seq<Debt>, term: string, range: DateRange, timeOf: string -> int): (r: seq<Debt>)
    ensures forall d :: multiset(r)[d] == if Listed(d, term, range, timeOf) then multiset(debts)[d] else 0
  {
    var unpaid := Filter(debts, Unpaid());
    var found := Filter(unpaid, Searched(term));
    var r := Filter(found, Dated(range, timeOf));
    FilterMultiset(debts, Unpaid());
    FilterMultiset(unpaid, Searched(term));
    FilterMultiset(found, Dated(range, timeOf));
    r
  }

  /**
   * `filteredDebts`. Each debt shown is unpaid, matches the search and lies
   * in the date range; each such debt is shown as often as it is in the
   * list and nothing else is; and the result is in the chosen order.
   */
  function FilteredDebts(debts: seq<Debt>, term: string, sortBy: SortOption, range: DateRange, timeOf: string -> int): (r: seq<Debt>)
    ensures forall i :: 0 <= i < |r| ==> Listed(r[i], term, range, timeOf)
    ensures forall d :: multiset(r)[d] == if Listed(d, term, range, timeOf) then multiset(debts)[d] else 0
    ensures SortedBy(r, Rank(sortBy, timeOf))
  {
    var shown := Shown(debts, term, range, timeOf);
    var r := SortBy(shown, Rank(sortBy, timeOf));
    OrderedIsSorted(r, Rank(sortBy, timeOf));
    OnlyAccepted(r, debts, Listing(term, range, timeOf));
    r
  }

  /**
   * Typing part of a phone number (or any text without capital letters)
   * finds the debts whose phone contains it, whatever their name.
   */
  lemma PhoneSearchFinds(d: Debt, term: string)
    requires forall i :: 0 <= i < |term| ==> !('A' <= term[i] <= 'Z')
    requires Includes(d.tel, term)
    ensures Searched(term)(d)
  {
    LowerFixesNonLetters(term);
  }

  /** `a` comes no later than `b` under the comparator of each order. */
  predicate InOrder(sortBy: SortOption, timeOf: string -> int, a: Debt, b: Debt) {
    match sortBy
    case AmountDesc => a.montant >= b.montant
    case AmountAsc => a.montant <= b.montant
    case DateDesc => timeOf(a.date) >= timeOf(b.date)
    case DateAsc => timeOf(a.date) <= timeOf(b.date)
    case DateCreditAsc => timeOf(CreditDate(a)) <= timeOf(CreditDate(b))
    case DateCreditDesc => timeOf(CreditDate(a)) >= timeOf(CreditDate(b))
  }

  /** The list is in the order the user chose: every earlier debt compares before every later one. */
  lemma {:induction false} FilteredOrder(debts: seq<Debt>, term: string, sortBy: SortOption, range: DateRange, timeOf: string -> int)
    ensures var r := FilteredDebts(debts, term, sortBy, range, timeOf);
      forall i, j :: 0 <= i < j < |r| ==> InOrder(sortBy, timeOf, r[i], r[j])
  {
    var r := FilteredDebts(debts, term, sortBy, range, timeOf);
    forall i, j | 0 <= i < j < |r|
      ensures InOrder(sortBy, timeOf, r[i], r[j])
    {
      assert Rank(sortBy, timeOf)(r[i]) <= Rank(sortBy, timeOf)(r[j]);
    }
  }

  /**
   * Debts that compare equal keep the order they have in the debt list:
   * restricted to any one rank, the screen list is the filtered list.
   */
  lemma {:induction false} FilteredStable(debts: seq<Debt>, term: string, sortBy: SortOption, range: DateRange, timeOf: string -> int, k: int)
    ensures WithKey(FilteredDebts(debts, term, sortBy, range, timeOf), Rank(sortBy, timeOf), k)
         == WithKey(Shown(debts, term, range, timeOf), Rank(sortBy, timeOf), k)
  {
    SortStable(Shown(debts, term, range, timeOf), Rank(sortBy, timeOf), k);
  }

  /** An empty search lets every debt through. */
  lemma {:induction false} EmptySearchMatchesAll(debts: seq<Debt>)
    ensures Filter(debts, Searched("")) == debts
  {
    forall i | 0 <= i < |debts|
      ensures Searched("")(debts[i])
    {
      IncludesEmpty(Lower(debts[i].nom));
    }
    FilterKeepsAll(debts, Searched(""));
  }

  /** With one bound unset the date filter lets every debt through. */
  lemma {:induction false} OpenRangeMatchesAll(debts: seq<Debt>, range: DateRange, timeOf: string -> int)
    requires range.start == "" || range.end == ""
    ensures Filter(debts, Dated(range, timeOf)) == debts
  {
    FilterKeepsAll(debts, Dated(range, timeOf));
  }

  /** A debt paid or deleted is never on screen. */
  lemma {:induction false} PaidNeverListed(debts: seq<Debt>, term: string, sortBy: SortOption, range: DateRange, timeOf: string -> int, d: Debt)
    requires d.isPaid || d !in debts
    ensures d !in FilteredDebts(debts, term, sortBy, range, timeOf)
  {
    var r := FilteredDebts(debts, term, sortBy, range, timeOf);
    assert multiset(r)[d] == 0;
  }

  // ---------------------------------------------------------------------------
  // Totals

  /** `reduce((acc, d) => acc + d.montant, 0)`. */
  function SumMontant(debts: seq<Debt>): (r: int)
    ensures (forall i :: 0 <= i < |debts| ==> debts[i].montant >= 0) ==> r >= 0
    ensures debts == [] ==> r == 0
  {
    if debts == [] then 0
    else
      var front := debts[..|debts| - 1];
      assert forall i :: 0 <= i < |front| ==> front[i] == debts[i];
      SumMontant(front) + debts[|debts| - 1].montant
  }

  /**
   * `totalAmount`: what the unpaid debts still owe. It is never negative while
   * no balance is, and it is zero once every debt is paid.
   */
  function TotalAmount(debts: seq<Debt>): (r: int)
    ensures (forall i :: 0 <= i < |debts| ==> debts[i].montant >= 0) ==> r >= 0
    ensures (forall i :: 0 <= i < |debts| ==> debts[i].isPaid) ==> r == 0
  {
    var unpaid := Filter(debts, Unpaid());
    FilterMembers(debts, Unpaid());
    assert forall i :: 0 <= i < |unpaid| ==> unpaid[i] in debts;
    assert (forall i :: 0 <= i < |debts| ==> debts[i].isPaid) ==> unpaid == [] by {
      if unpaid != [] {
        assert unpaid[0] in debts;
      }
    }
    SumMontant(unpaid)
  }

  /** `totalCount`: how many debts are unpaid. */
  function TotalCount(debts: seq<Debt>): (n: nat)
    ensures n <= |debts|
  {
    |Filter(debts, Unpaid())|
  }

  lemma {:induction false} SumMontantPrepend(d: Debt, debts: seq<Debt>)
    ensures SumMontant([d] + debts) == d.montant + SumMontant(debts)
    decreases |debts|
  {
    if debts != [] {
      var last := debts[|debts| - 1];
      assert ([d] + debts)[..|debts|] == [d] + debts[..|debts| - 1];
      SumMontantPrepend(d, debts[..|debts| - 1]);
    }
  }

  /** The total is the sum of the balances of the unpaid debts, with no debt counted twice. */
  lemma {:induction false} TotalsUnfold(d: Debt, debts: seq<Debt>)
    ensures TotalAmount([d] + debts) == (if d.isPaid then 0 else d.montant) + TotalAmount(debts)
    ensures TotalCount([d] + debts) == (if d.isPaid then 0 else 1) + TotalCount(debts)
  {
    assert ([d] + debts)[0] == d && ([d] + debts)[1..] == debts;
    if !d.isPaid {
      assert Filter([d] + debts, Unpaid()) == [d] + Filter(debts, Unpaid());
      SumMontantPrepend(d, Filter(debts, Unpaid()));
    } else {
      assert Filter([d] + debts, Unpaid()) == Filter(debts, Unpaid());
    }
  }

  /** The summary card counts exactly the debts the list shows when no search or date filter is set. */
  lemma {:induction false} TotalCountMatchesList(debts: seq<Debt>, sortBy: SortOption, timeOf: string -> int)
    ensures TotalCount(debts) == |FilteredDebts(debts, "", sortBy, DateRange("", ""), timeOf)|
  {
    var unpaid := Filter(debts, Unpaid());
    EmptySearchMatchesAll(unpaid);
    OpenRangeMatchesAll(unpaid, DateRange("", ""), timeOf);
    assert Lower("") == "";
    var r := FilteredDebts(debts, "", sortBy, DateRange("", ""), timeOf);
    assert multiset(r) == multiset(SortBy(unpaid, Rank(sortBy, timeOf)));
  }

  /** The debts `confirmDelete` removes. */
  function HasId(id: int): Debt -> bool {
    (d: Debt) => d.id == id
  }

  /**
   * Deleting the debts with one id takes exactly their unpaid balances out of
   * the totals: what is owed splits between the debts with that id and the others.
   */
  lemma {:induction false} TotalsSplitById(debts: seq<Debt>, id: int)
    ensures TotalAmount(debts) == TotalAmount(Filter(debts, NotId(id))) + TotalAmount(Filter(debts, HasId(id)))
    ensures TotalCount(debts) == TotalCount(Filter(debts, NotId(id))) + TotalCount(Filter(debts, HasId(id)))
  {
    if debts != [] {
      var d := debts[0];
      var rest := debts[1..];
      assert debts == [d] + rest;
      TotalsSplitById(rest, id);
      TotalsUnfold(d, rest);
      if d.id == id {
        assert Filter(debts, HasId(id)) == [d] + Filter(rest, HasId(id));
        assert Filter(debts, NotId(id)) == Filter(rest, NotId(id));
        TotalsUnfold(d, Filter(rest, HasId(id)));
      } else {
        assert Filter(debts, NotId(id)) == [d] + Filter(rest, NotId(id));
        assert Filter(debts, HasId(id)) == Filter(rest, HasId(id));
        TotalsUnfold(d, Filter(rest, NotId(id)));
      }
    }
  }
}
