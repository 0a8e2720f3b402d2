/**
 * What one card of the debt list shows and does (components/DebtCard.tsx):
 * the days since the debt was opened, its urgency badge, the late-days label,
 * which buttons are offered, and what a click on the card does.
 */
module DebtCard {
  import opened Types

  /**
   * `calculerJours`: whole days from `dated` to `now` (both in milliseconds),
   * rounded down; negative for a debt dated in the future.
   */
  function ElapsedDays(now: int, dated: int): (r: int)
    ensures r * MsPerDay <= now - dated < (r + 1) * MsPerDay
    ensures now >= dated <==> r >= 0
  {
    (now - dated) / MsPerDay
  }

  /** `calculerJours(debt.date)`, the date text read by the date parser `timeOf`. */
  function DaysOpen(d: Debt, now: int, timeOf: string -> int): (r: int)
    ensures r * MsPerDay <= now - timeOf(d.date) < (r + 1) * MsPerDay
    ensures now >= timeOf(d.date) <==> r >= 0
  {
    ElapsedDays(now, timeOf(d.date))
  }

  /** A debt is shown as paid when its status says so or when the legacy flag is set. */
  predicate ShownPaid(d: Debt): (r: bool)
    ensures d.status == Some(Paid) ==> r
    ensures d.isPaid ==> r
    ensures r ==> d.status == Some(Paid) || d.isPaid
    ensures d.status.None? ==> (r <==> d.isPaid)
    ensures (d.status == Some(Paid) <==> d.isPaid) ==> (r <==> d.isPaid)
  {
    d.status == Some(Paid) || d.isPaid
  }

  predicate ShownContentious(d: Debt) {
    d.status == Some(Contentious)
  }

  /** The five badges of `getUrgencyStyles`. */
  datatype Urgency = PaidBadge | ContentiousBadge | Critical | Medium | Recent

  /** How urgent each badge reads, lowest first, for the unpaid and uncontested badges. */
  function Severity(u: Urgency): int {
    match u
    case Recent => 0
    case Medium => 1
    case Critical => 2
    case ContentiousBadge => 3
    case PaidBadge => 0
  }

  /**
   * `getUrgencyStyles`: paid first, then contentious, then more than 30 days
   * is critical, more than 15 days is medium, anything else (including a
   * negative count) is recent.
   */
  function UrgencyOf(d: Debt, jours: int): (u: Urgency)
    ensures u == PaidBadge <==> ShownPaid(d)
    ensures u == ContentiousBadge <==> !ShownPaid(d) && ShownContentious(d)
    ensures u == Critical <==> !ShownPaid(d) && !ShownContentious(d) && jours > 30
    ensures u == Medium <==> !ShownPaid(d) && !ShownContentious(d) && 15 < jours <= 30
    ensures u == Recent <==> !ShownPaid(d) && !ShownContentious(d) && jours <= 15
  {
    if ShownPaid(d) then PaidBadge
    else if ShownContentious(d) then ContentiousBadge
    else if jours > 30 then Critical
    else if jours > 15 then Medium
    else Recent
  }

  /** An unpaid, uncontested debt only gets more urgent as days pass. */
  lemma UrgencyGrowsWithAge(d: Debt, earlier: int, later: int)
    requires !ShownPaid(d) && !ShownContentious(d)
    requires earlier <= later
    ensures Severity(UrgencyOf(d, earlier)) <= Severity(UrgencyOf(d, later))
  {
  }

  /** The badge does not depend on the balance, the phone or the history. */
  lemma UrgencyIgnoresBalance(d: Debt, e: Debt, jours: int)
    requires d.isPaid == e.isPaid && d.status == e.status
    ensures UrgencyOf(d, jours) == UrgencyOf(e, jours)
  {
  }

  /** The late-days label: absent on a paid debt, else "N days" or "today". */
  datatype DaysLabel = Late(days: int) | Today

  function DaysLabelOf(d: Debt, jours: int): (r: Option<DaysLabel>)
    ensures r.None? <==> ShownPaid(d)
    ensures r == Some(Today) <==> !ShownPaid(d) && jours <= 0
    ensures r.Some? && r.value.Late? ==> r.value.days == jours && jours > 0
  {
    if ShownPaid(d) then None
    else if jours > 0 then Some(Late(jours))
    else Some(Today)
  }

  /** The buttons of a card. */
  datatype Action = RemindSoft | RemindFirm | DeleteDebt | PayDebt

  /**
   * Outside selection mode an unpaid debt offers both reminders, delete and
   * pay, and a paid (archived) one offers delete only; in selection mode
   * there are no buttons.
   */
  function ActionsOf(d: Debt, selectionMode: bool): (r: set<Action>)
    ensures PayDebt in r <==> !selectionMode && !ShownPaid(d)
    ensures RemindSoft in r <==> !selectionMode && !ShownPaid(d)
    ensures RemindFirm in r <==> !selectionMode && !ShownPaid(d)
    ensures DeleteDebt in r <==> !selectionMode
  {
    if selectionMode then {}
    else if ShownPaid(d) then {DeleteDebt}
    else {RemindSoft, RemindFirm, DeleteDebt, PayDebt}
  }

  /** What a click on the card asks of the list. */
  datatype Click = ToggleSelect(id: int) | ViewDetails(id: int)

  /** `handleCardClick`: selects in selection mode, opens the details otherwise. */
  function ClickOf(d: Debt, selectionMode: bool): (r: Click)
    ensures r.id == d.id
    ensures r.ToggleSelect? <==> selectionMode
  {
    if selectionMode then ToggleSelect(d.id) else ViewDetails(d.id)
  }
}
