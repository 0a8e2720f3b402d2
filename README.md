# Debt ledger of "Mon Carnet", modelled in Dafny

Mon Carnet is a shopkeeper's credit book. Each customer debt ("dette") has a
balance (`montant`) and an append-only history of CREDIT and PAYMENT
transactions. This project models the ledger at the heart of the app and
proves properties of that model:

- the list of debts with its mutators: add, pay, delete, select and bulk delete (`Ledger`, with the class `Ledger.App`);
- the views derived from it: the filtered and sorted list on screen, and the totals (`LedgerViews`);
- the reminder text (`Reminder`) and the CSV export (`CsvExport`);
- what a debt card shows: elapsed days, urgency badge, late-days label, buttons, and the effect of a click (`DebtCard`);
- the payment dialog: preview, pay-in-full and submit guard (`PaymentModal`, with the class `PaymentModal.PaymentForm`);
- the add-debt form: validation, record and reset (`AddDebtModal`, with the class `AddDebtModal.AddDebtForm`);
- the details dialog: history and shared receipt (`DebtDetailsModal`).

The JavaScript built-ins the code relies on are modelled in `JsText`:
`toLowerCase`, `includes`/`indexOf`, `replace` with a string pattern
(including its `$` patterns), `Number(text)`, `toString` and `split('T')[0]`.
`Seqs` holds `filter` and a stable sort. `Types` holds the records of `types.ts`.

## How the model is shaped

- The `debts` state of `App.tsx` and the form state of the two dialogs are classes. Their fields are reassigned by methods whose `ensures` give the whole new state.
- The filter/sort pipeline, the totals, the reminder, the CSV rows, the card logic and the receipt are functions. Each function has lemmas stating what the code promises.
- Amounts are unbounded integers.
- Dates stay the text the app stores. `new Date(text).getTime()` is a parameter `timeOf: string -> int`, and the current time `now` is a parameter. So are the ids drawn from `Date.now()` and the ISO text of "now". `addDebt` reads the clock twice, once for the debt's id and once for its CREDIT's id, so `Ledger.NewDebt` takes two stamps (`stamp`, `creditStamp`) that may or may not be equal.
- The balance invariant is the predicate `Ledger.BalanceConsistent`: `montant == max(0, Σ CREDIT − Σ PAYMENT)`. The seed list satisfies it, and adding (a non-negative amount), paying (a non-negative amount) and deleting preserve it.

The model follows the code as written; in particular:

- The code never writes `status`. New debts and the seed list carry none, so it is `Option<DebtStatus>` here.
- A payment sets only `isPaid` (never `status = PAID`) and does not override a contentious status.
- There is no operation that toggles "contentious" in these files.
- The list and the totals filter on `isPaid` alone. A record whose `status` is `PAID` but whose `isPaid` is false stays in the list and in the totals, while its card shows the paid badge (`DebtCard.ShownPaid`).
- The search looks at the name, the phone and the date only, not at transaction notes.
- A card is shown as paid when `status == PAID || isPaid`, not when the balance is 0.

## Model

| member | source | states |
|---|---|---|
| Ledger.NewDebt | App.tsx:60-66 | the new debt has id `stamp`, keeps the form's fields, is unpaid, has no status and exactly one CREDIT, with id `creditStamp`, of `montant` dated with the debt date |
| Ledger.NewDebtConsistent | App.tsx:60-66 | a new debt with a non-negative amount satisfies the balance invariant |
| Ledger.App.constructor | App.tsx:31-54 | the app starts from the given list with no dialog open, not in selection mode, and with an empty selection |
| Ledger.App.AddDebt | App.tsx:60-68 | `addDebt`: the list becomes `[NewDebt(input, stamp, creditStamp)] ++ old`, one longer, older debts in their order; the invariant is kept when the amount is non-negative |
| Ledger.Pay | App.tsx:72-76 | new balance is `max(0, old − amount)`, at least 0 and at most the old balance for a non-negative amount; `isPaid` iff `old − amount ≤ 0`, iff the new balance is 0; exactly one PAYMENT entry appended; other fields unchanged |
| Ledger.PayKeepsBalanceConsistent | App.tsx:74-76 | a non-negative payment keeps `montant == max(0, Σ CREDIT − Σ PAYMENT)` |
| Ledger.PayMatching | App.tsx:72-77 | the map keeps length and order, changes only debts with the chosen id, and pays each of those |
| Ledger.PayMatchingKeepsConsistent | App.tsx:72-77 | after a non-negative payment every debt still satisfies the balance invariant |
| Ledger.PayMatchingAppendsOnly | App.tsx:76 | every earlier transaction of every debt is still there, in place |
| Ledger.App.OpenPayment | App.tsx:221 | the pay button opens the payment dialog on that debt |
| Ledger.App.PaymentTarget | App.tsx:182 | none when no id is chosen; found whenever a debt carries the chosen id, and then it is the first debt in the list with that id |
| Ledger.App.HandlePayment | App.tsx:70-79 | no-op on the list when no debt is chosen; otherwise the list becomes `PayMatching` of the old list; the dialog is closed; the invariant is kept |
| Ledger.App.InitiateDelete | App.tsx:81 | asks to confirm deleting that id |
| Ledger.DeleteKeepsOthers | App.tsx:84 | after deletion no debt has the id, and every debt with another id remains |
| Ledger.DeleteMissingIsNoOp | App.tsx:84 | deleting an id no debt has leaves the list unchanged |
| Ledger.DeleteUndoesAdd | App.tsx:60-68 | deleting a debt just added under a fresh id restores the list it was added to |
| Ledger.DeleteKeepsConsistent | App.tsx:84 | deleting keeps the balance invariant of all remaining debts |
| Ledger.App.ConfirmDelete | App.tsx:82-87 | with an id pending, the list keeps exactly the debts with another id, in order, and the dialog closes; otherwise nothing changes |
| Ledger.Toggle | App.tsx:127-134 | the clicked id flips membership; every other id keeps it |
| Ledger.ToggleTwice | App.tsx:127-134 | toggling the same id twice restores the selection |
| Ledger.App.ToggleSelectDebt | App.tsx:127-134 | the selection becomes `Toggle(old, id)` |
| Ledger.App.ToggleSelectionMode | App.tsx:214 | the toolbar button flips selection mode and keeps the selection |
| Ledger.App.OpenBulkDelete | App.tsx:240 | opens the bulk delete confirmation |
| Ledger.BulkDeleteKeepsUnselected | App.tsx:137 | bulk delete leaves no selected id, and every unselected debt remains |
| Ledger.App.ConfirmBulkDelete | App.tsx:136-141 | removes exactly the selected debts, leaves selection mode, empties the selection, closes the dialog, and keeps the invariant |
| Ledger.FindById | App.tsx:182 | `find`: the first debt in the list with the id; no result iff no debt has the id |
| Ledger.InitialData | App.tsx:22-26 | the seed list has three debts |
| Ledger.InitialDataConsistent | App.tsx:22-26 | every seed debt satisfies the balance invariant (6000 − 500 = 5500, 1200, 8000) |
| Seqs.Filter | App.tsx:91 | `filter` keeps only elements passing the test and is no longer than its input |
| Seqs.FilterMembers | App.tsx:84 | an element is in the filtered list iff it is in the list and passes the test |
| Seqs.FilterMultiset | App.tsx:91-104 | each element occurs in the result as often as in the input if it passes the test, else not at all |
| Seqs.SortBy | App.tsx:105-124 | `sort` returns a permutation in non-decreasing key order |
| Seqs.SortStable | App.tsx:105-124 | elements with equal keys keep their relative order |
| JsText.Lower | App.tsx:93-94 | `toLowerCase` keeps length and lower-cases each ASCII letter, leaving every other character alone |
| JsText.IndexOf | App.tsx:94-96 | finds an occurrence iff there is one, and it is the first |
| JsText.Includes | App.tsx:94-96 | `includes` holds iff the text occurs somewhere |
| JsText.IncludesEmpty | App.tsx:93-96 | every text includes the empty text |
| LedgerViews.FilteredDebts | App.tsx:89-125 | each debt shown is unpaid, matches the lower-cased search in the name, phone or date, and lies in `[start, end + 1 day − 1 ms]` when both bounds are set; the result is a permutation of the matching debts; and it is sorted by the chosen key |
| LedgerViews.FirstCredit | App.tsx:111-112 | `find`: the first CREDIT of the history, every earlier transaction being a PAYMENT; none iff there is no CREDIT |
| LedgerViews.CreditDate | App.tsx:111-117 | the date of the first CREDIT when there is one and its date is not empty; the debt's own date otherwise |
| LedgerViews.FilteredOrder | App.tsx:105-124 | for each of the six options, every earlier debt compares before every later one (amount or time, ascending or descending, credit date for the credit options) |
| LedgerViews.FilteredStable | App.tsx:105-124 | debts with equal keys appear in their list order |
| LedgerViews.EmptySearchMatchesAll | App.tsx:92-97 | an empty search keeps every debt |
| LedgerViews.PhoneSearchFinds | App.tsx:92-97 | a search without capital letters that occurs in a debt's phone finds that debt |
| LedgerViews.OpenRangeMatchesAll | App.tsx:99 | with a bound unset, the date filter keeps every debt |
| LedgerViews.PaidNeverListed | App.tsx:91 | a paid or deleted debt is never on screen |
| LedgerViews.TotalCount | App.tsx:180 | the count of unpaid debts is at most the list length |
| LedgerViews.TotalsUnfold | App.tsx:179-180 | a debt adds its balance and 1 to the totals when unpaid, nothing when paid |
| LedgerViews.SumMontant | App.tsx:179 | the sum of balances is 0 for no debt and not negative when no balance is |
| LedgerViews.TotalAmount | App.tsx:179 | the total owed is not negative when no balance is, and is 0 when every debt is paid |
| LedgerViews.TotalCountMatchesList | App.tsx:89-180 | with no search and no date range, the count equals the length of the list on screen |
| LedgerViews.TotalsSplitById | App.tsx:179-180 | deleting an id removes exactly the unpaid balances and count of the debts with that id from the totals |
| DebtCard.ElapsedDays | components/DebtCard.tsx:20-23 | whole days elapsed, rounded down: `r·day ≤ now − date < (r+1)·day`; negative iff the date is in the future |
| DebtCard.DaysOpen | components/DebtCard.tsx:20-25 | the card's day count is the whole days from the debt's date to now, rounded down; negative iff the date is in the future |
| DebtCard.ShownPaid | components/DebtCard.tsx:27 | shown paid iff the status is `PAID` or the `isPaid` flag is set, whatever the other says (a paid-off contentious debt shows paid); without a status the flag alone decides |
| DebtCard.UrgencyOf | components/DebtCard.tsx:26-60 | paid wins, then contentious, then `> 30` critical, `15 < j ≤ 30` medium, `≤ 15` recent, each as an if-and-only-if |
| DebtCard.UrgencyGrowsWithAge | components/DebtCard.tsx:42-59 | for an unpaid, uncontested debt the badge only gets more urgent as days pass |
| DebtCard.UrgencyIgnoresBalance | components/DebtCard.tsx:26-60 | the badge depends only on the paid flag, the status and the days |
| DebtCard.DaysLabelOf | components/DebtCard.tsx:116-122 | no label iff paid; "today" iff unpaid and `jours ≤ 0`; otherwise the day count |
| DebtCard.ActionsOf | components/DebtCard.tsx:136-176 | pay and both reminders iff not in selection mode and unpaid; delete iff not in selection mode |
| DebtCard.ClickOf | components/DebtCard.tsx:69-75 | a click toggles selection iff in selection mode, otherwise it opens the details, always for the card's id |
| Reminder.FillPlaceholders | App.tsx:165-168 | a template with `{name}`, `{amount}`, `{days}` in that order and no other `{` before `{days}` is filled with exactly the three texts, provided the name and the amount text carry no `{` |
| Reminder.ReminderStatesDebt | App.tsx:162-169 | for a customer name without `{`, the chosen template's message names the customer, states the balance and the days since the debt date |
| Reminder.ReminderMessageAsWritten | App.tsx:162-169 | `getReminderMessage` as written: for a name without `$` it is the intended message |
| Reminder.DollarNameKeepsPlaceholder | App.tsx:166 | for a name `$&`, `replace` puts `{name}` back instead of the name |
| Reminder.DollarNameMessage | App.tsx:165-168 | template `{name}`, name `$&`: as written gives `{name}`, intended gives `$&` |
| Reminder.InitiateReminder | App.tsx:155-160 | a reminder is prepared iff a debt with the id exists, for the first such debt and the chosen tone |
| CsvExport.EscapeQuotes | App.tsx:145 | doubling quotes never shortens a text |
| CsvExport.EscapeQuoteFree | App.tsx:145 | a name without quotes is written unchanged |
| CsvExport.ReadEscaped | App.tsx:145 | reading the quoted name field back gives the name and the rest of the line |
| CsvExport.CsvRow | App.tsx:145 | a row is id, quoted name, balance, date and phone, separated by commas |
| CsvExport.RowRoundTrip | App.tsx:145 | every row parses back to the debt's id, name and balance, followed by date and phone |
| CsvExport.Rows | App.tsx:145 | one line per debt on screen, line `i` being the line of debt `i` |
| CsvExport.CsvContent | App.tsx:144-146 | the data prefix and the header line, then one newline and the rows joined by newlines when there are rows; nothing after the header when there are none |
| CsvExport.ExportAppend | App.tsx:145-146 | one more debt on screen appends exactly its own line |
| CsvExport.ExportContent | App.tsx:143-146 | the file holds exactly the debts on screen, each as often as in the list, in the order of the chosen sort, debts with equal keys in their list order |
| CsvExport.ExportFileName | App.tsx:149 | `dettes_` + the prefix of the ISO timestamp up to its first `T` (the whole text if there is none) + `.csv` |
| JsText.JoinCons | App.tsx:145 | `join` of a part followed by more parts is that part, the separator, and the join of the rest |
| JsText.JoinSnoc | App.tsx:146 | `join` of parts with one more at the end adds the separator and that part |
| JsText.BeforeT | App.tsx:149 | `split('T')[0]`: the longest prefix without `T` |
| JsText.JsNumber | components/PaymentModal.tsx:27 | `Number`: reads a text iff it is empty, all digits, or a minus sign and digits; the empty text is 0, digits their decimal value, a minus sign negates it |
| JsText.IntToString | components/PaymentModal.tsx:66 | `toString`: a non-empty numeral, digits after its first character, with a minus sign iff negative, and no leading zero |
| JsText.NumberRoundTrip | components/PaymentModal.tsx:66 | `Number(n.toString()) == n` |
| JsText.JsReplaceFirst | App.tsx:166-168 | `replace` with a string pattern: no occurrence leaves the text as it is; without `$` it is the literal replacement |
| JsText.ReplaceFirst | App.tsx:166-168 | literal replacement of the first occurrence: prefix kept, replacement inserted, suffix kept |
| PaymentModal.PayAmount | components/PaymentModal.tsx:27 | `Number(amount) \|\| 0`: a text that is not empty, digits, or a minus sign and digits counts as 0; digits count as their decimal value, with a minus sign as its negation |
| PaymentModal.Remaining | components/PaymentModal.tsx:28 | `max(0, current − pay)`: never negative |
| PaymentModal.View | components/PaymentModal.tsx:24-108 | nothing iff closed or no debt; otherwise balance, amount, remaining; "fully paid" iff the amount covers the balance and is positive; button enabled iff the amount is positive |
| PaymentModal.PaymentForm.constructor | components/PaymentModal.tsx:15 | the field starts empty |
| PaymentModal.PaymentForm.Open | components/PaymentModal.tsx:18-22 | opening on a debt empties the field |
| PaymentModal.PaymentForm.Edit | components/PaymentModal.tsx:85 | typing sets the field |
| PaymentModal.PaymentForm.PayFull | components/PaymentModal.tsx:66 | the field gets the balance as text, read back as the balance, leaving 0 to pay |
| PaymentModal.PaymentForm.Submit | components/PaymentModal.tsx:30-36 | confirms iff the amount is positive, with that amount, whatever the balance; an empty field confirms nothing |
| PaymentModal.PayFullPreview | components/PaymentModal.tsx:66-100 | after pay-in-full on an owed debt, the preview reads "fully paid" with 0 left |
| PaymentModal.PreviewMatchesLedger | components/PaymentModal.tsx:28-100 | for a positive amount, the ledger's new balance is the preview's, and paid iff "fully paid" |
| PaymentModal.PaymentWithinBalance | components/PaymentModal.tsx:28-80 | a positive amount up to the balance lowers it by exactly that amount |
| PaymentModal.OverpaymentClears | components/PaymentModal.tsx:32-35 | a larger amount clears the balance and is recorded in full |
| PaymentModal.FullPaymentArchives | components/PaymentModal.tsx:66 | after paying in full the card shows the paid badge and offers delete only |
| AddDebtModal.ToRecord | components/AddDebtModal.tsx:25-32 | nothing iff name, amount or phone is empty; otherwise the fields unchanged and the amount as `Number` reads it |
| AddDebtModal.RecordRoundTrip | components/AddDebtModal.tsx:25-32 | a record written into the fields comes back as the same record |
| AddDebtModal.AddDebtForm.constructor | components/AddDebtModal.tsx:14-19 | empty name and amount, today's date, phone `222` |
| AddDebtModal.AddDebtForm.Edit | components/AddDebtModal.tsx:72-124 | one field takes the text; the others keep theirs |
| AddDebtModal.AddDebtForm.Submit | components/AddDebtModal.tsx:23-42 | the record is `ToRecord` of the fields; on success the form resets to its start and closes, otherwise it is unchanged and stays open |
| AddDebtModal.FormDebtConsistent | components/AddDebtModal.tsx:27-32 | a record with a non-negative amount becomes an unpaid debt whose balance is the typed amount and whose history explains it |
| DebtDetailsModal.RowOf | components/DebtDetailsModal.tsx:93-110 | a history row shows `+` iff CREDIT and `-` iff PAYMENT, with the amount and date |
| DebtDetailsModal.History | components/DebtDetailsModal.tsx:91 | every transaction, newest first, from a copy |
| DebtDetailsModal.HistoryAddsUp | components/DebtDetailsModal.tsx:91-110 | the signed amounts of the history add up to Σ CREDIT − Σ PAYMENT |
| DebtDetailsModal.HistoryExplainsBalance | components/DebtDetailsModal.tsx:91-110 | for a consistent debt the balance is `max(0, signed total of the history)` |
| DebtDetailsModal.PaymentOnTop | components/DebtDetailsModal.tsx:91 | after a payment its row is on top and the rest of the history is unchanged |
| DebtDetailsModal.OperationLine | components/DebtDetailsModal.tsx:31-32 | a receipt operation carries "🔴 Crédit" or "🟢 Paiement", the amount and the date |
| DebtDetailsModal.Receipt | components/DebtDetailsModal.tsx:20-36 | `7 + |ops| + 2` lines: the seven header lines, one line per operation in order, then the rule and the thanks |
| DebtDetailsModal.ReceiptLines | components/DebtDetailsModal.tsx:20-36 | the push loop builds exactly `Receipt` |
| DebtDetailsModal.ShareLinesAsWritten | components/DebtDetailsModal.tsx:18-36 | the receipt over `transactions.slice(0, 5)` |
| DebtDetailsModal.ReceiptAsWrittenOmitsNewest | components/DebtDetailsModal.tsx:27-30 | with more than five transactions the newest one is missing from that receipt |
| DebtDetailsModal.Newest | components/DebtDetailsModal.tsx:27-30 | the `k` newest transactions, newest first |
| DebtDetailsModal.ShareLines | components/DebtDetailsModal.tsx:18-36 | the receipt over the five newest transactions |
| DebtDetailsModal.ReceiptShowsNewest | components/DebtDetailsModal.tsx:27-30 | that receipt always shows the latest operation first |
| DebtDetailsModal.ReceiptStatesBalance | components/DebtDetailsModal.tsx:23-25 | the receipt names the customer and the balance owed |

## Left out

- Persistence: loading from and saving to `localStorage`, and the JSON parse fallback (App.tsx:31-39, 56-58). The saved list is the constructor's argument.
- The clock and the date parser: `Date.now()`, `new Date()`, `toISOString`, and `new Date(text).getTime()`. All are parameters. An unparsable date (NaN) is not modelled, so comparisons and sorting always see integer times.
- Locale formatting: `toLocaleString`, `toLocaleDateString`, `Intl.NumberFormat`. Receipt lines and card texts are kept as values, not spelled out.
- The reminder templates and every other translated text live in `constants/translations`, which is not part of this model; the templates are parameters.
- `window.open`, the `wa.me` link, `encodeURI`/`encodeURIComponent` and the DOM download link. Only the CSV text and the file name are modelled.
- `navigator.share` and the clipboard of the details dialog, with their `copied` flag: asynchronous platform calls.
- Floating-point amounts. Amounts are whole numbers.
- JsText.JsNumber: whitespace, fractions and exponents are not read. Only an optional minus sign followed by digits is read; anything else gives NaN, which `PayAmount` maps to 0.
- AddDebtModal.ToRecord: requires the amount text to be empty or a whole numeral, which is what a numeric input holds for a whole amount. A fractional amount, and the NaN it would never produce, are not modelled.
- JsText.Lower: lower-cases ASCII letters only. Accented and Arabic letters are left as they are.
- HTML constraint validation (`required`, `min`, `max` on the inputs) is a browser feature, not code of the handlers. The handlers are modelled as written, so an overpayment and an amount below 1 reach the ledger.
- `description` of a transaction and `location` of a debt, which the core never reads or writes.
- The CSS class strings of the badges and buttons. The badge is the value `DebtCard.Urgency`.
- The other dialogs (details, reminder confirmation, add, about) are opened and closed through their own flags; only the payment, delete and bulk-delete flags are fields of `Ledger.App`.
- Reminder.ReminderMessage: inserts the name as typed only when it has no `{`. A name containing `{amount}` or `{days}` is rewritten by the later replacements, in the code as written and in this model alike, so `FillPlaceholders` and `ReminderStatesDebt` assume a name without `{`.
- DebtDetailsModal.ReceiptShowsNewest: states only that the newest operation comes first. That the other lines are the next newest follows from `Receipt` and `Newest`.

## Findings

| source | as written | input that shows it | evidently intended | confidence | as-written member | corrected member |
|---|---|---|---|---|---|---|
| App.tsx:166 | `.replace('{name}', debt.nom)` passes the customer's name as a replacement string, so `$&`, `` $` ``, `$'` and `$$` in a name are expanded | template `{name}`, customer named `$&`: the message is `{name}` | the name inserted as typed: `$&` (for a name without `{`) | high; not executed | Reminder.ReminderMessageAsWritten, Reminder.DollarNameMessage | Reminder.ReminderMessage, Reminder.FillPlaceholders |
| components/DebtDetailsModal.tsx:27-30 | the receipt's "latest operations" are `transactions.slice(0, 5)`, the five oldest, because payments are appended at the end | a debt with six transactions whose newest line differs from the first five: the receipt leaves the newest out | the five newest, newest first as in the history | medium; not executed | DebtDetailsModal.ShareLinesAsWritten, DebtDetailsModal.ReceiptAsWrittenOmitsNewest | DebtDetailsModal.ShareLines, DebtDetailsModal.ReceiptShowsNewest |
