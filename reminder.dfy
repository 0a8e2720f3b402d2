/**
 * The reminder text of App.tsx (`getReminderMessage`): the soft or firm
 * template of the current language with `{name}`, `{amount}` and `{days}`
 * filled in from the debt.
 *
 * The templates themselves live in the translation tables, which are not
 * part of this model; they are parameters here.
 */
module Reminder {
  import opened Types
  import opened JsText
  import DebtCard
  import opened Ledger

  const NameSlot: string := "{name}"
  const AmountSlot: string := "{amount}"
  const DaysSlot: string := "{days}"

  /** The template chosen by the tone of the reminder. */
  function Template(tone: Tone, soft: string, firm: string): string {
    if tone == Soft then soft else firm
  }

  /** The three `replace` calls in the order the app makes them, each on its first placeholder, taken literally. */
  function Fill(template: string, nom: string, amount: string, days: string): string {
    var named := ReplaceFirst(template, NameSlot, nom);
    var priced := ReplaceFirst(named, AmountSlot, amount);
    ReplaceFirst(priced, DaysSlot, days)
  }

  /** The same three calls as JavaScript evaluates them: `$` patterns in the inserted text are expanded. */
  function FillAsWritten(template: string, nom: string, amount: string, days: string): string {
    JsReplaceFirst(JsReplaceFirst(JsReplaceFirst(template, NameSlot, nom), AmountSlot, amount), DaysSlot, days)
  }

  /** The message with the customer's name inserted as typed: what the reminder is meant to say. */
  function ReminderMessage(d: Debt, tone: Tone, soft: string, firm: string, now: int, timeOf: string -> int): string {
    Fill(Template(tone, soft, firm), d.nom, IntToString(d.montant), IntToString(DebtCard.DaysOpen(d, now, timeOf)))
  }

  /**
   * `getReminderMessage` as written. As long as the name has no `$`, it is the
   * intended message.
   */
  function ReminderMessageAsWritten(d: Debt, tone: Tone, soft: string, firm: string, now: int, timeOf: string -> int): (r: string)
    ensures NoDollar(d.nom) ==> r == ReminderMessage(d, tone, soft, firm, now, timeOf)
  {
    var t := Template(tone, soft, firm);
    NumberTextPlain(d.montant);
    NumberTextPlain(DebtCard.DaysOpen(d, now, timeOf));
    assert NoDollar(d.nom) ==> JsReplaceFirst(t, NameSlot, d.nom) == ReplaceFirst(t, NameSlot, d.nom);
    FillAsWritten(t, d.nom, IntToString(d.montant), IntToString(DebtCard.DaysOpen(d, now, timeOf)))
  }

  // ---------------------------------------------------------------------------
  // Filling a template

  predicate NoBrace(s: string) {
    forall i :: 0 <= i < |s| ==> s[i] != '{'
  }

  predicate NoDollar(s: string) {
    forall i :: 0 <= i < |s| ==> s[i] != '$'
  }

  /** A placeholder after brace-free text is first found right after that text. */
  lemma FirstSlotAfterBraceFree(a: string, slot: string, rest: string)
    requires NoBrace(a) && |slot| > 0 && slot[0] == '{'
    ensures IndexOf(a + slot + rest, slot) == Some(|a|)
  {
    var s := a + slot + rest;
    assert s[|a|..|a| + |slot|] == slot;
    assert OccursAt(s, slot, |a|);
    forall j | 0 <= j < |a|
      ensures !OccursAt(s, slot, j)
    {
      assert s[j] == a[j];
    }
  }

  /** Replacing a placeholder that follows brace-free text. */
  lemma ReplaceAfterBraceFree(a: string, slot: string, rep: string, rest: string)
    requires NoBrace(a) && |slot| > 0 && slot[0] == '{'
    ensures ReplaceFirst(a + slot + rest, slot, rep) == a + rep + rest
  {
    FirstSlotAfterBraceFree(a, slot, rest);
    var s := a + slot + rest;
    var r := ReplaceFirst(s, slot, rep);
    assert s[..|a|] == a;
    assert s[|a| + |slot|..] == rest;
    assert r == r[..|a|] + r[|a|..|a| + |rep|] + r[|a| + |rep|..];
  }

  lemma NoBraceConcat(a: string, b: string)
    requires NoBrace(a) && NoBrace(b)
    ensures NoBrace(a + b)
  {
    assert forall i :: |a| <= i < |a + b| ==> (a + b)[i] == b[i - |a|];
  }

  /** A number written out has only digits and a minus sign. */
  lemma NumberTextPlain(n: int)
    ensures NoBrace(IntToString(n)) && NoDollar(IntToString(n))
  {
  }

  /** The first `replace`: the name goes where `{name}` was. */
  lemma FillNameStep(a: string, b: string, c: string, e: string, nom: string)
    requires NoBrace(a)
    ensures ReplaceFirst(a + NameSlot + b + AmountSlot + c + DaysSlot + e, NameSlot, nom)
         == (a + nom + b) + AmountSlot + (c + DaysSlot + e)
  {
    var tail := c + DaysSlot + e;
    var rest := b + AmountSlot + tail;
    calc {
      a + NameSlot + b + AmountSlot + c + DaysSlot + e;
      a + NameSlot + b + AmountSlot + tail;
      a + NameSlot + rest;
    }
    ReplaceAfterBraceFree(a, NameSlot, nom, rest);
    assert a + nom + rest == (a + nom + b) + AmountSlot + tail;
  }

  /** The second `replace`: the amount goes where `{amount}` was. */
  lemma FillAmountStep(p: string, c: string, e: string, amount: string)
    requires NoBrace(p)
    ensures ReplaceFirst(p + AmountSlot + (c + DaysSlot + e), AmountSlot, amount)
         == (p + amount + c) + DaysSlot + e
  {
    ReplaceAfterBraceFree(p, AmountSlot, amount, c + DaysSlot + e);
  }

  /**
   * A template whose placeholders each appear once, in the order name,
   * amount, days, with no other brace before the last one, is filled with
   * exactly the three texts, provided the name brings no brace of its own.
   */
  lemma {:induction false} FillPlaceholders(a: string, b: string, c: string, e: string, nom: string, amount: string, days: string)
    requires NoBrace(a) && NoBrace(b) && NoBrace(c) && NoBrace(nom) && NoBrace(amount)
    ensures Fill(a + NameSlot + b + AmountSlot + c + DaysSlot + e, nom, amount, days)
         == a + nom + b + amount + c + days + e
  {
    var p2 := a + nom + b;
    var p3 := p2 + amount + c;
    FillNameStep(a, b, c, e, nom);
    NoBraceConcat(a, nom);
    NoBraceConcat(a + nom, b);
    FillAmountStep(p2, c, e, amount);
    NoBraceConcat(p2, amount);
    NoBraceConcat(p2 + amount, c);
    ReplaceAfterBraceFree(p3, DaysSlot, days, e);
  }

  /** For a debt, the reminder names the customer, states the balance and the days open. */
  lemma {:induction false} ReminderStatesDebt(d: Debt, tone: Tone, a: string, b: string, c: string, e: string, now: int, timeOf: string -> int, other: string)
    requires NoBrace(a) && NoBrace(b) && NoBrace(c) && NoBrace(d.nom)
    ensures var template := a + NameSlot + b + AmountSlot + c + DaysSlot + e;
      ReminderMessage(d, tone, if tone == Soft then template else other, if tone == Firm then template else other, now, timeOf)
      == a + d.nom + b + IntToString(d.montant) + c + IntToString(DebtCard.DaysOpen(d, now, timeOf)) + e
  {
    NumberTextPlain(d.montant);
    FillPlaceholders(a, b, c, e, d.nom, IntToString(d.montant), IntToString(DebtCard.DaysOpen(d, now, timeOf)));
  }

  // ---------------------------------------------------------------------------
  // The `$` patterns of `replace`

  /**
   * A customer named `$&` gets a message that still carries the placeholder:
   * `replace` puts the matched `{name}` back in place of the name.
   */
  lemma {:induction false} DollarNameKeepsPlaceholder(a: string, rest: string)
    requires NoBrace(a)
    ensures JsReplaceFirst(a + NameSlot + rest, NameSlot, "$&") == a + NameSlot + rest
    ensures ReplaceFirst(a + NameSlot + rest, NameSlot, "$&") == a + "$&" + rest
  {
    FirstSlotAfterBraceFree(a, NameSlot, rest);
    ReplaceAfterBraceFree(a, NameSlot, "$&", rest);
    var s := a + NameSlot + rest;
    assert s[|a|..|a| + |NameSlot|] == NameSlot;
    assert Substitution("$&", s, |a|, |NameSlot|) == NameSlot + Substitution("", s, |a|, |NameSlot|);
    assert s[..|a|] == a && s[|a| + |NameSlot|..] == rest;
  }

  /** The whole message for the template `{name}` and the name `$&`: the as-written text differs from the intended one. */
  lemma DollarNameMessage(amount: string, days: string)
    ensures FillAsWritten(NameSlot, "$&", amount, days) == NameSlot
    ensures Fill(NameSlot, "$&", amount, days) == "$&"
  {
    DollarNameKeepsPlaceholder("", "");
    assert "" + NameSlot + "" == NameSlot;
    assert "" + "$&" + "" == "$&";
    assert IndexOf(NameSlot, AmountSlot).None?;
    assert !OccursAt(NameSlot, DaysSlot, 0);
    assert IndexOf(NameSlot, DaysSlot).None?;
    assert !OccursAt("$&", DaysSlot, 0);
    assert IndexOf("$&", DaysSlot).None?;
  }

  /** `handleInitiateReminder`: a reminder is only prepared for a debt that is in the list. */
  function InitiateReminder(debts: seq<Debt>, id: int, tone: Tone): (r: Option<(Debt, Tone)>)
    ensures r.None? <==> forall i :: 0 <= i < |debts| ==> debts[i].id != id
    ensures r.Some? ==> r.value.0 in debts && r.value.0.id == id && r.value.1 == tone
    ensures r.Some? ==> exists i :: 0 <= i < |debts| && debts[i] == r.value.0 && forall j :: 0 <= j < i ==> debts[j].id != id
  {
    match FindById(debts, id)
    case Some(d) => Some((d, tone))
    case None => None
  }
}
