/**
 * The CSV export of App.tsx (`handleExportCSV`): one header line, then one
 * line per debt on screen with its id, quoted name, balance, date and phone,
 * behind a `data:` URI prefix; and the name of the downloaded file.
 */
module CsvExport {
  import opened Types
  import opened Seqs
  import opened JsText
  import opened LedgerViews

  const HeaderFields: seq<string> := ["ID", "Nom", "Montant Restant", "Date", "Téléphone"]
  const DataPrefix: string := "data:text/csv;charset=utf-8,"

  /** `s.replace(/"/g, '""')`: every double quote doubled. */
  function EscapeQuotes(s: string): (r: string)
    ensures |r| >= |s|
  {
    if s == [] then []
    else (if s[0] == '"' then "\"\"" else [s[0]]) + EscapeQuotes(s[1..])
  }

  /** A name without quotes is written as it is. */
  lemma {:induction false} EscapeQuoteFree(s: string)
    requires forall i :: 0 <= i < |s| ==> s[i] != '"'
    ensures EscapeQuotes(s) == s
  {
    if s != [] {
      EscapeQuoteFree(s[1..]);
      assert [s[0]] + s[1..] == s;
    }
  }

  /**
   * Reads the inside of a quoted field up to its closing quote, turning each
   * doubled quote back into one; gives the text and what follows the closing quote.
   */
  function ReadQuoted(t: string): (r: Option<(string, string)>)
    ensures r.Some? ==> |r.value.1| < |t|
  {
    if t == [] then None
    else if t[0] == '"' then
      if |t| >= 2 && t[1] == '"' then
        match ReadQuoted(t[2..])
        case Some(p) => Some(("\"" + p.0, p.1))
        case None => None
      else Some(("", t[1..]))
    else
      match ReadQuoted(t[1..])
      case Some(p) => Some(([t[0]] + p.0, p.1))
      case None => None
  }

  /** A doubled quote reads as one quote, and the reading goes on after it. */
  lemma ReadDoubledQuote(inner: string, text: string, rest: string)
    requires ReadQuoted(inner) == Some((text, rest))
    ensures ReadQuoted("\"\"" + inner) == Some(("\"" + text, rest))
  {
    var t := "\"\"" + inner;
    assert t[0] == '"' && t[1] == '"' && t[2..] == inner;
  }

  /** Any other character reads as itself. */
  lemma ReadPlainChar(c: char, inner: string, text: string, rest: string)
    requires c != '"' && ReadQuoted(inner) == Some((text, rest))
    ensures ReadQuoted([c] + inner) == Some(([c] + text, rest))
  {
    var t := [c] + inner;
    assert t[0] == c && t[1..] == inner;
  }

  /** An empty name reads back at once: its closing quote ends the field. */
  lemma ReadEscapedEmpty(rest: string)
    requires rest == [] || rest[0] != '"'
    ensures ReadQuoted(EscapeQuotes([]) + "\"" + rest) == Some(([], rest))
  {
    var t := EscapeQuotes([]) + "\"" + rest;
    assert t == "\"" + rest;
    assert t[1..] == rest;
  }

  /** The escaped form of a non-empty name is its first character's escape, then the rest. */
  lemma EscapeCons(s: string, rest: string)
    requires s != []
    ensures EscapeQuotes(s) + "\"" + rest
         == (if s[0] == '"' then "\"\"" else [s[0]]) + (EscapeQuotes(s[1..]) + "\"" + rest)
  {
    var first := if s[0] == '"' then "\"\"" else [s[0]];
    var tail := EscapeQuotes(s[1..]);
    assert EscapeQuotes(s) == first + tail;
    assert (first + tail) + "\"" + rest == first + (tail + "\"" + rest);
  }

  /** One step of the reading: if the rest of the name reads back, so does the whole name. */
  lemma ReadEscapedStep(s: string, rest: string)
    requires s != []
    requires ReadQuoted(EscapeQuotes(s[1..]) + "\"" + rest) == Some((s[1..], rest))
    ensures ReadQuoted(EscapeQuotes(s) + "\"" + rest) == Some((s, rest))
  {
    var inner := EscapeQuotes(s[1..]) + "\"" + rest;
    EscapeCons(s, rest);
    assert [s[0]] + s[1..] == s;
    if s[0] == '"' {
      ReadDoubledQuote(inner, s[1..], rest);
      assert "\"" == [s[0]];
    } else {
      ReadPlainChar(s[0], inner, s[1..], rest);
    }
  }

  /** Reading a quoted field gives back the text that was escaped, and the rest of the line untouched. */
  lemma {:induction false} ReadEscaped(s: string, rest: string)
    requires rest == [] || rest[0] != '"'
    ensures ReadQuoted(EscapeQuotes(s) + "\"" + rest) == Some((s, rest))
  {
    if s == [] {
      ReadEscapedEmpty(rest);
    } else {
      ReadEscaped(s[1..], rest);
      ReadEscapedStep(s, rest);
    }
  }

  /** The name between double quotes, its own quotes doubled. */
  function Quoted(s: string): string {
    "\"" + EscapeQuotes(s) + "\""
  }

  /** The fields of the line of a debt. */
  function RowFields(d: Debt): seq<string> {
    [IntToString(d.id), Quoted(d.nom), IntToString(d.montant), d.date, d.tel]
  }

  /** One data line: the fields joined with commas. */
  function CsvRow(d: Debt): (r: string)
    ensures r == IntToString(d.id) + "," + Quoted(d.nom) + "," + IntToString(d.montant) + "," + d.date + "," + d.tel
  {
    var id, nom, montant := IntToString(d.id), Quoted(d.nom), IntToString(d.montant);
    var j4 := Join([d.date, d.tel], ",");
    assert j4 == d.date + "," + d.tel by { JoinCons(d.date, [d.tel], ","); }
    var j3 := Join([montant, d.date, d.tel], ",");
    assert j3 == montant + "," + j4 by { JoinCons(montant, [d.date, d.tel], ","); }
    var j2 := Join([nom, montant, d.date, d.tel], ",");
    assert j2 == nom + "," + j3 by { JoinCons(nom, [montant, d.date, d.tel], ","); }
    assert Join(RowFields(d), ",") == id + "," + j2 by { JoinCons(id, [nom, montant, d.date, d.tel], ","); }
    Join(RowFields(d), ",")
  }

  /** Splits at the first comma. */
  function SplitComma(s: string): (r: Option<(string, string)>)
    ensures r.Some? ==> |r.value.1| < |s| && forall i :: 0 <= i < |r.value.0| ==> r.value.0[i] != ','
  {
    if s == [] then None
    else if s[0] == ',' then Some(("", s[1..]))
    else
      match SplitComma(s[1..])
      case Some(p) => Some(([s[0]] + p.0, p.1))
      case None => None
  }

  lemma {:induction false} SplitAfterField(f: string, rest: string)
    requires forall i :: 0 <= i < |f| ==> f[i] != ','
    ensures SplitComma(f + "," + rest) == Some((f, rest))
  {
    if f == [] {
      assert f + "," + rest == "," + rest;
    } else {
      SplitAfterField(f[1..], rest);
      assert f + "," + rest == [f[0]] + (f[1..] + "," + rest);
      assert [f[0]] + f[1..] == f;
    }
  }

  /** A number field and the text after its comma. */
  function NumberField(t: string): Option<(int, string)> {
    match SplitComma(t)
    case None => None
    case Some(p) =>
      match JsNumber(p.0)
      case Some(n) => Some((n, p.1))
      case None => None
  }

  lemma NumberFieldOf(n: int, rest: string)
    ensures NumberField(IntToString(n) + "," + rest) == Some((n, rest))
  {
    SplitAfterField(IntToString(n), rest);
    NumberRoundTrip(n);
  }

  /** A quoted field and the text after its comma. */
  function QuotedField(t: string): Option<(string, string)> {
    if t == [] || t[0] != '"' then None
    else match ReadQuoted(t[1..])
    case None => None
    case Some(q) => if q.1 != [] && q.1[0] == ',' then Some((q.0, q.1[1..])) else None
  }

  lemma QuotedFieldOf(s: string, rest: string)
    ensures QuotedField(Quoted(s) + "," + rest) == Some((s, rest))
  {
    var t := Quoted(s) + "," + rest;
    assert t[1..] == EscapeQuotes(s) + "\"" + ("," + rest);
    ReadEscaped(s, "," + rest);
    assert ("," + rest)[1..] == rest;
  }

  /**
   * Reads a data line back: the id, the unquoted name, the balance, and the
   * remaining text (date and phone, which the export does not quote).
   */
  function ParseRow(line: string): Option<(int, string, int, string)> {
    match NumberField(line)
    case None => None
    case Some(a) =>
      match QuotedField(a.1)
      case None => None
      case Some(b) =>
        match NumberField(b.1)
        case None => None
        case Some(c) => Some((a.0, b.0, c.0, c.1))
  }

  /** Every data line reads back as the debt's id, name and balance, followed by its date and phone. */
  lemma RowRoundTrip(d: Debt)
    ensures ParseRow(CsvRow(d)) == Some((d.id, d.nom, d.montant, d.date + "," + d.tel))
  {
    var f := RowFields(d);
    var tail := Join(f[3..], ",");
    assert tail == d.date + "," + d.tel by {
      assert f[3..] == [d.date] + [d.tel];
      JoinCons(d.date, [d.tel], ",");
    }
    assert Join(f[2..], ",") == f[2] + "," + tail by {
      assert f[2..] == [f[2]] + f[3..];
      JoinCons(f[2], f[3..], ",");
    }
    assert Join(f[1..], ",") == f[1] + "," + Join(f[2..], ",") by {
      assert f[1..] == [f[1]] + f[2..];
      JoinCons(f[1], f[2..], ",");
    }
    assert CsvRow(d) == f[0] + "," + Join(f[1..], ",") by {
      assert f == [f[0]] + f[1..];
      JoinCons(f[0], f[1..], ",");
    }
    NumberFieldOf(d.id, Join(f[1..], ","));
    QuotedFieldOf(d.nom, Join(f[2..], ","));
    NumberFieldOf(d.montant, tail);
  }

  /** `filteredDebts.map(...)`: one line per debt, in order. */
  function Rows(debts: seq<Debt>): (r: seq<string>)
    ensures |r| == |debts|
    ensures forall i :: 0 <= i < |debts| ==> r[i] == CsvRow(debts[i])
  {
    Map(debts, CsvRow)
  }

  /** `headers.join(',')`. */
  function HeaderLine(): string {
    Join(HeaderFields, ",")
  }

  /** The exported text for a list of debts: the header line, then the rows, one per line. */
  function CsvContent(debts: seq<Debt>): (r: string)
    ensures debts == [] ==> r == DataPrefix + HeaderLine()
    ensures debts != [] ==> r == DataPrefix + HeaderLine() + "\n" + Join(Rows(debts), "\n")
  {
    var h := HeaderLine();
    var rows := Rows(debts);
    JoinHead(h, rows, "\n");
    assert DataPrefix + Join([h] + rows, "\n") == if rows == [] then DataPrefix + h else DataPrefix + h + "\n" + Join(rows, "\n") by {}
    DataPrefix + Join([h] + rows, "\n")
  }

  /** One more line after the header and the lines before it. */
  lemma ContentSnoc(rows: seq<string>, row: string)
    ensures DataPrefix + Join([HeaderLine()] + rows + [row], "\n") == DataPrefix + Join([HeaderLine()] + rows, "\n") + "\n" + row
  {
    JoinSnoc([HeaderLine()] + rows, row, "\n");
  }

  /** One more debt on screen adds exactly one line, its own, at the end. */
  lemma ExportAppend(debts: seq<Debt>, d: Debt)
    ensures CsvContent(debts + [d]) == CsvContent(debts) + "\n" + CsvRow(d)
  {
    assert Rows(debts + [d]) == Rows(debts) + [CsvRow(d)] by {
      MapSnoc(debts, d, CsvRow);
    }
    ContentSnoc(Rows(debts), CsvRow(d));
    assert [HeaderLine()] + Rows(debts + [d]) == [HeaderLine()] + Rows(debts) + [CsvRow(d)];
  }

  /** `handleExportCSV`: the rows are the debts on screen, in screen order. */
  function ExportContent(debts: seq<Debt>, term: string, sortBy: SortOption, range: DateRange, timeOf: string -> int): (r: string)
    ensures exists shown: seq<Debt> ::
              && r == CsvContent(shown)
              && SortedBy(shown, Rank(sortBy, timeOf))
              && (forall d :: multiset(shown)[d] == if Listed(d, term, range, timeOf) then multiset(debts)[d] else 0)
              && forall k :: WithKey(shown, Rank(sortBy, timeOf), k) == WithKey(Shown(debts, term, range, timeOf), Rank(sortBy, timeOf), k)
  {
    var shown := FilteredDebts(debts, term, sortBy, range, timeOf);
    assert forall k :: WithKey(shown, Rank(sortBy, timeOf), k) == WithKey(Shown(debts, term, range, timeOf), Rank(sortBy, timeOf), k) by {
      forall k {
        FilteredStable(debts, term, sortBy, range, timeOf, k);
      }
    }
    CsvContent(shown)
  }

  /** `dettes_<day>.csv`, the day being the date part of the ISO timestamp `iso`. */
  function ExportFileName(iso: string): (r: string)
    ensures |r| >= 11 && r[..7] == "dettes_" && r[|r| - 4..] == ".csv"
    ensures |r| - 11 <= |iso| && r[7..|r| - 4] == iso[..|r| - 11]
    ensures forall i :: 7 <= i < |r| - 4 ==> r[i] != 'T'
    ensures |r| - 11 < |iso| ==> iso[|r| - 11] == 'T'
  {
    "dettes_" + BeforeT(iso) + ".csv"
  }
}
