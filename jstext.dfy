/**
 * The JavaScript string and number built-ins the ledger code relies on,
 * restricted to what the app feeds them: `toLowerCase` (on ASCII letters),
 * `includes` and `indexOf`, `replace` with a string pattern, `Number(text)`
 * on the text of a numeric input holding a whole number, and
 * `toString` of a whole number.
 */
module JsText {
  import opened Types

  // ---------------------------------------------------------------------------
  // toLowerCase

  function LowerChar(c: char): char {
    if 'A' <= c <= 'Z' then (c as int + 32) as char else c
  }

  /** `s.toLowerCase()`: upper-case ASCII letters become lower-case, nothing else moves. */
  function Lower(s: string): (r: string)
    ensures |r| == |s|
    ensures forall i :: 0 <= i < |s| ==> r[i] == LowerChar(s[i])
  {
    if s == [] then [] else [LowerChar(s[0])] + Lower(s[1..])
  }

  /** Text with no upper-case letter, a phone number or a date for instance, is its own lower case. */
  lemma {:induction false} LowerFixesNonLetters(s: string)
    requires forall i :: 0 <= i < |s| ==> !('A' <= s[i] <= 'Z')
    ensures Lower(s) == s
  {
    if s != [] {
      LowerFixesNonLetters(s[1..]);
    }
  }

  // ---------------------------------------------------------------------------
  // includes, indexOf

  /** `sub` occurs in `s` starting at index `i`. */
  predicate OccursAt(s: string, sub: string, i: int) {
    0 <= i && i + |sub| <= |s| && s[i..i + |sub|] == sub
  }

  /** `s.indexOf(sub, from)`: the first occurrence at or after `from`. */
  function IndexFrom(s: string, sub: string, from: nat): (r: Option<nat>)
    ensures r.Some? ==> from <= r.value && OccursAt(s, sub, r.value)
    ensures r.Some? ==> forall j :: from <= j < r.value ==> !OccursAt(s, sub, j)
    ensures r.None? ==> forall j :: from <= j ==> !OccursAt(s, sub, j)
    decreases |s| - from
  {
    if from + |sub| > |s| then None
    else if s[from..from + |sub|] == sub then Some(from)
    else IndexFrom(s, sub, from + 1)
  }

  function IndexOf(s: string, sub: string): (r: Option<nat>)
    ensures r.Some? <==> exists i :: OccursAt(s, sub, i)
    ensures r.Some? ==> OccursAt(s, sub, r.value) && forall j :: 0 <= j < r.value ==> !OccursAt(s, sub, j)
  {
    IndexFrom(s, sub, 0)
  }

  /** `s.includes(sub)`. */
  predicate Includes(s: string, sub: string): (r: bool)
    ensures r <==> exists i :: OccursAt(s, sub, i)
  {
    IndexOf(s, sub).Some?
  }

  /** Every text includes the empty text. */
  lemma IncludesEmpty(s: string)
    ensures Includes(s, "")
  {
    assert OccursAt(s, "", 0);
  }

  // ---------------------------------------------------------------------------
  // replace with a string pattern

  /**
   * Replaces the first occurrence of `pat` by `rep`, taken literally: what
   * the reminder code means by `replace('{name}', debt.nom)`.
   */
  function ReplaceFirst(s: string, pat: string, rep: string): (r: string)
    ensures IndexOf(s, pat).None? ==> r == s
    ensures IndexOf(s, pat).Some? ==>
      var i := IndexOf(s, pat).value;
      |r| == |s| - |pat| + |rep| && r[..i] == s[..i] && r[i..i + |rep|] == rep && r[i + |rep|..] == s[i + |pat|..]
  {
    match IndexOf(s, pat)
    case None => s
    case Some(i) =>
      var r := s[..i] + rep + s[i + |pat|..];
      assert r[..i] == s[..i] && r[i..i + |rep|] == rep && r[i + |rep|..] == s[i + |pat|..];
      r
  }

  /**
   * The replacement text as `String.prototype.replace` actually builds it
   * when the pattern is a string: `$$` is a dollar sign, `$&` the matched
   * text, `` $` `` the text before the match and `$'` the text after it;
   * every other `$` stands for itself (a string pattern has no groups).
   */
  function Substitution(rep: string, s: string, pos: nat, len: nat): (r: string)
    requires pos + len <= |s|
    ensures (forall k :: 0 <= k < |rep| ==> rep[k] != '$') ==> r == rep
    decreases |rep|
  {
    if rep == [] then []
    else if rep[0] == '$' && |rep| >= 2 && rep[1] == '$' then "$" + Substitution(rep[2..], s, pos, len)
    else if rep[0] == '$' && |rep| >= 2 && rep[1] == '&' then s[pos..pos + len] + Substitution(rep[2..], s, pos, len)
    else if rep[0] == '$' && |rep| >= 2 && rep[1] == '`' then s[..pos] + Substitution(rep[2..], s, pos, len)
    else if rep[0] == '$' && |rep| >= 2 && rep[1] == '\'' then s[pos + len..] + Substitution(rep[2..], s, pos, len)
    else [rep[0]] + Substitution(rep[1..], s, pos, len)
  }

  /** `s.replace(pat, rep)` with a string `pat`, as JavaScript evaluates it. */
  function JsReplaceFirst(s: string, pat: string, rep: string): (r: string)
    ensures IndexOf(s, pat).None? ==> r == s
    ensures (forall k :: 0 <= k < |rep| ==> rep[k] != '$') ==> r == ReplaceFirst(s, pat, rep)
  {
    match IndexOf(s, pat)
    case None => s
    case Some(i) => s[..i] + Substitution(rep, s, i, |pat|) + s[i + |pat|..]
  }

  // ---------------------------------------------------------------------------
  // join and split

  /** `parts.join(sep)`: the parts in order, with `sep` between neighbours. */
  function Join(parts: seq<string>, sep: string): string {
    if parts == [] then ""
    else if |parts| == 1 then parts[0]
    else parts[0] + sep + Join(parts[1..], sep)
  }

  /** Joining one more part in front adds that part and the separator. */
  lemma JoinCons(x: string, parts: seq<string>, sep: string)
    requires parts != []
    ensures Join([x] + parts, sep) == x + sep + Join(parts, sep)
  {
    assert ([x] + parts)[1..] == parts;
  }

  /** The first part of a join, then the separator and the rest when there is a rest. */
  lemma JoinHead(x: string, parts: seq<string>, sep: string)
    ensures parts == [] ==> Join([x] + parts, sep) == x
    ensures parts != [] ==> Join([x] + parts, sep) == x + sep + Join(parts, sep)
  {
    assert ([x] + parts)[1..] == parts;
  }

  /** One step of `JoinSnoc`: it carries over from all parts but the first to all parts. */
  lemma JoinSnocStep(parts: seq<string>, x: string, sep: string)
    requires |parts| > 1
    requires Join(parts[1..] + [x], sep) == Join(parts[1..], sep) + sep + x
    ensures Join(parts + [x], sep) == Join(parts, sep) + sep + x
  {
    var first, rest := parts[0], parts[1..];
    assert (parts + [x])[1..] == rest + [x];
    assert Join(parts + [x], sep) == first + sep + (Join(rest, sep) + sep + x);
  }

  /** Joining one more part at the end adds the separator and that part. */
  lemma {:induction false} JoinSnoc(parts: seq<string>, x: string, sep: string)
    requires parts != []
    ensures Join(parts + [x], sep) == Join(parts, sep) + sep + x
  {
    if |parts| == 1 {
      assert (parts + [x])[1..] == [x];
    } else {
      JoinSnoc(parts[1..], x, sep);
      JoinSnocStep(parts, x, sep);
    }
  }

  /** Everything before the first `T`, as `split('T')[0]` takes it. */
  function BeforeT(s: string): (r: string)
    ensures |r| <= |s| && r == s[..|r|]
    ensures forall i :: 0 <= i < |r| ==> r[i] != 'T'
    ensures |r| < |s| ==> s[|r|] == 'T'
  {
    if s == [] || s[0] == 'T' then [] else [s[0]] + BeforeT(s[1..])
  }

  // ---------------------------------------------------------------------------
  // Number(text) and toString()

  predicate IsDigit(c: char) {
    '0' <= c <= '9'
  }

  predicate AllDigits(s: string) {
    forall i :: 0 <= i < |s| ==> IsDigit(s[i])
  }

  function DigitChar(d: int): (c: char)
    requires 0 <= d < 10
    ensures IsDigit(c) && c as int - '0' as int == d
  {
    ('0' as int + d) as char
  }

  /** The value of a run of decimal digits. */
  function DigitsValue(s: string): nat
    requires AllDigits(s)
  {
    if s == [] then 0 else DigitsValue(s[..|s| - 1]) * 10 + (s[|s| - 1] as int - '0' as int)
  }

  /** Decimal digits of `n`, without leading zeros. */
  function NatToString(n: nat): (s: string)
    ensures |s| > 0 && AllDigits(s)
    ensures |s| > 1 ==> s[0] != '0'
    decreases n
  {
    if n < 10 then [DigitChar(n)] else NatToString(n / 10) + [DigitChar(n % 10)]
  }

  /** `n.toString()` for a whole number `n`. */
  function IntToString(n: int): (s: string)
    ensures |s| > 0
    ensures s[0] == '-' <==> n < 0
    ensures forall i :: 0 < i < |s| ==> IsDigit(s[i])
    ensures IsDigit(s[0]) || s[0] == '-'
    ensures n >= 0 && |s| > 1 ==> s[0] != '0'
    ensures n < 0 ==> |s| > 1 && s[1] != '0'
  {
    if n < 0 then "-" + NatToString(-n) else NatToString(n)
  }

  /** A minus sign followed by at least one digit. */
  predicate Negative(s: string) {
    |s| > 1 && s[0] == '-' && AllDigits(s[1..])
  }

  /**
   * `Number(text)` for the text of an `<input type="number">` holding a whole
   * number: the empty text is 0, an optional minus sign followed by digits is
   * its value, and anything else is NaN (`None`).
   */
  function JsNumber(s: string): (r: Option<int>)
    ensures r.Some? <==> s == "" || AllDigits(s) || Negative(s)
    ensures s == "" ==> r == Some(0)
    ensures AllDigits(s) ==> r == Some(DigitsValue(s))
    ensures Negative(s) ==> r == Some(0 - DigitsValue(s[1..]))
  {
    if s == [] then Some(0)
    else if s[0] == '-' && |s| > 1 && AllDigits(s[1..]) then Some(0 - DigitsValue(s[1..]) as int)
    else if AllDigits(s) then Some(DigitsValue(s))
    else None
  }

  lemma {:induction false} NatToStringValue(n: nat)
    ensures DigitsValue(NatToString(n)) == n
    decreases n
  {
    if n >= 10 {
      NatToStringValue(n / 10);
      var s := NatToString(n);
      assert s[..|s| - 1] == NatToString(n / 10);
    }
  }

  /** Reading back what `toString` wrote gives the number again. */
  lemma NumberRoundTrip(n: int)
    ensures JsNumber(IntToString(n)) == Some(n)
  {
    if n < 0 {
      NatToStringValue(-n);
      assert IntToString(n)[1..] == NatToString(-n);
    } else {
      NatToStringValue(n);
    }
  }
}
