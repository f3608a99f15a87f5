/**
 * The monetary mask of the price fields: `monetaryMask` turns whatever was typed
 * into a pt-BR BRL amount (the digits read as cents), and `removeMonetaryMask`
 * recovers a number from a masked string through one anchored regular
 * expression and `Number`.
 */
module MonetaryMask {
  import opened Options
  import opened Text
  import opened JsNumber

  /** The currency symbol of BRL in the pt-BR locale, followed by a no-break space. */
  const Symbol: string := "R$\U{00A0}"

  // ---------------------------------------------------------------------------
  // The display format
  // ---------------------------------------------------------------------------

  /** The shape of every masked amount: symbol, grouped integer part, `,`, two decimals. */
  predicate IsMasked(r: string) {
    && |r| >= 7
    && r[..3] == Symbol
    && r[|r| - 3] == ','
    && AllDigits(r[|r| - 2..])
    && IsGrouping(r[3..|r| - 3])
  }

  /** An integer part: `0`, or digits without a leading zero grouped by `.` in threes. */
  predicate IsGrouping(g: string) {
    g == "0" || IsNonZeroGrouping(g)
  }

  predicate IsNonZeroGrouping(g: string)
    decreases |g|
  {
    if |g| <= 3 then g != [] && AllDigits(g) && g[0] != '0'
    else |g| >= 5 && g[|g| - 4] == '.' && AllDigits(g[|g| - 3..]) && IsNonZeroGrouping(g[..|g| - 4])
  }

  /** The integer part of an amount with `.` between groups of three digits. */
  function Grouped(m: nat): (g: string)
    ensures IsGrouping(g) && (m > 0 ==> IsNonZeroGrouping(g))
    ensures Value(KeepDigits(g)) == m
  {
    if m < 1000 then
      var d := Decimal(m);
      KeepDigitsOfDigits(d);
      d
    else
      var q, r := m / 1000, m % 1000;
      var head, tail := Grouped(q), Padded(r, 3);
      JoinGroups(head, tail, q, r);
      head + "." + tail
  }

  /** A grouping, a point and three digits form a grouping of a thousand times more. */
  lemma JoinGroups(head: string, tail: string, q: nat, r: nat)
    requires IsNonZeroGrouping(head) && Value(KeepDigits(head)) == q
    requires |tail| == 3 && AllDigits(tail) && Value(tail) == r
    ensures IsNonZeroGrouping(head + "." + tail)
    ensures Value(KeepDigits(head + "." + tail)) == q * 1000 + r
  {
    var g := head + "." + tail;
    assert g[..|g| - 4] == head && g[|g| - 3..] == tail;
    KeepDigitsOfNonDigits(".");
    GroupDigits(head, ".", tail);
    assert Pow10(3) == 1000;
  }

  /** The digits of `a + sep + b` when `sep` holds none and `b` holds only digits. */
  lemma GroupDigits(a: string, sep: string, b: string)
    requires KeepDigits(sep) == [] && AllDigits(b)
    ensures KeepDigits(a + sep + b) == KeepDigits(a) + b
    ensures Value(KeepDigits(a + sep + b)) == Value(KeepDigits(a)) * Pow10(|b|) + Value(b)
  {
    KeepDigitsConcat(a + sep, b);
    KeepDigitsConcat(a, sep);
    KeepDigitsOfDigits(b);
    assert KeepDigits(a) + [] == KeepDigits(a);
    ValueConcat(KeepDigits(a), b);
  }

  /** The pt-BR BRL rendering of an amount of `cents` minor units. */
  function Format(cents: nat): (r: string)
    ensures IsMasked(r)
    ensures Value(KeepDigits(r)) == cents
  {
    var g, d := Grouped(cents / 100), Padded(cents % 100, 2);
    MaskedShape(g, d);
    MaskedDigits(g, d);
    Symbol + g + "," + d
  }

  lemma MaskedDigits(g: string, d: string)
    requires |d| == 2 && AllDigits(d)
    ensures Value(KeepDigits(Symbol + g + "," + d)) == Value(KeepDigits(g)) * 100 + Value(d)
  {
    KeepDigitsOfNonDigits(Symbol);
    KeepDigitsOfNonDigits(",");
    KeepDigitsConcat(Symbol, g);
    assert KeepDigits(Symbol + g) == KeepDigits(g);
    GroupDigits(Symbol + g, ",", d);
    assert Pow10(|d|) == 100;
  }

  lemma MaskedShape(g: string, d: string)
    requires IsGrouping(g) && |d| == 2 && AllDigits(d)
    ensures IsMasked(Symbol + g + "," + d)
  {
    var r := Symbol + g + "," + d;
    assert g != [];
    assert r[..3] == Symbol;
    assert r[3..|r| - 3] == g;
    assert r[|r| - 3] == ',';
    assert r[|r| - 2..] == d;
  }

  /**
   * `monetaryMask`: the digits of the input read as a number of cents and
   * formatted; an input without digits is masked as "0".
   */
  function Mask(s: string): (r: string)
    ensures IsMasked(r)
    ensures Value(KeepDigits(r)) == Value(KeepDigits(s))
    decreases if KeepDigits(s) == [] then 1 else 0
  {
    var digits := KeepDigits(s);
    if digits == [] then
      assert KeepDigits("0") == "0";
      Mask("0")
    else Format(Value(digits))
  }

  // ---------------------------------------------------------------------------
  // Removing the mask: /^\w{0,3}\W?\s?(\d+)[.,](\d+)?,?(\d+)?$/g and `replacer`
  // ---------------------------------------------------------------------------

  /** `\w` */
  predicate IsWordChar(c: char) {
    'a' <= c <= 'z' || 'A' <= c <= 'Z' || IsDigit(c) || c == '_'
  }

  /** The three capture groups of a match; the last two may not participate. */
  datatype Captures = Captures(group1: string, group2: Option<string>, group3: Option<string>)

  /**
   * `(\d+)?,?(\d+)?$` on what follows the separator. Greedy backtracking makes
   * group2 the digits before the only comma and group3 the digits after it;
   * anything else but digits and one comma fails.
   */
  function MatchDecimals(r: string): (m: Option<(Option<string>, Option<string>)>)
    ensures m.Some? ==> forall i :: 0 <= i < |r| ==> IsDigit(r[i]) || r[i] == ','
    ensures m.Some? ==> DigitGroup(m.value.0) && DigitGroup(m.value.1)
  {
    var j := DigitRun(r);
    var group2 := if j == 0 then None else Some(r[..j]);
    if j == |r| then Some((group2, None))
    else if r[j] == ',' && AllDigits(r[j + 1..]) then
      assert forall i :: j < i < |r| ==> r[i] == r[j + 1..][i - j - 1];
      Some((group2, if j + 1 == |r| then None else Some(r[j + 1..])))
    else None
  }

  /** A group that took part in a match of `(\d+)?` holds one digit or more. */
  predicate DigitGroup(g: Option<string>) {
    g.Some? ==> g.value != [] && AllDigits(g.value)
  }

  /** What every match captures: group1 is `\d+`, and groups 2 and 3, when they take part, are `\d+` too. */
  predicate WellCaptured(c: Captures) {
    c.group1 != [] && AllDigits(c.group1) && DigitGroup(c.group2) && DigitGroup(c.group3)
  }

  /** `(\d+)[.,]` followed by MatchDecimals; a shorter group1 would leave a digit where `[.,]` must be. */
  function MatchAmount(t: string): (m: Option<Captures>)
    ensures m.Some? ==> WellCaptured(m.value)
    ensures m.Some? ==> |m.value.group1| < |t| && t[..|m.value.group1|] == m.value.group1
    ensures m.Some? ==> t[|m.value.group1|] == '.' || t[|m.value.group1|] == ','
    ensures t == [] || !IsDigit(t[0]) ==> m.None?
  {
    var k := DigitRun(t);
    if k == 0 || k == |t| || (t[k] != '.' && t[k] != ',') then None
    else
      match MatchDecimals(t[k + 1..])
      case None => None
      case Some((group2, group3)) => Some(Captures(t[..k], group2, group3))
  }

  /**
   * `\W?\s?` after `a` leading word characters, in backtracking order: both
   * taken, only `\W` taken, neither. (`\s` alone is never tried first: every
   * white-space character is also `\W`, so that position was already tried.)
   */
  function MatchAfterWords(s: string, a: nat): (m: Option<Captures>)
    requires a <= |s|
    ensures m.Some? ==> WellCaptured(m.value)
  {
    var nonWord := a < |s| && !IsWordChar(s[a]);
    if nonWord && a + 1 < |s| && IsWhiteSpace(s[a + 1]) && MatchAmount(s[a + 2..]).Some? then
      MatchAmount(s[a + 2..])
    else if nonWord && MatchAmount(s[a + 1..]).Some? then
      MatchAmount(s[a + 1..])
    else MatchAmount(s[a..])
  }

  /** `^\w{0,3}`: the greedy quantifier tries k leading word characters, then k - 1, down to none. */
  function MatchWithWords(s: string, k: nat): (m: Option<Captures>)
    requires k <= |s|
    ensures m.Some? ==> WellCaptured(m.value)
  {
    var m := MatchAfterWords(s, k);
    if m.Some? || k == 0 then m else MatchWithWords(s, k - 1)
  }

  /** How many of the first `limit` characters are word characters, counted from the start. */
  function LeadingWordChars(s: string, limit: nat): (k: nat)
    ensures k <= limit && k <= |s|
  {
    if limit == 0 || s == [] || !IsWordChar(s[0]) then 0
    else 1 + LeadingWordChars(s[1..], limit - 1)
  }

  /** The (only possible) match of the anchored pattern against the whole string. */
  function Match(s: string): (m: Option<Captures>)
    ensures m.Some? ==> WellCaptured(m.value)
  {
    MatchWithWords(s, LeadingWordChars(s, 3))
  }

  /** How a template literal prints a group: its text, or `undefined` when it did not participate. */
  function Shown(group: Option<string>): string {
    match group
    case Some(v) => v
    case None => "undefined"
  }

  /** `replacer`: group3 ? `${group1}${group2}.${group3}` : `${group1}.${group2}`. */
  function Replacement(c: Captures): string {
    match c.group3
    case Some(g3) => c.group1 + Shown(c.group2) + "." + g3
    case None => c.group1 + "." + Shown(c.group2)
  }

  /** `val.replace(exp, replacer)`: the whole string is replaced when it matches, and kept otherwise. */
  function Unmasked(s: string): string {
    match Match(s)
    case None => s
    case Some(c) => Replacement(c)
  }

  /** `removeMonetaryMask` */
  function RemoveMask(s: string): Num {
    ToNumber(Unmasked(s))
  }

  // ---------------------------------------------------------------------------
  // Properties of the mask
  // ---------------------------------------------------------------------------

  /** Masking formats the number of cents that the input's digits denote; no digits means zero. */
  lemma MaskIsFormat(s: string)
    ensures Mask(s) == Format(Value(KeepDigits(s)))
  {
    if KeepDigits(s) == [] {
      assert KeepDigits("0") == "0";
    }
  }

  /** Inputs whose digits denote the same number (leading zeros and non-digits aside) mask alike. */
  lemma MaskDependsOnlyOnDigits(s: string, t: string)
    requires Value(KeepDigits(s)) == Value(KeepDigits(t))
    ensures Mask(s) == Mask(t)
  {
    MaskIsFormat(s);
    MaskIsFormat(t);
  }

  /** Re-masking a masked value changes nothing: the price fields mask on every keystroke and on display. */
  lemma MaskIdempotent(s: string)
    ensures Mask(Mask(s)) == Mask(s)
  {
    MaskIsFormat(Mask(s));
    MaskIsFormat(s);
  }

  /** With no digits at all (the empty input among them) the mask shows zero. */
  lemma MaskWithoutDigits(s: string)
    requires KeepDigits(s) == []
    ensures Mask(s) == "R$\U{00A0}0,00"
  {
    MaskIsFormat(s);
    FormatOfZero();
  }

  lemma FormatOfZero()
    ensures Format(0) == "R$\U{00A0}0,00"
  {
    assert Decimal(0) == "0";
    assert Grouped(0) == "0";
    assert Padded(0, 1) == "0";
    assert Padded(0, 2) == "00";
    assert Symbol + "0" + "," + "00" == "R$\U{00A0}0,00";
  }

  /** A grouped integer part is the grouping of the number its digits denote. */
  lemma {:induction false} GroupedOfGrouping(g: string)
    requires IsNonZeroGrouping(g)
    ensures Value(KeepDigits(g)) >= 1
    ensures Grouped(Value(KeepDigits(g))) == g
    decreases |g|
  {
    if |g| <= 3 {
      GroupedOfShort(g);
    } else {
      var h, t := g[..|g| - 4], g[|g| - 3..];
      assert g == h + "." + t;
      GroupedOfGrouping(h);
      GroupedStep(h, t);
    }
  }

  lemma GroupedOfShort(g: string)
    requires |g| <= 3 && g != [] && AllDigits(g) && g[0] != '0'
    ensures Value(KeepDigits(g)) >= 1 && Grouped(Value(KeepDigits(g))) == g
  {
    KeepDigitsOfDigits(g);
    ValueLowerBound(g);
    ValueBound(g);
    DecimalOfValue(g);
    assert Pow10(|g|) <= 1000 by {
      assert Pow10(1) == 10 && Pow10(2) == 100 && Pow10(3) == 1000;
    }
  }

  /** Appending a group of three digits to a grouping multiplies by a thousand and adds them. */
  lemma GroupedStep(h: string, t: string)
    requires Value(KeepDigits(h)) >= 1 && Grouped(Value(KeepDigits(h))) == h
    requires |t| == 3 && AllDigits(t)
    ensures Value(KeepDigits(h + "." + t)) >= 1
    ensures Grouped(Value(KeepDigits(h + "." + t))) == h + "." + t
  {
    var a, b := Value(KeepDigits(h)), Value(t);
    KeepDigitsOfNonDigits(".");
    GroupDigits(h, ".", t);
    PaddedOfValue(t);
    assert Pow10(3) == 1000;
    ThousandsSplit(a, b);
    GroupedUnfold(a * 1000 + b);
  }

  lemma ThousandsSplit(a: nat, b: nat)
    requires a >= 1 && b < 1000
    ensures a * 1000 + b >= 1000
    ensures (a * 1000 + b) / 1000 == a && (a * 1000 + b) % 1000 == b
  {
  }

  lemma GroupedUnfold(m: nat)
    requires m >= 1000
    ensures Grouped(m) == Grouped(m / 1000) + "." + Padded(m % 1000, 3)
  {
  }

  /** Either kind of integer part is the grouping of the number its digits denote. */
  lemma GroupedOfShape(g: string)
    requires IsGrouping(g)
    ensures Grouped(Value(KeepDigits(g))) == g
  {
    if g == "0" {
      assert KeepDigits(g) == "0";
      assert Value("0") == 0;
    } else {
      GroupedOfGrouping(g);
    }
  }

  /** The format of `m` units and `v` cents is their grouping and padding. */
  lemma FormatOfParts(m: nat, v: nat, n: nat, g: string, d: string)
    requires v < 100 && n == m * 100 + v && Grouped(m) == g && Padded(v, 2) == d
    ensures Format(n) == Symbol + g + "," + d
  {
    assert n / 100 == m && n % 100 == v;
  }

  /** The amount spelled by a grouping and two decimals formats back to them. */
  lemma FormatOfGroups(g: string, d: string, n: nat)
    requires IsGrouping(g) && |d| == 2 && AllDigits(d)
    requires n == Value(KeepDigits(g)) * 100 + Value(d)
    ensures Format(n) == Symbol + g + "," + d
  {
    PaddedOfValue(d);
    GroupedOfShape(g);
    FormatOfParts(Value(KeepDigits(g)), Value(d), n, g, d);
  }

  /**
   * Masking a masked amount gives it back unchanged: every string of the
   * masked shape is the format of the cents it spells.
   */
  lemma MaskFixesMasked(s: string)
    requires IsMasked(s)
    ensures Mask(s) == s
  {
    var g, d := s[3..|s| - 3], s[|s| - 2..];
    assert s == Symbol + g + "," + d;
    var n := Value(KeepDigits(s));
    MaskedDigits(g, d);
    FormatOfGroups(g, d, n);
    MaskIsFormat(s);
  }

  lemma {:induction false} GroupingCharacters(g: string)
    requires IsNonZeroGrouping(g)
    ensures forall i :: 0 <= i < |g| ==> IsDigit(g[i]) || g[i] == '.'
    decreases |g|
  {
    if |g| > 3 {
      GroupingCharacters(g[..|g| - 4]);
      assert g == g[..|g| - 4] + [g[|g| - 4]] + g[|g| - 3..];
    }
  }

  /** A masked amount carries no sign: it is never negative. */
  lemma MaskedHasNoSign(r: string)
    requires IsMasked(r)
    ensures '-' !in r && '+' !in r
  {
    var g := r[3..|r| - 3];
    if g != "0" {
      GroupingCharacters(g);
    }
    assert r == Symbol + g + [','] + r[|r| - 2..];
    assert forall i :: 0 <= i < |g| ==> g[i] != '-' && g[i] != '+';
  }

  // ---------------------------------------------------------------------------
  // Properties of removing the mask
  // ---------------------------------------------------------------------------

  /** The first digits of a grouped integer part, and the groups that follow them. */
  function LeadGroup(m: nat): nat {
    if m < 1000 then m else LeadGroup(m / 1000)
  }

  function GroupRest(m: nat): (r: string)
    ensures m >= 1000 ==> r != [] && r[0] == '.'
  {
    if m < 1000 then [] else GroupRest(m / 1000) + "." + Padded(m % 1000, 3)
  }

  lemma {:induction false} GroupedLead(m: nat)
    ensures Grouped(m) == Decimal(LeadGroup(m)) + GroupRest(m)
  {
    if m >= 1000 {
      GroupedLead(m / 1000);
    }
  }

  lemma AmountRejectsNonDigit(t: string)
    requires t == [] || !IsDigit(t[0])
    ensures MatchAmount(t) == None
  {
  }

  /** Behind the currency symbol only the amount itself can match. */
  lemma MatchAfterSymbol(s: string)
    requires |s| >= 3 && s[..3] == Symbol
    ensures Match(s) == MatchAmount(s[3..])
  {
    assert s[0] == 'R' && s[1] == '$' && s[2] == '\U{00A0}';
    assert !IsWordChar(s[1]) && IsWhiteSpace(s[2]) && IsWordChar(s[0]);
    assert LeadingWordChars(s[1..], 2) == 0;
    assert LeadingWordChars(s, 3) == 1;
    AmountRejectsNonDigit(s[2..]);
    AmountRejectsNonDigit(s[1..]);
    AmountRejectsNonDigit(s[0..]);
    assert s[0..] == s;
    assert MatchAfterWords(s, 0) == None;
    assert MatchWithWords(s, 0) == None;
    assert MatchAfterWords(s, 1) == MatchAmount(s[3..]);
  }

  /** After `(\d+)[.,]` the rest of the match is decided by MatchDecimals alone. */
  lemma AmountSplit(g: string, sep: string, r: string)
    requires |g| > 0 && AllDigits(g) && (sep == "," || sep == ".")
    ensures MatchAmount(g + sep + r) == match MatchDecimals(r)
      case None => None
      case Some((group2, group3)) => Some(Captures(g, group2, group3))
  {
    var t := g + sep + r;
    assert t == g + (sep + r);
    DigitRunOf(g, sep + r);
    assert t[..|g|] == g && t[|g|] == sep[0] && t[|g| + 1..] == r;
  }

  /** Digits alone after the separator: they are group2, and group3 does not take part. */
  lemma DecimalsOfDigits(d: string)
    requires AllDigits(d)
    ensures MatchDecimals(d) == Some((if d == [] then None else Some(d), None))
  {
    DigitRunOf(d, []);
    assert d + [] == d && d[..|d|] == d;
  }

  /** Digits, a comma, digits: group2 and group3. */
  lemma DecimalsOfTwoGroups(b: string, d: string)
    requires |b| > 0 && AllDigits(b) && |d| > 0 && AllDigits(d)
    ensures MatchDecimals(b + "," + d) == Some((Some(b), Some(d)))
  {
    var r := b + "," + d;
    assert r == b + ("," + d);
    DigitRunOf(b, "," + d);
    assert r[..|b|] == b && r[|b|] == ',' && r[|b| + 1..] == d;
  }

  /** One separator with digits on both sides: group1 before it, group2 after it. */
  lemma AmountOfDecimal(g: string, sep: string, d: string)
    requires |g| > 0 && AllDigits(g) && (sep == "," || sep == ".") && |d| > 0 && AllDigits(d)
    ensures MatchAmount(g + sep + d) == Some(Captures(g, Some(d), None))
  {
    AmountSplit(g, sep, d);
    DecimalsOfDigits(d);
  }

  /** A separator with nothing after it: neither group2 nor group3 takes part. */
  lemma AmountOfDangling(g: string, sep: string)
    requires |g| > 0 && AllDigits(g) && (sep == "," || sep == ".")
    ensures MatchAmount(g + sep) == Some(Captures(g, None, None))
  {
    AmountSplit(g, sep, []);
    assert g + sep + [] == g + sep;
    DecimalsOfDigits([]);
  }

  /** Digits alone never match: `(\d+)` must be followed by a separator. */
  lemma AmountOfDigits(t: string)
    requires AllDigits(t)
    ensures MatchAmount(t) == None
  {
    DigitRunOf(t, []);
    assert t + [] == t;
  }

  lemma AmountOfThousands(a: string, b: string, d: string)
    requires |a| > 0 && AllDigits(a) && |b| == 3 && AllDigits(b) && |d| == 2 && AllDigits(d)
    ensures MatchAmount(a + "." + b + "," + d) == Some(Captures(a, Some(b), Some(d)))
  {
    AmountSplit(a, ".", b + "," + d);
    assert a + "." + (b + "," + d) == a + "." + b + "," + d;
    DecimalsOfTwoGroups(b, d);
  }

  lemma AmountOfMillions(a: string, x: string, y: string, d: string)
    requires |a| > 0 && AllDigits(a)
    ensures MatchAmount(a + "." + (x + "." + y) + "," + d) == None
  {
    var r := x + "." + y + "," + d;
    AmountSplit(a, ".", r);
    assert a + "." + r == a + "." + (x + "." + y) + "," + d;
    assert r[|x|] == '.';
    assert MatchDecimals(r) == None;
  }

  /** Round trip: below R$ 1.000.000,00 the mask is removed to exactly the amount, n/100. */
  lemma RemoveMaskOfFormat(n: nat)
    requires n < 100000000
    ensures RemoveMask(Format(n)) == Finite(false, n, -2)
  {
    if n / 100 < 1000 {
      RemoveMaskOfUnits(n);
    } else {
      RemoveMaskOfThousands(n);
    }
  }

  lemma RemoveMaskOfUnits(n: nat)
    requires n / 100 < 1000
    ensures RemoveMask(Format(n)) == Finite(false, n, -2)
  {
    var m, c := n / 100, n % 100;
    var g, d := Decimal(m), Padded(c, 2);
    FormatOfParts(m, c, n, g, d);
    UnmaskedOfSingleSeparator(g, ",", d);
    DecimalValue(g, d, n);
  }

  /** `Number` of an integer part and two decimals joined by a point. */
  lemma DecimalValue(g: string, d: string, n: nat)
    requires |g| > 0 && AllDigits(g) && |d| == 2 && AllDigits(d)
    requires n == Value(g) * 100 + Value(d)
    ensures ToNumber(g + "." + d) == Finite(false, n, -2)
  {
    ToNumberOfDecimal(g, d);
    ValueConcat(g, d);
    assert Pow10(|d|) == 100;
  }

  lemma RemoveMaskOfThousands(n: nat)
    requires 1000 <= n / 100 < 1000000
    ensures RemoveMask(Format(n)) == Finite(false, n, -2)
  {
    var m, c := n / 100, n % 100;
    var q, r := m / 1000, m % 1000;
    var a, b, d := Decimal(q), Padded(r, 3), Padded(c, 2);
    GroupedUnfold(m);
    assert Grouped(q) == a;
    FormatOfParts(m, c, n, a + "." + b, d);
    UnmaskedOfThousands(a, b, d);
    AllDigitsConcat(a, b);
    assert Value(a + b) == m by {
      ValueConcat(a, b);
      assert Pow10(3) == 1000;
    }
    DecimalValue(a + b, d, n);
  }

  lemma UnmaskedOfThousands(a: string, b: string, d: string)
    requires |a| > 0 && AllDigits(a) && |b| == 3 && AllDigits(b) && |d| == 2 && AllDigits(d)
    ensures Unmasked(Symbol + (a + "." + b) + "," + d) == (a + b) + "." + d
  {
    var t := a + "." + b + "," + d;
    assert Symbol + (a + "." + b) + "," + d == Symbol + t;
    MatchOfSymbol(t);
    AmountOfThousands(a, b, d);
  }

  /** From R$ 1.000.000,00 on, two thousands separators defeat the pattern and `Number` gives NaN. */
  lemma RemoveMaskOfLargeFormat(n: nat)
    requires n >= 100000000
    ensures RemoveMask(Format(n)) == NaN
  {
    var m, d := n / 100, Padded(n % 100, 2);
    var lead, x, y := GroupedOfMillions(m);
    var s := Symbol + (lead + "." + (x + "." + y)) + "," + d;
    assert Format(n) == s;
    MatchOfMillions(lead, x, y, d);
    assert s[0] == 'R';
    ToNumberOfJunk(s);
  }

  /** From a million on, the integer part holds at least two thousands separators. */
  lemma GroupedOfMillions(m: nat) returns (lead: string, x: string, y: string)
    requires m >= 1000000
    ensures |lead| > 0 && AllDigits(lead)
    ensures Grouped(m) == lead + "." + (x + "." + y)
  {
    GroupedLead(m);
    lead := Decimal(LeadGroup(m));
    x, y := GroupRestOfMillions(m);
    assert lead + ("." + (x + "." + y)) == lead + "." + (x + "." + y);
  }

  lemma GroupRestOfMillions(m: nat) returns (x: string, y: string)
    requires m >= 1000000
    ensures GroupRest(m) == "." + (x + "." + y)
  {
    var rest := GroupRest(m / 1000);
    x, y := rest[1..], Padded(m % 1000, 3);
    assert rest == "." + x;
    assert GroupRest(m) == rest + "." + y;
    assert "." + x + "." + y == "." + (x + "." + y);
  }

  lemma MatchOfMillions(lead: string, x: string, y: string, d: string)
    requires |lead| > 0 && AllDigits(lead)
    ensures Match(Symbol + (lead + "." + (x + "." + y)) + "," + d) == None
  {
    var t := lead + "." + (x + "." + y) + "," + d;
    assert Symbol + (lead + "." + (x + "." + y)) + "," + d == Symbol + t;
    MatchOfSymbol(t);
    AmountOfMillions(lead, x, y, d);
  }

  lemma MatchOfSymbol(t: string)
    ensures Match(Symbol + t) == MatchAmount(t)
  {
    var s := Symbol + t;
    assert s[..3] == Symbol && s[3..] == t;
    MatchAfterSymbol(s);
  }

  /** The same for any masked input: the cents are recovered exactly up to R$ 999.999,99. */
  lemma RemoveMaskOfMask(s: string)
    ensures Value(KeepDigits(s)) < 100000000 ==> RemoveMask(Mask(s)) == Finite(false, Value(KeepDigits(s)), -2)
    ensures Value(KeepDigits(s)) >= 100000000 ==> RemoveMask(Mask(s)) == NaN
  {
    MaskIsFormat(s);
    var n := Value(KeepDigits(s));
    if n < 100000000 {
      RemoveMaskOfFormat(n);
    } else {
      RemoveMaskOfLargeFormat(n);
    }
  }

  /** A separator with no digits after it leaves `undefined` in the rebuilt string, and NaN follows. */
  lemma RemoveMaskOfDanglingSeparator(g: string, sep: string)
    requires |g| > 0 && AllDigits(g) && (sep == "," || sep == ".")
    ensures RemoveMask(Symbol + g + sep) == NaN
  {
    var s := Symbol + g + sep;
    assert s[..3] == Symbol && s[3..] == g + sep;
    MatchAfterSymbol(s);
    AmountOfDangling(g, sep);
    assert Unmasked(s) == g + "." + "undefined";
    ToNumberOfPointJunk(g, "undefined");
  }

  /**
   * A single separator, `.` as well as `,`, is read as the decimal point: the
   * thousands separator of R$ 1.234 makes it 1.234, not 1234.
   */
  lemma RemoveMaskOfSingleSeparator(g: string, sep: string, d: string)
    requires |g| > 0 && AllDigits(g) && (sep == "," || sep == ".") && |d| > 0 && AllDigits(d)
    ensures AllDigits(g + d)
    ensures RemoveMask(Symbol + g + sep + d) == Finite(false, Value(g + d), -|d|)
  {
    UnmaskedOfSingleSeparator(g, sep, d);
    ToNumberOfDecimal(g, d);
  }

  lemma UnmaskedOfSingleSeparator(g: string, sep: string, d: string)
    requires |g| > 0 && AllDigits(g) && (sep == "," || sep == ".") && |d| > 0 && AllDigits(d)
    ensures Unmasked(Symbol + g + sep + d) == g + "." + d
  {
    var s := Symbol + g + sep + d;
    assert s[..3] == Symbol && s[3..] == g + sep + d;
    MatchAfterSymbol(s);
    AmountOfDecimal(g, sep, d);
  }

  /** Plain digits are not matched and reach `Number` unchanged; the empty string is 0. */
  lemma RemoveMaskOfDigits(t: string)
    requires AllDigits(t)
    ensures t != [] ==> RemoveMask(t) == Finite(false, Value(t), 0)
    ensures t == [] ==> RemoveMask(t) == Finite(false, 0, 0)
  {
    MatchOfDigits(t, LeadingWordChars(t, 3));
    if t != [] {
      ToNumberOfDigits(t);
    }
  }

  lemma {:induction false} MatchOfDigits(t: string, k: nat)
    requires AllDigits(t) && k <= |t|
    ensures MatchWithWords(t, k) == None
  {
    assert AllDigits(t[k..]);
    AmountOfDigits(t[k..]);
    assert k < |t| ==> IsWordChar(t[k]);
    if k > 0 {
      MatchOfDigits(t, k - 1);
    }
  }
}
