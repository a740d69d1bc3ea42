/**
 File sizes as text: the scanner behind `(\d+)\s*(KiB|MiB|GiB|TiB)?`, the value it computes in 64 bits, and the
 printer that is meant to choose the largest unit.
 */
module FileSize {
  import opened Wrappers

  const WORD: nat := 0x1_0000_0000_0000_0000

  // ---------------------------------------------------------------------------------------------
  // Units

  /** Entry 0 is the absence of a unit. */
  type Unit = u: nat | u < 5

  const UNITS: seq<string> := ["", "KiB", "MiB", "GiB", "TiB"]

  function Name(u: Unit): string {
    UNITS[u]
  }

  function Ratio(u: Unit): (r: nat)
    ensures r > 0
  {
    match u
    case 0 => 1
    case 1 => 1024
    case 2 => 1024 * 1024
    case 3 => 1024 * 1024 * 1024
    case _ => 1024 * 1024 * 1024 * 1024
  }

  // ---------------------------------------------------------------------------------------------
  // Characters

  predicate IsDigit(c: char) {
    '0' <= c <= '9'
  }

  predicate IsSpace(c: char) {
    c == ' ' || '\t' <= c <= '\r'
  }

  function Lower(c: char): char {
    if 'A' <= c <= 'Z' then c + 32 as char else c
  }

  predicate AllDigits(s: string) {
    forall i | 0 <= i < |s| :: IsDigit(s[i])
  }

  predicate DigitsAt(s: string, at: nat, n: nat) {
    at + n <= |s| && forall i | at <= i < at + n :: IsDigit(s[i])
  }

  predicate SpacesAt(s: string, at: nat, n: nat) {
    at + n <= |s| && forall i | at <= i < at + n :: IsSpace(s[i])
  }

  /** `name` stands at `at`, letter case aside. */
  predicate Names(s: string, at: nat, name: string) {
    at + |name| <= |s| && forall i | 0 <= i < |name| :: Lower(s[at + i]) == Lower(name[i])
  }

  // ---------------------------------------------------------------------------------------------
  // What the pattern means

  /** A way to match the pattern: where it starts, and how far each part reaches. */
  datatype Match = Match(start: nat, digits: nat, spaces: nat, unit: Unit)

  function UnitStart(m: Match): nat {
    m.start + m.digits + m.spaces
  }

  predicate IsMatch(s: string, m: Match) {
    && m.digits > 0
    && DigitsAt(s, m.start, m.digits)
    && SpacesAt(s, m.start + m.digits, m.spaces)
    && Names(s, UnitStart(m), Name(m.unit))
  }

  /** The order in which a backtracking search tries matches: leftmost, then greedy, then alternatives in order. */
  predicate TriedBefore(m: Match, n: Match) {
    || m.start < n.start
    || (m.start == n.start && m.digits > n.digits)
    || (m.start == n.start && m.digits == n.digits && m.spaces > n.spaces)
    || (m.start == n.start && m.digits == n.digits && m.spaces == n.spaces && m.unit != n.unit
        && m.unit != 0 && (n.unit == 0 || m.unit < n.unit))
  }

  // ---------------------------------------------------------------------------------------------
  // The deterministic scanner

  function CountDigits(s: string, at: nat): (n: nat)
    requires at <= |s|
    ensures DigitsAt(s, at, n) && (at + n < |s| ==> !IsDigit(s[at + n]))
    decreases |s| - at
  {
    if at < |s| && IsDigit(s[at]) then 1 + CountDigits(s, at + 1) else 0
  }

  function CountSpaces(s: string, at: nat): (n: nat)
    requires at <= |s|
    ensures SpacesAt(s, at, n) && (at + n < |s| ==> !IsSpace(s[at + n]))
    decreases |s| - at
  {
    if at < |s| && IsSpace(s[at]) then 1 + CountSpaces(s, at + 1) else 0
  }

  function FirstDigit(s: string, at: nat): (r: Option<nat>)
    requires at <= |s|
    ensures r.None? ==> forall i | at <= i < |s| :: !IsDigit(s[i])
    ensures r.Some? ==> at <= r.value < |s| && IsDigit(s[r.value]) && forall i | at <= i < r.value :: !IsDigit(s[i])
    decreases |s| - at
  {
    if at == |s| then None else if IsDigit(s[at]) then Some(at) else FirstDigit(s, at + 1)
  }

  function UnitAt(s: string, at: nat): (u: Unit)
    ensures at <= |s| ==> Names(s, at, Name(u))
  {
    if Names(s, at, Name(1)) then 1
    else if Names(s, at, Name(2)) then 2
    else if Names(s, at, Name(3)) then 3
    else if Names(s, at, Name(4)) then 4
    else 0
  }

  function Scan(s: string): (r: Option<Match>)
    ensures r.Some? ==> UnitStart(r.value) + |Name(r.value.unit)| <= |s|
  {
    match FirstDigit(s, 0)
    case None => None
    case Some(start) =>
      var digits := CountDigits(s, start);
      var spaces := CountSpaces(s, start + digits);
      Some(Match(start, digits, spaces, UnitAt(s, start + digits + spaces)))
  }

  lemma UnitAtIsFirst(s: string, at: nat, u: Unit)
    requires Names(s, at, Name(u))
    ensures u == UnitAt(s, at) || (UnitAt(s, at) != 0 && (u == 0 || UnitAt(s, at) < u))
  {
  }

  /** On every input the scanner finds the match that the backtracking search would take, or none if there is none. */
  lemma ScanIsSearch(s: string, m: Match)
    ensures Scan(s).Some? ==> IsMatch(s, Scan(s).value)
    ensures IsMatch(s, m) ==> Scan(s).Some? && (m == Scan(s).value || TriedBefore(Scan(s).value, m))
  {
    if IsMatch(s, m) {
      assert IsDigit(s[m.start]);
      var n := Scan(s).value;
      if m.start == n.start && m.digits == n.digits && m.spaces == n.spaces {
        UnitAtIsFirst(s, UnitStart(m), m.unit);
      }
    }
  }

  // ---------------------------------------------------------------------------------------------
  // Numbers

  function Number(s: string): nat
    requires AllDigits(s)
  {
    if s == "" then 0 else 10 * Number(s[..|s| - 1]) + (s[|s| - 1] - '0') as nat
  }

  function Decimal(n: nat): (s: string)
    ensures |s| > 0 && AllDigits(s) && Number(s) == n
  {
    var last := '0' + (n % 10) as char;
    if n < 10 then
      assert [last][..0] == "";
      [last]
    else
      var front := Decimal(n / 10);
      assert (front + [last])[..|front|] == front;
      front + [last]
  }

  // ---------------------------------------------------------------------------------------------
  // Parsing

  /** `Undefined`: the digits do not fit in 64 bits, and the conversion's missing result is dereferenced anyway. */
  datatype Outcome = Parsed(size: nat) | Nothing | Undefined

  function Value(digits: string, u: Unit): Outcome
    requires AllDigits(digits)
  {
    if Number(digits) >= WORD then Undefined else Parsed(Number(digits) * Ratio(u) % WORD)
  }

  function DigitsOf(s: string): (d: string)
    requires Scan(s).Some?
    ensures AllDigits(d)
  {
    var m := Scan(s).value;
    s[m.start..m.start + m.digits]
  }

  /** The text that matched as the unit. */
  function UnitText(s: string): string
    requires Scan(s).Some?
  {
    var m := Scan(s).value;
    s[UnitStart(m)..UnitStart(m) + |Name(m.unit)|]
  }

  /** The table is searched with exact comparison, although the pattern ignored case. */
  function Lookup(text: string): Option<Unit> {
    if text == Name(0) then Some(0)
    else if text == Name(1) then Some(1)
    else if text == Name(2) then Some(2)
    else if text == Name(3) then Some(3)
    else if text == Name(4) then Some(4)
    else None
  }

  function Parse(s: string): Outcome {
    if Scan(s).None? then Nothing
    else
      match Lookup(UnitText(s))
      case None => Nothing
      case Some(u) => Value(DigitsOf(s), u)
  }

  /** With the lookup as tolerant as the pattern. */
  function IntendedParse(s: string): Outcome {
    if Scan(s).None? then Nothing else Value(DigitsOf(s), Scan(s).value.unit)
  }

  lemma LookupSameUnit(text: string, u: Unit)
    requires Names(text, 0, Name(u)) && |text| == |Name(u)|
    ensures Lookup(text) == if text == Name(u) then Some(u) else None
  {
    if u != 0 {
      assert Lower(text[0]) == Lower(Name(u)[0]);
      assert |text| == 3;
    }
  }

  /** Case matters exactly when a unit is matched that is not spelled as in the table; then the size is rejected. */
  lemma CaseMattersIff(s: string)
    ensures Parse(s) == IntendedParse(s) <==> Scan(s).None? || UnitText(s) == Name(Scan(s).value.unit)
    ensures Parse(s) != IntendedParse(s) ==> Parse(s) == Nothing
  {
    if Scan(s).Some? {
      var m := Scan(s).value;
      ScanIsSearch(s, m);
      var text := UnitText(s);
      forall i | 0 <= i < |text| ensures Lower(text[i]) == Lower(Name(m.unit)[i]) {
        assert text[i] == s[UnitStart(m) + i];
      }
      LookupSameUnit(text, m.unit);
    }
  }

  /** Text without digits, digits, spaces and a tail that continues neither: this is what the scanner finds. */
  lemma ScanOf(s: string, m: Match)
    requires m.digits > 0 && DigitsAt(s, m.start, m.digits) && SpacesAt(s, m.start + m.digits, m.spaces)
    requires forall i | 0 <= i < m.start :: !IsDigit(s[i])
    requires m.start + m.digits < |s| ==> !IsDigit(s[m.start + m.digits])
    requires UnitStart(m) < |s| ==> !IsSpace(s[UnitStart(m)])
    requires m.unit == UnitAt(s, UnitStart(m))
    ensures Scan(s) == Some(m)
  {
    hide UnitAt;
    hide Names;
    hide DigitsAt;
    hide SpacesAt;
    hide IsDigit;
    hide IsSpace;
    hide FirstDigit;
    hide CountDigits;
    hide CountSpaces;
    FirstDigitIs(s, m.start, m.digits);
    CountDigitsIs(s, m.start, m.digits);
    CountSpacesIs(s, m.start + m.digits, m.spaces);
  }

  lemma FirstDigitIs(s: string, at: nat, n: nat)
    requires n > 0 && DigitsAt(s, at, n) && forall i | 0 <= i < at :: !IsDigit(s[i])
    ensures FirstDigit(s, 0) == Some(at)
  {
    assert IsDigit(s[at]);
    var r := FirstDigit(s, 0);
    assert r.Some? && r.value <= at;
  }

  lemma CountDigitsIs(s: string, at: nat, n: nat)
    requires DigitsAt(s, at, n) && (at + n < |s| ==> !IsDigit(s[at + n]))
    ensures CountDigits(s, at) == n
  {
  }

  lemma CountSpacesIs(s: string, at: nat, n: nat)
    requires SpacesAt(s, at, n) && (at + n < |s| ==> !IsSpace(s[at + n]))
    ensures CountSpaces(s, at) == n
  {
  }

  /** A unit, in whatever case, is recognised, and separates itself from what comes before. */
  lemma UnitIsFound(s: string, at: nat, u: Unit)
    requires u != 0 && Names(s, at, Name(u))
    ensures UnitAt(s, at) == u && !IsDigit(s[at]) && !IsSpace(s[at])
  {
    assert Lower(s[at + 0]) == Lower(Name(u)[0]);
    forall v: Unit | v != 0 && Names(s, at, Name(v)) ensures v == u {
      assert Lower(s[at + 0]) == Lower(Name(v)[0]);
    }
  }

  /**
   `digits`, spaces and the unit `text` are laid out in `s` as `m` says; no match begins earlier or reaches further.
   */
  predicate Laid(s: string, m: Match, digits: string, text: string) {
    && m.digits > 0 && DigitsAt(s, m.start, m.digits) && s[m.start..m.start + m.digits] == digits
    && SpacesAt(s, m.start + m.digits, m.spaces)
    && (forall i | 0 <= i < m.start :: !IsDigit(s[i]))
    && |text| == |Name(m.unit)| && Names(text, 0, Name(m.unit))
    && UnitStart(m) + |text| <= |s| && s[UnitStart(m)..UnitStart(m) + |text|] == text
    && (m.unit == 0 ==> UnitStart(m) == |s|)
  }

  lemma PrintedIsLaid(before: string, digits: string, spaces: string, u: Unit, text: string, after: string)
    requires digits != "" && AllDigits(digits) && SpacesAt(spaces, 0, |spaces|) && (u == 0 ==> after == "")
    requires forall i | 0 <= i < |before| :: !IsDigit(before[i])
    requires |text| == |Name(u)| && Names(text, 0, Name(u))
    ensures Laid(before + digits + spaces + text + after, Match(|before|, |digits|, |spaces|, u), digits, text)
  {
    PartsOf(before, digits, spaces, text, after);
    assert u == 0 ==> |Name(u)| == 0;
  }

  lemma PartsOf(before: string, digits: string, spaces: string, text: string, after: string)
    requires forall i | 0 <= i < |before| :: !IsDigit(before[i])
    requires AllDigits(digits) && SpacesAt(spaces, 0, |spaces|)
    ensures var s := before + digits + spaces + text + after;
            var at := |before| + |digits|;
            && (forall i | 0 <= i < |before| :: !IsDigit(s[i]))
            && DigitsAt(s, |before|, |digits|) && s[|before|..at] == digits
            && SpacesAt(s, at, |spaces|) && s[at + |spaces|..at + |spaces| + |text|] == text
  {
  }

  lemma NamesAt(s: string, at: nat, text: string, name: string)
    requires at + |text| <= |s| && s[at..at + |text|] == text && |text| == |name| && Names(text, 0, name)
    ensures Names(s, at, name)
  {
    forall i | 0 <= i < |name| ensures Lower(s[at + i]) == Lower(name[i]) {
      assert s[at + i] == text[i] && Lower(text[0 + i]) == Lower(name[i]);
    }
  }

  lemma ScanOfLaid(s: string, m: Match, digits: string, text: string)
    requires Laid(s, m, digits, text)
    ensures Scan(s) == Some(m) && DigitsOf(s) == digits && UnitText(s) == text
  {
    if m.unit != 0 {
      NamesAt(s, UnitStart(m), text, Name(m.unit));
      UnitIsFound(s, UnitStart(m), m.unit);
    } else {
      assert UnitAt(s, |s|) == 0;
    }
    if m.spaces > 0 {
      assert IsSpace(s[m.start + m.digits]);
    }
    ScanOf(s, m);
  }

  /** What is read of a number and a unit that is spelled as in the table, or otherwise. */
  function Read(k: nat, u: Unit, text: string): Outcome {
    if text == Name(u) then Parsed(k * Ratio(u) % WORD) else Nothing
  }

  lemma ParseOfLaid(s: string, m: Match, k: nat, text: string)
    requires k < WORD && Laid(s, m, Decimal(k), text)
    ensures Parse(s) == Read(k, m.unit, text)
  {
    ScanOfLaid(s, m, Decimal(k), text);
    LookupSameUnit(text, m.unit);
  }

  lemma ParseOfText(before: string, k: nat, spaces: string, u: Unit, text: string, after: string)
    requires k < WORD && |text| == |Name(u)| && Names(text, 0, Name(u))
    requires forall i | 0 <= i < |before| :: !IsDigit(before[i])
    requires SpacesAt(spaces, 0, |spaces|) && (u == 0 ==> after == "")
    ensures Parse(before + Decimal(k) + spaces + text + after) == Read(k, u, text)
  {
    hide Parse;
    hide Read;
    hide Decimal;
    hide Laid;
    PrintedIsLaid(before, Decimal(k), spaces, u, text, after);
    ParseOfLaid(before + Decimal(k) + spaces + text + after, Match(|before|, |Decimal(k)|, |spaces|, u), k, text);
  }

  /**
   Printing a number with a unit and parsing it back gives the product, modulo 2^64; text without digits in front,
   any white space between, and anything at all after the unit are ignored.
   */
  lemma ParseOfPrinted(before: string, k: nat, spaces: string, u: Unit, after: string)
    requires k < WORD
    requires forall i | 0 <= i < |before| :: !IsDigit(before[i])
    requires SpacesAt(spaces, 0, |spaces|) && (u == 0 ==> after == "")
    ensures Parse(before + Decimal(k) + spaces + Name(u) + after) == Parsed(k * Ratio(u) % WORD)
  {
    hide Parse;
    hide Decimal;
    ParseOfText(before, k, spaces, u, Name(u), after);
  }

  /** The letters of a unit, each in either case. */
  predicate Spells(text: string, u: Unit) {
    |text| == 3 && text[1] in "Ii" && text[2] in "Bb" &&
    match u
    case 0 => false
    case 1 => text[0] in "Kk"
    case 2 => text[0] in "Mm"
    case 3 => text[0] in "Gg"
    case _ => text[0] in "Tt"
  }

  lemma SpelledIsNamed(text: string, u: Unit)
    requires Spells(text, u)
    ensures Names(text, 0, Name(u))
  {
    var name := Name(u);
    assert name[1] == 'i' && name[2] == 'B';
    forall i | 0 <= i < 3 ensures Lower(text[0 + i]) == Lower(name[i]) {
    }
  }

  /**
   A unit in any mixture of cases is matched, but only the spelling of the table is read: every other one makes the
   whole size invalid, whatever stands before and after it and whatever white space between.
   */
  lemma OtherCasesAreRejected(before: string, k: nat, spaces: string, u: Unit, text: string, after: string)
    requires k < WORD && Spells(text, u)
    requires forall i | 0 <= i < |before| :: before[i] !in "0123456789"
    requires forall i | 0 <= i < |spaces| :: spaces[i] in " \t\r\n"
    ensures Parse(before + Decimal(k) + spaces + text + after) ==
            if text == ["", "KiB", "MiB", "GiB", "TiB"][u] then Parsed(k * Ratio(u) % WORD) else Nothing
  {
    hide Parse;
    hide Decimal;
    SpelledIsNamed(text, u);
    LiteralDigits(before);
    ParseOfText(before, k, spaces, u, text, after);
  }

  lemma LiteralDigits(s: string)
    requires forall i | 0 <= i < |s| :: s[i] !in "0123456789"
    ensures forall i | 0 <= i < |s| :: !IsDigit(s[i])
  {
    forall i | 0 <= i < |s| ensures !IsDigit(s[i]) {
      if IsDigit(s[i]) {
        LiteralDigit(s[i]);
      }
    }
  }

  lemma LiteralDigit(c: char)
    requires IsDigit(c)
    ensures c in "0123456789"
  {
    assert "0123456789"[(c - '0') as nat] == c;
  }

  function Printed(k: nat, u: Unit): string {
    Decimal(k) + " " + Name(u)
  }

  lemma ParseOfPrintedIs(k: nat, u: Unit)
    requires k < WORD
    ensures Parse(Printed(k, u)) == Parsed(k * Ratio(u) % WORD)
  {
    hide Parse;
    hide Decimal;
    ParseOfPrinted("", k, " ", u, "");
    assert "" + Decimal(k) + " " + Name(u) + "" == Printed(k, u);
  }

  /** The round trip: what is printed as `k` and a unit is read as `k` of that unit whenever 64 bits can hold it. */
  lemma RoundTrip(k: nat, u: Unit)
    requires k * Ratio(u) < WORD
    ensures Parse(Printed(k, u)) == Parsed(k * Ratio(u))
  {
    AtLeast(k, Ratio(u));
    ParseOfPrintedIs(k, u);
    Quotient(k * Ratio(u), WORD, 0);
  }

  // ---------------------------------------------------------------------------------------------
  // Division

  lemma AtLeast(k: nat, r: nat)
    requires r > 0
    ensures k <= k * r
  {
  }

  lemma Monotone(a: nat, b: nat, d: nat)
    requires a <= b
    ensures a * d <= b * d
  {
  }

  lemma Quotient(n: nat, d: nat, q: nat)
    requires q * d <= n < (q + 1) * d
    ensures n / d == q && n % d == n - q * d
  {
    var p := n / d;
    assert n == p * d + n % d;
    if p < q {
      Monotone(p + 1, q, d);
    } else if q < p {
      Monotone(q + 1, p, d);
    }
  }

  // ---------------------------------------------------------------------------------------------
  // Printing

  function Shown(n: nat, u: Unit): string {
    Printed(n / Ratio(u), u)
  }

  /** The first of the units `u`, `u - 1`, ..., 0 that is not dropped. */
  function FirstKept(n: nat, u: Unit, dropped: nat -> bool): Option<Unit> {
    if !dropped(n / Ratio(u)) then Some(u) else if u == 0 then None else FirstKept(n, u - 1, dropped)
  }

  function Print(n: nat, dropped: nat -> bool): string {
    match FirstKept(n, 4, dropped)
    case None => Decimal(n)
    case Some(u) => Shown(n, u)
  }

  /** As written, units are dropped while the quotient is not zero. */
  function Truncate(n: nat): string {
    Print(n, quotient => quotient != 0)
  }

  /** To find the largest unit that fits, they must be dropped while it is zero. */
  function IntendedTruncate(n: nat): string {
    Print(n, quotient => quotient == 0)
  }

  lemma TruncateSmall(n: nat)
    requires n < Ratio(4)
    ensures Truncate(n) == "0 TiB"
  {
    Quotient(n, Ratio(4), 0);
    assert FirstKept(n, 4, quotient => quotient != 0) == Some(4);
    assert Decimal(0) == "0";
    assert Name(4) == "TiB";
  }

  lemma {:induction false} AllDropped(n: nat, from: Unit)
    requires n >= Ratio(4)
    ensures FirstKept(n, from, quotient => quotient != 0) == None
  {
    QuotientIsZeroIff(n, Ratio(from));
    if from > 0 {
      AllDropped(n, from - 1);
    }
  }

  /** As written: every size below one TiB is shown as none, every other one in full. */
  lemma TruncateAsWritten(n: nat)
    requires n < WORD
    ensures Truncate(n) == if n < Ratio(4) then "0 TiB" else Decimal(n)
    ensures Parse(Truncate(n)) == Parsed(if n < Ratio(4) then 0 else n)
  {
    if n < Ratio(4) {
      TruncateSmall(n);
      ZeroTiB();
    } else {
      AllDropped(n, 4);
      ParseOfDecimal(n);
    }
  }

  lemma ParseOfDecimal(n: nat)
    requires n < WORD
    ensures Parse(Decimal(n)) == Parsed(n)
  {
    hide Parse;
    hide Decimal;
    ParseOfPrinted("", n, "", 0, "");
    assert "" + Decimal(n) + "" + Name(0) + "" == Decimal(n);
    Quotient(n, WORD, 0);
  }

  lemma ZeroTiB()
    ensures Parse("0 TiB") == Parsed(0)
  {
    hide Parse;
    RoundTrip(0, 4);
    assert Decimal(0) == "0";
    assert Decimal(0) + " " + Name(4) == "0 TiB";
  }

  lemma QuotientIsZeroIff(n: nat, d: nat)
    requires d > 0
    ensures n / d == 0 <==> n < d
    ensures n / d * d <= n < n / d * d + d
  {
  }

  /** The largest unit not above `n`. */
  function Best(n: nat): (u: Unit)
    requires n > 0
    ensures Ratio(u) <= n && forall v: Unit :: u < v ==> n < Ratio(v)
  {
    if n >= Ratio(4) then 4
    else if n >= Ratio(3) then 3
    else if n >= Ratio(2) then 2
    else if n >= Ratio(1) then 1
    else 0
  }

  lemma {:induction false} KeepsBest(n: nat, from: Unit)
    requires n > 0 && from >= Best(n)
    ensures FirstKept(n, from, quotient => quotient == 0) == Some(Best(n))
  {
    QuotientIsZeroIff(n, Ratio(from));
    if from > Best(n) {
      KeepsBest(n, from - 1);
    }
  }

  /** With the intended choice a whole number of a unit is shown as such, unless it makes one of the next unit. */
  lemma WholeUnitsAreShown(k: nat, u: Unit)
    requires 0 < k && (u < 4 ==> k < 1024)
    ensures IntendedTruncate(k * Ratio(u)) == Printed(k, u)
  {
    var n := k * Ratio(u);
    AtLeast(Ratio(u), k);
    assert Best(n) == u;
    KeepsBest(n, 4);
    Quotient(n, Ratio(u), k);
  }

  /**
   With the intended choice the printed size, read back, is at most the size and more than half of it, falls short
   by less than the unit shown, and prints the same again.
   */
  lemma IntendedTruncateLosesLittle(n: nat)
    requires 0 < n < WORD
    ensures Parse(IntendedTruncate(n)).Parsed?
    ensures var v := Parse(IntendedTruncate(n)).size;
            v <= n < 2 * v && n - v < Ratio(Best(n)) <= n && IntendedTruncate(v) == IntendedTruncate(n)
  {
    var u := Best(n);
    var r := Ratio(u);
    KeepsBest(n, 4);
    assert IntendedTruncate(n) == Shown(n, u);
    var q := n / r;
    var v := q * r;
    QuotientIsZeroIff(n, r);
    AtLeast(r, q);
    RoundTrip(q, u);
    assert Best(v) == u;
    KeepsBest(v, 4);
    Quotient(v, r, q);
  }
}
