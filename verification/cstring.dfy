/** The parts of the C library that the GBA core leans on when it reads
    names: `strtoul` in base 10 and `strcasecmp`, both in the "C" locale.
    `unsigned long` is taken to be 64 bits wide (an LP64 host). */
module CString {

  /** ULONG_MAX on an LP64 host. */
  const ULongMax: nat := 0xFFFF_FFFF_FFFF_FFFF

  /** `isspace` in the "C" locale. */
  predicate IsSpace(c: char) {
    c == ' ' || c == '\t' || c == '\n' || c == '\U{0B}' || c == '\U{0C}' || c == '\r'
  }

  predicate IsDigit(c: char) {
    '0' <= c <= '9'
  }

  predicate AllDigits(s: string) {
    forall k :: 0 <= k < |s| ==> IsDigit(s[k])
  }

  function DigitValue(c: char): (d: nat)
    requires IsDigit(c)
    ensures d <= 9
  {
    c as int - '0' as int
  }

  /** The value of a string of decimal digits, most significant first. */
  function DecimalValue(s: string): nat
    requires AllDigits(s)
  {
    if |s| == 0 then 0 else 10 * DecimalValue(s[..|s| - 1]) + DigitValue(s[|s| - 1])
  }

  /** The end of the run of whitespace that starts at `i`. */
  function SpaceRun(s: string, i: nat): (j: nat)
    requires i <= |s|
    ensures i <= j <= |s|
    ensures forall k :: i <= k < j ==> IsSpace(s[k])
    ensures j < |s| ==> !IsSpace(s[j])
    decreases |s| - i
  {
    if i < |s| && IsSpace(s[i]) then SpaceRun(s, i + 1) else i
  }

  /** The end of the run of decimal digits that starts at `i`. */
  function DigitRun(s: string, i: nat): (j: nat)
    requires i <= |s|
    ensures i <= j <= |s|
    ensures forall k :: i <= k < j ==> IsDigit(s[k])
    ensures j < |s| ==> !IsDigit(s[j])
    decreases |s| - i
  {
    if i < |s| && IsDigit(s[i]) then DigitRun(s, i + 1) else i
  }

  /** What `strtoul(s, &end, 10)` hands back: the value, the index `end`
      points at, and whether it set `errno` to ERANGE. */
  datatype ULongParse = ULongParse(value: nat, end: nat, erange: bool)

  /** Where the digits start once an optional sign at `i` is passed. */
  function SignEnd(s: string, i: nat): (j: nat)
    requires i <= |s|
    ensures i <= j <= |s|
  {
    if i < |s| && (s[i] == '+' || s[i] == '-') then i + 1 else i
  }

  /** The conversion of the digits found: none gives 0 and an end index
      at the start of the text; a magnitude above ULONG_MAX saturates and
      sets ERANGE; a minus sign negates modulo ULONG_MAX + 1. */
  function Convert(digits: string, negative: bool, end: nat): (r: ULongParse)
    requires AllDigits(digits)
    ensures r.value <= ULongMax
    ensures r.end == if |digits| == 0 then 0 else end
    ensures r.erange <==> DecimalValue(digits) > ULongMax
  {
    if |digits| == 0 then ULongParse(0, 0, false)
    else
      var n := DecimalValue(digits);
      if n > ULongMax then ULongParse(ULongMax, end, true)
      else if negative then ULongParse((ULongMax + 1 - n) % (ULongMax + 1), end, false)
      else ULongParse(n, end, false)
  }

  /** `strtoul` in base 10: optional leading whitespace, an optional sign,
      then the longest run of digits. */
  function StrToUL(s: string): (r: ULongParse)
    ensures r.value <= ULongMax
    ensures r.end <= |s|
    ensures r.end == 0 || IsDigit(s[r.end - 1])
    ensures r.erange ==> r.value == ULongMax
  {
    var i := SpaceRun(s, 0);
    var j := SignEnd(s, i);
    var k := DigitRun(s, j);
    Convert(s[j..k], i < |s| && s[i] == '-', k)
  }

  /** A run of digits that starts a string is the whole string exactly
      when every character is a digit. */
  lemma {:induction false} DigitRunOfDigits(s: string, i: nat)
    requires i <= |s|
    requires forall k :: i <= k < |s| ==> IsDigit(s[k])
    ensures DigitRun(s, i) == |s|
    decreases |s| - i
  {
    if i < |s| {
      DigitRunOfDigits(s, i + 1);
    }
  }

  /** On a non-empty string of digits `strtoul` consumes everything and
      yields the decimal value, saturating above ULONG_MAX. */
  lemma StrToULOfDigits(d: string)
    requires |d| > 0 && AllDigits(d)
    ensures StrToUL(d).end == |d|
    ensures StrToUL(d).erange <==> DecimalValue(d) > ULongMax
    ensures !StrToUL(d).erange ==> StrToUL(d).value == DecimalValue(d)
  {
    assert !IsSpace(d[0]);
    assert SpaceRun(d, 0) == 0;
    DigitRunOfDigits(d, 0);
    assert d[0..|d|] == d;
  }

  /** `tolower` in the "C" locale: only the 26 capital letters change. */
  function ToLower(c: char): (r: char)
    ensures !('A' <= r <= 'Z')
    ensures 'A' <= c <= 'Z' ==> 'a' <= r <= 'z' && r as int - 'a' as int == c as int - 'A' as int
    ensures !('A' <= c <= 'Z') ==> r == c
  {
    if 'A' <= c <= 'Z' then (c as int + 32) as char else c
  }

  /** `strcasecmp(a, b) == 0` in the "C" locale. */
  predicate EqualIgnoringCase(a: string, b: string) {
    |a| == |b| && forall k :: 0 <= k < |a| ==> ToLower(a[k]) == ToLower(b[k])
  }

  /** A word of lower-case letters matches, ignoring case, exactly the
      texts of its length that spell it with any mix of lower- and
      upper-case letters. */
  lemma MatchesLowerWord(a: string, w: string)
    requires forall k :: 0 <= k < |w| ==> 'a' <= w[k] <= 'z'
    ensures EqualIgnoringCase(a, w) <==>
              |a| == |w| && forall k :: 0 <= k < |a| ==> a[k] == w[k] || a[k] as int == w[k] as int - 32
  {
  }

  // ---------------------------------------------------------------------
  // What a leading blank or sign does to `strtoul`

  lemma {:induction false} SpaceRunShift(c: char, s: string, i: nat)
    requires i <= |s|
    ensures SpaceRun([c] + s, i + 1) == SpaceRun(s, i) + 1
    decreases |s| - i
  {
    var t := [c] + s;
    if i < |s| {
      assert t[i + 1] == s[i];
      if IsSpace(s[i]) {
        SpaceRunShift(c, s, i + 1);
      }
    }
  }

  lemma {:induction false} DigitRunShift(c: char, s: string, i: nat)
    requires i <= |s|
    ensures DigitRun([c] + s, i + 1) == DigitRun(s, i) + 1
    decreases |s| - i
  {
    var t := [c] + s;
    if i < |s| {
      assert t[i + 1] == s[i];
      if IsDigit(s[i]) {
        DigitRunShift(c, s, i + 1);
      }
    }
  }

  /** A whitespace character in front of any text changes nothing but the
      end index, which moves by one when a number was found. */
  lemma BlankSkipped(c: char, s: string)
    requires IsSpace(c)
    ensures var p := StrToUL(s);
            StrToUL([c] + s) == if p.end == 0 then p else p.(end := p.end + 1)
  {
    var i := SpaceRun(s, 0);
    var j := SignEnd(s, i);
    var k := DigitRun(s, j);
    BlankRuns(c, s, i, j, k);
    StrToULAt(s, i, j, k);
    ConvertEnd(s[j..k], i < |s| && s[i] == '-', k, k + 1);
  }

  /** Behind a leading blank, every run `strtoul` scans sits one place
      further right and covers the same text. */
  lemma BlankRuns(c: char, s: string, i: nat, j: nat, k: nat)
    requires IsSpace(c)
    requires i == SpaceRun(s, 0) && j == SignEnd(s, i) && k == DigitRun(s, j)
    ensures StrToUL([c] + s) == Convert(s[j..k], i < |s| && s[i] == '-', k + 1)
  {
    ShiftedRuns(c, s, i, j, k);
    SliceAfterFirst(c, s, j, k);
    StrToULAt([c] + s, i + 1, j + 1, k + 1);
  }

  /** `strtoul` read through the three runs it scans. */
  lemma StrToULAt(t: string, i: nat, j: nat, k: nat)
    requires i == SpaceRun(t, 0) && j == SignEnd(t, i) && k == DigitRun(t, j)
    ensures StrToUL(t) == Convert(t[j..k], i < |t| && t[i] == '-', k)
  {
  }

  lemma ShiftedRuns(c: char, s: string, i: nat, j: nat, k: nat)
    requires IsSpace(c)
    requires i == SpaceRun(s, 0) && j == SignEnd(s, i) && k == DigitRun(s, j)
    ensures SpaceRun([c] + s, 0) == i + 1
    ensures SignEnd([c] + s, i + 1) == j + 1
    ensures DigitRun([c] + s, j + 1) == k + 1
    ensures (i + 1 < |[c] + s| && ([c] + s)[i + 1] == '-') == (i < |s| && s[i] == '-')
  {
    var t := [c] + s;
    SpaceRunShift(c, s, 0);
    assert i < |s| ==> t[i + 1] == s[i];
    DigitRunShift(c, s, j);
  }

  lemma SliceAfterFirst(c: char, s: string, j: nat, k: nat)
    requires j <= k <= |s|
    ensures ([c] + s)[j + 1..k + 1] == s[j..k]
  {
    var t := [c] + s;
    forall m | 0 <= m < k - j
      ensures t[j + 1..k + 1][m] == s[j..k][m]
    {
      assert t[j + 1 + m] == s[j + m];
    }
  }

  /** Only the end index depends on where the digits stopped. */
  lemma ConvertEnd(digits: string, negative: bool, end: nat, end': nat)
    requires AllDigits(digits)
    ensures Convert(digits, negative, end') ==
              if |digits| == 0 then Convert(digits, negative, end)
              else Convert(digits, negative, end).(end := end')
  {
  }

  /** A sign in front of a number: `+` keeps the value, `-` negates it
      modulo ULONG_MAX + 1; a magnitude above ULONG_MAX saturates with
      ERANGE either way. */
  lemma SignSkipped(sign: char, d: string)
    requires sign == '+' || sign == '-'
    requires |d| > 0 && AllDigits(d)
    ensures var n := DecimalValue(d);
            StrToUL([sign] + d) ==
              if n > ULongMax then ULongParse(ULongMax, |d| + 1, true)
              else if sign == '-' then ULongParse((ULongMax + 1 - n) % (ULongMax + 1), |d| + 1, false)
              else ULongParse(n, |d| + 1, false)
  {
    SignRuns(sign, d);
  }

  /** A sign with no digits after it is no number: the value is 0 and
      `end` points back at the start of the text. */
  lemma SignAlone(sign: char)
    requires sign == '+' || sign == '-'
    ensures StrToUL([sign]) == ULongParse(0, 0, false)
  {
    assert SpaceRun([sign], 0) == 0;
    assert [sign][1..1] == "";
  }

  /** Behind a leading sign the digit run covers the rest of the text. */
  lemma SignRuns(sign: char, d: string)
    requires sign == '+' || sign == '-'
    requires |d| > 0 && AllDigits(d)
    ensures StrToUL([sign] + d) == Convert(d, sign == '-', |d| + 1)
  {
    var t := [sign] + d;
    assert !IsSpace(t[0]);
    assert SpaceRun(t, 0) == 0;
    DigitRunShift(sign, d, 0);
    DigitRunOfDigits(d, 0);
    assert t[1..|d| + 1] == d;
  }
}
