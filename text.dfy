/**
 * The string operations of the Python sources that the models need: substring tests,
 * ASCII case mapping, `str.replace`, `str.isdigit` and `int(...)` parsing of decimal text.
 * Strings are `seq<char>`; only ASCII behaviour is modelled.
 */
module Text {
  import opened Wrappers

  /** `s.startswith(p)`. */
  predicate StartsWith(s: string, p: string) {
    |p| <= |s| && s[..|p|] == p
  }

  /** `s.endswith(suffix)`. */
  predicate EndsWith(s: string, suffix: string) {
    |suffix| <= |s| && s[|s| - |suffix|..] == suffix
  }

  /** `t in s` for strings: `t` occurs somewhere in `s` (the empty string occurs everywhere). */
  predicate Contains(s: string, t: string)
    decreases |s|
  {
    StartsWith(s, t) || (|s| > 0 && Contains(s[1..], t))
  }

  /** `t` occurs in `s` starting at index `i`. */
  predicate OccursAt(s: string, t: string, i: int) {
    0 <= i && i + |t| <= |s| && s[i..i + |t|] == t
  }

  lemma {:induction false} ContainsAt(s: string, t: string, i: nat)
    requires OccursAt(s, t, i)
    ensures Contains(s, t)
    decreases i
  {
    if i > 0 {
      assert s[1..][i - 1..i - 1 + |t|] == s[i..i + |t|];
      ContainsAt(s[1..], t, i - 1);
    }
  }

  lemma {:induction false} ContainsWitness(s: string, t: string) returns (i: nat)
    requires Contains(s, t)
    ensures OccursAt(s, t, i)
    decreases |s|
  {
    if StartsWith(s, t) {
      i := 0;
    } else {
      var j := ContainsWitness(s[1..], t);
      assert s[1..][j..j + |t|] == s[j + 1..j + 1 + |t|];
      i := j + 1;
    }
  }

  /** A text that lacks the first character of `pat` does not contain `pat`. */
  lemma {:induction false} NotContainsWithoutFirstChar(s: string, pat: string)
    requires |pat| > 0 && forall i :: 0 <= i < |s| ==> s[i] != pat[0]
    ensures !Contains(s, pat)
    decreases |s|
  {
    if |pat| <= |s| {
      assert s[..|pat|][0] == s[0];
    }
    if |s| > 0 {
      NotContainsWithoutFirstChar(s[1..], pat);
    }
  }

  /** `Contains` is Python's `in`: `t` is a contiguous slice of `s`. */
  lemma ContainsMeansSlice(s: string, t: string)
    ensures Contains(s, t) <==> exists i :: OccursAt(s, t, i)
  {
    if Contains(s, t) {
      var i := ContainsWitness(s, t);
    }
    if exists i :: OccursAt(s, t, i) {
      var i :| OccursAt(s, t, i);
      ContainsAt(s, t, i);
    }
  }

  function UpperChar(c: char): char {
    if 'a' <= c <= 'z' then (c as int - 32) as char else c
  }

  function LowerChar(c: char): char {
    if 'A' <= c <= 'Z' then (c as int + 32) as char else c
  }

  /** `s.upper()` on ASCII letters. */
  function Upper(s: string): (r: string)
    ensures |r| == |s|
  {
    seq(|s|, i requires 0 <= i < |s| => UpperChar(s[i]))
  }

  /** `s.lower()` on ASCII letters. */
  function Lower(s: string): (r: string)
    ensures |r| == |s|
  {
    seq(|s|, i requires 0 <= i < |s| => LowerChar(s[i]))
  }

  /** Upper-casing twice is upper-casing once. */
  lemma UpperIdempotent(s: string)
    ensures Upper(Upper(s)) == Upper(s)
  {
  }

  /**
   * `s.replace(pat, rep)` for a non-empty pattern: occurrences are replaced left to right
   * and do not overlap.
   */
  function Replace(s: string, pat: string, rep: string): string
    requires |pat| > 0
    decreases |s|
  {
    if |s| < |pat| then s
    else if StartsWith(s, pat) then rep + Replace(s[|pat|..], pat, rep)
    else [s[0]] + Replace(s[1..], pat, rep)
  }

  /** Replacing `pat` by the empty string in a text without `pat` changes nothing. */
  lemma {:induction false} ReplaceAbsent(s: string, pat: string)
    requires |pat| > 0 && !Contains(s, pat)
    ensures Replace(s, pat, "") == s
    decreases |s|
  {
    if |s| >= |pat| {
      ReplaceAbsent(s[1..], pat);
      assert [s[0]] + s[1..] == s;
    }
  }

  /**
   * A pandas duplicate-column suffix ".1" disappears under `replace(".1", "")` without
   * disturbing the rest of the name: `(s + ".1").replace(".1", "") == s.replace(".1", "")`.
   */
  lemma {:induction false} ReplaceDropsDuplicateSuffix(s: string)
    ensures Replace(s + ".1", ".1", "") == Replace(s, ".1", "")
    decreases |s|
  {
    var t := s + ".1";
    if |s| == 0 {
      assert t == ".1";
      assert StartsWith(t, ".1");
      assert t[2..] == "";
    } else if |s| == 1 {
      assert t[..2] == [s[0], '.'];
      assert !StartsWith(t, ".1");
      assert t[1..] == ".1";
      assert StartsWith(t[1..], ".1");
      assert t[1..][2..] == "";
    } else if StartsWith(s, ".1") {
      assert StartsWith(t, ".1");
      assert t[2..] == s[2..] + ".1";
      ReplaceDropsDuplicateSuffix(s[2..]);
    } else {
      assert t[..2] == s[..2];
      assert !StartsWith(t, ".1");
      assert t[1..] == s[1..] + ".1";
      ReplaceDropsDuplicateSuffix(s[1..]);
    }
  }

  predicate IsDigit(c: char) {
    '0' <= c <= '9'
  }

  /** `s.isdigit()`: non-empty and every character a digit. */
  predicate IsDigits(s: string) {
    |s| > 0 && forall i :: 0 <= i < |s| ==> IsDigit(s[i])
  }

  function DigitValue(c: char): nat
    requires IsDigit(c)
  {
    c as int - '0' as int
  }

  /** The number a string of decimal digits denotes (0 for the empty string). */
  function DecimalValue(s: string): nat
    requires forall i :: 0 <= i < |s| ==> IsDigit(s[i])
    decreases |s|
  {
    if |s| == 0 then 0 else DecimalValue(s[..|s| - 1]) * 10 + DigitValue(s[|s| - 1])
  }

  /** Decimal text of a natural number, without leading zeros. */
  function ShowNat(n: nat): (r: string)
    ensures IsDigits(r)
    decreases n
  {
    if n < 10 then [('0' as int + n) as char] else ShowNat(n / 10) + [('0' as int + n % 10) as char]
  }

  lemma {:induction false} ShowNatValue(n: nat)
    ensures DecimalValue(ShowNat(n)) == n
    decreases n
  {
    var s := ShowNat(n);
    if n >= 10 {
      ShowNatValue(n / 10);
      assert s[..|s| - 1] == ShowNat(n / 10);
    }
  }

  predicate IsSpace(c: char) {
    c == ' ' || c == '\t' || c == '\n' || c == '\r' || c == 11 as char || c == 12 as char
  }

  function StripLeft(s: string): string
    decreases |s|
  {
    if |s| > 0 && IsSpace(s[0]) then StripLeft(s[1..]) else s
  }

  function StripRight(s: string): string
    decreases |s|
  {
    if |s| > 0 && IsSpace(s[|s| - 1]) then StripRight(s[..|s| - 1]) else s
  }

  /** `s.strip()` on ASCII white space. */
  function Strip(s: string): string {
    StripRight(StripLeft(s))
  }

  /**
   * The digit body accepted by Python's `int(text)` in base 10: digits, where single
   * underscores may separate two digits.
   */
  predicate IsDigitGroups(s: string) {
    && |s| > 0 && IsDigit(s[0]) && IsDigit(s[|s| - 1])
    && (forall i :: 0 <= i < |s| ==> IsDigit(s[i]) || s[i] == '_')
    && (forall i :: 0 <= i < |s| - 1 ==> s[i] == '_' ==> s[i + 1] != '_')
  }

  function RemoveUnderscores(s: string): (r: string)
    requires forall i :: 0 <= i < |s| ==> IsDigit(s[i]) || s[i] == '_'
    ensures forall i :: 0 <= i < |r| ==> IsDigit(r[i])
    decreases |s|
  {
    if |s| == 0 then ""
    else if s[0] == '_' then RemoveUnderscores(s[1..])
    else [s[0]] + RemoveUnderscores(s[1..])
  }

  /** Python's `int(text)`: surrounding white space, an optional sign, digit groups; else `None` (ValueError). */
  function ParseInt(text: string): Option<int> {
    var t := Strip(text);
    if |t| > 0 && (t[0] == '+' || t[0] == '-') then
      (if IsDigitGroups(t[1..]) then
         var n: int := DecimalValue(RemoveUnderscores(t[1..]));
         Some(if t[0] == '-' then -n else n)
       else None)
    else if IsDigitGroups(t) then Some(DecimalValue(RemoveUnderscores(t)))
    else None
  }

  lemma {:induction false} NoUnderscores(s: string)
    requires forall i :: 0 <= i < |s| ==> IsDigit(s[i])
    ensures RemoveUnderscores(s) == s
    decreases |s|
  {
    if |s| > 0 {
      NoUnderscores(s[1..]);
      assert [s[0]] + s[1..] == s;
    }
  }

  /** `int(str(n)) == n`: parsing is the inverse of decimal printing. */
  lemma ParseShowNat(n: nat)
    ensures ParseInt(ShowNat(n)) == Some(n)
  {
    var s := ShowNat(n);
    assert StripLeft(s) == s;
    assert StripRight(s) == s;
    assert !(s[0] == '+' || s[0] == '-');
    NoUnderscores(s);
    ShowNatValue(n);
  }
}
