/**
 * `LoggerConfig._parse_file_size`: the rotating log file's size limit, written as text such
 * as "10MB", converted to bytes. A text that `int(...)` cannot parse raises ValueError,
 * modelled as `None`.
 */
module LoggerConfig {
  import opened Wrappers
  import opened Text

  const KiB: int := 1024
  const MiB: int := 1024 * 1024
  const GiB: int := 1024 * 1024 * 1024

  /** The three units the suffixes stand for. */
  predicate IsUnit(factor: int) {
    factor == KiB || factor == MiB || factor == GiB
  }

  /** `int(...) * factor`, which keeps the raised ValueError. */
  function Scaled(n: Option<int>, factor: int): (r: Option<int>)
    requires IsUnit(factor)
    ensures r.Some? <==> n.Some?
    ensures r.Some? ==> r.value % factor == 0
  {
    match n
    case Some(v) => UnitMultiple(v, factor); Some(v * factor)
    case None => None
  }

  lemma UnitMultiple(v: int, factor: int)
    requires IsUnit(factor)
    ensures (v * factor) % factor == 0
  {
    if factor == KiB {
      assert (v * 1024) % 1024 == 0;
    } else if factor == MiB {
      assert (v * (1024 * 1024)) % (1024 * 1024) == 0;
    } else {
      assert (v * (1024 * 1024 * 1024)) % (1024 * 1024 * 1024) == 0;
    }
  }

  /** A two-letter suffix fixes the second-to-last character. */
  lemma SuffixLetter(s: string, suffix: string)
    requires |suffix| == 2
    ensures EndsWith(s, suffix) ==> |s| >= 2 && s[|s| - 2] == suffix[0]
  {
    if EndsWith(s, suffix) {
      assert s[|s| - 2..][0] == suffix[0];
    }
  }

  /**
   * Upper-case the text, then strip a KB, MB or GB suffix and scale, or parse it whole; a
   * result under a suffix is a whole multiple of that unit.
   */
  function ParseFileSize(sizeStr: string): (r: Option<int>)
    ensures r.Some? && EndsWith(Upper(sizeStr), "KB") ==> r.value % KiB == 0
    ensures r.Some? && EndsWith(Upper(sizeStr), "MB") ==> r.value % MiB == 0
    ensures r.Some? && EndsWith(Upper(sizeStr), "GB") ==> r.value % GiB == 0
  {
    var s := Upper(sizeStr);
    SuffixLetter(s, "KB");
    SuffixLetter(s, "MB");
    SuffixLetter(s, "GB");
    if EndsWith(s, "KB") then Scaled(ParseInt(s[..|s| - 2]), KiB)
    else if EndsWith(s, "MB") then Scaled(ParseInt(s[..|s| - 2]), MiB)
    else if EndsWith(s, "GB") then Scaled(ParseInt(s[..|s| - 2]), GiB)
    else ParseInt(s)
  }

  lemma UpperDigits(n: nat)
    ensures Upper(ShowNat(n)) == ShowNat(n)
  {
  }

  lemma UpperAppend(a: string, b: string)
    ensures Upper(a + b) == Upper(a) + Upper(b)
  {
  }

  /** "<n>KB", in any letter case, is n * 1024 bytes. */
  lemma {:induction false} KilobytesScale(n: nat, unit: string)
    requires Upper(unit) == "KB"
    ensures ParseFileSize(ShowNat(n) + unit) == Some(n * 1024)
  {
    var s := Upper(ShowNat(n) + unit);
    UpperAppend(ShowNat(n), unit);
    UpperDigits(n);
    assert s == ShowNat(n) + "KB";
    assert s[..|s| - 2] == ShowNat(n);
    ParseShowNat(n);
  }

  /** "<n>MB", in any letter case, is n * 1024 * 1024 bytes. */
  lemma {:induction false} MegabytesScale(n: nat, unit: string)
    requires Upper(unit) == "MB"
    ensures ParseFileSize(ShowNat(n) + unit) == Some(n * 1024 * 1024)
  {
    var s := Upper(ShowNat(n) + unit);
    UpperAppend(ShowNat(n), unit);
    UpperDigits(n);
    assert s == ShowNat(n) + "MB";
    assert !EndsWith(s, "KB") by { assert s[|s| - 2..] == "MB"; }
    assert s[..|s| - 2] == ShowNat(n);
    ParseShowNat(n);
  }

  /** "<n>GB", in any letter case, is n * 1024 * 1024 * 1024 bytes. */
  lemma {:induction false} GigabytesScale(n: nat, unit: string)
    requires Upper(unit) == "GB"
    ensures ParseFileSize(ShowNat(n) + unit) == Some(n * 1024 * 1024 * 1024)
  {
    var s := Upper(ShowNat(n) + unit);
    UpperAppend(ShowNat(n), unit);
    UpperDigits(n);
    assert s == ShowNat(n) + "GB";
    assert s[|s| - 2..] == "GB";
    assert s[..|s| - 2] == ShowNat(n);
    ParseShowNat(n);
  }

  /** The default limit "10MB" is 10485760 bytes. */
  lemma DefaultLimit()
    ensures ParseFileSize("10MB") == Some(10485760)
  {
    assert ShowNat(1) == "1";
    assert ShowNat(10) == ShowNat(1) + "0";
    assert ShowNat(10) + "MB" == "10MB";
    assert Upper("MB") == "MB";
    MegabytesScale(10, "MB");
  }

  /** Letter case never matters: the text is upper-cased before any test. */
  lemma CaseInsensitive(s: string)
    ensures ParseFileSize(s) == ParseFileSize(Upper(s))
  {
    UpperIdempotent(s);
  }

  /** Without a recognised suffix the whole text goes to `int(...)`, so a plain number is bytes. */
  lemma {:induction false} PlainBytes(n: nat)
    ensures ParseFileSize(ShowNat(n)) == Some(n)
  {
    var s := ShowNat(n);
    UpperDigits(n);
    assert !EndsWith(s, "KB") && !EndsWith(s, "MB") && !EndsWith(s, "GB") by {
      if |s| >= 2 { assert IsDigit(s[|s| - 1]); }
    }
    ParseShowNat(n);
  }

  /** A byte suffix "B" alone is not recognised: "100B" reaches `int("100B")`, which raises. */
  lemma BytesSuffixRejected()
    ensures ParseFileSize("100B") == None
  {
    var s := Upper("100B");
    assert s == "100B";
    assert s[2..] == "0B";
    assert !IsDigitGroups(Strip(s)) by {
      assert StripLeft(s) == s;
      assert StripRight(s) == s;
      assert !IsDigit(s[3]);
    }
  }
}
