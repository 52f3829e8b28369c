/**
 * The start-up gate on the Alembic library version (`version_check`): the
 * short version string "major.minor.maint" is split on dots, its first two
 * parts are read as integers, and the viewer runs only on Alembic 1.5.0 or later.
 */
module Version {
  import opened Wrappers

  const MAJOR: int := 1
  const MINOR: int := 5
  const MAINT: int := 0

  /** Python's `str.split(sep)`: the pieces between the separators, empty pieces included. */
  function Split(s: string, sep: char): (r: seq<string>)
    ensures |r| >= 1
    ensures forall i :: 0 <= i < |r| ==> sep !in r[i]
  {
    if s == [] then [""]
    else
      var rest := Split(s[1..], sep);
      if s[0] == sep then [""] + rest else [[s[0]] + rest[0]] + rest[1..]
  }

  /** Python's `sep.join(parts)`. */
  function Join(parts: seq<string>, sep: char): string
    requires |parts| >= 1
  {
    if |parts| == 1 then parts[0] else parts[0] + [sep] + Join(parts[1..], sep)
  }

  /** Splitting and joining again gives the string back. */
  lemma {:induction false} JoinSplit(s: string, sep: char)
    ensures Join(Split(s, sep), sep) == s
  {
    if s != [] {
      var rest := Split(s[1..], sep);
      JoinSplit(s[1..], sep);
      if s[0] == sep {
        assert Split(s, sep)[1..] == rest;
      } else {
        var r := Split(s, sep);
        if |rest| == 1 {
          assert r == [[s[0]] + rest[0]];
        } else {
          assert r[1..] == rest[1..];
          assert Join(rest, sep) == rest[0] + [sep] + Join(rest[1..], sep);
        }
      }
    }
  }

  /** A piece without the separator, followed by anything, is the first piece's beginning. */
  lemma {:induction false} SplitPrefix(p: string, t: string, sep: char)
    requires sep !in p
    ensures Split(p + t, sep) == [p + Split(t, sep)[0]] + Split(t, sep)[1..]
  {
    if p != [] {
      assert (p + t)[1..] == p[1..] + t;
      SplitPrefix(p[1..], t, sep);
      var rest := Split(p[1..] + t, sep);
      assert p[0] != sep;
      assert Split(p + t, sep) == [[p[0]] + rest[0]] + rest[1..];
      assert rest[1..] == Split(t, sep)[1..];
      assert [p[0]] + (p[1..] + Split(t, sep)[0]) == p + Split(t, sep)[0];
    } else {
      assert p + t == t;
      assert p + Split(t, sep)[0] == Split(t, sep)[0];
      assert Split(t, sep) == [Split(t, sep)[0]] + Split(t, sep)[1..];
    }
  }

  /** Joining pieces that hold no separator and splitting again gives the pieces back. */
  lemma {:induction false} SplitJoin(parts: seq<string>, sep: char)
    requires |parts| >= 1
    requires forall i :: 0 <= i < |parts| ==> sep !in parts[i]
    ensures Split(Join(parts, sep), sep) == parts
  {
    if |parts| == 1 {
      SplitPrefix(parts[0], [], sep);
      assert Split([], sep) == [""];
      assert parts[0] + [] == parts[0];
    } else {
      var rest := Join(parts[1..], sep);
      SplitJoin(parts[1..], sep);
      assert parts[0] + [sep] + rest == parts[0] + ([sep] + rest);
      SplitPrefix(parts[0], [sep] + rest, sep);
      assert ([sep] + rest)[1..] == rest;
      assert Split([sep] + rest, sep) == [""] + parts[1..];
      assert parts[0] + "" == parts[0];
      assert [parts[0]] + parts[1..] == parts;
    }
  }

  predicate IsDigit(c: char) {
    '0' <= c <= '9'
  }

  predicate AllDigits(s: string) {
    forall i :: 0 <= i < |s| ==> IsDigit(s[i])
  }

  /** The value of a string of decimal digits, most significant first. */
  function DigitsValue(s: string): nat
    requires AllDigits(s)
  {
    if s == [] then 0 else 10 * DigitsValue(s[..|s| - 1]) + (s[|s| - 1] as int - '0' as int)
  }

  /** The decimal digits of `n`, without leading zeros. */
  function ShowNat(n: nat): (s: string)
    ensures |s| >= 1 && AllDigits(s)
  {
    var d := ['0' + (n % 10) as char];
    if n < 10 then d else ShowNat(n / 10) + d
  }

  lemma {:induction false} DigitsOfShowNat(n: nat)
    ensures DigitsValue(ShowNat(n)) == n
  {
    var s := ShowNat(n);
    if n >= 10 {
      DigitsOfShowNat(n / 10);
      assert s[..|s| - 1] == ShowNat(n / 10);
    }
  }

  /**
   * Python's `int(s)` on a string: an optional sign followed by at least one
   * decimal digit; anything else raises ValueError.
   */
  function ParseInt(s: string): (r: Result<int>)
    ensures r.Ok? <==> (|s| >= 1 && AllDigits(s)) || (|s| >= 2 && s[0] in "+-" && AllDigits(s[1..]))
    ensures r.Err? ==> r.error == ValueError
    ensures |s| >= 1 && AllDigits(s) ==> r == Ok(DigitsValue(s))
    ensures |s| >= 2 && s[0] == '-' && AllDigits(s[1..]) ==> r == Ok(-(DigitsValue(s[1..]) as int))
  {
    if |s| >= 1 && AllDigits(s) then Ok(DigitsValue(s))
    else if |s| >= 2 && s[0] == '-' && AllDigits(s[1..]) then Ok(-(DigitsValue(s[1..]) as int))
    else if |s| >= 2 && s[0] == '+' && AllDigits(s[1..]) then Ok(DigitsValue(s[1..]))
    else Err(ValueError)
  }

  /** Reading back the decimal digits of `n` gives `n`. */
  lemma ParseShowNat(n: nat)
    ensures ParseInt(ShowNat(n)) == Ok(n)
  {
    DigitsOfShowNat(n);
  }

  /**
   * `version_check` as written.  The unpacking into three names raises
   * ValueError unless there are exactly three pieces; `and` stops after a
   * major below 1, so the minor is then never read; otherwise the minor must be at least 5.
   */
  function VersionCheckAsWritten(version: string): (r: Result<int>)
    ensures |Split(version, '.')| != 3 ==> r == Err(ValueError)
    ensures r.Ok? ==> r.value in {0, 1}
  {
    var parts := Split(version, '.');
    if |parts| != 3 then Err(ValueError)
    else match ParseInt(parts[0])
      case Err(e) => Err(e)
      case Ok(major) =>
        if major < MAJOR then Ok(0)
        else match ParseInt(parts[1])
          case Err(e) => Err(e)
          case Ok(minor) => Ok(if minor >= MINOR then 1 else 0)
  }

  /** The short version string of Alembic `a.b.c`. */
  function VersionString(a: nat, b: nat, c: nat): string {
    ShowNat(a) + "." + ShowNat(b) + "." + ShowNat(c)
  }

  lemma SplitVersionString(a: nat, b: nat, c: nat)
    ensures Split(VersionString(a, b, c), '.') == [ShowNat(a), ShowNat(b), ShowNat(c)]
  {
    var parts := [ShowNat(a), ShowNat(b), ShowNat(c)];
    forall i | 0 <= i < 3 ensures '.' !in parts[i] {
      assert AllDigits(parts[i]);
    }
    assert Join(parts[2..], '.') == ShowNat(c);
    assert Join(parts[1..], '.') == ShowNat(b) + "." + ShowNat(c);
    assert Join(parts, '.') == VersionString(a, b, c);
    SplitJoin(parts, '.');
  }

  /** As written, version a.b.c passes exactly when a >= 1 and b >= 5, each part on its own. */
  lemma VersionCheckAsWrittenMeaning(a: nat, b: nat, c: nat)
    ensures VersionCheckAsWritten(VersionString(a, b, c)) == Ok(if a >= 1 && b >= 5 then 1 else 0)
  {
    SplitVersionString(a, b, c);
    ParseShowNat(a);
    ParseShowNat(b);
  }

  /** Version 2.0.0 is newer than 1.5.0 but is turned away. */
  lemma VersionCheckAsWrittenRejectsNewer()
    ensures VersionCheckAsWritten(VersionString(2, 0, 0)) == Ok(0)
  {
    VersionCheckAsWrittenMeaning(2, 0, 0);
  }

  /** Whether (major, minor) is at least (MAJOR, MINOR) in version order. */
  predicate AtLeast(major: int, minor: int) {
    major > MAJOR || (major == MAJOR && minor >= MINOR)
  }

  /**
   * The intended gate: both numbers are read, and the pair is compared in
   * version order, so every release after 1.5 passes.
   */
  function VersionCheck(version: string): (r: Result<int>)
    ensures |Split(version, '.')| != 3 ==> r == Err(ValueError)
    ensures r.Ok? ==> r.value in {0, 1}
  {
    var parts := Split(version, '.');
    if |parts| != 3 then Err(ValueError)
    else match ParseInt(parts[0])
      case Err(e) => Err(e)
      case Ok(major) =>
        match ParseInt(parts[1])
        case Err(e) => Err(e)
        case Ok(minor) => Ok(if AtLeast(major, minor) then 1 else 0)
  }

  /** Version a.b.c passes exactly when (a, b) is at least (1, 5) in version order. */
  lemma VersionCheckMeaning(a: nat, b: nat, c: nat)
    ensures VersionCheck(VersionString(a, b, c)) == Ok(if AtLeast(a, b) then 1 else 0)
  {
    SplitVersionString(a, b, c);
    ParseShowNat(a);
    ParseShowNat(b);
  }

  /** Any version at or after one that passes passes too. */
  lemma VersionCheckMonotone(a: nat, b: nat, c: nat, a2: nat, b2: nat, c2: nat)
    requires VersionCheck(VersionString(a, b, c)) == Ok(1)
    requires a2 > a || (a2 == a && b2 >= b)
    ensures VersionCheck(VersionString(a2, b2, c2)) == Ok(1)
  {
    VersionCheckMeaning(a, b, c);
    VersionCheckMeaning(a2, b2, c2);
  }

  /** Version 2.0.0 passes the intended gate, and the minimum 1.5.0 passes both. */
  lemma VersionCheckAcceptsNewer()
    ensures VersionCheck(VersionString(2, 0, 0)) == Ok(1)
    ensures VersionCheck(VersionString(1, 5, 0)) == Ok(1)
    ensures VersionCheckAsWritten(VersionString(1, 5, 0)) == Ok(1)
  {
    VersionCheckMeaning(2, 0, 0);
    VersionCheckMeaning(1, 5, 0);
    VersionCheckAsWrittenMeaning(1, 5, 0);
  }
}
