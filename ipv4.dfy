/** The IPv4 literal validator of the DNS component (`is_valid_ip`).

    The validator matches its text against
      ((25[0-5]|2[0-4][0-9]|[01]?[0-9][0-9]?)\.){3}(25[0-5]|2[0-4][0-9]|[01]?[0-9][0-9]?)
    anchored at the start and followed by Python's `$`, which also matches just
    before ONE trailing newline. `IsValidIp` is the character-level predicate: it
    drops one final '\n', splits on '.', and checks four fields against the octet
    alternation. `PatternMatches` spells the regular expression's own shape and
    `IsValidIpMatchesPattern` proves the two agree. */
module Ipv4 {

  predicate IsDigit(c: char) {
    '0' <= c <= '9'
  }

  predicate AllDigits(f: string) {
    forall k :: 0 <= k < |f| ==> IsDigit(f[k])
  }

  predicate NoDot(f: string) {
    forall k :: 0 <= k < |f| ==> f[k] != '.'
  }

  /** One octet as the pattern spells it: 25[0-5] | 2[0-4][0-9] | [01]?[0-9][0-9]? */
  predicate OctetPattern(f: string) {
    || (|f| == 3 && f[0] == '2' && f[1] == '5' && '0' <= f[2] <= '5')
    || (|f| == 3 && f[0] == '2' && '0' <= f[1] <= '4' && IsDigit(f[2]))
    || (|f| == 1 && IsDigit(f[0]))
    || (|f| == 2 && IsDigit(f[0]) && IsDigit(f[1]))
    || (|f| == 3 && (f[0] == '0' || f[0] == '1') && IsDigit(f[1]) && IsDigit(f[2]))
  }

  /** The text split at every '.', character by character (Python's `s.split('.')`). */
  function Fields(s: string): (fs: seq<string>)
    ensures |fs| >= 1
  {
    if s == [] then [""]
    else
      var rest := Fields(s[1..]);
      if s[0] == '.' then [""] + rest else [[s[0]] + rest[0]] + rest[1..]
  }

  /** The text with one final newline removed, the one Python's `$` lets through. */
  function StripFinalNewline(s: string): string {
    if |s| > 0 && s[|s| - 1] == '\n' then s[..|s| - 1] else s
  }

  /** Four dot-separated fields, each an octet. */
  predicate DottedQuad(s: string) {
    var fs := Fields(s);
    |fs| == 4 && AllOctets(fs)
  }

  /** `is_valid_ip(ip)`: an accepted text is 7 to 15 characters of digits and dots, plus at
      most one final newline. */
  predicate IsValidIp(ip: string): (ok: bool)
    ensures ok ==> 7 <= |StripFinalNewline(ip)| <= 15 && |ip| <= |StripFinalNewline(ip)| + 1
    ensures ok ==> forall k :: 0 <= k < |StripFinalNewline(ip)| ==> IsDigit(ip[k]) || ip[k] == '.'
  {
    var t := StripFinalNewline(ip);
    if DottedQuad(t) then QuadShape(t); true else false
  }

  // ---------------------------------------------------------------------------
  // The regular expression's own shape

  /** `(octet\.){n-1}octet`, matched against the whole of `s`. */
  ghost predicate RepeatMatch(s: string, n: nat)
    requires n >= 1
    decreases n, 1
  {
    if n == 1 then OctetPattern(s)
    else exists k :: SplitsAt(s, k, n)
  }

  /** `s` is an octet ending at position `k`, the '.' at `k`, then `(octet\.){n-2}octet`. */
  ghost predicate SplitsAt(s: string, k: int, n: nat)
    requires n >= 2
    decreases n, 0
  {
    0 <= k < |s| && s[k] == '.' && OctetPattern(s[..k]) && RepeatMatch(s[k + 1..], n - 1)
  }

  /** `re.match(pattern, ip) is not None`: the whole text, or the whole text but one final newline. */
  ghost predicate PatternMatches(ip: string) {
    RepeatMatch(ip, 4) || (|ip| > 0 && ip[|ip| - 1] == '\n' && RepeatMatch(ip[..|ip| - 1], 4))
  }

  // ---------------------------------------------------------------------------
  // Decimal values

  function DigitValue(c: char): nat
    requires IsDigit(c)
  {
    (c as int) - ('0' as int)
  }

  /** The decimal number a string of digits denotes (leading zeros allowed). */
  function DecimalValue(f: string): nat
    requires AllDigits(f)
  {
    if f == [] then 0 else DecimalValue(f[..|f| - 1]) * 10 + DigitValue(f[|f| - 1])
  }

  function Digit(d: nat): (c: char)
    requires d < 10
    ensures IsDigit(c) && DigitValue(c) == d
  {
    (('0' as int) + d) as char
  }

  /** The shortest decimal rendering of `n`. */
  function Decimal(n: nat): (s: string)
    ensures 1 <= |s| && AllDigits(s) && DecimalValue(s) == n
    ensures n < 10 ==> |s| == 1
    ensures n < 100 ==> |s| <= 2
    ensures n < 1000 ==> |s| <= 3
  {
    if n < 10 then [Digit(n)]
    else
      var s := Decimal(n / 10) + [Digit(n % 10)];
      assert s[..|s| - 1] == Decimal(n / 10);
      s
  }

  // ---------------------------------------------------------------------------
  // Lemmas about Fields

  lemma {:induction false} FieldsOfDotless(s: string)
    requires NoDot(s)
    ensures Fields(s) == [s]
  {
    if s != [] {
      FieldsOfDotless(s[1..]);
      assert [s[0]] + s[1..] == s;
    }
  }

  lemma {:induction false} FieldsOfJoin(a: string, b: string)
    requires NoDot(a)
    ensures Fields(a + "." + b) == [a] + Fields(b)
  {
    var s := a + "." + b;
    if a == [] {
      assert s[0] == '.' && s[1..] == b;
    } else {
      assert s[0] == a[0] && s[1..] == a[1..] + "." + b;
      FieldsOfJoin(a[1..], b);
      assert [a[0]] + a[1..] == a;
    }
  }

  /** When there are at least two fields, the first ends at a '.', and the rest are the fields after it. */
  lemma {:induction false} FieldsHead(s: string)
    requires |Fields(s)| >= 2
    ensures |Fields(s)[0]| < |s| && s[|Fields(s)[0]|] == '.'
    ensures s[..|Fields(s)[0]|] == Fields(s)[0]
    ensures Fields(s[|Fields(s)[0]| + 1..]) == Fields(s)[1..]
  {
    if s[0] != '.' {
      var rest := Fields(s[1..]);
      FieldsHead(s[1..]);
      var k := |rest[0]|;
      assert s[1..][k + 1..] == s[k + 2..];
      assert s[..k + 1] == [s[0]] + s[1..][..k];
    }
  }

  /** A single field is the whole text. */
  lemma {:induction false} FieldsSingle(s: string)
    requires |Fields(s)| == 1
    ensures Fields(s)[0] == s && NoDot(s)
  {
    if s != [] {
      assert s[0] != '.';
      FieldsSingle(s[1..]);
      assert [s[0]] + s[1..] == s;
    }
  }

  lemma OctetHasNoDot(f: string)
    requires OctetPattern(f)
    ensures NoDot(f) && AllDigits(f) && 1 <= |f| <= 3
  {
  }

  predicate AllOctets(fs: seq<string>) {
    forall i :: 0 <= i < |fs| ==> OctetPattern(fs[i])
  }

  /** The characters of all fields together. */
  function TotalLength(fs: seq<string>): nat {
    if fs == [] then 0 else |fs[0]| + TotalLength(fs[1..])
  }

  /** Splitting loses exactly the separators: one fewer than there are fields. */
  lemma {:induction false} FieldsLength(s: string)
    ensures |s| + 1 == TotalLength(Fields(s)) + |Fields(s)|
  {
    if s != [] {
      var rest := Fields(s[1..]);
      FieldsLength(s[1..]);
      if s[0] == '.' {
        assert ([""] + rest)[1..] == rest;
      } else {
        assert ([[s[0]] + rest[0]] + rest[1..])[1..] == rest[1..];
      }
    }
  }

  /** Every character of the text is a character of some field or a '.'. */
  lemma {:induction false} FieldsCover(s: string, k: int)
    requires 0 <= k < |s| && s[k] != '.'
    ensures exists i, j :: 0 <= i < |Fields(s)| && 0 <= j < |Fields(s)[i]| && Fields(s)[i][j] == s[k]
  {
    var rest := Fields(s[1..]);
    if k == 0 {
      assert Fields(s)[0][0] == s[0];
    } else {
      FieldsCover(s[1..], k - 1);
      var i, j :| 0 <= i < |rest| && 0 <= j < |rest[i]| && rest[i][j] == s[1..][k - 1];
      if s[0] == '.' {
        assert Fields(s)[i + 1] == rest[i];
      } else if i == 0 {
        assert Fields(s)[0][j + 1] == rest[0][j];
      } else {
        assert Fields(s)[i] == rest[i];
      }
    }
  }

  /** Four octet fields make 7 to 15 characters of digits and dots. */
  lemma QuadShape(s: string)
    requires DottedQuad(s)
    ensures 7 <= |s| <= 15
    ensures forall k :: 0 <= k < |s| ==> IsDigit(s[k]) || s[k] == '.'
  {
    var fs := Fields(s);
    FieldsLength(s);
    forall i | 0 <= i < 4 {
      OctetHasNoDot(fs[i]);
    }
    assert TotalLength(fs) == |fs[0]| + |fs[1]| + |fs[2]| + |fs[3]| by {
      var f1 := fs[1..];
      var f2 := f1[1..];
      var f3 := f2[1..];
      assert f3[1..] == [];
      assert TotalLength(f3) == |fs[3]|;
      assert TotalLength(f2) == |fs[2]| + TotalLength(f3);
      assert TotalLength(f1) == |fs[1]| + TotalLength(f2);
    }
    forall k | 0 <= k < |s| && s[k] != '.'
      ensures IsDigit(s[k])
    {
      FieldsCover(s, k);
      var i, j :| 0 <= i < |fs| && 0 <= j < |fs[i]| && fs[i][j] == s[k];
      OctetHasNoDot(fs[i]);
    }
  }

  lemma {:induction false} RepeatMatchToFields(s: string, n: nat)
    requires n >= 1 && RepeatMatch(s, n)
    ensures |Fields(s)| == n && AllOctets(Fields(s))
    decreases n
  {
    if n == 1 {
      OctetHasNoDot(s);
      FieldsOfDotless(s);
    } else {
      var k :| SplitsAt(s, k, n);
      var head, tail := s[..k], s[k + 1..];
      OctetHasNoDot(head);
      assert s == head + "." + tail;
      FieldsOfJoin(head, tail);
      RepeatMatchToFields(tail, n - 1);
      var fs := Fields(s);
      assert fs == [head] + Fields(tail);
      forall i | 0 <= i < n
        ensures OctetPattern(fs[i])
      {
        if i > 0 { assert fs[i] == Fields(tail)[i - 1]; }
      }
    }
  }

  lemma {:induction false} FieldsToRepeatMatch(s: string, n: nat)
    requires n >= 1 && |Fields(s)| == n && AllOctets(Fields(s))
    ensures RepeatMatch(s, n)
    decreases n
  {
    var fs := Fields(s);
    if n == 1 {
      FieldsSingle(s);
      assert OctetPattern(fs[0]);
    } else {
      FieldsHead(s);
      var k := |fs[0]|;
      var rest := Fields(s[k + 1..]);
      forall i | 0 <= i < n - 1
        ensures OctetPattern(rest[i])
      {
        assert rest[i] == fs[i + 1];
      }
      FieldsToRepeatMatch(s[k + 1..], n - 1);
      assert OctetPattern(s[..k]);
      assert SplitsAt(s, k, n);
    }
  }

  /** The regular expression's repetition agrees with splitting on '.'. */
  lemma RepeatMatchIsFields(s: string, n: nat)
    requires n >= 1
    ensures RepeatMatch(s, n) <==> |Fields(s)| == n && AllOctets(Fields(s))
  {
    if RepeatMatch(s, n) {
      RepeatMatchToFields(s, n);
    }
    if |Fields(s)| == n && AllOctets(Fields(s)) {
      FieldsToRepeatMatch(s, n);
    }
  }

  /** A pattern repetition ends in a digit, so it never ends in a newline. */
  lemma {:induction false} RepeatMatchEndsInDigit(s: string, n: nat)
    requires n >= 1 && RepeatMatch(s, n)
    ensures |s| > 0 && IsDigit(s[|s| - 1])
    decreases n
  {
    if n > 1 {
      var k :| SplitsAt(s, k, n);
      RepeatMatchEndsInDigit(s[k + 1..], n - 1);
    }
  }

  // ---------------------------------------------------------------------------
  // What the validator accepts

  /** The character-level validator is the anchored regular expression, trailing-newline edge included. */
  lemma IsValidIpMatchesPattern(ip: string)
    ensures IsValidIp(ip) <==> PatternMatches(ip)
  {
    RepeatMatchIsFields(ip, 4);
    if |ip| > 0 && ip[|ip| - 1] == '\n' {
      RepeatMatchIsFields(ip[..|ip| - 1], 4);
      if RepeatMatch(ip, 4) {
        RepeatMatchEndsInDigit(ip, 4);
      }
    }
  }

  /** An octet of the pattern is exactly one to three ASCII digits worth at most 255; leading zeros are allowed. */
  lemma OctetPatternIsByte(f: string)
    ensures OctetPattern(f) <==> 1 <= |f| <= 3 && AllDigits(f) && DecimalValue(f) <= 255
  {
    if 1 <= |f| <= 3 && AllDigits(f) {
      assert DecimalValue(f[..0]) == 0;
      assert f[..1][..0] == f[..0];
      assert DecimalValue(f[..1]) == DigitValue(f[0]);
      if |f| >= 2 {
        assert f[..2][..1] == f[..1];
        assert DecimalValue(f[..2]) == DigitValue(f[0]) * 10 + DigitValue(f[1]);
      }
      if |f| == 3 {
        assert f[..3] == f;
        assert DecimalValue(f) == DigitValue(f[0]) * 100 + DigitValue(f[1]) * 10 + DigitValue(f[2]);
      } else if |f| == 2 {
        assert f[..2] == f;
      } else {
        assert f[..1] == f;
      }
    }
  }

  lemma FieldsOfFour(a: string, b: string, c: string, d: string)
    requires NoDot(a) && NoDot(b) && NoDot(c) && NoDot(d)
    ensures Fields(a + "." + b + "." + c + "." + d) == [a, b, c, d]
  {
    var cd := c + "." + d;
    var bcd := b + "." + cd;
    var abcd := a + "." + bcd;
    FieldsOfDotless(d);
    FieldsOfJoin(c, d);
    FieldsOfJoin(b, cd);
    FieldsOfJoin(a, bcd);
    assert Fields(abcd) == [a, b, c, d];
    JoinRightNested(a, b, c, d);
  }

  lemma JoinRightNested(a: string, b: string, c: string, d: string)
    ensures a + "." + b + "." + c + "." + d == a + "." + (b + "." + (c + "." + d))
  {
  }

  /** Four octets of the pattern joined by dots are accepted, with or without one trailing newline. */
  lemma JoinedOctetsAreValid(a: string, b: string, c: string, d: string)
    requires OctetPattern(a) && OctetPattern(b) && OctetPattern(c) && OctetPattern(d)
    ensures IsValidIp(a + "." + b + "." + c + "." + d)
    ensures IsValidIp(a + "." + b + "." + c + "." + d + "\n")
  {
    OctetHasNoDot(a);
    OctetHasNoDot(b);
    OctetHasNoDot(c);
    OctetHasNoDot(d);
    var ip := a + "." + b + "." + c + "." + d;
    FieldsOfFour(a, b, c, d);
    assert ip[|ip| - 1] == d[|d| - 1];
    assert StripFinalNewline(ip) == ip;
    assert StripFinalNewline(ip + "\n") == ip;
  }

  lemma DecimalIsOctet(n: nat)
    requires n <= 255
    ensures OctetPattern(Decimal(n))
  {
    OctetPatternIsByte(Decimal(n));
  }

  /** Every address written as four decimal numbers up to 255 is accepted, with or without one trailing newline. */
  lemma RenderedAddressIsValid(a: nat, b: nat, c: nat, d: nat)
    requires a <= 255 && b <= 255 && c <= 255 && d <= 255
    ensures IsValidIp(Decimal(a) + "." + Decimal(b) + "." + Decimal(c) + "." + Decimal(d))
    ensures IsValidIp(Decimal(a) + "." + Decimal(b) + "." + Decimal(c) + "." + Decimal(d) + "\n")
  {
    DecimalIsOctet(a);
    DecimalIsOctet(b);
    DecimalIsOctet(c);
    DecimalIsOctet(d);
    JoinedOctetsAreValid(Decimal(a), Decimal(b), Decimal(c), Decimal(d));
  }

  /** Python's `$` lets exactly one trailing newline through: `s + "\n"` is accepted when `s` is a
      dotted quad, and a second newline is never accepted. */
  lemma TrailingNewline(s: string)
    ensures IsValidIp(s + "\n") <==> DottedQuad(s)
    ensures !IsValidIp(s + "\n\n")
  {
    assert (s + "\n")[..|s + "\n"| - 1] == s;
    var t := s + "\n\n";
    assert StripFinalNewline(t) == s + "\n";
    if DottedQuad(s + "\n") {
      var fs := Fields(s + "\n");
      RepeatMatchIsFields(s + "\n", 4);
      RepeatMatchEndsInDigit(s + "\n", 4);
    }
  }

  /** A quad whose first field is not an octet is rejected. */
  lemma BadFirstFieldRejected(a: string, b: string, c: string, d: string)
    requires NoDot(a) && NoDot(b) && NoDot(c) && NoDot(d) && |d| > 0 && d[|d| - 1] != '\n'
    requires !OctetPattern(a)
    ensures !IsValidIp(a + "." + b + "." + c + "." + d)
  {
    var ip := a + "." + b + "." + c + "." + d;
    FieldsOfFour(a, b, c, d);
    assert ip[|ip| - 1] == d[|d| - 1];
    assert StripFinalNewline(ip) == ip;
    assert Fields(ip)[0] == a && !OctetPattern(Fields(ip)[0]);
  }

  /** A field above 255 or longer than three digits rejects the text. */
  lemma OutOfRangeRejected()
    ensures !IsValidIp("256.1.1.1")
    ensures !IsValidIp("1000.1.1.1")
  {
    BadFirstFieldRejected("256", "1", "1", "1");
    assert "256" + "." + "1" + "." + "1" + "." + "1" == "256.1.1.1";
    BadFirstFieldRejected("1000", "1", "1", "1");
    assert "1000" + "." + "1" + "." + "1" + "." + "1" == "1000.1.1.1";
  }

  /** Leading zeros are allowed by the `[01]?[0-9][0-9]?` branch. */
  lemma LeadingZerosAccepted()
    ensures IsValidIp("001.2.3.4")
  {
    JoinedOctetsAreValid("001", "2", "3", "4");
    assert "001" + "." + "2" + "." + "3" + "." + "4" == "001.2.3.4";
  }

  /** One trailing newline is let through by `$`. */
  lemma OneNewlineAccepted()
    ensures IsValidIp("1.2.3.4\n")
  {
    JoinedOctetsAreValid("1", "2", "3", "4");
    assert "1" + "." + "2" + "." + "3" + "." + "4" + "\n" == "1.2.3.4\n";
  }

  /** Fewer than four fields, the empty text included, are rejected. */
  lemma TooFewFieldsRejected()
    ensures !IsValidIp("1.2.3")
    ensures !IsValidIp("")
  {
    var three := "1" + "." + ("2" + "." + "3");
    FieldsOfDotless("3");
    FieldsOfJoin("2", "3");
    FieldsOfJoin("1", "2" + "." + "3");
    assert three == "1.2.3";
    assert StripFinalNewline(three) == three;
  }
}
