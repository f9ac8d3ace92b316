/** The CSRF exemption of the security configuration: a request is exempt
    when its remote address is a loopback address or matches one of the
    private-network patterns. Each pattern is matched against the whole
    address string. */
module Security {

  const LocalhostIpv4: string := "127.0.0.1"
  const LocalhostIpv6: string := "0:0:0:0:0:0:0:1"

  predicate IsDigit(c: char) {
    '0' <= c <= '9'
  }

  predicate IsHexDigit(c: char) {
    IsDigit(c) || 'a' <= c <= 'f' || 'A' <= c <= 'F'
  }

  predicate AllDigits(s: string) {
    forall i :: 0 <= i < |s| ==> IsDigit(s[i])
  }

  function DigitValue(c: char): int {
    c as int - '0' as int
  }

  /** The decimal value of a digit string, leading zeros allowed. */
  function DecimalValue(s: string): int
    decreases |s|
  {
    if s == [] then 0 else 10 * DecimalValue(s[..|s| - 1]) + DigitValue(s[|s| - 1])
  }

  /** The values of one-, two- and three-digit strings. */
  lemma DecimalValueShort(s: string)
    requires 1 <= |s| <= 3
    ensures |s| == 1 ==> DecimalValue(s) == DigitValue(s[0])
    ensures |s| == 2 ==> DecimalValue(s) == 10 * DigitValue(s[0]) + DigitValue(s[1])
    ensures |s| == 3 ==> DecimalValue(s) == 100 * DigitValue(s[0]) + 10 * DigitValue(s[1]) + DigitValue(s[2])
  {
    var p := s[..|s| - 1];
    assert DecimalValue(s) == 10 * DecimalValue(p) + DigitValue(s[|s| - 1]);
    if |s| == 1 {
      assert p == [];
    } else {
      var q := p[..|p| - 1];
      assert DecimalValue(p) == 10 * DecimalValue(q) + DigitValue(p[|p| - 1]);
      if |s| == 2 {
        assert q == [];
      } else {
        assert q[..0] == [];
        assert DecimalValue(q) == 10 * DecimalValue(q[..0]) + DigitValue(q[0]);
      }
    }
  }

  // ---------------------------------------------------------------------------
  // The octet pattern  2[0-4]\d | 25[0-5] | [01]?\d?\d

  /** The third alternative, `[01]?\d?\d`: one or two digits, or three whose
      first is 0 or 1. */
  predicate LowOctet(s: string) {
    || (|s| == 1 && IsDigit(s[0]))
    || (|s| == 2 && IsDigit(s[0]) && IsDigit(s[1]))
    || (|s| == 3 && (s[0] == '0' || s[0] == '1') && IsDigit(s[1]) && IsDigit(s[2]))
  }

  predicate IsOctet(s: string): (r: bool)
    ensures r ==> 1 <= |s| <= 3 && AllDigits(s)
  {
    || (|s| == 3 && s[0] == '2' && '0' <= s[1] <= '4' && IsDigit(s[2]))
    || (|s| == 3 && s[0] == '2' && s[1] == '5' && '0' <= s[2] <= '5')
    || LowOctet(s)
  }

  /** An octet is one to three digits whose value is at most 255, leading
      zeros allowed: "256" and "1000" are not octets, "007" is. */
  lemma OctetIsByteValue(s: string)
    ensures IsOctet(s) <==> 1 <= |s| <= 3 && AllDigits(s) && DecimalValue(s) <= 255
  {
    if 1 <= |s| <= 3 {
      DecimalValueShort(s);
    }
  }

  // ---------------------------------------------------------------------------
  // Groups of `\.` followed by an octet

  /** `(\.(octet)){n}` matches the whole of `s`: some split into n groups,
      each a dot and an octet of one to three characters. */
  predicate DottedOctets(s: string, n: nat)
    decreases n
  {
    if n == 0 then s == []
    else exists k :: 1 <= k <= 3 && DotOctet(s, k) && DottedOctets(s[k + 1..], n - 1)
  }

  /** `s` starts with a dot followed by an octet of `k` characters. */
  predicate DotOctet(s: string, k: int) {
    1 <= k <= 3 && k < |s| && s[0] == '.' && IsOctet(s[1..k + 1])
  }

  /** The number of leading digits of `s`. */
  function DigitRun(s: string): (r: nat)
    ensures r <= |s| && AllDigits(s[..r]) && (r < |s| ==> !IsDigit(s[r]))
  {
    if s == [] || !IsDigit(s[0]) then 0
    else
      var r := 1 + DigitRun(s[1..]);
      assert forall i :: 1 <= i < r ==> s[..r][i] == s[1..][..r - 1][i - 1];
      r
  }

  /** The same groups read left to right, each octet being the whole run of
      digits after its dot. */
  predicate DottedOctetsByRun(s: string, n: nat)
    decreases n
  {
    if n == 0 then s == []
    else
      |s| >= 1 && s[0] == '.' &&
      var k := DigitRun(s[1..]);
      IsOctet(s[1..k + 1]) && DottedOctetsByRun(s[k + 1..], n - 1)
  }

  /** A digit prefix ended by a non-digit, or by the end, is the digit run. */
  lemma {:induction false} DigitRunIs(t: string, k: nat)
    requires k <= |t| && AllDigits(t[..k]) && (k < |t| ==> !IsDigit(t[k]))
    ensures DigitRun(t) == k
  {
    if k > 0 {
      assert IsDigit(t[..k][0]);
      assert t[1..][..k - 1] == t[..k][1..];
      DigitRunIs(t[1..], k - 1);
    }
  }

  /** Groups that follow a group start with a dot. */
  lemma DottedOctetsStart(s: string, n: nat)
    requires n > 0 && DottedOctets(s, n)
    ensures |s| > 0 && s[0] == '.'
  {
    var k :| DotOctet(s, k) && DottedOctets(s[k + 1..], n - 1);
  }

  /** The split the pattern needs is unique: every octet runs to the next dot
      or to the end, so matching the groups needs no backtracking. */
  lemma {:induction false} DottedOctetsSplitIsDigitRun(s: string, n: nat)
    ensures DottedOctets(s, n) <==> DottedOctetsByRun(s, n)
  {
    if DottedOctets(s, n) {
      DottedOctetsIsByRun(s, n);
    }
    if DottedOctetsByRun(s, n) {
      DottedOctetsByRunIsSplit(s, n);
    }
  }

  /** Any split the pattern finds is the digit-run split. */
  lemma {:induction false} DottedOctetsIsByRun(s: string, n: nat)
    requires DottedOctets(s, n)
    ensures DottedOctetsByRun(s, n)
    decreases n
  {
    if n > 0 {
      var k :| 1 <= k <= 3 && DotOctet(s, k) && DottedOctets(s[k + 1..], n - 1);
      var t := s[1..];
      OctetIsByteValue(s[1..k + 1]);
      assert t[..k] == s[1..k + 1];
      if k < |t| {
        if n - 1 > 0 {
          DottedOctetsStart(s[k + 1..], n - 1);
          assert t[k] == s[k + 1..][0];
        } else {
          assert false;
        }
      }
      DigitRunIs(t, k);
      DottedOctetsIsByRun(s[k + 1..], n - 1);
    }
  }

  /** The digit-run split is a split the pattern accepts. */
  lemma {:induction false} DottedOctetsByRunIsSplit(s: string, n: nat)
    requires DottedOctetsByRun(s, n)
    ensures DottedOctets(s, n)
    decreases n
  {
    if n > 0 {
      var k := DigitRun(s[1..]);
      OctetIsByteValue(s[1..k + 1]);
      DottedOctetsByRunIsSplit(s[k + 1..], n - 1);
      assert DotOctet(s, k) && DottedOctets(s[k + 1..], n - 1);
    }
  }

  /** One step of the left-to-right reading: a dot, a digit run of `m`
      characters and then a dot or the end. */
  lemma DottedOctetsByRunUncons(s: string, m: nat, n: nat)
    requires 1 <= m < |s| && s[0] == '.' && AllDigits(s[1..m + 1]) && (m + 1 == |s| || s[m + 1] == '.')
    ensures DottedOctetsByRun(s, n + 1) == (IsOctet(s[1..m + 1]) && DottedOctetsByRun(s[m + 1..], n))
  {
    var t := s[1..];
    assert t[..m] == s[1..m + 1];
    assert m < |t| ==> t[m] == s[m + 1];
    DigitRunIs(t, m);
  }

  /** In front of a dot or of the end, a leading `.` and digit run `a` form
      a group exactly when `a` is an octet, and then the rest must hold the
      remaining groups. */
  lemma DottedOctetsUncons(a: string, rest: string, n: nat)
    requires 1 <= |a| && AllDigits(a) && (rest == [] || rest[0] == '.')
    ensures DottedOctets("." + a + rest, n + 1) <==> IsOctet(a) && DottedOctets(rest, n)
  {
    var s := "." + a + rest;
    assert s[0] == '.' && s[1..|a| + 1] == a && s[|a| + 1..] == rest;
    DottedOctetsByRunUncons(s, |a|, n);
    DottedOctetsSplitIsDigitRun(s, n + 1);
    DottedOctetsSplitIsDigitRun(rest, n);
  }

  // ---------------------------------------------------------------------------
  // The four private-network patterns

  /** `^10(\.(octet)){3}$`: 10.0.0.0 to 10.255.255.255. */
  predicate Ipv4PrivateRange1(s: string): (r: bool)
    ensures r ==> |s| > 3 && s[..3] == "10."
  {
    |s| >= 2 && s[..2] == "10" && DottedOctets(s[2..], 3)
  }

  /** `1[6-9]|2\d|3[01]`: the second octet of 172.16.0.0/12. */
  predicate PrivateSecondOctet(s: string) {
    |s| == 2 &&
    ((s[0] == '1' && '6' <= s[1] <= '9') || (s[0] == '2' && IsDigit(s[1])) || (s[0] == '3' && (s[1] == '0' || s[1] == '1')))
  }

  /** The second-octet pattern matches exactly the two-digit values 16 to 31. */
  lemma PrivateSecondOctetRange(s: string)
    ensures PrivateSecondOctet(s) <==> |s| == 2 && AllDigits(s) && 16 <= DecimalValue(s) <= 31
  {
    if |s| == 2 {
      DecimalValueShort(s);
    }
  }

  /** `^172\.(1[6-9]|2\d|3[01])(\.(octet)){2}$`: 172.16.0.0 to 172.31.255.255. */
  predicate Ipv4PrivateRange2(s: string): (r: bool)
    ensures r ==> |s| > 7 && s[..4] == "172." && s[6] == '.'
  {
    |s| >= 6 && s[..4] == "172." && PrivateSecondOctet(s[4..6]) && DottedOctets(s[6..], 2)
  }

  /** `^192\.168(\.(octet)){2}$`: 192.168.0.0 to 192.168.255.255. */
  predicate Ipv4PrivateRange3(s: string): (r: bool)
    ensures r ==> |s| > 8 && s[..8] == "192.168."
  {
    |s| >= 7 && s[..7] == "192.168" && DottedOctets(s[7..], 2)
  }

  /** n dot-octet groups take two to four characters each. */
  lemma {:induction false} DottedOctetsLength(s: string, n: nat)
    requires DottedOctets(s, n)
    ensures 2 * n <= |s| <= 4 * n
    decreases n
  {
    if n > 0 {
      var k :| 1 <= k <= 3 && DotOctet(s, k) && DottedOctets(s[k + 1..], n - 1);
      DottedOctetsLength(s[k + 1..], n - 1);
    }
  }

  /** The lengths the IPv4 patterns admit: 10.0.0.0 has 8 characters and
      10.255.255.255 has 14; 172.16.0.0 has 10; 192.168.0.0 has 11 and
      192.168.255.255 has 15. */
  lemma PrivateRangeLengths(s: string)
    ensures Ipv4PrivateRange1(s) ==> 8 <= |s| <= 14
    ensures Ipv4PrivateRange2(s) ==> 10 <= |s| <= 14
    ensures Ipv4PrivateRange3(s) ==> 11 <= |s| <= 15
  {
    if Ipv4PrivateRange1(s) {
      DottedOctetsLength(s[2..], 3);
    }
    if Ipv4PrivateRange2(s) {
      DottedOctetsLength(s[6..], 2);
    }
    if Ipv4PrivateRange3(s) {
      DottedOctetsLength(s[7..], 2);
    }
  }

  /** One group of `[fF][cCdD][0-9a-fA-F]2:`: the fourth character is a
      literal '2', not a repetition count. */
  predicate Ipv6Group(g: string) {
    |g| == 5 && (g[0] == 'f' || g[0] == 'F') && (g[1] in "cCdD") && IsHexDigit(g[2]) && g[3] == '2' && g[4] == ':'
  }

  /** `^([fF][cCdD][0-9a-fA-F]2:)+` matched against the whole string. */
  predicate Ipv6PrivateRange(s: string): (r: bool)
    ensures r ==> |s| >= 5 && |s| % 5 == 0 && (s[0] == 'f' || s[0] == 'F')
    decreases |s|
  {
    |s| >= 5 && Ipv6Group(s[..5]) && (|s| == 5 || Ipv6PrivateRange(s[5..]))
  }

  /** The `i`-th five-character group of `s`. */
  function GroupAt(s: string, i: nat): string
    requires 5 * i + 5 <= |s|
  {
    s[5 * i..5 * i + 5]
  }

  /** The IPv6 pattern matches exactly the non-empty strings made of whole
      five-character groups, each of the group form. */
  lemma {:induction false} Ipv6PrivateRangeGroups(s: string)
    ensures Ipv6PrivateRange(s)
        <==> |s| > 0 && |s| % 5 == 0 && forall i: nat :: i < |s| / 5 ==> Ipv6Group(GroupAt(s, i))
    decreases |s|
  {
    if |s| >= 5 {
      Ipv6PrivateRangeGroups(s[5..]);
      var rest := s[5..];
      assert GroupAt(s, 0) == s[..5];
      forall i: nat | 1 <= i < |s| / 5 ensures GroupAt(s, i) == GroupAt(rest, i - 1) {
        assert s[5 * i..5 * i + 5] == rest[5 * (i - 1)..5 * (i - 1) + 5];
      }
      if |s| == 5 {
        assert |rest| == 0;
      } else {
        if forall i: nat :: i < |s| / 5 ==> Ipv6Group(GroupAt(s, i)) {
          forall i: nat | i < |rest| / 5 ensures Ipv6Group(GroupAt(rest, i)) {
            assert GroupAt(rest, i) == GroupAt(s, i + 1);
          }
        }
      }
    }
  }

  // ---------------------------------------------------------------------------
  // The exemption

  predicate IsLocalhost(remoteAddr: string) {
    remoteAddr == LocalhostIpv4 || remoteAddr == LocalhostIpv6
  }

  predicate IsPrivateNetwork(remoteAddr: string) {
    Ipv4PrivateRange1(remoteAddr) || Ipv4PrivateRange2(remoteAddr)
    || Ipv4PrivateRange3(remoteAddr) || Ipv6PrivateRange(remoteAddr)
  }

  /** `isNotLocalhost`: CSRF protection is required unless the address is a
      loopback or a private-network address. */
  function IsNotLocalhost(remoteAddr: string): (r: bool)
    ensures r ==> remoteAddr != LocalhostIpv4 && remoteAddr != LocalhostIpv6
    ensures !r <==> IsLocalhost(remoteAddr) || IsPrivateNetwork(remoteAddr)
  {
    var isLocalhost := IsLocalhost(remoteAddr);
    var isPrivateNetworkIp := IsPrivateNetwork(remoteAddr);
    !isLocalhost && !isPrivateNetworkIp
  }

  // ---------------------------------------------------------------------------
  // What the patterns accept

  /** A non-empty run of digits. */
  predicate DigitString(s: string) {
    |s| >= 1 && AllDigits(s)
  }

  /** Both loopback addresses are exempt. */
  lemma LoopbackIsExempt()
    ensures !IsNotLocalhost("127.0.0.1") && !IsNotLocalhost("0:0:0:0:0:0:0:1")
  {
  }

  /** Four digit groups starting with 10 are private exactly when the last
      three are octets: 10.0.0.1 and 10.255.255.255 are, 10.256.0.1 is not. */
  lemma Range1Exactly(a: string, b: string, c: string)
    requires DigitString(a) && DigitString(b) && DigitString(c)
    ensures Ipv4PrivateRange1("10." + a + "." + b + "." + c) <==> IsOctet(a) && IsOctet(b) && IsOctet(c)
  {
    var s := "10." + a + "." + b + "." + c;
    assert s[..2] == "10" && s[2..] == "." + a + ("." + b + ("." + c + ""));
    DottedOctetsUncons(c, "", 0);
    DottedOctetsUncons(b, "." + c + "", 1);
    DottedOctetsUncons(a, "." + b + ("." + c + ""), 2);
  }

  /** After 10, two groups are too few and four are too many: 10.0.0 and
      10.0.0.1.5 are not private. */
  lemma Range1WrongCount(a: string, b: string, c: string, d: string)
    requires DigitString(a) && DigitString(b) && DigitString(c) && DigitString(d)
    ensures !Ipv4PrivateRange1("10." + a + "." + b)
    ensures !Ipv4PrivateRange1("10." + a + "." + b + "." + c + "." + d)
  {
    var short := "10." + a + "." + b;
    assert short[..2] == "10" && short[2..] == "." + a + ("." + b + "");
    DottedOctetsUncons(b, "", 1);
    DottedOctetsUncons(a, "." + b + "", 2);
    var long := "10." + a + "." + b + "." + c + "." + d;
    var tail := "." + d;
    assert long[..2] == "10" && long[2..] == "." + a + ("." + b + ("." + c + tail));
    DottedOctetsUncons(c, tail, 0);
    DottedOctetsUncons(b, "." + c + tail, 1);
    DottedOctetsUncons(a, "." + b + ("." + c + tail), 2);
  }

  /** 172.x followed by two groups is private exactly when x is 16 to 31 and
      the groups are octets: 172.16.0.1 and 172.31.255.255 are, 172.15.0.1
      and 172.32.0.1 are not. */
  lemma Range2Exactly(x: string, a: string, b: string)
    requires |x| == 2 && AllDigits(x) && DigitString(a) && DigitString(b)
    ensures Ipv4PrivateRange2("172." + x + "." + a + "." + b)
        <==> 16 <= DecimalValue(x) <= 31 && IsOctet(a) && IsOctet(b)
  {
    var s := "172." + x + "." + a + "." + b;
    assert s[..4] == "172." && s[4..6] == x && s[6..] == "." + a + ("." + b + "");
    PrivateSecondOctetRange(x);
    DottedOctetsUncons(b, "", 0);
    DottedOctetsUncons(a, "." + b + "", 1);
  }

  /** 192.168 followed by two groups is private exactly when both are
      octets. */
  lemma Range3Exactly(a: string, b: string)
    requires DigitString(a) && DigitString(b)
    ensures Ipv4PrivateRange3("192.168." + a + "." + b) <==> IsOctet(a) && IsOctet(b)
  {
    var s := "192.168." + a + "." + b;
    assert s[..7] == "192.168" && s[7..] == "." + a + ("." + b + "");
    DottedOctetsUncons(b, "", 0);
    DottedOctetsUncons(a, "." + b + "", 1);
  }

  /** An address beginning with a digit is never matched by the IPv6
      pattern. */
  lemma Ipv6NeedsF(s: string)
    requires |s| >= 1 && IsDigit(s[0])
    ensures !Ipv6PrivateRange(s)
  {
    if |s| >= 5 {
      assert s[..5][0] == s[0];
    }
  }

  /** Addresses starting 10 with the wrong number of groups are not exempt. */
  lemma TenNetworkWrongCountNotExempt(a: string, b: string, c: string, d: string)
    requires DigitString(a) && DigitString(b) && DigitString(c) && DigitString(d)
    ensures IsNotLocalhost("10." + a + "." + b)
    ensures IsNotLocalhost("10." + a + "." + b + "." + c + "." + d)
  {
    Range1WrongCount(a, b, c, d);
    var short := "10." + a + "." + b;
    var long := "10." + a + "." + b + "." + c + "." + d;
    assert short[1] == '0' && long[1] == '0' && short[0] == '1' && long[0] == '1';
    assert short != LocalhostIpv4 && long != LocalhostIpv4 by {
      assert LocalhostIpv4[1] == '2';
    }
    assert short != LocalhostIpv6 && long != LocalhostIpv6 by {
      assert LocalhostIpv6[0] == '0';
    }
    assert |short| >= 4 ==> short[..4] != "172." by { assert "172."[1] == '7'; }
    assert |long| >= 4 ==> long[..4] != "172." by { assert "172."[1] == '7'; }
    assert |short| >= 7 ==> short[..7] != "192.168" by { assert "192.168"[1] == '9'; }
    assert |long| >= 7 ==> long[..7] != "192.168" by { assert "192.168"[1] == '9'; }
    Ipv6NeedsF(short);
    Ipv6NeedsF(long);
  }

  /** The IPv6 pattern as written does not match unique local addresses
      such as fd12:3456::1: their fourth character is not a literal '2'. */
  lemma Ipv6UniqueLocalNotMatched()
    ensures !Ipv6PrivateRange("fd12:3456::1") && !Ipv6PrivateRange("fd12:3456:0:0:0:0:0:1")
  {
    assert "fd12:3456::1"[..5] == "fd12:";
    assert "fd12:3456:0:0:0:0:0:1"[..5] == "fd12:";
  }

  /** What the IPv6 pattern as written does match: whole strings of groups
      such as "fca2:" or "FDb2:fc02:". */
  lemma Ipv6LiteralTwoMatched()
    ensures Ipv6PrivateRange("fca2:") && Ipv6PrivateRange("FDb2:fc02:")
  {
    assert "fca2:"[..5] == "fca2:";
    assert "FDb2:fc02:"[..5] == "FDb2:" && "FDb2:fc02:"[5..] == "fc02:";
    assert "fc02:"[..5] == "fc02:";
  }

  /** Hence a request from a unique local address must carry a CSRF token. */
  lemma UniqueLocalNotExempt()
    ensures IsNotLocalhost("fd12:3456::1")
  {
    var s := "fd12:3456::1";
    Ipv6UniqueLocalNotMatched();
    assert s[..2] != "10" && s[..4] != "172." && s[..7] != "192.168" by {
      assert s[0] == 'f';
    }
  }
}
