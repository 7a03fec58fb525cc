/**
 * The indicator-of-compromise classifier: each validator normalises its
 * input (trim, then lower-case) and tests it against an anchored pattern;
 * the detector returns the first validator, in a fixed order, that accepts.
 * Every regular expression is stated as a predicate over the characters of
 * the normalised string.
 */
module IocValidator {
  import opened Js
  import opened Text

  // ---------------------------------------------------------------------
  // Character classes

  predicate IsDigit(c: char) { '0' <= c <= '9' }
  predicate IsHex(c: char) { IsDigit(c) || 'a' <= c <= 'f' }
  predicate IsAlpha(c: char) { 'a' <= c <= 'z' }
  /** `[a-z0-9-]` */
  predicate IsLabelChar(c: char) { IsAlpha(c) || IsDigit(c) || c == '-' }
  /** `[0-9a-z]` */
  predicate IsZoneChar(c: char) { IsAlpha(c) || IsDigit(c) }

  predicate AllDigits(s: string) { forall i :: 0 <= i < |s| ==> IsDigit(s[i]) }
  predicate AllHex(s: string) { forall i :: 0 <= i < |s| ==> IsHex(s[i]) }

  // ---------------------------------------------------------------------
  // Normalisation

  /** Non-strings normalise to the empty string; strings are trimmed and lower-cased. */
  function Normalize(input: Value): (r: string)
    ensures !input.Str? ==> r == ""
    ensures IsTrimmed(r) && IsLower(r)
    ensures input.Str? ==>
      exists i, j :: 0 <= i <= j <= |input.s| && Surrounds(input.s, i, j) && r == Lower(input.s[i..j])
  {
    if input.Str? then
      TrimYieldsTrimmed(input.s);
      LowerKeepsTrimmed(Trim(input.s));
      Lower(Trim(input.s))
    else ""
  }

  /** Normalising an already normalised string changes nothing. */
  lemma NormalizeIdempotent(input: Value)
    ensures Normalize(Str(Normalize(input))) == Normalize(input)
  {
    var n := Normalize(input);
    TrimTrimmed(n);
    LowerOfLower(n);
  }

  // ---------------------------------------------------------------------
  // IPv4: ^(O)\.((O)\.){2}(O)$ with O = 25[0-5]|2[0-4][0-9]|[01]?[0-9][0-9]?

  /** One octet of the IPv4 pattern, alternative by alternative. */
  predicate Ipv4Octet(o: string)
  {
    // 25[0-5]
    (|o| == 3 && o[0] == '2' && o[1] == '5' && '0' <= o[2] <= '5')
    // 2[0-4][0-9]
    || (|o| == 3 && o[0] == '2' && '0' <= o[1] <= '4' && IsDigit(o[2]))
    // [01]?[0-9][0-9]? : one digit, two digits, or three digits starting with 0 or 1
    || (|o| == 1 && IsDigit(o[0]))
    || (|o| == 2 && IsDigit(o[0]) && IsDigit(o[1]))
    || (|o| == 3 && (o[0] == '0' || o[0] == '1') && IsDigit(o[1]) && IsDigit(o[2]))
  }

  /** The octets contain no dot, so the anchored pattern is four `.`-separated octets. */
  predicate Ipv4Pattern(s: string)
  {
    Ipv4Octets(Split(s, '.'))
  }

  predicate Ipv4Octets(parts: seq<string>)
  {
    |parts| == 4 && forall i :: 0 <= i < 4 ==> Ipv4Octet(parts[i])
  }

  function DigitValue(c: char): int { c as int - '0' as int }

  /** The decimal value of a string of digits. */
  function DecimalValue(s: string): int
  {
    if s == [] then 0 else 10 * DecimalValue(s[..|s| - 1]) + DigitValue(s[|s| - 1])
  }

  /** An octet is one to three decimal digits worth at most 255; leading zeros are allowed. */
  lemma Ipv4OctetValue(o: string)
    ensures Ipv4Octet(o) <==> 1 <= |o| <= 3 && AllDigits(o) && DecimalValue(o) <= 255
  {
    if |o| == 3 {
      assert o[..2][..1] == o[..1];
      assert DecimalValue(o[..1]) == DigitValue(o[0]);
      assert DecimalValue(o[..2]) == 10 * DigitValue(o[0]) + DigitValue(o[1]);
      assert DecimalValue(o) == 100 * DigitValue(o[0]) + 10 * DigitValue(o[1]) + DigitValue(o[2]);
    } else if |o| == 2 {
      assert DecimalValue(o[..1]) == DigitValue(o[0]);
      assert DecimalValue(o) == 10 * DigitValue(o[0]) + DigitValue(o[1]);
    } else if |o| == 1 {
      assert DecimalValue(o) == DigitValue(o[0]);
    }
  }

  function IsValidIPv4(input: Value): (r: bool)
    ensures r <==> var parts := Split(Normalize(input), '.');
                   |parts| == 4 &&
                   forall i :: 0 <= i < 4 ==>
                     1 <= |parts[i]| <= 3 && AllDigits(parts[i]) && DecimalValue(parts[i]) <= 255
  {
    var normalized := Normalize(input);
    var parts := Split(normalized, '.');
    forall i | 0 <= i < |parts| { Ipv4OctetValue(parts[i]); }
    if normalized == [] then false else Ipv4Pattern(normalized)
  }

  // ---------------------------------------------------------------------
  // IPv6: the twelve alternatives of the anchored pattern. The pattern is
  // case-insensitive, but its input is already lower case.

  /** `[0-9a-f]{1,4}` */
  predicate HexGroup(g: string) { 1 <= |g| <= 4 && AllHex(g) }
  /** `[0-9a-f]{0,4}` */
  predicate ShortHex(g: string) { |g| <= 4 && AllHex(g) }
  /** `0{1,4}` */
  predicate Zeros(g: string) { 1 <= |g| <= 4 && forall i :: 0 <= i < |g| ==> g[i] == '0' }

  predicate HexGroups(ps: seq<string>) { forall i :: 0 <= i < |ps| ==> HexGroup(ps[i]) }

  /** One octet of the embedded IPv4 tail: `25[0-5]|(2[0-4]|1?[0-9])?[0-9]`. */
  predicate TailOctet(o: string)
  {
    (|o| == 3 && o[0] == '2' && o[1] == '5' && '0' <= o[2] <= '5')
    || (|o| == 1 && IsDigit(o[0]))
    || (|o| == 3 && o[0] == '2' && '0' <= o[1] <= '4' && IsDigit(o[2]))
    || (|o| == 2 && IsDigit(o[0]) && IsDigit(o[1]))
    || (|o| == 3 && o[0] == '1' && IsDigit(o[1]) && IsDigit(o[2]))
  }

  /** `((T)\.){3}(T)` with T a tail octet. */
  predicate Ipv4Tail(t: string)
  {
    var o := Split(t, '.');
    |o| == 4 && forall i :: 0 <= i < 4 ==> TailOctet(o[i])
  }

  /** `fe80:(:[0-9a-f]{0,4}){0,4}%[0-9a-z]{1,}`: a link-local address with a zone index. */
  predicate ZonedLinkLocal(s: string)
  {
    var z := Split(s, '%');
    |z| == 2 && |z[1]| >= 1 && (forall i :: 0 <= i < |z[1]| ==> IsZoneChar(z[1][i])) &&
    var q := Split(z[0], ':');
    2 <= |q| <= 6 && q[0] == "fe80" && q[1] == "" && forall i :: 2 <= i < |q| ==> ShortHex(q[i])
  }

  /**
   * The alternatives of the IPv6 pattern other than the zoned form, stated
   * over the `:`-separated pieces `p` of the address: each such alternative
   * is a sequence of hex groups, colons and perhaps an IPv4 tail, and an
   * empty piece marks the `::`.
   */
  predicate ColonForms(p: seq<string>)
  {
    var n := |p|;
    // ([0-9a-f]{1,4}:){7}[0-9a-f]{1,4}
    (n == 8 && HexGroups(p))
    // ([0-9a-f]{1,4}:){1,7}:
    || (3 <= n <= 9 && HexGroups(p[..n - 2]) && p[n - 2] == "" && p[n - 1] == "")
    // ([0-9a-f]{1,4}:){k}(:[0-9a-f]{1,4}){m} for k, m >= 1 and k + m <= 7: the six
    // alternatives from ([0-9a-f]{1,4}:){1,6}:[0-9a-f]{1,4} to ([0-9a-f]{1,4}:)((:[0-9a-f]{1,4}){1,6})
    || (3 <= n <= 8 && exists k :: 1 <= k <= n - 2 && HexGroups(p[..k]) && p[k] == "" && HexGroups(p[k + 1..]))
    // :((:[0-9a-f]{1,4}){1,7}|:)
    || p == ["", "", ""]
    || (3 <= n <= 9 && p[0] == "" && p[1] == "" && HexGroups(p[2..]))
    // ::(ffff(:0{1,4}){0,1}:){0,1} followed by an IPv4 tail
    || (3 <= n <= 5 && p[0] == "" && p[1] == "" && Ipv4Tail(p[n - 1]) &&
        (n == 3 || (p[2] == "ffff" && (n == 4 || Zeros(p[3])))))
    // ([0-9a-f]{1,4}:){1,4}: followed by an IPv4 tail
    || (3 <= n <= 6 && HexGroups(p[..n - 2]) && p[n - 2] == "" && Ipv4Tail(p[n - 1]))
  }

  /** The IPv6 pattern: one of the colon-separated forms, or a zoned link-local address. */
  predicate Ipv6Pattern(s: string)
  {
    ColonForms(Split(s, ':')) || ZonedLinkLocal(s)
  }

  /** Every address the IPv6 pattern accepts contains a colon. */
  lemma Ipv6HasColon(s: string)
    requires Ipv6Pattern(s)
    ensures exists k :: 0 <= k < |s| && s[k] == ':'
  {
    if forall k :: 0 <= k < |s| ==> s[k] != ':' {
      SplitWithout(s, ':');
      if ZonedLinkLocal(s) {
        var z := Split(s, '%');
        JoinSplit(s, '%');
        assert s == z[0] + ['%'] + z[1];
        assert forall k :: 0 <= k < |z[0]| ==> z[0][k] == s[k];
        SplitWithout(z[0], ':');
        assert false;
      }
      assert false;
    }
  }

  function IsValidIPv6(input: Value): (r: bool)
    ensures r <==> Ipv6Pattern(Normalize(input))
    ensures r ==> exists k :: 0 <= k < |Normalize(input)| && Normalize(input)[k] == ':'
  {
    var normalized := Normalize(input);
    if normalized == [] then false
    else
      if Ipv6Pattern(normalized) then Ipv6HasColon(normalized); true else false
  }

  // ---------------------------------------------------------------------
  // Hashes: ^[a-f0-9]{32}$|^[a-f0-9]{40}$|^[a-f0-9]{64}$

  predicate HashPattern(s: string)
  {
    (|s| == 32 || |s| == 40 || |s| == 64) && AllHex(s)
  }

  /** A hexadecimal digit in either case. */
  predicate IsHexAnyCase(c: char) { IsHex(c) || 'A' <= c <= 'F' }

  /** Lower-casing turns exactly the hex digits of either case into lower-case hex digits. */
  lemma LowerHex(c: char)
    ensures IsHex(LowerChar(c)) <==> IsHexAnyCase(c)
  {
  }

  /** A hash is 32, 40 or 64 hex digits of either case once surrounding white space is removed. */
  function IsValidHash(input: Value): (r: bool)
    ensures r <==> input.Str? &&
                   var t := Trim(input.s);
                   (|t| == 32 || |t| == 40 || |t| == 64) &&
                   forall i :: 0 <= i < |t| ==> IsHexAnyCase(t[i])
  {
    var normalized := Normalize(input);
    if input.Str? then HashOfLowered(Trim(input.s)); normalized != [] && HashPattern(normalized)
    else false
  }

  lemma HashOfLowered(t: string)
    ensures HashPattern(Lower(t)) <==>
            (|t| == 32 || |t| == 40 || |t| == 64) && forall i :: 0 <= i < |t| ==> IsHexAnyCase(t[i])
  {
    forall i | 0 <= i < |t| { LowerHex(t[i]); }
  }

  // ---------------------------------------------------------------------
  // URLs:
  //   ^(https?):\/\/(([^\s:@\/]+(:[^\s:@\/]*)?@)?((?:[a-z0-9-]+\.)+[a-z]{2,})
  //     (:\d{2,5})?(\/[^\s]*)?(\?[^\s#]*)?(#[^\s]*)?)$
  // and the bare domain ^([a-z0-9-]+\.)+[a-z]{2,}$

  /** `[a-z0-9-]+` */
  predicate DomainLabel(l: string) { |l| >= 1 && forall i :: 0 <= i < |l| ==> IsLabelChar(l[i]) }
  /** `[a-z]{2,}` */
  predicate TopLevel(l: string) { |l| >= 2 && forall i :: 0 <= i < |l| ==> IsAlpha(l[i]) }

  /** `([a-z0-9-]+\.)+[a-z]{2,}`: labels separated by dots, the last one alphabetic. */
  predicate DomainPattern(h: string)
  {
    DomainLabels(Split(h, '.'))
  }

  predicate DomainLabels(l: seq<string>)
  {
    |l| >= 2 && (forall i :: 0 <= i < |l| - 1 ==> DomainLabel(l[i])) && TopLevel(l[|l| - 1])
  }

  /** `[^\s:@\/]` */
  predicate IsUserChar(c: char) { !IsSpace(c) && c != ':' && c != '@' && c != '/' }

  /** `[^\s:@\/]+(:[^\s:@\/]*)?`: a non-empty user name and an optional password. */
  predicate UserInfo(u: string)
  {
    |u| >= 1 && u[0] != ':' &&
    (forall i :: 0 <= i < |u| ==> u[i] == ':' || IsUserChar(u[i])) &&
    (forall i, j :: 0 <= i < j < |u| && u[i] == ':' ==> u[j] != ':')
  }

  /** `:\d{2,5}` */
  predicate Port(t: string)
  {
    3 <= |t| <= 6 && t[0] == ':' && forall i :: 1 <= i < |t| ==> IsDigit(t[i])
  }

  /**
   * `(\/[^\s]*)?(\?[^\s#]*)?(#[^\s]*)?`: path, query and fragment. None of
   * them admits white space, and a path may itself hold `?` and `#`, so the
   * tail is empty or a white-space-free string starting with one of `/?#`.
   */
  predicate PathQueryFragment(t: string)
  {
    t == [] || ((t[0] == '/' || t[0] == '?' || t[0] == '#') && forall i :: 0 <= i < |t| ==> !IsSpace(t[i]))
  }

  /** A port (optional) and then path, query and fragment. */
  predicate AfterHost(t: string)
  {
    PathQueryFragment(t) ||
    exists k :: 3 <= k <= 6 && k <= |t| && Port(t[..k]) && PathQueryFragment(t[k..])
  }

  /** A host name followed by what may come after it. */
  predicate HostAndRest(r: string)
  {
    exists j :: 0 <= j <= |r| && DomainPattern(r[..j]) && AfterHost(r[j..])
  }

  /** What follows the scheme: optional user information ending in `@`, then the host. */
  predicate AfterScheme(r: string)
  {
    HostAndRest(r) ||
    exists i :: 0 <= i < |r| && r[i] == '@' && UserInfo(r[..i]) && HostAndRest(r[i + 1..])
  }

  predicate FullUrlPattern(s: string)
  {
    (|s| >= 7 && s[..7] == "http://" && AfterScheme(s[7..])) ||
    (|s| >= 8 && s[..8] == "https://" && AfterScheme(s[8..]))
  }

  /** Every character of a bare domain is a label character or a dot. */
  lemma DomainChars(h: string, k: int)
    requires DomainPattern(h) && 0 <= k < |h|
    ensures IsLabelChar(h[k]) || h[k] == '.'
  {
    if h[k] != '.' {
      SplitCovers(h, '.', k);
      var l := Split(h, '.');
      var i, m :| 0 <= i < |l| && 0 <= m < |l[i]| && l[i][m] == h[k];
      if i < |l| - 1 {
        assert DomainLabel(l[i]);
      } else {
        assert TopLevel(l[i]);
      }
    }
  }

  /**
   * A trimmed text that does not start with `h` and holds a character that
   * is neither a label character nor a dot (a `/`, a space) is not a URL.
   */
  lemma SchemelessIsNotUrl(s: string, k: int)
    requires IsTrimmed(s) && 0 <= k < |s| && LowerChar(s[0]) != 'h'
    requires !IsLabelChar(LowerChar(s[k])) && LowerChar(s[k]) != '.'
    ensures !IsValidUrl(Str(s))
  {
    TrimTrimmed(s);
    var n := Normalize(Str(s));
    assert n == Lower(s);
    NoSchemeNoFullUrl(n);
    if DomainPattern(n) {
      DomainChars(n, k);
    }
  }

  /** The lower-case `http://` or `https://` a full URL starts with. */
  predicate HasHttpPrefix(n: string)
  {
    (|n| >= 7 && n[..7] == "http://") || (|n| >= 8 && n[..8] == "https://")
  }

  /**
   * A trimmed text whose lower-case form does not start with `http://` or
   * `https://` and that holds a character outside `[a-z0-9.-]` is not a URL.
   */
  lemma NoSchemeIsNotUrl(s: string, k: int)
    requires IsTrimmed(s) && 0 <= k < |s| && !HasHttpPrefix(Lower(s))
    requires !IsLabelChar(LowerChar(s[k])) && LowerChar(s[k]) != '.'
    ensures !IsValidUrl(Str(s))
  {
    TrimTrimmed(s);
    var n := Normalize(Str(s));
    assert n == Lower(s);
    assert !FullUrlPattern(n);
    if DomainPattern(n) {
      DomainChars(n, k);
    }
  }

  /** A full URL starts with `h`. */
  lemma NoSchemeNoFullUrl(n: string)
    requires n != [] && n[0] != 'h'
    ensures !FullUrlPattern(n)
  {
  }

  /** A domain name or a full http(s) URL. */
  function IsValidUrl(input: Value): (r: bool)
    ensures r <==> FullUrlPattern(Normalize(input)) || DomainPattern(Normalize(input))
    ensures r ==> input.Str?
  {
    var normalized := Normalize(input);
    if normalized == [] then false
    else if FullUrlPattern(normalized) then true
    else if DomainPattern(normalized) then true
    else false
  }

  // ---------------------------------------------------------------------
  // Detection

  datatype IocType = Ipv4 | Ipv6 | Url | Hash | Unknown

  /** The validators in the order the detector tries them. */
  const Validators: seq<IocType> := [Ipv4, Ipv6, Url, Hash]

  /**
   * The `for…of` search with its early return: the first of `vs` whose
   * verdict is true, or `Unknown`.
   */
  function FirstAccepting(vs: seq<IocType>, verdicts: seq<bool>): (r: IocType)
    requires |verdicts| == |vs|
    ensures forall i :: 0 <= i < |vs| && verdicts[i] && (forall j :: 0 <= j < i ==> !verdicts[j]) ==> r == vs[i]
    ensures (forall i :: 0 <= i < |vs| ==> !verdicts[i]) ==> r == Unknown
  {
    if vs == [] then Unknown
    else if verdicts[0] then vs[0]
    else FirstAccepting(vs[1..], verdicts[1..])
  }

  /**
   * Classification is total: a non-string is unknown, and a string gets the
   * first of ipv4, ipv6, url and hash whose validator accepts it.
   */
  function DetectIocType(input: Value): (r: IocType)
    ensures r == if !input.Str? then Unknown
                 else if IsValidIPv4(input) then Ipv4
                 else if IsValidIPv6(input) then Ipv6
                 else if IsValidUrl(input) then Url
                 else if IsValidHash(input) then Hash
                 else Unknown
  {
    if !input.Str? then Unknown
    else
      var a4, a6, au, ah := IsValidIPv4(input), IsValidIPv6(input), IsValidUrl(input), IsValidHash(input);
      FirstOfFour(a4, a6, au, ah);
      FirstAccepting(Validators, [a4, a6, au, ah])
  }

  /** The search over the validator list, for any four verdicts. */
  lemma FirstOfFour(a4: bool, a6: bool, au: bool, ah: bool)
    ensures FirstAccepting(Validators, [a4, a6, au, ah]) ==
            if a4 then Ipv4 else if a6 then Ipv6 else if au then Url else if ah then Hash else Unknown
  {
    var v := [a4, a6, au, ah];
    assert Validators[0] == Ipv4 && Validators[1] == Ipv6 && Validators[2] == Url && Validators[3] == Hash;
    assert v[0] == a4 && v[1] == a6 && v[2] == au && v[3] == ah;
  }

  /** A string whose normalised form is empty is rejected by every validator. */
  lemma EmptyIsUnknown(input: Value)
    requires Normalize(input) == ""
    ensures !IsValidIPv4(input) && !IsValidIPv6(input) && !IsValidHash(input) && !IsValidUrl(input)
    ensures DetectIocType(input) == Unknown
  {
  }

  /** The validators, and so the detector, ignore case and surrounding white space. */
  lemma InsensitiveToCaseAndSpace(s: string)
    ensures IsValidIPv4(Str(s)) == IsValidIPv4(Str(Normalize(Str(s))))
    ensures IsValidIPv6(Str(s)) == IsValidIPv6(Str(Normalize(Str(s))))
    ensures IsValidHash(Str(s)) == IsValidHash(Str(Normalize(Str(s))))
    ensures IsValidUrl(Str(s)) == IsValidUrl(Str(Normalize(Str(s))))
    ensures DetectIocType(Str(s)) == DetectIocType(Str(Normalize(Str(s))))
  {
    NormalizeIdempotent(Str(s));
  }

  /** Without a colon there is no scheme, so no full URL. */
  lemma NoColonNoFullUrl(s: string)
    requires forall k :: 0 <= k < |s| ==> s[k] != ':'
    ensures !FullUrlPattern(s)
  {
    if |s| >= 7 { assert s[4] == s[..7][4]; }
    if |s| >= 8 { assert s[5] == s[..8][5]; }
  }

  /** Without a dot a string is one `.`-piece, so neither an IPv4 address nor a domain name. */
  lemma NoDotNoIpv4NorDomain(s: string)
    requires forall k :: 0 <= k < |s| ==> s[k] != '.'
    ensures !Ipv4Pattern(s) && !DomainPattern(s)
  {
    SplitWithout(s, '.');
  }

  /**
   * A hash has neither `.` nor `:`, so it fails the IPv4, IPv6 and URL
   * patterns, and the detector classifies it as a hash.
   */
  lemma HashIsDetectedAsHash(input: Value)
    requires IsValidHash(input)
    ensures DetectIocType(input) == Hash
  {
    var n := Normalize(input);
    assert HashPattern(n);
    assert forall k :: 0 <= k < |n| ==> n[k] != '.' && n[k] != ':' by {
      assert forall k :: 0 <= k < |n| ==> IsHex(n[k]);
    }
    NoDotNoIpv4NorDomain(n);
    NoColonNoFullUrl(n);
    NoColonNotIpv6(n);
  }

  /** A text without a colon is not an IPv6 address. */
  lemma NoColonNotIpv6(s: string)
    requires forall k :: 0 <= k < |s| ==> s[k] != ':'
    ensures !Ipv6Pattern(s)
  {
    if Ipv6Pattern(s) {
      Ipv6HasColon(s);
    }
  }
}
