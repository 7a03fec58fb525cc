/**
 * The pivot logic of the background script, lifted out of the click
 * handler: scheme normalisation, defanging of addresses and URLs for the
 * clipboard, expansion of placeholders in lookup URL templates, and the
 * plan of tabs opened after the active tab. The browser calls around it
 * (loading preferences, querying and creating tabs, writing the clipboard,
 * percent-encoding, URL parsing) are parameters of the model.
 */
module Background {
  import opened Wrappers
  import opened Js
  import opened Text
  import opened IocValidator

  // ---------------------------------------------------------------------
  // Scheme

  /** `/^https?:\/\//i`: the text starts with `http://` or `https://`, in any case. */
  predicate HasHttpScheme(s: string)
  {
    (|s| >= 7 && Lower(s[..7]) == "http://") || (|s| >= 8 && Lower(s[..8]) == "https://")
  }

  /** `normaliseUrl`: adds `https://` unless the text already has an http(s) scheme. */
  function NormaliseUrl(input: string): (r: string)
    ensures HasHttpScheme(r)
    ensures r == input <==> HasHttpScheme(input)
    ensures r == input || r == "https://" + input
  {
    if HasHttpScheme(input) then input
    else
      PrefixHasScheme(input);
      "https://" + input
  }

  lemma PrefixHasScheme(s: string)
    ensures HasHttpScheme("https://" + s)
  {
    var t := "https://" + s;
    assert t[..8] == "https://";
    assert IsLower("https://");
    LowerOfLower("https://");
  }

  /** Normalising twice is normalising once. */
  lemma NormaliseUrlIdempotent(input: string)
    ensures NormaliseUrl(NormaliseUrl(input)) == NormaliseUrl(input)
  {
  }

  // ---------------------------------------------------------------------
  // Defanging an address

  predicate IsSeparator(c: char) { c == '.' || c == ':' }

  /** The position of the rightmost `.` or `:`, or -1 when there is none. */
  function LastSeparator(s: string): (r: int)
    ensures -1 <= r < |s|
    ensures r >= 0 ==> IsSeparator(s[r])
    ensures forall j :: r < j < |s| ==> !IsSeparator(s[j])
  {
    if s == [] then -1
    else if IsSeparator(s[|s| - 1]) then |s| - 1
    else LastSeparator(s[..|s| - 1])
  }

  /** The character at `i` wrapped in brackets. */
  function Bracketed(s: string, i: int): (r: string)
    requires 0 <= i < |s|
    ensures |r| == |s| + 2
  {
    s[..i] + "[" + [s[i]] + "]" + s[i + 1..]
  }

  /** The clipboard form of an address: its rightmost separator bracketed, if it has one. */
  function DefangedIp(s: string): string
  {
    var i := LastSeparator(s);
    if i < 0 then s else Bracketed(s, i)
  }

  /**
   * The `sanitise` step for addresses, through `lastIndexOf` and `slice`:
   * a last dot after the last colon becomes `[.]`, else a last colon
   * becomes `[:]`, else the text is left alone.
   */
  method DefangIp(s: string) returns (toCopy: string)
    ensures toCopy == DefangedIp(s)
  {
    toCopy := s;
    var lastDot := LastIndexOf(toCopy, '.');
    var lastColon := LastIndexOf(toCopy, ':');
    LastSeparatorOfBoth(s);
    if lastDot > lastColon {
      toCopy := toCopy[..lastDot] + "[.]" + toCopy[lastDot + 1..];
      BracketedSplice(s, lastDot, '.');
    } else if lastColon > -1 {
      toCopy := toCopy[..lastColon] + "[:]" + toCopy[lastColon + 1..];
      BracketedSplice(s, lastColon, ':');
    }
  }

  /** The rightmost separator is the later of the last dot and the last colon. */
  lemma LastSeparatorOfBoth(s: string)
    ensures LastSeparator(s) ==
      if LastIndexOf(s, '.') > LastIndexOf(s, ':') then LastIndexOf(s, '.') else LastIndexOf(s, ':')
  {
    var d, c := LastIndexOf(s, '.'), LastIndexOf(s, ':');
    if d > c {
      LastSeparatorIs(s, d);
    } else {
      LastSeparatorIs(s, c);
    }
  }

  /** Bracketing the character `c` at `i` splices in the three characters `[c]`. */
  lemma BracketedSplice(s: string, i: int, c: char)
    requires 0 <= i < |s| && s[i] == c
    ensures Bracketed(s, i) == s[..i] + ['[', c, ']'] + s[i + 1..]
  {
    assert s[..i] + "[" + [s[i]] + "]" == s[..i] + ['[', c, ']'];
  }

  /** Any position with a separator and none after it is the rightmost separator. */
  lemma LastSeparatorIs(s: string, r: int)
    requires -1 <= r < |s|
    requires r >= 0 ==> IsSeparator(s[r])
    requires forall j :: r < j < |s| ==> !IsSeparator(s[j])
    ensures LastSeparator(s) == r
  {
  }

  /** At most one character changes: a text without separators is unchanged, any other grows by the two brackets. */
  lemma DefangedIpShape(s: string)
    ensures (forall k :: 0 <= k < |s| ==> !IsSeparator(s[k])) ==> DefangedIp(s) == s
    ensures (exists k :: 0 <= k < |s| && IsSeparator(s[k])) ==>
      exists i :: 0 <= i < |s| && IsSeparator(s[i]) && (forall j :: i < j < |s| ==> !IsSeparator(s[j])) &&
        DefangedIp(s) == s[..i] + "[" + [s[i]] + "]" + s[i + 1..]
  {
    var i := LastSeparator(s);
    if exists k :: 0 <= k < |s| && IsSeparator(s[k]) {
      var k :| 0 <= k < |s| && IsSeparator(s[k]);
      assert i >= k;
    }
  }

  /** An IPv4 address is defanged at its last dot. */
  lemma Ipv4DefangsLastDot(s: string)
    requires Ipv4Pattern(s)
    ensures exists i :: (0 <= i < |s| && s[i] == '.' && (forall j :: i < j < |s| ==> s[j] != '.') &&
                         DefangedIp(s) == s[..i] + "[.]" + s[i + 1..])
  {
    var i := LastSeparator(s);
    Ipv4HasDot(s);
    assert i >= 0;
    Ipv4Chars(s, i);
    assert s[i] == '.';
    assert "[.]" == "[" + [s[i]] + "]";
  }

  /** `192.168.1.5` is copied as `192.168.1[.]5`. */
  lemma DefangedIpv4Sample()
    ensures DefangedIp("192.168.1.5") == "192.168.1[.]5"
  {
    var s := "192.168.1.5";
    LastSeparatorIs(s, 9);
    BracketedSplice(s, 9, '.');
  }

  lemma DefangedIpv6Sample()
    ensures DefangedIp("2001:db8::1") == "2001:db8:[:]1"
  {
    var s := "2001:db8::1";
    LastSeparatorIs(s, 9);
    BracketedSplice(s, 9, ':');
  }

  lemma Ipv4HasDot(s: string)
    requires Ipv4Pattern(s)
    ensures exists k :: 0 <= k < |s| && IsSeparator(s[k])
  {
    DotBetween(Split(s, '.'), s);
  }

  /** Every character of an IPv4 address is a digit or a dot. */
  lemma Ipv4Chars(s: string, k: int)
    requires Ipv4Pattern(s) && 0 <= k < |s|
    ensures IsDigit(s[k]) || s[k] == '.'
  {
    if s[k] != '.' {
      SplitCovers(s, '.', k);
      var l := Split(s, '.');
      var i, m :| 0 <= i < |l| && 0 <= m < |l[i]| && l[i][m] == s[k];
      assert Ipv4Octet(l[i]);
      Ipv4OctetValue(l[i]);
    }
  }

  /** A text that splits into more than one piece holds the separator. */
  lemma DotBetween(parts: seq<string>, s: string)
    requires parts == Split(s, '.') && |parts| >= 2
    ensures exists k :: 0 <= k < |s| && IsSeparator(s[k])
  {
    JoinSplit(s, '.');
    JoinHasSeparator(parts);
  }

  lemma {:induction false} JoinHasSeparator(parts: seq<string>)
    requires |parts| >= 2
    ensures |parts[0]| < |Join(parts, '.')| && Join(parts, '.')[|parts[0]|] == '.'
  {
    assert Join(parts, '.') == parts[0] + ['.'] + Join(parts[1..], '.');
  }

  // ---------------------------------------------------------------------
  // Defanging a URL

  /** `s.replace(/\./g, '[.]')`: every dot bracketed, every other character kept in order. */
  function DefangUrl(s: string): (r: string)
    ensures |r| == |s| + 2 * Dots(s)
    ensures r == [] || r[0] != '.'
  {
    if s == [] then []
    else (if s[0] == '.' then "[.]" else [s[0]]) + DefangUrl(s[1..])
  }

  /** The number of dots in `s`. */
  function Dots(s: string): nat
  {
    if s == [] then 0 else (if s[0] == '.' then 1 else 0) + Dots(s[1..])
  }

  /** Reading `[.]` back as a dot, left to right. */
  function Refang(s: string): string
  {
    if s == [] then []
    else if |s| >= 3 && s[..3] == "[.]" then "." + Refang(s[3..])
    else [s[0]] + Refang(s[1..])
  }

  /** Un-bracketing restores the original text, so defanging loses nothing. */
  lemma {:induction false} RefangDefang(s: string)
    ensures Refang(DefangUrl(s)) == s
  {
    if s != [] {
      var rest := DefangUrl(s[1..]);
      RefangDefang(s[1..]);
      if s[0] == '.' {
        var d := "[.]" + rest;
        assert d[..3] == "[.]" && d[3..] == rest;
      } else {
        var d := [s[0]] + rest;
        assert d[1..] == rest;
        if |d| >= 3 {
          assert d[..3][1] == rest[0];
        }
      }
    }
  }

  /** A defanged URL has no dot outside a bracket pair. */
  lemma {:induction false} DefangedDotsBracketed(s: string, k: int)
    requires 0 <= k < |DefangUrl(s)| && DefangUrl(s)[k] == '.'
    ensures 0 < k < |DefangUrl(s)| - 1 && DefangUrl(s)[k - 1] == '[' && DefangUrl(s)[k + 1] == ']'
    decreases |s|
  {
    var head := if s[0] == '.' then "[.]" else [s[0]];
    var rest := DefangUrl(s[1..]);
    assert DefangUrl(s) == head + rest;
    if k >= |head| {
      DefangedDotsBracketed(s[1..], k - |head|);
    }
  }

  /** Defanging works character by character, so it distributes over concatenation. */
  lemma {:induction false} DefangUrlAppend(a: string, b: string)
    ensures DefangUrl(a + b) == DefangUrl(a) + DefangUrl(b)
  {
    if a != [] {
      var head := if a[0] == '.' then "[.]" else [a[0]];
      assert (a + b)[0] == a[0] && (a + b)[1..] == a[1..] + b;
      assert DefangUrl(a + b) == head + DefangUrl(a[1..] + b);
      assert DefangUrl(a) == head + DefangUrl(a[1..]);
      DefangUrlAppend(a[1..], b);
    } else {
      assert a + b == b;
    }
  }

  /** Text without a dot is left as it is. */
  lemma {:induction false} NoDotDefang(s: string)
    requires forall k :: 0 <= k < |s| ==> s[k] != '.'
    ensures DefangUrl(s) == s
  {
    if s != [] {
      NoDotDefang(s[1..]);
      assert s == [s[0]] + s[1..];
    }
  }

  // ---------------------------------------------------------------------
  // Placeholders

  /** The text substituted into each lookup template, by indicator kind. */
  datatype Expansion =
    | IpValue(ip: string)
    | HashValue(hash: string)
    | UrlValues(url: string, encodedUrl: string, domain: string)

  /**
   * The final URL of one lookup template: the first `{ip}` or `{hash}`
   * replaced; for a URL the first `{url}`, then the first `{encodedUrl}`,
   * then the first `{domain}`, each in the text the previous step left; and
   * the result prefixed by `normaliseUrl`.
   */
  function Expand(e: Expansion, template: string): (r: string)
    ensures HasHttpScheme(r)
  {
    match e
    case IpValue(ip) => NormaliseUrl(ReplaceFirst(template, "{ip}", ip))
    case HashValue(hash) => NormaliseUrl(ReplaceFirst(template, "{hash}", hash))
    case UrlValues(url, encodedUrl, domain) => NormaliseUrl(Substitute(template, url, encodedUrl, domain))
  }

  /** The URL placeholders in their order: `{url}`, then `{encodedUrl}`, then `{domain}`. */
  function Substitute(template: string, url: string, encodedUrl: string, domain: string): string
  {
    ReplaceFirst(ReplaceFirst(ReplaceFirst(template, "{url}", url), "{encodedUrl}", encodedUrl), "{domain}", domain)
  }

  /** Only the first placeholder is replaced; a second one is left in the URL. */
  lemma OnlyFirstPlaceholder(host: string, rest: string, ip: string)
    requires forall k :: 0 <= k < |host| ==> host[k] != '{'
    requires host != [] && LowerChar(host[0]) != 'h'
    ensures Expand(IpValue(ip), host + "{ip}" + rest) == "https://" + host + ip + rest
  {
    ReplaceAfter(host, "{ip}", rest, ip);
    var t := host + ip + rest;
    assert t[0] == host[0];
    NotSchemeStart(t);
  }

  /** A text not starting with `h` has no scheme. */
  lemma NotSchemeStart(t: string)
    requires t != [] && LowerChar(t[0]) != 'h'
    ensures !HasHttpScheme(t)
  {
    if |t| >= 7 { assert Lower(t[..7])[0] == LowerChar(t[0]); }
    if |t| >= 8 { assert Lower(t[..8])[0] == LowerChar(t[0]); }
  }

  /** A template with the placeholder twice keeps the second one literally. */
  lemma RepeatedPlaceholder(host: string, mid: string, ip: string)
    requires forall k :: 0 <= k < |host| ==> host[k] != '{'
    requires host != [] && LowerChar(host[0]) != 'h'
    ensures Expand(IpValue(ip), host + "{ip}" + mid + "{ip}") == "https://" + host + ip + mid + "{ip}"
  {
    assert host + "{ip}" + mid + "{ip}" == host + "{ip}" + (mid + "{ip}");
    OnlyFirstPlaceholder(host, mid + "{ip}", ip);
  }

  /** A placeholder of another kind is not substituted: a hash leaves `{ip}` in the URL as it is. */
  lemma ForeignPlaceholderKept(host: string, rest: string, hash: string)
    requires forall k :: 0 <= k < |host| ==> host[k] != '{'
    requires forall k :: 0 <= k < |rest| ==> rest[k] != '{'
    requires host != [] && LowerChar(host[0]) != 'h'
    ensures Expand(HashValue(hash), host + "{ip}" + rest) == "https://" + host + "{ip}" + rest
  {
    var t := host + "{ip}" + rest;
    forall j ensures !OccursAt(t, "{hash}", j) {
      if 0 <= j && j + 6 <= |t| {
        assert t[j..j + 6][0] == t[j] && t[j..j + 6][1] == t[j + 1];
        if j < |host| {
          assert t[j] == host[j];
        } else if j == |host| {
          assert t[j + 1] == 'i';
        } else if j < |host| + 4 {
          assert t[j] == "{ip}"[j - |host|];
        } else {
          assert t[j] == rest[j - |host| - 4];
        }
      }
    }
    assert t[0] == host[0];
    NotSchemeStart(t);
  }

  /** A lowercase text has no `{encodedUrl}` in it, so that placeholder never comes from the selection. */
  lemma LowerHasNoEncodedUrl(s: string)
    requires IsLower(s)
    ensures forall j :: !OccursAt(s, "{encodedUrl}", j)
    ensures forall e :: ReplaceFirst(s, "{encodedUrl}", e) == s
  {
    assert "{encodedUrl}"[8] == 'U';
    forall k | 0 <= k < |s| ensures s[k] != "{encodedUrl}"[8] {
      assert !IsUpper(s[k]);
    }
    ReplaceAbsent(s, "{encodedUrl}", 8, "");
  }

  /**
   * The replacements run one after another on the whole text, so a
   * `{domain}` inside the selected URL itself is replaced by the domain
   * when the template has no `{domain}` before it.
   */
  lemma DomainInsideUrlReplaced(host: string, a: string, b: string, encodedUrl: string, domain: string)
    requires IsLower(host) && IsLower(a) && IsLower(b)
    requires forall k :: 0 <= k < |host| ==> host[k] != '{'
    requires forall k :: 0 <= k < |a| ==> a[k] != '{'
    ensures Substitute(host + "{url}", "https://" + a + "{domain}" + b, encodedUrl, domain)
         == host + "https://" + a + domain + b
  {
    var input := "https://" + a + "{domain}" + b;
    var pre := host + "https://" + a;
    var t1 := pre + "{domain}" + b;
    UrlStep(host, input);
    assert host + input == t1;
    var r1 := ReplaceFirst(host + "{url}", "{url}", input);
    LowerSubject(host, a, b);
    LowerHasNoEncodedUrl(t1);
    var r2 := ReplaceFirst(r1, "{encodedUrl}", encodedUrl);
    assert r2 == t1;
    DomainStep(host, a, b, domain);
    var t3 := pre + domain + b;
    var r3 := ReplaceFirst(r2, "{domain}", domain);
    assert r3 == t3;
  }

  lemma UrlStep(host: string, input: string)
    requires forall k :: 0 <= k < |host| ==> host[k] != '{'
    ensures ReplaceFirst(host + "{url}", "{url}", input) == host + input
  {
    assert host + "{url}" == host + "{url}" + "";
    ReplaceAfter(host, "{url}", "", input);
    assert host + input + "" == host + input;
  }

  lemma LowerSubject(host: string, a: string, b: string)
    requires IsLower(host) && IsLower(a) && IsLower(b)
    ensures IsLower(host + "https://" + a + "{domain}" + b)
  {
    LowerConcat(host, "https://");
    LowerConcat(host + "https://", a);
    LowerConcat(host + "https://" + a, "{domain}");
    LowerConcat(host + "https://" + a + "{domain}", b);
  }

  lemma DomainStep(host: string, a: string, b: string, domain: string)
    requires forall k :: 0 <= k < |host| ==> host[k] != '{'
    requires forall k :: 0 <= k < |a| ==> a[k] != '{'
    ensures ReplaceFirst(host + "https://" + a + "{domain}" + b, "{domain}", domain)
         == host + "https://" + a + domain + b
  {
    var pre := host + "https://" + a;
    forall k | 0 <= k < |pre| ensures pre[k] != '{' {
      if |host| + 8 <= k { assert pre[k] == a[k - |host| - 8]; }
    }
    ReplaceAfter(pre, "{domain}", b, domain);
  }

  lemma LowerConcat(x: string, y: string)
    requires IsLower(x) && IsLower(y)
    ensures IsLower(x + y)
  {
    forall k | 0 <= k < |x + y| ensures !IsUpper((x + y)[k]) {
      if k >= |x| { assert (x + y)[k] == y[k - |x|]; }
    }
  }

  // ---------------------------------------------------------------------
  // Tabs

  /** One `tabs.create` call: where the tab goes and whether it takes focus. */
  datatype TabRequest = TabRequest(url: string, index: int, active: bool)

  /** One background tab per template, in template order, at consecutive indices from `index`. */
  function Plan(urls: seq<string>, index: int, e: Expansion): (r: seq<TabRequest>)
    ensures |r| == |urls|
    ensures forall i :: 0 <= i < |urls| ==> r[i] == TabRequest(Expand(e, urls[i]), index + i, false)
  {
    if urls == [] then []
    else [TabRequest(Expand(e, urls[0]), index, false)] + Plan(urls[1..], index + 1, e)
  }

  /** The tab loop: `index` starts right after the active tab and grows by one per template. */
  method PlanTabs(urls: seq<string>, activeIndex: int, e: Expansion) returns (plan: seq<TabRequest>)
    ensures plan == Plan(urls, activeIndex + 1, e)
  {
    plan := [];
    var index := activeIndex + 1;
    var n := 0;
    while n < |urls|
      invariant 0 <= n <= |urls|
      invariant index == activeIndex + 1 + n
      invariant |plan| == n
      invariant forall i :: 0 <= i < n ==> plan[i] == TabRequest(Expand(e, urls[i]), activeIndex + 1 + i, false)
    {
      var finalUrl := Expand(e, urls[n]);
      plan := plan + [TabRequest(finalUrl, index, false)];
      index := index + 1;
      n := n + 1;
    }
  }

  /** Tabs of one plan never share an index, and all open in the background. */
  lemma PlanDistinct(urls: seq<string>, index: int, e: Expansion, i: int, j: int)
    requires 0 <= i < j < |urls|
    ensures Plan(urls, index, e)[i].index < Plan(urls, index, e)[j].index
    ensures !Plan(urls, index, e)[i].active
  {
  }

  // ---------------------------------------------------------------------
  // The three pivots

  /** The preference fields one pivot reads (the hash section has no `sanitise`). */
  datatype SectionPrefs = SectionPrefs(copyToClipboard: bool, sanitise: bool, urls: seq<string>)

  /** The three sections of the loaded preferences. */
  datatype Prefs = Prefs(ip: SectionPrefs, hash: SectionPrefs, url: SectionPrefs)

  /** What one click does: nothing, or the tabs to open and the text to copy, if any. */
  datatype Pivot = Ignored | Opened(tabs: seq<TabRequest>, clipboard: Option<string>)

  /** The address pivot: gated on IPv4 or IPv6, clipboard defanged only with `sanitise`. */
  function IpPivot(selection: string, prefs: SectionPrefs, activeIndex: int): (r: Pivot)
    ensures r.Opened? <==> IsValidIPv4(Str(selection)) || IsValidIPv6(Str(selection))
    ensures r.Opened? ==> r.tabs == Plan(prefs.urls, activeIndex + 1, IpValue(Normalize(Str(selection))))
    ensures r.Opened? && prefs.copyToClipboard ==>
      r.clipboard == Some(if prefs.sanitise then DefangedIp(Normalize(Str(selection))) else Normalize(Str(selection)))
    ensures r.Opened? && !prefs.copyToClipboard ==> r.clipboard == None
  {
    var trimmed := Lower(Trim(selection));
    InsensitiveToCaseAndSpace(selection);
    if IsValidIPv4(Str(trimmed)) || IsValidIPv6(Str(trimmed)) then
      Opened(Plan(prefs.urls, activeIndex + 1, IpValue(trimmed)),
             if prefs.copyToClipboard then Some(if prefs.sanitise then DefangedIp(trimmed) else trimmed) else None)
    else Ignored
  }

  /** The hash pivot: gated on a hash, clipboard never defanged. */
  function HashPivot(selection: string, prefs: SectionPrefs, activeIndex: int): (r: Pivot)
    ensures r.Opened? <==> IsValidHash(Str(selection))
    ensures r.Opened? ==> r.tabs == Plan(prefs.urls, activeIndex + 1, HashValue(Normalize(Str(selection))))
    ensures r.Opened? && prefs.copyToClipboard ==> r.clipboard == Some(Normalize(Str(selection)))
    ensures r.Opened? && !prefs.copyToClipboard ==> r.clipboard == None
  {
    var trimmed := Lower(Trim(selection));
    InsensitiveToCaseAndSpace(selection);
    if IsValidHash(Str(trimmed)) then
      Opened(Plan(prefs.urls, activeIndex + 1, HashValue(trimmed)),
             if prefs.copyToClipboard then Some(trimmed) else None)
    else Ignored
  }

  /** The selection as the URL pivot uses it: trimmed, lowercased, given `https://` when it has no scheme. */
  function UrlSubject(selection: string): (r: string)
    ensures HasHttpScheme(r)
    ensures Normalize(Str(r)) == r
  {
    var input := Normalize(Str(selection));
    SubjectNormal(input);
    NormaliseUrl(input)
  }

  /** A trimmed lowercase text stays trimmed and lowercase when `https://` is put in front. */
  lemma SubjectNormal(t: string)
    requires IsTrimmed(t) && IsLower(t)
    ensures Normalize(Str(NormaliseUrl(t))) == NormaliseUrl(t)
  {
    var r := NormaliseUrl(t);
    if r != t {
      assert r == "https://" + t;
      assert r[0] == 'h';
      assert r[|r| - 1] == if t == [] then '/' else t[|t| - 1];
      forall i | 0 <= i < |r| ensures !IsUpper(r[i]) {
        if i >= 8 { assert r[i] == t[i - 8]; }
      }
    }
    TrimTrimmed(r);
    LowerOfLower(r);
  }

  /**
   * The URL pivot: gated on the subject being a valid URL; encoding and
   * host-name extraction are supplied by the host (`None` when
   * `new URL` throws, in which case the domain is empty).
   */
  function UrlPivot(selection: string, prefs: SectionPrefs, activeIndex: int,
                    encode: string -> string, hostname: string -> Option<string>): (r: Pivot)
    ensures r.Opened? <==> IsValidUrl(Str(UrlSubject(selection)))
    ensures r.Opened? ==> r.tabs == Plan(prefs.urls, activeIndex + 1,
      UrlValues(UrlSubject(selection), encode(UrlSubject(selection)),
                match hostname(UrlSubject(selection)) case Some(h) => h case None => ""))
    ensures r.Opened? && prefs.copyToClipboard ==>
      r.clipboard == Some(if prefs.sanitise then DefangUrl(UrlSubject(selection)) else UrlSubject(selection))
    ensures r.Opened? && !prefs.copyToClipboard ==> r.clipboard == None
  {
    var input := UrlSubject(selection);
    if IsValidUrl(Str(input)) then
      var domain := match hostname(input) case Some(h) => h case None => "";
      Opened(Plan(prefs.urls, activeIndex + 1, UrlValues(input, encode(input), domain)),
             if prefs.copyToClipboard then Some(if prefs.sanitise then DefangUrl(input) else input) else None)
    else Ignored
  }

  /** The selected text becomes a full URL, so the bare-domain alternative never decides the gate. */
  lemma UrlGate(selection: string)
    ensures IsValidUrl(Str(UrlSubject(selection))) <==> FullUrlPattern(UrlSubject(selection))
  {
    var subject := UrlSubject(selection);
    assert IsLower(Normalize(Str(subject)));
    SchemedIsNotDomain(subject);
  }

  /** A lowercase text with a scheme holds a colon, so it is not a bare domain. */
  lemma SchemedIsNotDomain(subject: string)
    requires HasHttpScheme(subject) && IsLower(subject)
    ensures !DomainPattern(subject)
  {
    SchemeColon(subject);
    if subject[4] == ':' {
      ColonIsNotDomain(subject, 4);
    } else {
      ColonIsNotDomain(subject, 5);
    }
  }

  lemma ColonIsNotDomain(s: string, k: int)
    requires 0 <= k < |s| && s[k] == ':'
    ensures !DomainPattern(s)
  {
    if DomainPattern(s) {
      DomainChars(s, k);
    }
  }

  /** A lowercase text with a scheme has its colon at position 4 or 5. */
  lemma SchemeColon(s: string)
    requires HasHttpScheme(s) && IsLower(s)
    ensures |s| > 5 && (s[4] == ':' || s[5] == ':')
  {
    if |s| >= 7 && Lower(s[..7]) == "http://" {
      assert Lower(s[..7])[4] == LowerChar(s[4]);
    } else {
      assert Lower(s[..8])[5] == LowerChar(s[5]);
    }
  }

  /** With `sanitise`, the copied IPv4 address has its last dot bracketed. */
  lemma Ipv4ClipboardDefanged(selection: string, prefs: SectionPrefs, activeIndex: int)
    requires IsValidIPv4(Str(selection)) && prefs.copyToClipboard && prefs.sanitise
    ensures var n := Normalize(Str(selection));
      exists i :: (0 <= i < |n| && n[i] == '.' && (forall j :: i < j < |n| ==> n[j] != '.') &&
                   IpPivot(selection, prefs, activeIndex).clipboard == Some(n[..i] + "[.]" + n[i + 1..]))
  {
    var n := Normalize(Str(selection));
    assert Ipv4Pattern(n);
    Ipv4DefangsLastDot(n);
  }

  /** The address branch of the click handler. */
  method HandleIp(selection: string, prefs: SectionPrefs, activeIndex: int) returns (r: Pivot)
    ensures r == IpPivot(selection, prefs, activeIndex)
  {
    var trimmed := Lower(Trim(selection));
    if IsValidIPv4(Str(trimmed)) || IsValidIPv6(Str(trimmed)) {
      var tabs := PlanTabs(prefs.urls, activeIndex, IpValue(trimmed));
      var clipboard := None;
      if prefs.copyToClipboard {
        var toCopy := trimmed;
        if prefs.sanitise {
          toCopy := DefangIp(toCopy);
        }
        clipboard := Some(toCopy);
      }
      r := Opened(tabs, clipboard);
    } else {
      r := Ignored;
    }
  }

  /** The hash branch of the click handler. */
  method HandleHash(selection: string, prefs: SectionPrefs, activeIndex: int) returns (r: Pivot)
    ensures r == HashPivot(selection, prefs, activeIndex)
  {
    var trimmed := Lower(Trim(selection));
    if IsValidHash(Str(trimmed)) {
      var tabs := PlanTabs(prefs.urls, activeIndex, HashValue(trimmed));
      var clipboard := if prefs.copyToClipboard then Some(trimmed) else None;
      r := Opened(tabs, clipboard);
    } else {
      r := Ignored;
    }
  }

  /**
   * The URL branch of the click handler. Its opening `https?://` test and
   * prefix are the same step as `normaliseUrl`, so the model calls it.
   */
  method HandleUrl(selection: string, prefs: SectionPrefs, activeIndex: int,
                   encode: string -> string, hostname: string -> Option<string>) returns (r: Pivot)
    ensures r == UrlPivot(selection, prefs, activeIndex, encode, hostname)
  {
    var input := NormaliseUrl(Lower(Trim(selection)));
    if IsValidUrl(Str(input)) {
      var encodedUrl := encode(input);
      var domain := "";
      match hostname(input) {
        case Some(h) => domain := h;
        case None =>
      }
      var tabs := PlanTabs(prefs.urls, activeIndex, UrlValues(input, encodedUrl, domain));
      var clipboard := None;
      if prefs.copyToClipboard {
        var toCopy := input;
        if prefs.sanitise {
          toCopy := DefangUrl(toCopy);
        }
        clipboard := Some(toCopy);
      }
      r := Opened(tabs, clipboard);
    } else {
      r := Ignored;
    }
  }

  // ---------------------------------------------------------------------
  // Menu dispatch

  const MenuPrefix := "soc-intel-"

  /** The section a menu item names: what follows the `soc-intel-` prefix, if the id has it. */
  function MenuType(menuItemId: string): (r: Option<string>)
    ensures r.Some? <==> |menuItemId| >= |MenuPrefix| && menuItemId[..|MenuPrefix|] == MenuPrefix
    ensures r.Some? ==> menuItemId == MenuPrefix + r.value
  {
    if |menuItemId| >= |MenuPrefix| && menuItemId[..|MenuPrefix|] == MenuPrefix then
      ReplaceLeading(menuItemId, MenuPrefix, "");
      var t := ReplaceFirst(menuItemId, MenuPrefix, "");
      assert menuItemId == menuItemId[..|MenuPrefix|] + t;
      Some(t)
    else None
  }

  /**
   * The click handler: nothing for an empty selection or a foreign menu
   * item, otherwise the branch the item names (nothing for an unknown one).
   */
  function OnClicked(menuItemId: string, selection: string, prefs: Prefs, activeIndex: int,
                     encode: string -> string, hostname: string -> Option<string>): (r: Pivot)
  {
    if selection == [] then Ignored
    else match MenuType(menuItemId)
      case None => Ignored
      case Some(t) =>
        if t == "ip" then IpPivot(selection, prefs.ip, activeIndex)
        else if t == "hash" then HashPivot(selection, prefs.hash, activeIndex)
        else if t == "url" then UrlPivot(selection, prefs.url, activeIndex, encode, hostname)
        else Ignored
  }

  /** The listener registered on `contextMenus.onClicked`. */
  method HandleClick(menuItemId: string, selection: string, prefs: Prefs, activeIndex: int,
                     encode: string -> string, hostname: string -> Option<string>) returns (r: Pivot)
    ensures r == OnClicked(menuItemId, selection, prefs, activeIndex, encode, hostname)
  {
    if selection == [] || !(|menuItemId| >= |MenuPrefix| && menuItemId[..|MenuPrefix|] == MenuPrefix) {
      return Ignored;
    }
    var t := ReplaceFirst(menuItemId, MenuPrefix, "");
    assert MenuType(menuItemId) == Some(t);
    ghost var expected := OnClicked(menuItemId, selection, prefs, activeIndex, encode, hostname);
    if t == "ip" {
      assert expected == IpPivot(selection, prefs.ip, activeIndex);
      r := HandleIp(selection, prefs.ip, activeIndex);
    } else if t == "hash" {
      assert expected == HashPivot(selection, prefs.hash, activeIndex);
      r := HandleHash(selection, prefs.hash, activeIndex);
    } else if t == "url" {
      assert expected == UrlPivot(selection, prefs.url, activeIndex, encode, hostname);
      r := HandleUrl(selection, prefs.url, activeIndex, encode, hostname);
    } else {
      r := Ignored;
    }
  }

  /** Tabs open only for a non-empty selection on one of the three menu items. */
  lemma ClickOpens(menuItemId: string, selection: string, prefs: Prefs, activeIndex: int,
                   encode: string -> string, hostname: string -> Option<string>)
    requires OnClicked(menuItemId, selection, prefs, activeIndex, encode, hostname).Opened?
    ensures selection != []
    ensures menuItemId == MenuPrefix + "ip" || menuItemId == MenuPrefix + "hash" || menuItemId == MenuPrefix + "url"
  {
  }

  /** The address menu item runs the address pivot on any non-empty selection. */
  lemma ClickIp(selection: string, prefs: Prefs, activeIndex: int,
                encode: string -> string, hostname: string -> Option<string>)
    requires selection != []
    ensures OnClicked(MenuPrefix + "ip", selection, prefs, activeIndex, encode, hostname)
         == IpPivot(selection, prefs.ip, activeIndex)
  {
    assert (MenuPrefix + "ip")[..|MenuPrefix|] == MenuPrefix;
  }
}
