/** The classifier on the sample indicators of each kind. */
module IocExamples {
  import opened Js
  import opened Text
  import opened IocValidator

  /** A string that is already trimmed and in lower case normalises to itself. */
  lemma NormalizeNormal(s: string)
    requires IsTrimmed(s) && IsLower(s)
    ensures Normalize(Str(s)) == s
  {
    TrimTrimmed(s);
    LowerOfLower(s);
  }

  /** A trimmed lower-case string is classified exactly as its patterns dictate. */
  lemma DetectNormal(s: string)
    requires IsTrimmed(s) && IsLower(s) && s != ""
    ensures DetectIocType(Str(s)) ==
            if Ipv4Pattern(s) then Ipv4
            else if Ipv6Pattern(s) then Ipv6
            else if FullUrlPattern(s) || DomainPattern(s) then Url
            else if HashPattern(s) then Hash
            else Unknown
  {
    NormalizeNormal(s);
  }

  lemma DetectsIpv4(s: string)
    requires IsTrimmed(s) && IsLower(s) && s != "" && Ipv4Pattern(s)
    ensures DetectIocType(Str(s)) == Ipv4
  {
    DetectNormal(s);
  }

  lemma DetectsIpv6(s: string)
    requires IsTrimmed(s) && IsLower(s) && s != ""
    requires !Ipv4Pattern(s) && Ipv6Pattern(s)
    ensures DetectIocType(Str(s)) == Ipv6
  {
    DetectNormal(s);
  }

  lemma DetectsUrl(s: string)
    requires IsTrimmed(s) && IsLower(s) && s != ""
    requires !Ipv4Pattern(s) && !Ipv6Pattern(s) && FullUrlPattern(s)
    ensures DetectIocType(Str(s)) == Url
  {
    DetectNormal(s);
  }

  lemma DetectsNothing(s: string)
    requires IsTrimmed(s) && IsLower(s) && s != ""
    requires !Ipv4Pattern(s) && !Ipv6Pattern(s) && !FullUrlPattern(s) && !DomainPattern(s) && !HashPattern(s)
    ensures DetectIocType(Str(s)) == Unknown
  {
    DetectNormal(s);
  }

  // 8.8.8.8

  lemma Ipv4SampleSplit()
    ensures Split("8.8.8.8", '.') == ["8", "8", "8", "8"]
  {
    var parts := ["8", "8", "8", "8"];
    assert Join(parts[3..], '.') == "8";
    assert Join(parts[2..], '.') == "8.8";
    assert Join(parts[1..], '.') == "8.8.8";
    assert Join(parts, '.') == "8.8.8.8";
    SplitJoin(parts, '.');
  }

  lemma Ipv4SamplePattern()
    ensures Ipv4Pattern("8.8.8.8")
  {
    Ipv4SampleSplit();
    assert Ipv4Octet("8");
  }

  lemma Ipv4SampleNormal()
    ensures IsTrimmed("8.8.8.8") && IsLower("8.8.8.8")
  {
  }

  lemma Ipv4Sample()
    ensures DetectIocType(Str("8.8.8.8")) == Ipv4
  {
    Ipv4SamplePattern();
    Ipv4SampleNormal();
    DetectsIpv4("8.8.8.8");
  }

  // 2001:db8::1

  lemma Ipv6SampleSplit()
    ensures Split("2001:db8::1", ':') == ["2001", "db8", "", "1"]
  {
    var parts := ["2001", "db8", "", "1"];
    assert Join(parts[3..], ':') == "1";
    assert Join(parts[2..], ':') == ":1";
    assert Join(parts[1..], ':') == "db8::1";
    assert Join(parts, ':') == "2001:db8::1";
    SplitJoin(parts, ':');
  }

  lemma Ipv6SampleForms()
    ensures ColonForms(["2001", "db8", "", "1"])
  {
    var p := ["2001", "db8", "", "1"];
    assert HexGroups(p[..2]) && p[2] == "" && HexGroups(p[3..]);
  }

  lemma Ipv6SamplePattern()
    ensures Ipv6Pattern("2001:db8::1")
  {
    Ipv6SampleForms();
    Ipv6SampleSplit();
  }

  lemma Ipv6SampleChars()
    ensures forall k :: 0 <= k < |"2001:db8::1"| ==> "2001:db8::1"[k] != '.'
    ensures IsTrimmed("2001:db8::1") && IsLower("2001:db8::1")
  {
  }

  lemma Ipv6SampleNotIpv4()
    ensures !Ipv4Pattern("2001:db8::1")
  {
    Ipv6SampleChars();
    NoDotNoIpv4NorDomain("2001:db8::1");
  }

  lemma Ipv6Sample()
    ensures DetectIocType(Str("2001:db8::1")) == Ipv6
  {
    Ipv6SampleChars();
    Ipv6SampleNotIpv4();
    Ipv6SamplePattern();
    DetectsIpv6("2001:db8::1");
  }

  // d41d8cd98f00b204e9800998ecf8427e, the MD5 digest of the empty string

  lemma HashSampleChars()
    ensures IsTrimmed("d41d8cd98f00b204e9800998ecf8427e") && IsLower("d41d8cd98f00b204e9800998ecf8427e")
    ensures HashPattern("d41d8cd98f00b204e9800998ecf8427e")
  {
  }

  lemma HashSampleValid()
    ensures IsValidHash(Str("d41d8cd98f00b204e9800998ecf8427e"))
  {
    HashSampleChars();
    NormalizeNormal("d41d8cd98f00b204e9800998ecf8427e");
  }

  lemma HashSample()
    ensures DetectIocType(Str("d41d8cd98f00b204e9800998ecf8427e")) == Hash
  {
    HashSampleValid();
    HashIsDetectedAsHash(Str("d41d8cd98f00b204e9800998ecf8427e"));
  }

  // https://example.com/x?y=1

  lemma UrlSampleDots()
    ensures Split("https://example.com/x?y=1", '.') == ["https://example", "com/x?y=1"]
  {
    assert Join(["https://example", "com/x?y=1"], '.') == "https://example.com/x?y=1";
    SplitJoin(["https://example", "com/x?y=1"], '.');
  }

  lemma UrlSampleColons()
    ensures Split("https://example.com/x?y=1", ':') == ["https", "//example.com/x?y=1"]
  {
    assert Join(["https", "//example.com/x?y=1"], ':') == "https://example.com/x?y=1";
    SplitJoin(["https", "//example.com/x?y=1"], ':');
  }

  lemma UrlSampleNotIpv4()
    ensures !Ipv4Pattern("https://example.com/x?y=1")
  {
    UrlSampleDots();
  }

  lemma UrlSampleNotColonForm()
    ensures !ColonForms(["https", "//example.com/x?y=1"])
  {
  }

  lemma UrlSampleChars()
    ensures forall k :: 0 <= k < |"https://example.com/x?y=1"| ==> "https://example.com/x?y=1"[k] != '%'
    ensures IsTrimmed("https://example.com/x?y=1") && IsLower("https://example.com/x?y=1")
  {
  }

  lemma UrlSampleNotZoned()
    ensures !ZonedLinkLocal("https://example.com/x?y=1")
  {
    UrlSampleChars();
    SplitWithout("https://example.com/x?y=1", '%');
  }

  lemma UrlSampleNotIpv6()
    ensures !Ipv6Pattern("https://example.com/x?y=1")
  {
    UrlSampleColons();
    UrlSampleNotColonForm();
    UrlSampleNotZoned();
  }

  lemma ExampleComIsDomain()
    ensures DomainPattern("example.com")
  {
    assert Join(["example", "com"], '.') == "example.com";
    SplitJoin(["example", "com"], '.');
    assert DomainLabels(["example", "com"]);
  }

  /** `https://`, then a domain up to index `j`, then a valid tail: a full URL. */
  lemma HttpsUrl(s: string, j: int)
    requires 8 <= j <= |s| && s[..8] == "https://"
    requires DomainPattern(s[8..j]) && PathQueryFragment(s[j..])
    ensures FullUrlPattern(s)
  {
    assert s[8..][..j - 8] == s[8..j] && s[8..][j - 8..] == s[j..];
  }

  lemma UrlSampleHost()
    ensures DomainPattern("https://example.com/x?y=1"[8..19])
  {
    assert "https://example.com/x?y=1"[8..19] == "example.com";
    ExampleComIsDomain();
  }

  lemma UrlSampleTail()
    ensures "https://example.com/x?y=1"[..8] == "https://"
    ensures PathQueryFragment("https://example.com/x?y=1"[19..])
  {
  }

  lemma UrlSamplePattern()
    ensures FullUrlPattern("https://example.com/x?y=1")
  {
    UrlSampleHost();
    UrlSampleTail();
    HttpsUrl("https://example.com/x?y=1", 19);
  }

  lemma UrlSample()
    ensures DetectIocType(Str("https://example.com/x?y=1")) == Url
  {
    UrlSampleChars();
    UrlSampleNotIpv4();
    UrlSampleNotIpv6();
    UrlSamplePattern();
    DetectsUrl("https://example.com/x?y=1");
  }

  // not an ioc!!

  lemma UnknownSampleChars()
    ensures forall k :: 0 <= k < |"not an ioc!!"| ==> "not an ioc!!"[k] != '.' && "not an ioc!!"[k] != ':'
    ensures IsTrimmed("not an ioc!!") && IsLower("not an ioc!!") && !HashPattern("not an ioc!!")
  {
  }

  lemma UnknownSampleNotIpNorDomain()
    ensures !Ipv4Pattern("not an ioc!!") && !DomainPattern("not an ioc!!")
  {
    UnknownSampleChars();
    NoDotNoIpv4NorDomain("not an ioc!!");
  }

  lemma UnknownSampleNotIpv6()
    ensures !Ipv6Pattern("not an ioc!!")
  {
    UnknownSampleChars();
    NoColonNotIpv6("not an ioc!!");
  }

  lemma UnknownSampleNotFullUrl()
    ensures !FullUrlPattern("not an ioc!!")
  {
    UnknownSampleChars();
    NoColonNoFullUrl("not an ioc!!");
  }

  lemma UnknownSample()
    ensures DetectIocType(Str("not an ioc!!")) == Unknown
  {
    UnknownSampleChars();
    UnknownSampleNotIpNorDomain();
    UnknownSampleNotIpv6();
    UnknownSampleNotFullUrl();
    DetectsNothing("not an ioc!!");
  }
}
