/**
 * Reconciling a stored preference object against the template of defaults:
 * the template decides which keys exist and what type each must have; nested
 * sections are reconciled recursively, lists of lookup URLs are filtered by
 * the URL validator, scalars are kept only when their type matches.
 */
module Preferences {
  import opened Js
  import opened Text
  import opened IocValidator

  /** What `cleanPreferences` does: return the cleaned object, or throw (reading a property of `null`). */
  datatype Outcome = Returned(value: map<string, Value>) | ThrewTypeError

  /** The default preferences, which also serve as the template: one section per indicator kind. */
  const DefaultPreferences: map<string, Value> := map[
    "ip" := Obj(IpDefaults),
    "hash" := Obj(HashDefaults),
    "url" := Obj(UrlDefaults)]

  const IpDefaults: map<string, Value> := map[
    "active" := Bool(true),
    "copyToClipboard" := Bool(true),
    "sanitise" := Bool(true),
    "urls" := Arr(IpLookups)]
  const HashDefaults: map<string, Value> := map[
    "active" := Bool(true),
    "copyToClipboard" := Bool(true),
    "urls" := Arr(HashLookups)]
  const UrlDefaults: map<string, Value> := map[
    "active" := Bool(true),
    "copyToClipboard" := Bool(true),
    "sanitise" := Bool(true),
    "urls" := Arr(UrlLookups)]

  /** Default lookup URL templates for addresses, hashes and URLs: schemeless, with a placeholder. */
  const IpLookups: seq<Value> := [Str(AbuseIpDb), Str(ThreatFox), Str(Shodan)]
  const HashLookups: seq<Value> := [Str(VirusTotalFile), Str(UrlhausHash)]
  const UrlLookups: seq<Value> := [Str(UrlhausUrl), Str(MxToolbox), Str(VirusTotalDomain)]

  const AbuseIpDb: string := "abuseipdb.com/check/{ip}"
  const ThreatFox: string := "threatfox.abuse.ch/browse.php?" + "search=ioc%3A{ip}"
  const Shodan: string := "shodan.io/host/{ip}"
  const VirusTotalFile: string := "virustotal.com/gui/file/{hash}"
  const UrlhausHash: string := "urlhaus.abuse.ch/browse.php?search={hash}"
  const UrlhausUrl: string := "urlhaus.abuse.ch/browse.php?" + "search={encodedUrl}"
  const MxToolbox: string := "mxtoolbox.com/SuperTool.aspx?" + "action=whois%3a{domain}"
  const VirusTotalDomain: string := "virustotal.com/gui/domain/{domain}"

  /** `items.filter(keep)`: the entries `keep` accepts, in their order. */
  function Filter(items: seq<Value>, keep: Value -> bool): (r: seq<Value>)
    ensures |r| <= |items|
    ensures forall v :: v in r <==> v in items && keep(v)
    ensures (forall i :: 0 <= i < |items| ==> keep(items[i])) ==> r == items
  {
    if items == [] then []
    else (if keep(items[0]) then [items[0]] else []) + Filter(items[1..], keep)
  }

  /** Filtering distributes over concatenation, so the entries it keeps stay in order. */
  lemma {:induction false} FilterAppend(a: seq<Value>, b: seq<Value>, keep: Value -> bool)
    ensures Filter(a + b, keep) == Filter(a, keep) + Filter(b, keep)
  {
    if a == [] {
      assert a + b == b;
    } else {
      assert (a + b)[0] == a[0] && (a + b)[1..] == a[1..] + b;
      FilterAppend(a[1..], b, keep);
    }
  }

  /** The value a template field `defaultVal` gets from the user's value `inputVal`. */
  function CleanField(defaultVal: Value, inputVal: Value): Value
    decreases defaultVal, 1
  {
    if defaultVal.Obj? then
      if inputVal.Obj? then Obj(CleanObject(inputVal, defaultVal.fields)) else defaultVal
    else if defaultVal.Arr? then
      if inputVal.Arr? then
        var valid := Filter(inputVal.items, IsValidUrl);
        if |valid| > 0 then Arr(valid) else defaultVal
      else defaultVal
    else if Typeof(defaultVal) == Typeof(inputVal) then inputVal
    else defaultVal
  }

  /** The cleaned object: one entry per template key and no other. */
  function CleanObject(user: Value, template: map<string, Value>): (r: map<string, Value>)
    ensures r.Keys == template.Keys
    decreases Obj(template), 0
  {
    map key | key in template :: CleanField(template[key], Get(user, key))
  }

  /**
   * `cleanPreferences(user, template)`: an `undefined` user object stands for
   * `{}` (it reads as `undefined` everywhere), and a `null` one throws as
   * soon as a template key is looked up in it.
   */
  function Clean(user: Value, template: map<string, Value>): Outcome
  {
    if user.Null? && template.Keys != {} then ThrewTypeError else Returned(CleanObject(user, template))
  }

  /** Builds the result key by key, recursing into nested sections. */
  method CleanPreferences(user: Value, template: map<string, Value>) returns (result: Outcome)
    ensures result == Clean(user, template)
    decreases Obj(template)
  {
    var cleaned: map<string, Value> := map[];
    var todo := template.Keys;
    while todo != {}
      invariant todo <= template.Keys
      invariant cleaned.Keys == template.Keys - todo
      invariant forall k :: k in cleaned ==> cleaned[k] == CleanField(template[k], Get(user, k))
      invariant user.Null? ==> todo == template.Keys
      decreases todo
    {
      var key :| key in todo;
      if user.Null? {
        return ThrewTypeError;
      }
      var defaultVal := template[key];
      var inputVal := Get(user, key);
      var value: Value;
      if defaultVal.Obj? {
        if inputVal.Obj? {
          var sub := CleanPreferences(inputVal, defaultVal.fields);
          value := Obj(sub.value);
        } else {
          value := defaultVal;
        }
      } else if defaultVal.Arr? {
        if inputVal.Arr? {
          var valid := Filter(inputVal.items, IsValidUrl);
          value := if |valid| > 0 then Arr(valid) else defaultVal;
        } else {
          value := defaultVal;
        }
      } else if Typeof(defaultVal) == Typeof(inputVal) {
        value := inputVal;
      } else {
        value := defaultVal;
      }
      assert value == CleanField(defaultVal, inputVal);
      cleaned := cleaned[key := value];
      todo := todo - {key};
    }
    assert cleaned == CleanObject(user, template);
    return Returned(cleaned);
  }

  // ---------------------------------------------------------------------
  // Properties of the specification

  /**
   * `v` has the shape of the template value `d`: the same keys at every
   * level of nesting, an array where `d` has one, and the same `typeof`
   * for every scalar.
   */
  predicate Conforms(v: Value, d: Value)
    decreases d
  {
    match d
    case Obj(df) => v.Obj? && v.fields.Keys == df.Keys && forall k :: k in df ==> Conforms(v.fields[k], df[k])
    case Arr(_) => v.Arr?
    case _ => Typeof(v) == Typeof(d)
  }

  /** Whatever the user supplies, the cleaned value has the template's shape. */
  lemma {:induction false} CleanFieldConforms(d: Value, x: Value)
    ensures Conforms(CleanField(d, x), d)
    decreases d
  {
    match d
    case Obj(df) =>
      forall k | k in df
        ensures Conforms(CleanField(df[k], Get(x, k)), df[k]) && Conforms(CleanField(df[k], Get(d, k)), df[k])
      {
        CleanFieldConforms(df[k], Get(x, k));
        CleanFieldConforms(df[k], Get(d, k));
      }
      SelfConforms(d);
    case Arr(_) =>
    case _ =>
  }

  /** A template value conforms to itself. */
  lemma {:induction false} SelfConforms(d: Value)
    ensures Conforms(d, d)
    decreases d
  {
    match d
    case Obj(df) =>
      forall k | k in df ensures Conforms(df[k], df[k]) { SelfConforms(df[k]); }
    case Arr(_) =>
    case _ =>
  }

  /** An `undefined` user value is treated as `{}`: the result is the template itself. */
  lemma CleanUndefined(template: map<string, Value>)
    ensures Clean(Undefined, template) == Returned(template)
  {
    var r := CleanObject(Undefined, template);
    forall k | k in template ensures r[k] == template[k] {
      assert Get(Undefined, k) == Undefined;
      CleanFieldUndefined(template[k]);
    }
  }

  /** A field the user leaves out takes its default. */
  lemma CleanFieldUndefined(d: Value)
    ensures CleanField(d, Undefined) == d
  {
  }

  /**
   * Keys the user supplies that the template lacks are dropped; every other
   * key comes from the template.
   */
  lemma ExtraKeysDropped(user: Value, template: map<string, Value>, k: string)
    requires user.Obj? && k in user.fields && k !in template
    requires Clean(user, template).Returned?
    ensures k !in Clean(user, template).value
  {
  }

  /** A template field array keeps a non-empty list: the default itself, or only valid entries. */
  lemma CleanedArray(d: Value, x: Value)
    requires d.Arr? && d.items != []
    ensures CleanField(d, x).Arr?
    ensures CleanField(d, x).items != []
    ensures CleanField(d, x) == d || forall i :: 0 <= i < |CleanField(d, x).items| ==> IsValidUrl(CleanField(d, x).items[i])
  {
  }

  /**
   * A template is stable when cleaning cannot change its own arrays: each
   * default list is either entirely valid or has no valid entry at all.
   */
  predicate Stable(d: Value)
    decreases d
  {
    match d
    case Obj(df) => forall k :: k in df ==> Stable(df[k])
    case Arr(ds) => Filter(ds, IsValidUrl) == [] || Filter(ds, IsValidUrl) == ds
    case _ => true
  }

  /** Cleaning a stable template against itself gives it back. */
  lemma {:induction false} CleanSelf(d: Value)
    requires Stable(d)
    ensures CleanField(d, d) == d
    decreases d
  {
    match d
    case Obj(df) =>
      var r := CleanObject(d, df);
      forall k | k in df ensures r[k] == df[k] {
        CleanSelf(df[k]);
      }
    case Arr(_) =>
    case _ =>
  }

  /** Cleaning is idempotent for a stable template. */
  lemma {:induction false} CleanFieldIdempotent(d: Value, x: Value)
    requires Stable(d)
    ensures CleanField(d, CleanField(d, x)) == CleanField(d, x)
    decreases d
  {
    var c := CleanField(d, x);
    match d
    case Obj(df) =>
      if x.Obj? {
        var r := CleanObject(x, df);
        var rr := CleanObject(c, df);
        forall k | k in df ensures rr[k] == r[k] {
          CleanFieldIdempotent(df[k], Get(x, k));
        }
      } else {
        CleanSelf(d);
      }
    case Arr(ds) =>
      if c == d {
        CleanSelf(d);
      }
    case _ =>
  }

  /** `clean(clean(u, T), T) == clean(u, T)` for a stable template. */
  lemma CleanIdempotent(user: Value, template: map<string, Value>)
    requires Stable(Obj(template))
    requires Clean(user, template).Returned?
    ensures Clean(Obj(Clean(user, template).value), template) == Clean(user, template)
  {
    var r := CleanObject(user, template);
    var rr := CleanObject(Obj(r), template);
    forall k | k in template ensures rr[k] == r[k] {
      CleanFieldIdempotent(template[k], Get(user, k));
    }
  }

  // ---------------------------------------------------------------------
  // The default template

  /**
   * None of the default lookup URLs passes the URL validator: each is
   * schemeless and has a path, so it is neither a full URL nor a bare domain.
   */
  lemma DefaultUrlsRejected()
    ensures !IsValidUrl(Str(AbuseIpDb)) && !IsValidUrl(Str(ThreatFox)) && !IsValidUrl(Str(Shodan))
    ensures !IsValidUrl(Str(VirusTotalFile)) && !IsValidUrl(Str(UrlhausHash))
    ensures !IsValidUrl(Str(UrlhausUrl)) && !IsValidUrl(Str(MxToolbox)) && !IsValidUrl(Str(VirusTotalDomain))
  {
    AbuseIpDbRejected();
    ThreatFoxRejected();
    ShodanRejected();
    VirusTotalFileRejected();
    UrlhausHashRejected();
    UrlhausUrlRejected();
    MxToolboxRejected();
    VirusTotalDomainRejected();
  }

  /**
   * A host followed by a `/` path is not a URL unless, in lower case, it
   * starts with `http://` or `https://`.
   */
  lemma HostPathIsNotUrl(host: string, path: string)
    requires host != [] && !IsSpace(host[0]) && !HasHttpPrefix(Lower(host + path))
    requires path != [] && path[0] == '/' && !IsSpace(path[|path| - 1])
    ensures !IsValidUrl(Str(host + path))
  {
    HostPathChars(host, path);
    NoSchemeIsNotUrl(host + path, |host|);
  }

  lemma HostPathChars(host: string, path: string)
    requires host != [] && !IsSpace(host[0])
    requires path != [] && path[0] == '/' && !IsSpace(path[|path| - 1])
    ensures IsTrimmed(host + path) && 0 <= |host| < |host + path|
    ensures !IsLabelChar(LowerChar((host + path)[|host|])) && LowerChar((host + path)[|host|]) != '.'
  {
    var s := host + path;
    assert s[0] == host[0] && s[|s| - 1] == path[|path| - 1] && s[|host|] == '/';
  }

  // Each template: its first character, the `/` that ends its host, its last character.

  lemma AbuseIpDbRejected()
    ensures !IsValidUrl(Str(AbuseIpDb))
  {
    var s := AbuseIpDb;
    assert s[0] == 'a' && s[13] == '/' && s[|s| - 1] == '}';
    SchemelessIsNotUrl(s, 13);
  }

  lemma ThreatFoxRejected()
    ensures !IsValidUrl(Str(ThreatFox))
  {
    var s := ThreatFox;
    assert s[0] == 't' && s[18] == '/' && s[|s| - 1] == '}';
    SchemelessIsNotUrl(s, 18);
  }

  lemma ShodanRejected()
    ensures !IsValidUrl(Str(Shodan))
  {
    var s := Shodan;
    assert s[0] == 's' && s[9] == '/' && s[|s| - 1] == '}';
    SchemelessIsNotUrl(s, 9);
  }

  lemma VirusTotalFileRejected()
    ensures !IsValidUrl(Str(VirusTotalFile))
  {
    var s := VirusTotalFile;
    assert s[0] == 'v' && s[14] == '/' && s[|s| - 1] == '}';
    SchemelessIsNotUrl(s, 14);
  }

  lemma UrlhausHashRejected()
    ensures !IsValidUrl(Str(UrlhausHash))
  {
    var s := UrlhausHash;
    assert s[0] == 'u' && s[16] == '/' && s[|s| - 1] == '}';
    SchemelessIsNotUrl(s, 16);
  }

  lemma UrlhausUrlRejected()
    ensures !IsValidUrl(Str(UrlhausUrl))
  {
    var s := UrlhausUrl;
    assert s[0] == 'u' && s[16] == '/' && s[|s| - 1] == '}';
    SchemelessIsNotUrl(s, 16);
  }

  lemma MxToolboxRejected()
    ensures !IsValidUrl(Str(MxToolbox))
  {
    var s := MxToolbox;
    assert s[0] == 'm' && s[13] == '/' && s[|s| - 1] == '}';
    SchemelessIsNotUrl(s, 13);
  }

  lemma VirusTotalDomainRejected()
    ensures !IsValidUrl(Str(VirusTotalDomain))
  {
    var s := VirusTotalDomain;
    assert s[0] == 'v' && s[14] == '/' && s[|s| - 1] == '}';
    SchemelessIsNotUrl(s, 14);
  }

  /** A list none of whose entries is kept filters to nothing. */
  lemma FilterNone(items: seq<Value>, keep: Value -> bool)
    requires forall i :: 0 <= i < |items| ==> !keep(items[i])
    ensures Filter(items, keep) == []
  {
  }

  /** No default lookup list has a valid entry. */
  lemma DefaultLookupsFiltered()
    ensures Filter(IpLookups, IsValidUrl) == []
    ensures Filter(HashLookups, IsValidUrl) == []
    ensures Filter(UrlLookups, IsValidUrl) == []
  {
    IpLookupsFiltered();
    HashLookupsFiltered();
    UrlLookupsFiltered();
  }

  lemma IpLookupsFiltered()
    ensures Filter(IpLookups, IsValidUrl) == []
  {
    AbuseIpDbRejected();
    ThreatFoxRejected();
    ShodanRejected();
    FilterThreeNone(Str(AbuseIpDb), Str(ThreatFox), Str(Shodan), IsValidUrl);
  }

  lemma HashLookupsFiltered()
    ensures Filter(HashLookups, IsValidUrl) == []
  {
    VirusTotalFileRejected();
    UrlhausHashRejected();
    FilterTwoNone(Str(VirusTotalFile), Str(UrlhausHash), IsValidUrl);
  }

  lemma UrlLookupsFiltered()
    ensures Filter(UrlLookups, IsValidUrl) == []
  {
    UrlhausUrlRejected();
    MxToolboxRejected();
    VirusTotalDomainRejected();
    FilterThreeNone(Str(UrlhausUrl), Str(MxToolbox), Str(VirusTotalDomain), IsValidUrl);
  }

  lemma FilterTwoNone(a: Value, b: Value, keep: Value -> bool)
    requires !keep(a) && !keep(b)
    ensures Filter([a, b], keep) == []
  {
    FilterNone([a, b], keep);
  }

  lemma FilterThreeNone(a: Value, b: Value, c: Value, keep: Value -> bool)
    requires !keep(a) && !keep(b) && !keep(c)
    ensures Filter([a, b, c], keep) == []
  {
    FilterNone([a, b, c], keep);
  }

  /** So cleaning the defaults against themselves changes nothing, and cleaning with them is idempotent. */
  lemma DefaultsStable()
    ensures Stable(Obj(DefaultPreferences))
    ensures CleanField(Obj(DefaultPreferences), Obj(DefaultPreferences)) == Obj(DefaultPreferences)
  {
    SectionsStable();
    assert Stable(Obj(DefaultPreferences));
    CleanSelf(Obj(DefaultPreferences));
  }

  lemma SectionsStable()
    ensures Stable(Obj(IpDefaults)) && Stable(Obj(HashDefaults)) && Stable(Obj(UrlDefaults))
  {
    IpDefaultsStable();
    HashDefaultsStable();
    UrlDefaultsStable();
  }

  lemma IpDefaultsStable()
    ensures Stable(Obj(IpDefaults))
  {
    assert IpDefaults["urls"] == Arr(IpLookups);
    assert forall k :: k in IpDefaults && k != "urls" ==> IpDefaults[k].Bool?;
    IpLookupsFiltered();
    SectionStable(IpDefaults);
  }

  lemma HashDefaultsStable()
    ensures Stable(Obj(HashDefaults))
  {
    assert HashDefaults["urls"] == Arr(HashLookups);
    assert forall k :: k in HashDefaults && k != "urls" ==> HashDefaults[k].Bool?;
    HashLookupsFiltered();
    SectionStable(HashDefaults);
  }

  lemma UrlDefaultsStable()
    ensures Stable(Obj(UrlDefaults))
  {
    assert UrlDefaults["urls"] == Arr(UrlLookups);
    assert forall k :: k in UrlDefaults && k != "urls" ==> UrlDefaults[k].Bool?;
    UrlLookupsFiltered();
    SectionStable(UrlDefaults);
  }

  /** A section whose only array has no valid entry is stable. */
  lemma SectionStable(section: map<string, Value>)
    requires forall k :: k in section && k != "urls" ==> section[k].Bool?
    requires "urls" in section && section["urls"].Arr? && Filter(section["urls"].items, IsValidUrl) == []
    ensures Stable(Obj(section))
  {
  }

  /** Every section of the defaults has the flags and a non-empty list of lookup URL templates. */
  lemma DefaultSections()
    ensures DefaultPreferences.Keys == {"ip", "hash", "url"}
    ensures forall k :: k in DefaultPreferences ==> Section(DefaultPreferences[k])
  {
  }

  /** A section: `active` and `copyToClipboard` flags, and a non-empty list of strings under `urls`. */
  predicate Section(v: Value)
  {
    v.Obj? && "active" in v.fields && v.fields["active"].Bool? &&
    "copyToClipboard" in v.fields && v.fields["copyToClipboard"].Bool? &&
    "urls" in v.fields && v.fields["urls"].Arr? && v.fields["urls"].items != [] &&
    forall i :: 0 <= i < |v.fields["urls"].items| ==> v.fields["urls"].items[i].Str?
  }

  /** A stored value that is not an array, or an array with no valid entry, gives way to the default list. */
  lemma InvalidListRestored(d: Value, x: Value)
    requires d.Arr? && (!x.Arr? || Filter(x.items, IsValidUrl) == [])
    ensures CleanField(d, x) == d
  {
  }

  /** The stored list `["not a url", "also bad"]` under `urls` is replaced by the default lookups. */
  lemma BadListRestored()
    ensures CleanObject(Obj(map["urls" := Arr(BadList)]), IpDefaults)["urls"] == Arr(IpLookups)
  {
    var user := Obj(map["urls" := Arr(BadList)]);
    BadListFiltered();
    assert Get(user, "urls") == Arr(BadList);
    assert IpDefaults["urls"] == Arr(IpLookups);
    InvalidListRestored(Arr(IpLookups), Arr(BadList));
  }

  /**
   * Whatever a non-null stored object holds, every cleaned section has a
   * non-empty `urls` list, so the context menu always has a lookup to open.
   */
  lemma CleanedUrlsNonEmpty(user: Value, s: string)
    requires !user.Null? && s in DefaultPreferences
    ensures Clean(user, DefaultPreferences).Returned?
    ensures var c := Clean(user, DefaultPreferences).value[s];
      c.Obj? && "urls" in c.fields && c.fields["urls"].Arr? && c.fields["urls"].items != []
  {
    DefaultSections();
    var d := DefaultPreferences[s];
    var c := CleanField(d, Get(user, s));
    assert Clean(user, DefaultPreferences).value[s] == c;
    if Get(user, s).Obj? {
      var u := Get(user, s);
      assert c.fields == CleanObject(u, d.fields);
      assert c.fields["urls"] == CleanField(d.fields["urls"], Get(u, "urls"));
      CleanedArray(d.fields["urls"], Get(u, "urls"));
    } else {
      assert c == d;
    }
  }

  /** A stored list of two entries that are not URLs. */
  const BadList: seq<Value> := [Str(NotAUrl), Str(AlsoBad)]
  const NotAUrl: string := "not a url"
  const AlsoBad: string := "also bad"

  lemma BadListFiltered()
    ensures Filter(BadList, IsValidUrl) == []
  {
    NotAUrlRejected();
    AlsoBadRejected();
    FilterTwoNone(Str(NotAUrl), Str(AlsoBad), IsValidUrl);
  }

  lemma NotAUrlRejected()
    ensures !IsValidUrl(Str(NotAUrl))
  {
    var s := NotAUrl;
    assert s[0] == 'n' && s[3] == ' ' && s[|s| - 1] == 'l';
    SchemelessIsNotUrl(s, 3);
  }

  lemma AlsoBadRejected()
    ensures !IsValidUrl(Str(AlsoBad))
  {
    var s := AlsoBad;
    assert s[0] == 'a' && s[4] == ' ' && s[|s| - 1] == 'd';
    SchemelessIsNotUrl(s, 4);
  }

  /** A flag stored as a string gives way to the boolean default; one stored as a boolean is kept. */
  lemma FlagSamples()
    ensures CleanObject(Obj(map["active" := Str("yes")]), IpDefaults)["active"] == Bool(true)
    ensures CleanObject(Obj(map["active" := Bool(false)]), IpDefaults)["active"] == Bool(false)
  {
    assert IpDefaults["active"] == Bool(true);
    assert Get(Obj(map["active" := Str("yes")]), "active") == Str("yes");
    assert Get(Obj(map["active" := Bool(false)]), "active") == Bool(false);
  }
}
