/** The memo tables of the geo matcher (ruleset/builtins/geo/geo_matcher.go). */
module GeoMemo {
  import opened Bytes
  import opened Cidr
  import opened GeoIp
  import opened GeoLists

  // The library and the databases: lower-casing, sorting, address parsing, and loaders that always
  // return the same maps (None when loading fails; a nil list is None).
  datatype World<!Site, !SiteMatcher> = World(
    lower: string -> string,
    trim: string -> string,
    sort: seq<Block> -> seq<Block>,
    parseIP: string -> Option<IP>,
    geoIP: Option<map<string, Option<IpList>>>,
    geoSite: Option<map<string, Option<Site>>>,
    newSiteMatcher: (Site, seq<string>) -> Option<SiteMatcher>,
    siteMatches: (SiteMatcher, string) -> bool)
  {
    // Lower-casing twice is lower-casing once; sorting sorts; parsed addresses have sixteen bytes.
    ghost predicate Wf() {
      && (forall s :: lower(lower(s)) == lower(s))
      && Sorts(sort)
      && (forall s :: parseIP(s).Some? ==> |parseIP(s).value| == 16)
    }

    // ---- Uncached evaluation ----

    function IpMatcher(country: string): Option<Matcher> {
      if country == "" || geoIP.None? || country !in geoIP.value || geoIP.value[country].None? then None
      else NewMatcher(sort, geoIP.value[country].value)
    }

    predicate AskIp(m: Matcher, ip: string) {
      match parseIP(ip)
      case None => false
      case Some(a) =>
        if To4(a).Some? then Match(m, HostInfo(To4(a), None, ""))
        else Match(m, HostInfo(None, Some(a), ""))
    }

    predicate GeoIpAnswer(ip: string, condition: string) {
      match IpMatcher(lower(condition))
      case None => false
      case Some(m) => AskIp(m, ip)
    }

    function SiteName(s: string): (string, seq<string>) {
      var parts := SplitAt(s);
      (trim(parts[0]), Trimmed(parts[1..]))
    }

    function Trimmed(parts: seq<string>): (r: seq<string>)
      ensures |r| == |parts| && forall i :: 0 <= i < |r| ==> r[i] == trim(parts[i])
    {
      seq(|parts|, i requires 0 <= i < |parts| => trim(parts[i]))
    }

    function SiteMatcherFor(condition: string): Option<SiteMatcher> {
      var (name, attrs) := SiteName(condition);
      if name == "" || geoSite.None? || name !in geoSite.value || geoSite.value[name].None? then None
      else newSiteMatcher(geoSite.value[name].value, attrs)
    }

    predicate GeoSiteAnswer(site: string, condition: string) {
      match SiteMatcherFor(lower(condition))
      case None => false
      case Some(m) => siteMatches(m, site)
    }
  }

  // strings.Split at '@'.
  function SplitAt(s: string): (parts: seq<string>)
    ensures |parts| > 0
  {
    if s == "" then [""]
    else
      var rest := SplitAt(s[1..]);
      if s[0] == '@' then [""] + rest else [[s[0]] + rest[0]] + rest[1..]
  }

  function JoinAt(parts: seq<string>): string
    requires |parts| > 0
  {
    if |parts| == 1 then parts[0] else parts[0] + "@" + JoinAt(parts[1..])
  }

  // Splitting loses nothing and leaves no separator behind.
  lemma {:induction false} SplitAtJoins(s: string)
    ensures JoinAt(SplitAt(s)) == s
    ensures forall p :: p in SplitAt(s) ==> '@' !in p
  {
    if s != "" {
      var rest := SplitAt(s[1..]);
      SplitAtJoins(s[1..]);
      assert s == [s[0]] + s[1..];
      if s[0] == '@' {
        assert ([""] + rest)[1..] == rest;
      } else {
        var parts := [[s[0]] + rest[0]] + rest[1..];
        assert parts[1..] == rest[1..];
        if |rest| > 1 {
          assert [s[0]] + (rest[0] + "@" + JoinAt(rest[1..])) == [s[0]] + rest[0] + "@" + JoinAt(rest[1..]);
        }
      }
    }
  }

  // No part holds the separator.
  predicate Plain(parts: seq<string>) { forall p :: p in parts ==> '@' !in p }

  lemma {:induction false} SplitAtFront(p: string, s: string)
    requires '@' !in p
    ensures SplitAt(p + "@" + s) == [p] + SplitAt(s) && SplitAt(p) == [p]
  {
    if p == "" {
      assert p + "@" + s == "@" + s && ("@" + s)[1..] == s;
    } else {
      assert (p + "@" + s)[1..] == p[1..] + "@" + s && (p + "@" + s)[0] == p[0];
      SplitAtFront(p[1..], s);
      assert p == [p[0]] + p[1..];
    }
  }

  // Joined parts are split into the same parts, all of them in order.
  lemma {:induction false} SplitAtParts(parts: seq<string>)
    requires |parts| > 0 && Plain(parts)
    ensures SplitAt(JoinAt(parts)) == parts
  {
    if |parts| == 1 {
      SplitAtFront(parts[0], "");
    } else {
      SplitAtParts(parts[1..]);
      SplitAtFront(parts[0], JoinAt(parts[1..]));
      assert parts == [parts[0]] + parts[1..];
    }
  }

  class GeoMatcher<Site, SiteMatcher> {
    const w: World<Site, SiteMatcher>
    var geoSiteMatcher: map<string, SiteMatcher>
    var geoIpMatcher: map<string, Matcher>

    // Every entry is under its own lower-case key and is what evaluation without the table
    // would use.
    ghost predicate Valid()
      reads this
    {
      && w.Wf()
      && (forall c :: c in geoIpMatcher ==> w.lower(c) == c && w.IpMatcher(c) == Some(geoIpMatcher[c]))
      && (forall c :: c in geoSiteMatcher ==> w.lower(c) == c && w.SiteMatcherFor(c) == Some(geoSiteMatcher[c]))
    }

    constructor (w: World<Site, SiteMatcher>)
      requires w.Wf()
      ensures Valid() && this.w == w && geoIpMatcher == map[] && geoSiteMatcher == map[]
    {
      this.w := w;
      geoSiteMatcher := map[];
      geoIpMatcher := map[];
    }

    // MatchGeoIp answers as an evaluation without the table, whatever was asked before.
    method MatchGeoIp(ip: string, condition0: string) returns (r: bool)
      requires Valid()
      modifies this`geoIpMatcher
      ensures Valid() && r == w.GeoIpAnswer(ip, condition0)
      ensures old(geoIpMatcher).Keys <= geoIpMatcher.Keys <= old(geoIpMatcher).Keys + {w.lower(condition0)}
    {
      var matcher: Matcher;
      if condition0 in geoIpMatcher {
        matcher := geoIpMatcher[condition0];
      } else {
        var condition := w.lower(condition0);
        var country := condition;
        if |country| == 0 { return false; }
        if w.geoIP.None? { return false; }
        if country !in w.geoIP.value { return false; }
        var list := w.geoIP.value[country];
        if list.None? { return false; }
        var built := NewGeoIPMatcher(w.sort, list.value);
        if built.None? { return false; }
        matcher := built.value;
        geoIpMatcher := geoIpMatcher[condition := matcher];
      }
      var parseIp := w.parseIP(ip);
      if parseIp.None? { return false; }
      if To4(parseIp.value).Some? {
        return Match(matcher, HostInfo(To4(parseIp.value), None, ""));
      }
      return Match(matcher, HostInfo(None, parseIp, ""));
    }

    // The loop that trims the attributes.
    method ParseGeoSiteName(s: string) returns (name: string, attrs: seq<string>)
      ensures (name, attrs) == w.SiteName(s)
      ensures forall parts :: |parts| > 0 && Plain(parts) && JoinAt(parts) == s ==>
                && name == w.trim(parts[0]) && |attrs| == |parts| - 1
                && forall i :: 0 <= i < |attrs| ==> attrs[i] == w.trim(parts[i + 1])
    {
      forall ps | |ps| > 0 && Plain(ps) && JoinAt(ps) == s ensures SplitAt(s) == ps {
        SplitAtParts(ps);
      }
      var parts := SplitAt(s);
      name := w.trim(parts[0]);
      attrs := parts[1..];
      for i := 0 to |attrs|
        invariant |attrs| == |parts| - 1
        invariant forall k :: 0 <= k < i ==> attrs[k] == w.trim(parts[1..][k])
        invariant forall k :: i <= k < |attrs| ==> attrs[k] == parts[1..][k]
      {
        attrs := attrs[i := w.trim(attrs[i])];
      }
      assert attrs == w.Trimmed(parts[1..]);
    }

    method MatchGeoSite(site: string, condition0: string) returns (r: bool)
      requires Valid()
      modifies this`geoSiteMatcher
      ensures Valid() && r == w.GeoSiteAnswer(site, condition0)
      ensures old(geoSiteMatcher).Keys <= geoSiteMatcher.Keys <= old(geoSiteMatcher).Keys + {w.lower(condition0)}
    {
      var matcher: SiteMatcher;
      if condition0 in geoSiteMatcher {
        matcher := geoSiteMatcher[condition0];
      } else {
        var condition := w.lower(condition0);
        var name, attrs := ParseGeoSiteName(condition);
        if |name| == 0 { return false; }
        if w.geoSite.None? { return false; }
        if name !in w.geoSite.value { return false; }
        var list := w.geoSite.value[name];
        if list.None? { return false; }
        var built := w.newSiteMatcher(list.value, attrs);
        if built.None? { return false; }
        matcher := built.value;
        geoSiteMatcher := geoSiteMatcher[condition := matcher];
      }
      return w.siteMatches(matcher, site);
    }
  }

  // When the country's networks pass the check, the answer is membership in the country's list.
  lemma {:induction false} GeoIpAnswerMeans<Site(!new), SiteMatcher(!new)>(
      w: World<Site, SiteMatcher>, ip: string, condition: string, list: IpList)
    requires w.Wf() && w.lower(condition) != "" && w.geoIP.Some? && w.lower(condition) in w.geoIP.value
    requires w.geoIP.value[w.lower(condition)] == Some(list) && GoodList(list.cidrs)
    ensures w.GeoIpAnswer(ip, condition) <==>
              w.parseIP(ip).Some? && list.inverse != Listed(list.cidrs, w.parseIP(ip).value)
  {
    hide GoodList, Match, Contains, NewMatcher;
    if w.parseIP(ip).Some? {
      var a := w.parseIP(ip).value;
      var host := if To4(a).Some? then HostInfo(To4(a), None, "") else HostInfo(None, Some(a), "");
      MatchMeansListed(w.sort, list, host);
      if To4(a).Some? {
        SameForm(list.cidrs, a);
      }
    } else {
      MatchMeansListed(w.sort, list, HostInfo(None, None, ""));
    }
  }

  lemma {:induction false} SameForm(cidrs: seq<Block>, a: IP)
    requires To4(a).Some?
    ensures Listed(cidrs, To4(a).value) <==> Listed(cidrs, a)
  {
    forall b ensures Contains(b, To4(a).value) == Contains(b, a) {
    }
  }

  // A condition of a name and attributes, joined by @: the site is matched by what is made of the
  // list of that name and of all these attributes, in order, and of nothing else; without such a
  // list nothing matches.
  lemma {:induction false} GeoSiteAnswerMeans<Site(!new), SiteMatcher(!new)>(
      w: World<Site, SiteMatcher>, site: string, condition: string, name: string, attrs: seq<string>)
    requires Plain([name] + attrs) && w.lower(condition) == JoinAt([name] + attrs)
    ensures var trimmed := seq(|attrs|, i requires 0 <= i < |attrs| => w.trim(attrs[i]));
            w.GeoSiteAnswer(site, condition) <==>
              && w.trim(name) != "" && w.geoSite.Some?
              && w.trim(name) in w.geoSite.value && w.geoSite.value[w.trim(name)].Some?
              && w.newSiteMatcher(w.geoSite.value[w.trim(name)].value, trimmed).Some?
              && w.siteMatches(w.newSiteMatcher(w.geoSite.value[w.trim(name)].value, trimmed).value, site)
  {
    SplitAtParts([name] + attrs);
    assert ([name] + attrs)[1..] == attrs;
    assert w.Trimmed(attrs) == seq(|attrs|, i requires 0 <= i < |attrs| => w.trim(attrs[i]));
  }

  // Without a valid list of the country, or for what is no address, nothing matches.
  lemma {:induction false} GeoIpAnswerOnly<Site(!new), SiteMatcher(!new)>(
      w: World<Site, SiteMatcher>, ip: string, condition: string)
    requires w.GeoIpAnswer(ip, condition)
    ensures w.parseIP(ip).Some? && w.lower(condition) != "" && w.geoIP.Some? && w.lower(condition) in w.geoIP.value
    ensures w.geoIP.value[w.lower(condition)].Some? && LengthsValid(w.geoIP.value[w.lower(condition)].value.cidrs)
  {
  }
}
