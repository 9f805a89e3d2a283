/**
 * The backend router and proxy of the stores service: which upstream a raw
 * request goes to (override header, OAuth path, the "ax" source, or the
 * default backend), the URI it is sent to, the headers it carries, and how
 * the upstream's events settle the promise `handleRequest` returns.
 */
module ExternalRequest {
  import opened Options
  import opened Dicts
  import opened Strings
  import opened JsValues
  import opened Promises
  import Json

  // ---------------------------------------------------------------------
  // Configuration and routes

  /** The backends and defaults the configuration names. */
  datatype Servers = Servers(
    jervPayexProxy: string,
    ngtDefault: string,
    ngtOauth: string,
    clickAndCollect: string,
    polldaddy: string,
    zoopit: string,
    ngtOldAxapta: string,
    elastic: string,
    /** `DEFAULT_SOURCE`. */
    defaultSource: JsValue,
    /** `REJECT_INVALID_NGT_SSL_CERT`. */
    rejectInvalidCert: JsValue)

  /** The authorization class of a backend: "OAuth", "C&C", "NGT" or "External". */
  datatype AuthorizationType = OAuth | ClickAndCollect | Ngt | External

  /** A resolved route: the server, and how requests to it are authorized. */
  datatype ServerInfo = ServerInfo(serverName: JsValue, authorizationType: AuthorizationType)

  const TargetHeader: string := "x-target-server"

  /** The backend an override header names: five known names, anything else passed through verbatim. */
  function OverrideTarget(servers: Servers, name: JsValue): (info: ServerInfo)
    ensures info.authorizationType == ClickAndCollect <==> name == Str("click & collect")
    ensures info.authorizationType != ClickAndCollect ==> info.authorizationType == External
  {
    if name == Str("click & collect") then ServerInfo(Str(servers.clickAndCollect), ClickAndCollect)
    else if name == Str("polldaddy") then ServerInfo(Str(servers.polldaddy), External)
    else if name == Str("zoopit") then ServerInfo(Str(servers.zoopit), External)
    else if name == Str("elastic") then ServerInfo(Str(servers.elastic), External)
    else if name == Str("jerv payex proxy") then ServerInfo(Str(servers.jervPayexProxy), External)
    else ServerInfo(name, External)
  }

  /** The five known header values reach their configured servers. */
  lemma KnownTargets(servers: Servers)
    ensures OverrideTarget(servers, Str("click & collect")) == ServerInfo(Str(servers.clickAndCollect), ClickAndCollect)
    ensures OverrideTarget(servers, Str("polldaddy")) == ServerInfo(Str(servers.polldaddy), External)
    ensures OverrideTarget(servers, Str("zoopit")) == ServerInfo(Str(servers.zoopit), External)
    ensures OverrideTarget(servers, Str("elastic")) == ServerInfo(Str(servers.elastic), External)
    ensures OverrideTarget(servers, Str("jerv payex proxy")) == ServerInfo(Str(servers.jervPayexProxy), External)
  {
  }

  /** Any other header value is itself the server name, with the "External" class. */
  lemma UnknownTargetVerbatim(servers: Servers, name: JsValue)
    requires name !in {Str("click & collect"), Str("polldaddy"), Str("zoopit"), Str("elastic"), Str("jerv payex proxy")}
    ensures OverrideTarget(servers, name) == ServerInfo(name, External)
  {
  }

  /**
   * `getSource`: the query's `source`, else the default source, else "",
   * lower-cased. `None` where the chosen value is not a string, so that
   * `toLowerCase` throws a TypeError.
   */
  function GetSource(servers: Servers, query: JsValue): (r: Option<string>)
    ensures Truthy(query) && At(query, "source").Str? && Truthy(At(query, "source")) ==>
      r == Some(Lower(At(query, "source").s))
    ensures !(Truthy(query) && Truthy(At(query, "source"))) && servers.defaultSource.Str? && Truthy(servers.defaultSource) ==>
      r == Some(Lower(servers.defaultSource.s))
    ensures !(Truthy(query) && Truthy(At(query, "source"))) && !Truthy(servers.defaultSource) ==> r == Some("")
    ensures Truthy(query) && Truthy(At(query, "source")) && !At(query, "source").Str? ==> r.None?
    ensures (!(Truthy(query) && Truthy(At(query, "source"))) && Truthy(servers.defaultSource) &&
      !servers.defaultSource.Str?) ==> r.None?
  {
    var fromQuery := if Truthy(query) then At(query, "source") else query;
    var chosen := Or(Or(fromQuery, servers.defaultSource), Str(""));
    if chosen.Str? then Some(Lower(chosen.s)) else None
  }

  /** "/oauth", in any letter case, starts at position `i` of the URL. */
  predicate OauthAt(url: string, i: int) {
    0 <= i && i + 6 <= |url| && Lower(url[i..i + 6]) == "/oauth"
  }

  /** `url.toLowerCase().includes("/oauth")`: "/oauth" in any letter case, anywhere in the URL. */
  predicate IsOauthRequest(url: string)
    ensures IsOauthRequest(url) <==> exists i :: OauthAt(url, i)
  {
    OauthAnyCase(url);
    Includes(Lower(url), "/oauth")
  }

  lemma OauthAnyCase(url: string)
    ensures Includes(Lower(url), "/oauth") <==> exists i :: OauthAt(url, i)
  {
    IncludesAt(Lower(url), "/oauth");
    forall i | 0 <= i && i + 6 <= |url|
      ensures OccursAt(Lower(url), "/oauth", i) <==> OauthAt(url, i)
    {
      assert Lower(url)[i..i + 6] == Lower(url[i..i + 6]);
    }
  }

  /**
   * `getServerInfo` on a request: the route, and the headers afterwards
   * (a truthy override header is consumed). `None` where `getSource`
   * throws, which happens before the headers are looked at.
   */
  function RouteOf(servers: Servers, url: string, query: JsValue, headers: Dict<JsValue>): (r: Option<(ServerInfo, Dict<JsValue>)>)
    ensures r.None? <==> GetSource(servers, query).None?
    ensures r.Some? && !Truthy(Member(headers, TargetHeader)) ==> r.value.1 == headers
  {
    var source := GetSource(servers, query);
    if source.None? then None
    else
      var target := Member(headers, TargetHeader);
      if Truthy(target) then Some((OverrideTarget(servers, target), Remove(headers, TargetHeader)))
      else if IsOauthRequest(url) then Some((ServerInfo(Str(servers.ngtOauth), OAuth), headers))
      else if source.value == "ax" then Some((ServerInfo(Str(servers.ngtOldAxapta), External), headers))
      else Some((ServerInfo(Str(servers.ngtDefault), Ngt), headers))
  }

  /**
   * The override header is obeyed whatever the path and the source say, and
   * it is not forwarded: it is gone from the headers, which otherwise read as before.
   */
  lemma OverrideTakesPrecedence(servers: Servers, url: string, query: JsValue, headers: Dict<JsValue>, k: string)
    requires GetSource(servers, query).Some? && Truthy(Member(headers, TargetHeader))
    ensures RouteOf(servers, url, query, headers).Some?
    ensures RouteOf(servers, url, query, headers).value.0 == OverrideTarget(servers, Member(headers, TargetHeader))
    ensures TargetHeader !in Keys(RouteOf(servers, url, query, headers).value.1)
    ensures k != TargetHeader ==> Member(RouteOf(servers, url, query, headers).value.1, k) == Member(headers, k)
  {
    MemberRemove(headers, TargetHeader, k);
  }

  /** Without the header, an OAuth path goes to the OAuth server, whatever the source. */
  lemma OauthBeforeSource(servers: Servers, url: string, query: JsValue, headers: Dict<JsValue>)
    requires GetSource(servers, query).Some? && !Truthy(Member(headers, TargetHeader))
    requires IsOauthRequest(url)
    ensures RouteOf(servers, url, query, headers) == Some((ServerInfo(Str(servers.ngtOauth), OAuth), headers))
  {
  }

  /** Otherwise the source "ax" goes to the old Axapta server and everything else to the default backend. */
  lemma SourceOrDefault(servers: Servers, url: string, query: JsValue, headers: Dict<JsValue>)
    requires GetSource(servers, query).Some? && !Truthy(Member(headers, TargetHeader))
    requires !IsOauthRequest(url)
    ensures GetSource(servers, query).value == "ax" ==>
      RouteOf(servers, url, query, headers) == Some((ServerInfo(Str(servers.ngtOldAxapta), External), headers))
    ensures GetSource(servers, query).value != "ax" ==>
      RouteOf(servers, url, query, headers) == Some((ServerInfo(Str(servers.ngtDefault), Ngt), headers))
  {
  }

  /**
   * `doPatch`: the source is "crm" and the lower-cased `format` (or "") is
   * not. `None` where the source throws, where the query is missing when
   * `format` is read, or where `format` is not a string.
   */
  function DoPatch(servers: Servers, query: JsValue): (r: Option<bool>)
    ensures GetSource(servers, query).Some? && GetSource(servers, query).value != "crm" ==> r == Some(false)
    ensures r == Some(true) <==>
      GetSource(servers, query) == Some("crm") && !IsNil(query) &&
      Or(At(query, "format"), Str("")).Str? && Lower(Or(At(query, "format"), Str("")).s) != "crm"
  {
    var source := GetSource(servers, query);
    if source.None? then None
    else if source.value != "crm" then Some(false)
    else if IsNil(query) then None
    else
      var format := Or(At(query, "format"), Str(""));
      if format.Str? then Some(Lower(format.s) != "crm") else None
  }

  // ---------------------------------------------------------------------
  // The URI: the regex /(format|source)[^&]+&?/gi, then /\?$/

  /** The length of the run of characters before the first '&' (the `[^&]+` part, taken greedily). */
  function NonAmpRun(s: string): (n: nat)
    ensures n <= |s|
    ensures forall k :: 0 <= k < n ==> s[k] != '&'
    ensures n < |s| ==> s[n] == '&'
  {
    if |s| == 0 || s[0] == '&' then 0 else 1 + NonAmpRun(s[1..])
  }

  /** "format" or "source", compared without regard to (ASCII) case, as the `i` flag does. */
  predicate IsParamName(w: string) {
    Lower(w) == "format" || Lower(w) == "source"
  }

  /** The regex matches at the start of `s`: a name followed by at least one character other than '&'. */
  predicate MatchAt(s: string) {
    |s| > 6 && s[6] != '&' && IsParamName(s[..6])
  }

  /** Where a match at the start of `s` ends: the name, the run, and a following '&' if there is one. */
  function MatchEnd(s: string): (e: nat)
    requires MatchAt(s)
    ensures 6 < e <= |s|
  {
    var n := 6 + NonAmpRun(s[6..]);
    if n < |s| then n + 1 else n
  }

  /** The global replace: scanning left to right, every match is cut out and the scan resumes after it. */
  function StripParams(s: string): (r: string)
    ensures |r| <= |s|
    decreases |s|
  {
    if |s| == 0 then ""
    else if MatchAt(s) then StripParams(s[MatchEnd(s)..])
    else [s[0]] + StripParams(s[1..])
  }

  /** `.replace(/\?$/, "")`: one trailing '?' goes. */
  function TrimQuestion(s: string): (r: string)
    ensures |s| > 0 && s[|s| - 1] == '?' ==> r == s[..|s| - 1]
    ensures !(|s| > 0 && s[|s| - 1] == '?') ==> r == s
  {
    if |s| > 0 && s[|s| - 1] == '?' then s[..|s| - 1] else s
  }

  /** The path part of `createUri`. */
  function CreateUriPath(url: string): (r: string)
    ensures |r| <= |url|
  {
    TrimQuestion(StripParams(url))
  }

  /** A first character that cannot start "format" or "source" rules out a match. */
  lemma NoMatchByFirst(s: string)
    requires |s| > 0 && LowerChar(s[0]) != 'f' && LowerChar(s[0]) != 's'
    ensures !MatchAt(s)
  {
    if |s| > 6 {
      assert Lower(s[..6])[0] == LowerChar(s[0]);
    }
  }

  /** Where no match starts, the first character is kept. */
  lemma KeepFirst(s: string)
    requires |s| > 0 && !MatchAt(s)
    ensures StripParams(s) == [s[0]] + StripParams(s[1..])
  {
  }

  /** A string in which neither name occurs (in any case) passes through unchanged. */
  lemma {:induction false} NoNamesUnchanged(s: string)
    requires forall i :: 0 <= i < |s| ==> LowerChar(s[i]) != 'f' && LowerChar(s[i]) != 's'
    ensures StripParams(s) == s
    decreases |s|
  {
    if |s| > 0 {
      NoMatchByFirst(s);
      KeepFirst(s);
      NoNamesUnchanged(s[1..]);
      assert [s[0]] + s[1..] == s;
    }
  }

  /** Cutting one parameter whose run ends in '&': the scan resumes right after the '&'. */
  lemma CutParam(name: string, value: string, rest: string)
    requires |name| == 6 && IsParamName(name) && |value| > 0 && '&' !in value
    ensures StripParams(name + (value + ("&" + rest))) == StripParams(rest)
  {
    var s := name + (value + ("&" + rest));
    MatchOfParam(name, value + ("&" + rest));
    RunOf(value, "&" + rest);
    assert MatchEnd(s) == 7 + |value|;
    assert s[7 + |value|..] == rest;
    CutFirst(s);
  }

  /** Where a match starts, it is cut out and the scan resumes after it. */
  lemma CutFirst(s: string)
    requires MatchAt(s)
    ensures StripParams(s) == StripParams(s[MatchEnd(s)..])
  {
  }

  /** A name followed by a run that does not start with '&' is a match. */
  lemma MatchOfParam(name: string, tail: string)
    requires |name| == 6 && IsParamName(name) && |tail| > 0 && tail[0] != '&'
    ensures MatchAt(name + tail) && (name + tail)[6..] == tail
  {
    assert (name + tail)[..6] == name;
  }

  /** The greedy run over `value` stops at the '&' that follows it. */
  lemma {:induction false} RunOf(value: string, rest: string)
    requires '&' !in value && |rest| > 0 && rest[0] == '&'
    ensures NonAmpRun(value + rest) == |value|
  {
    if |value| > 0 {
      assert (value + rest)[1..] == value[1..] + rest;
      RunOf(value[1..], rest);
    } else {
      assert value + rest == rest;
    }
  }

  /** Kept characters are glued in front of what the rest strips to. */
  lemma {:induction false} KeepPrefix(p: string, rest: string)
    requires forall i :: 0 <= i < |p| ==> LowerChar(p[i]) != 'f' && LowerChar(p[i]) != 's'
    ensures StripParams(p + rest) == p + StripParams(rest)
    decreases |p|
  {
    if |p| > 0 {
      assert (p + rest)[0] == p[0];
      NoMatchByFirst(p + rest);
      KeepFirst(p + rest);
      assert (p + rest)[1..] == p[1..] + rest;
      KeepPrefix(p[1..], rest);
      assert [p[0]] + (p[1..] + StripParams(rest)) == p + StripParams(rest);
    } else {
      assert p + rest == rest;
    }
  }

  /** Strings of at most six characters cannot hold a match and pass through unchanged. */
  lemma {:induction false} ShortUnchanged(s: string)
    requires |s| <= 6
    ensures StripParams(s) == s
    decreases |s|
  {
    if |s| > 0 {
      KeepFirst(s);
      ShortUnchanged(s[1..]);
      assert [s[0]] + s[1..] == s;
    }
  }

  /** One parameter after a kept prefix is cut out together with its '&'. */
  lemma StripOne(path: string, name: string, value: string, rest: string)
    requires forall i :: 0 <= i < |path| ==> LowerChar(path[i]) != 'f' && LowerChar(path[i]) != 's'
    requires |name| == 6 && IsParamName(name) && |value| > 0 && '&' !in value
    ensures StripParams(path + (name + (value + ("&" + rest)))) == path + StripParams(rest)
  {
    KeepPrefix(path, name + (value + ("&" + rest)));
    CutParam(name, value, rest);
  }

  /** The greedy run takes a whole '&'-free string. */
  lemma {:induction false} RunToEnd(value: string)
    requires '&' !in value
    ensures NonAmpRun(value) == |value|
  {
    if |value| > 0 {
      RunToEnd(value[1..]);
    }
  }

  /** A last parameter, with no '&' after it, leaves nothing behind. */
  lemma CutLast(name: string, value: string)
    requires |name| == 6 && IsParamName(name) && |value| > 0 && '&' !in value
    ensures StripParams(name + value) == ""
  {
    var s := name + value;
    assert s[..6] == name && s[6..] == value;
    RunToEnd(value);
    assert s[|s|..] == "";
  }

  /**
   * The documented example, "/api/x?format=json&source=crm&foo=1" becoming
   * "/api/x?foo=1", for any path free of both names and any values: both
   * parameters go with their '&', and a short last parameter stays.
   */
  lemma CreateUriExample(path: string, v1: string, v2: string, last: string)
    requires forall i :: 0 <= i < |path| ==> LowerChar(path[i]) != 'f' && LowerChar(path[i]) != 's'
    requires |v1| > 0 && '&' !in v1 && |v2| > 0 && '&' !in v2
    requires 0 < |last| <= 6 && last[|last| - 1] != '?'
    ensures CreateUriPath(path + "format" + v1 + "&" + "source" + v2 + "&" + last) == path + last
  {
    var r2 := "source" + (v2 + ("&" + last));
    ParamNames();
    assert path + "format" + v1 + "&" + "source" + v2 + "&" + last == path + ("format" + (v1 + ("&" + r2)));
    StripOne(path, "format", v1, r2);
    CutParam("source", v2, last);
    ShortUnchanged(last);
    assert (path + last)[|path + last| - 1] == last[|last| - 1];
  }

  /**
   * The pattern is not tied to the query: a path segment that contains
   * "source" loses everything from there on. With `p` = "/api/re" and
   * `rest` = "s/1", the path "/api/resources/1" becomes "/api/re".
   */
  lemma StripCutsPath(p: string, rest: string)
    requires forall i :: 0 <= i < |p| ==> LowerChar(p[i]) != 'f' && LowerChar(p[i]) != 's'
    requires |p| > 0 && p[|p| - 1] != '?' && |rest| > 0 && '&' !in rest
    ensures CreateUriPath(p + "source" + rest) == p
  {
    ParamNames();
    assert p + "source" + rest == p + ("source" + rest);
    StripToEnd(p, "source", rest);
  }

  /** A prefix free of both names, then a parameter running to the end: only the prefix is left. */
  lemma StripToEnd(p: string, name: string, value: string)
    requires forall i :: 0 <= i < |p| ==> LowerChar(p[i]) != 'f' && LowerChar(p[i]) != 's'
    requires |name| == 6 && IsParamName(name) && |value| > 0 && '&' !in value
    ensures StripParams(p + (name + value)) == p
  {
    KeepPrefix(p, name + value);
    CutLast(name, value);
    assert p + "" == p;
  }

  /**
   * A parameter after a kept one leaves that one's '&' behind. With `path`
   * = "/x?a=1&" and `value` = "=json", "/x?a=1&format=json" becomes "/x?a=1&".
   */
  lemma StripLeavesAmpersand(path: string, value: string)
    requires forall i :: 0 <= i < |path| ==> LowerChar(path[i]) != 'f' && LowerChar(path[i]) != 's'
    requires |path| > 0 && path[|path| - 1] == '&' && |value| > 0 && '&' !in value
    ensures CreateUriPath(path + "format" + value) == path
  {
    ParamNames();
    assert path + "format" + value == path + ("format" + value);
    StripToEnd(path, "format", value);
  }

  // ---------------------------------------------------------------------
  // The query-parameter removal the comment describes

  /** The position of the first '?', or the length when there is none. */
  function QueryStart(url: string): (q: nat)
    ensures q <= |url|
    ensures q < |url| ==> url[q] == '?'
    ensures forall k :: 0 <= k < q ==> url[k] != '?'
  {
    if |url| == 0 || url[0] == '?' then 0 else 1 + QueryStart(url[1..])
  }

  /** The name of a `name=value` parameter: everything before the first '='. */
  function ParamName(p: string): string {
    Split(p, '=')[0]
  }

  /** The parameters that are not named `format` or `source` (in any case), in order. */
  function KeepParams(ps: seq<string>): (r: seq<string>)
    ensures |r| <= |ps|
    ensures forall i :: 0 <= i < |r| ==> r[i] in ps && !IsParamName(ParamName(r[i]))
  {
    if |ps| == 0 then []
    else
      var init := KeepParams(ps[..|ps| - 1]);
      var last := ps[|ps| - 1];
      assert forall x :: x in ps[..|ps| - 1] ==> x in ps;
      if IsParamName(ParamName(last)) then init else init + [last]
  }

  /**
   * Query parameters named `format` or `source` removed, and the '?' with
   * them when no parameter is left; the path is never touched.
   */
  function StripQueryFixed(url: string): (r: string)
    ensures StartsWith(r, url[..QueryStart(url)])
    ensures QueryStart(url) == |url| ==> r == url
  {
    var q := QueryStart(url);
    if q == |url| then url
    else
      var kept := KeepParams(Split(url[q + 1..], '&'));
      if |kept| == 0 then url[..q] else url[..q] + "?" + Join(kept, '&')
  }

  /** Every parameter not named `format` or `source` survives the fix. */
  lemma {:induction false} KeepParamsComplete(ps: seq<string>, x: string)
    requires x in ps && !IsParamName(ParamName(x))
    ensures x in KeepParams(ps)
  {
    var init := ps[..|ps| - 1];
    if x != ps[|ps| - 1] {
      assert x in init by {
        var i :| 0 <= i < |ps| && ps[i] == x;
        assert init[i] == x;
      }
      KeepParamsComplete(init, x);
    }
  }

  /** The first '?' after a '?'-free prefix is the one that follows it. */
  lemma {:induction false} QueryStartAfter(path: string, rest: string)
    requires '?' !in path
    ensures QueryStart(path + "?" + rest) == |path|
  {
    if |path| > 0 {
      assert (path + "?" + rest)[1..] == path[1..] + "?" + rest;
      QueryStartAfter(path[1..], rest);
    }
  }

  /** A URL without a query string is left alone by the fix, unlike by the regex. */
  lemma FixedKeepsPath(url: string)
    requires '?' !in url
    ensures StripQueryFixed(url) == url
  {
  }

  /** The name of a parameter is what comes before its '='. */
  lemma NameOf(name: string, value: string)
    requires '=' !in name
    ensures ParamName(name + "=" + value) == name
  {
    SplitPlain(name, '=', "=" + value);
    assert name + "=" + value == name + ("=" + value);
  }

  /**
   * With the fix, a query made of '&'-free parameters keeps exactly the
   * parameters not named `format` or `source`, in order.
   */
  lemma StripQueryOf(path: string, parts: seq<string>)
    requires '?' !in path && |parts| >= 1
    requires forall i :: 0 <= i < |parts| ==> '&' !in parts[i]
    ensures var kept := KeepParams(parts);
      StripQueryFixed(path + "?" + Join(parts, '&')) ==
        if |kept| == 0 then path else path + "?" + Join(kept, '&')
  {
    var url := path + "?" + Join(parts, '&');
    QueryStartAfter(path, Join(parts, '&'));
    assert url[..|path|] == path && url[|path| + 1..] == Join(parts, '&');
    SplitJoin(parts, '&');
  }

  /**
   * With the fix, the documented example comes out as with the regex, for
   * any values: "/api/x?format=json&source=crm&foo=1" becomes "/api/x?foo=1".
   */
  lemma FixedExample(path: string, v1: string, v2: string, last: string)
    requires '?' !in path && '&' !in v1 && '&' !in v2 && '&' !in last
    requires !IsParamName(ParamName(last))
    ensures StripQueryFixed(path + "?format=" + v1 + "&source=" + v2 + "&" + last) == path + "?" + last
  {
    var p1, p2 := "format" + "=" + v1, "source" + "=" + v2;
    var parts := [p1, p2, last];
    JoinThree(p1, p2, last);
    ExampleUrl(path, v1, v2, last);
    StripQueryOf(path, parts);
    ExampleNames(v1, v2);
    KeptOf(p1, p2, last);
    assert Join([last], '&') == last;
  }

  /** Three parameters joined by '&'. */
  lemma JoinThree(a: string, b: string, c: string)
    ensures Join([a, b, c], '&') == a + "&" + (b + "&" + c)
  {
    assert [a, b, c][1..] == [b, c] && [b, c][1..] == [c];
    assert Join([c], '&') == c;
    assert Join([b, c], '&') == b + "&" + c;
  }

  /** The example URL, cut at its separators. */
  lemma ExampleUrl(path: string, v1: string, v2: string, last: string)
    ensures path + "?format=" + v1 + "&source=" + v2 + "&" + last ==
      path + "?" + (("format" + "=" + v1) + "&" + (("source" + "=" + v2) + "&" + last))
  {
    assert "?format=" == "?" + "format" + "=";
    assert "&source=" == "&" + "source" + "=";
  }

  /** Of the example's parameters only the last survives. */
  lemma KeptOf(p1: string, p2: string, last: string)
    requires IsParamName(ParamName(p1)) && IsParamName(ParamName(p2)) && !IsParamName(ParamName(last))
    ensures KeepParams([p1, p2, last]) == [last]
  {
    KeepParamsSnoc([], p1);
    KeepParamsSnoc([p1], p2);
    KeepParamsSnoc([p1, p2], last);
    assert [] + [p1] == [p1] && [p1] + [p2] == [p1, p2] && [p1, p2] + [last] == [p1, p2, last];
  }

  /** The example's first two parameters are named `format` and `source`. */
  lemma ExampleNames(v1: string, v2: string)
    ensures IsParamName(ParamName("format" + "=" + v1)) && IsParamName(ParamName("source" + "=" + v2))
  {
    NameOf("format", v1);
    NameOf("source", v2);
    ParamNames();
  }

  /** Both names are recognised. */
  lemma ParamNames()
    ensures IsParamName("format") && IsParamName("source")
  {
    LowerKeeps("format");
    LowerKeeps("source");
  }

  /** A string without upper-case ASCII letters is its own lower case. */
  lemma LowerKeeps(w: string)
    requires forall i :: 0 <= i < |w| ==> !('A' <= w[i] <= 'Z')
    ensures Lower(w) == w
  {
  }

  /** One more parameter: kept unless it is named `format` or `source`. */
  lemma KeepParamsSnoc(ps: seq<string>, x: string)
    ensures KeepParams(ps + [x]) == if IsParamName(ParamName(x)) then KeepParams(ps) else KeepParams(ps) + [x]
  {
    assert (ps + [x])[..|ps|] == ps;
  }

  // ---------------------------------------------------------------------
  // Outgoing headers

  /** The number of bytes of one character in UTF-8. */
  function Utf8Width(c: char): nat {
    if c as int < 0x80 then 1 else if c as int < 0x800 then 2 else if c as int < 0x10000 then 3 else 4
  }

  /** `Buffer.byteLength(s, "utf8")`. */
  function Utf8Length(s: string): (n: nat)
    ensures n >= |s|
  {
    if |s| == 0 then 0 else Utf8Width(s[0]) + Utf8Length(s[1..])
  }

  /**
   * The recomputed `content-length`: only for a truthy body with own keys,
   * the byte length of the string itself or of its JSON text.
   */
  function ContentLength(body: JsValue): (n: Option<nat>)
    ensures n.Some? <==> Truthy(body) && HasOwnKeys(body)
    ensures n.Some? && body.Str? ==> n.value == Utf8Length(body.s)
  {
    if !(Truthy(body) && HasOwnKeys(body)) then None
    else if body.Str? then Some(Utf8Length(body.s))
    else Some(Utf8Length(Json.Stringify(body).value))
  }

  /** The headers after the preparation in `handleRequest`, before the route is resolved. */
  function PreparedHeaders(headers: Dict<JsValue>, body: JsValue): (h: Dict<JsValue>)
    ensures "accept-encoding" !in Keys(h) && "host" !in Keys(h)
  {
    var h0 := Remove(headers, "accept-encoding");
    var h1 := Remove(h0, "host");
    RemoveKeepsAbsent(h0, "host", "accept-encoding");
    var h2 := if Truthy(Member(h1, "content-type")) then h1 else Put(h1, "content-type", Str("application/json"));
    PutKeepsAbsent(h1, "content-type", Str("application/json"), "accept-encoding");
    PutKeepsAbsent(h1, "content-type", Str("application/json"), "host");
    match ContentLength(body)
    case Some(n) =>
      PutKeepsAbsent(h2, "content-length", Num(n), "accept-encoding");
      PutKeepsAbsent(h2, "content-length", Num(n), "host");
      Put(h2, "content-length", Num(n))
    case None => h2
  }

  /** Assigning one key does not bring back another one. */
  lemma PutKeepsAbsent(d: Dict<JsValue>, k: string, v: JsValue, x: string)
    requires x != k && x !in Keys(d)
    ensures x !in Keys(Put(d, k, v))
  {
    if k !in Keys(d) {
      assert Keys(d + [(k, v)]) == Keys(d) + [k];
    }
  }

  /** Deleting one key does not bring back another one. */
  lemma RemoveKeepsAbsent(d: Dict<JsValue>, k: string, x: string)
    requires x !in Keys(d)
    ensures x !in Keys(Remove(d, k))
  {
    LookupRemove(d, k, x);
  }

  /**
   * Outgoing headers never carry `accept-encoding` or `host`; they always
   * carry a content type, "application/json" unless the caller set a truthy
   * one; the other headers read as the caller sent them.
   */
  lemma PreparedHeadersShape(headers: Dict<JsValue>, body: JsValue, k: string)
    ensures "accept-encoding" !in Keys(PreparedHeaders(headers, body))
    ensures "host" !in Keys(PreparedHeaders(headers, body))
    ensures Member(PreparedHeaders(headers, body), "content-type") ==
      if Truthy(Member(headers, "content-type")) then Member(headers, "content-type") else Str("application/json")
    ensures k !in {"accept-encoding", "host", "content-type", "content-length"} ==>
      Member(PreparedHeaders(headers, body), k) == Member(headers, k)
  {
    var h0 := Remove(headers, "accept-encoding");
    var h1 := Remove(h0, "host");
    RemoveKeepsAbsent(h0, "host", "accept-encoding");
    PutKeepsAbsent(h1, "content-type", Str("application/json"), "accept-encoding");
    PutKeepsAbsent(h1, "content-type", Str("application/json"), "host");
    var h2 := if Truthy(Member(h1, "content-type")) then h1 else Put(h1, "content-type", Str("application/json"));
    MemberRemove(headers, "accept-encoding", "content-type");
    MemberRemove(h0, "host", "content-type");
    MemberRemove(headers, "accept-encoding", k);
    MemberRemove(h0, "host", k);
    MemberPut(h1, "content-type", Str("application/json"), "content-type");
    MemberPut(h1, "content-type", Str("application/json"), k);
    if ContentLength(body).Some? {
      var n := ContentLength(body).value;
      PutKeepsAbsent(h2, "content-length", Num(n), "accept-encoding");
      PutKeepsAbsent(h2, "content-length", Num(n), "host");
      MemberPut(h2, "content-length", Num(n), "content-type");
      MemberPut(h2, "content-length", Num(n), k);
    }
  }

  // ---------------------------------------------------------------------
  // The outgoing request

  /** The keep-alive pool a request uses: TLS or plain, both with the same settings. */
  datatype Agent = TlsAgent | PlainAgent

  datatype AgentSettings = AgentSettings(maxSockets: nat, maxFreeSockets: nat, timeout: nat, keepAliveTimeout: nat)

  /** Both pools: 100 sockets, 10 free sockets, a 50 s socket timeout, free sockets kept for 30 s. */
  const PoolSettings: AgentSettings := AgentSettings(100, 10, 50000, 30000)

  /** The wall-clock limit of one call, in milliseconds. */
  const RequestTimeout: nat := 50 * 1000

  /** `uri.indexOf("https://") === 0`. */
  function AgentFor(uri: string): (a: Agent)
    ensures a == TlsAgent <==> StartsWith(uri, "https://")
  {
    if StartsWith(uri, "https://") then TlsAgent else PlainAgent
  }

  datatype RequestOptions = RequestOptions(
    agent: Agent,
    uri: string,
    headers: Dict<JsValue>,
    httpMethod: JsValue,
    body: JsValue,
    timeout: nat,
    /** `headers["content-type"] === "application/json"`. */
    json: bool,
    rejectUnauthorized: bool)

  /** The certificate setting: the configured boolean, and `true` for anything that is not one. */
  function RejectUnauthorized(servers: Servers): bool {
    if servers.rejectInvalidCert.Bool? then servers.rejectInvalidCert.b else true
  }

  // ---------------------------------------------------------------------
  // Upstream events and the settled promise

  /** What the upstream request emits, in order. */
  datatype Event =
    /** "response", with its status code (absent for a malformed reply) and headers. */
    | ResponseEvent(status: Option<int>, responseHeaders: JsValue)
    /** "data", a chunk of the body. */
    | DataEvent(chunk: string)
    /** "end" */
    | EndEvent
    /** "error", a transport failure. */
    | ErrorEvent(err: Failure)

  /** `IExternalResponse`. */
  datatype ExternalResponse = ExternalResponse(statusCode: Option<int>, response: string, uri: string, headers: JsValue)

  /** What the promise of `handleRequest` is rejected with. */
  datatype ProxyFailure =
    /** The upstream response object itself: no status code, or a status above 304 with an error handler. */
    | RawResponse(statusCode: Option<int>, headers: JsValue)
    /** The collected response of a status above 304, at "end". */
    | ErrorResponse(value: ExternalResponse)
    /** A transport error: the status seen so far (500 when none), the error, the URI; headers `[]`. */
    | TransportError(status: int, error: Failure, uri: string)
    /** An exception in the promise executor, before the request was made. */
    | Thrown(reason: Failure)

  datatype Settlement = Unsettled | Resolves(value: ExternalResponse) | Rejects(failure: ProxyFailure)

  /** `resolve`/`reject`: only the first settlement counts. */
  function SettleOnce(s: Settlement, t: Settlement): (r: Settlement)
    ensures s.Unsettled? ==> r == t
    ensures !s.Unsettled? ==> r == s
  {
    if s.Unsettled? then t else s
  }

  /** `statusCode > 304`, which is false while the status is still undefined. */
  predicate Above304(status: Option<int>) {
    status.Some? && status.value > 304
  }

  /** The handler's variables: the promise, the status, the response headers, the body so far, error-handler calls. */
  datatype Exchange = Exchange(settled: Settlement, status: Option<int>, responseHeaders: JsValue, body: string, errorCalls: nat)

  const Start: Exchange := Exchange(Unsettled, None, Undefined, "", 0)

  /** One event handler of `handleRequest`. */
  function OnEvent(x: Exchange, e: Event, uri: string, hasOnError: bool): (y: Exchange)
    ensures !x.settled.Unsettled? ==> y.settled == x.settled
    ensures e.DataEvent? ==> y == x.(body := x.body + e.chunk)
    ensures y.errorCalls <= x.errorCalls + 1
  {
    match e
    case ResponseEvent(st, hs) =>
      var x1 := x.(responseHeaders := hs);
      if st.None? then
        x1.(settled := SettleOnce(x1.settled, Rejects(RawResponse(st, hs))),
            errorCalls := x.errorCalls + if hasOnError then 1 else 0)
      else if st.value > 304 && hasOnError then
        x1.(status := st, settled := SettleOnce(x1.settled, Rejects(RawResponse(st, hs))), errorCalls := x.errorCalls + 1)
      else x1.(status := st)
    case DataEvent(c) => x.(body := x.body + c)
    case EndEvent =>
      var resp := ExternalResponse(x.status, x.body, uri, x.responseHeaders);
      x.(settled := SettleOnce(x.settled, if Above304(x.status) then Rejects(ErrorResponse(resp)) else Resolves(resp)))
    case ErrorEvent(err) =>
      x.(settled := SettleOnce(x.settled, Rejects(TransportError(if x.status.Some? then x.status.value else 500, err, uri))))
  }

  /** The handler's variables after the events `es`, in order. */
  function Exchanged(es: seq<Event>, uri: string, hasOnError: bool): (x: Exchange)
    ensures x.errorCalls <= |es|
  {
    if |es| == 0 then Start
    else OnEvent(Exchanged(es[..|es| - 1], uri, hasOnError), es[|es| - 1], uri, hasOnError)
  }

  /** A settled promise stays settled whatever the upstream emits afterwards. */
  lemma {:induction false} SettledStays(p: seq<Event>, q: seq<Event>, uri: string, hasOnError: bool)
    requires !Exchanged(p, uri, hasOnError).settled.Unsettled?
    ensures Exchanged(p + q, uri, hasOnError).settled == Exchanged(p, uri, hasOnError).settled
    decreases |q|
  {
    if |q| == 0 {
      assert p + q == p;
    } else {
      var q' := q[..|q| - 1];
      assert (p + q)[..|p + q| - 1] == p + q';
      SettledStays(p, q', uri, hasOnError);
    }
  }

  /** The chunks as "data" events. */
  function Chunks(cs: seq<string>): (es: seq<Event>)
    ensures |es| == |cs|
  {
    if |cs| == 0 then [] else Chunks(cs[..|cs| - 1]) + [DataEvent(cs[|cs| - 1])]
  }

  function Concat(cs: seq<string>): string {
    if |cs| == 0 then "" else Concat(cs[..|cs| - 1]) + cs[|cs| - 1]
  }

  /** The body collects every chunk in order; nothing else changes. */
  lemma {:induction false} ChunksAccumulate(p: seq<Event>, cs: seq<string>, uri: string, hasOnError: bool)
    ensures var x := Exchanged(p, uri, hasOnError);
      Exchanged(p + Chunks(cs), uri, hasOnError) == x.(body := x.body + Concat(cs))
    decreases |cs|
  {
    var x := Exchanged(p, uri, hasOnError);
    if |cs| == 0 {
      assert p + Chunks(cs) == p;
      assert x.body + "" == x.body;
    } else {
      var cs' := cs[..|cs| - 1];
      ChunksAccumulate(p, cs', uri, hasOnError);
      assert (p + Chunks(cs))[..|p + Chunks(cs)| - 1] == p + Chunks(cs');
      assert x.body + Concat(cs') + cs[|cs| - 1] == x.body + Concat(cs);
    }
  }

  /**
   * A reply with a status, a body and an end: a status of 304 or below
   * resolves with the collected response; above 304 it rejects, with the
   * collected response, or with the raw response when an error handler is given.
   */
  lemma StatusClassification(status: int, hs: JsValue, cs: seq<string>, uri: string, hasOnError: bool)
    ensures var r := Exchanged([ResponseEvent(Some(status), hs)] + Chunks(cs) + [EndEvent], uri, hasOnError).settled;
      (status <= 304 ==> r == Resolves(ExternalResponse(Some(status), Concat(cs), uri, hs))) &&
      (status > 304 && !hasOnError ==> r == Rejects(ErrorResponse(ExternalResponse(Some(status), Concat(cs), uri, hs)))) &&
      (status > 304 && hasOnError ==> r == Rejects(RawResponse(Some(status), hs)))
  {
    var p := [ResponseEvent(Some(status), hs)];
    assert p[..0] == [];
    ChunksAccumulate(p, cs, uri, hasOnError);
    assert "" + Concat(cs) == Concat(cs);
    var es := p + Chunks(cs) + [EndEvent];
    assert es[..|es| - 1] == p + Chunks(cs);
  }

  /** A transport error before any status is known rejects with status 500. */
  lemma ErrorWithoutStatus(p: seq<Event>, err: Failure, uri: string, hasOnError: bool)
    requires Exchanged(p, uri, hasOnError).settled.Unsettled? && Exchanged(p, uri, hasOnError).status.None?
    ensures Exchanged(p + [ErrorEvent(err)], uri, hasOnError).settled == Rejects(TransportError(500, err, uri))
  {
    assert (p + [ErrorEvent(err)])[..|p|] == p;
  }

  /**
   * `handleRequest` as a whole: the headers it leaves on the request, the
   * options it sends (`None` when the executor throws first) and how its
   * promise ends, with `Unsettled` when the events never settle it.
   */
  datatype Handling = Handling(headers: Dict<JsValue>, sent: Option<RequestOptions>, settled: Settlement, errorCalls: nat)

  function Handled(servers: Servers, url: string, query: JsValue, httpMethod: JsValue, body: JsValue,
                   headers: Dict<JsValue>, hasOnError: bool, events: seq<Event>): (h: Handling)
    ensures h.sent.None? <==> GetSource(servers, query).None?
    ensures h.sent.None? ==> h.settled == Rejects(Thrown(TypeError))
    ensures h.sent.Some? ==>
      h.sent.value.headers == h.headers && h.sent.value.timeout == 50000 &&
      (h.sent.value.agent == TlsAgent <==> StartsWith(h.sent.value.uri, "https://"))
  {
    var prepared := PreparedHeaders(headers, body);
    match RouteOf(servers, url, query, prepared)
    case None => Handling(prepared, None, Rejects(Thrown(TypeError)), 0)
    case Some((info, hs)) =>
      var uri := ToStr(info.serverName) + CreateUriPath(url);
      var x := Exchanged(events, uri, hasOnError);
      Handling(hs, Some(RequestOptions(AgentFor(uri), uri, hs, httpMethod, body, RequestTimeout,
                                        Member(hs, "content-type") == Str("application/json"),
                                        RejectUnauthorized(servers))),
               x.settled, x.errorCalls)
  }

  /** The upstream's events handled one after the other, as the request's listeners see them. */
  method RunExchange(events: seq<Event>, uri: string, hasOnError: bool) returns (x: Exchange)
    ensures x == Exchanged(events, uri, hasOnError)
  {
    x := Start;
    var i := 0;
    while i < |events|
      invariant 0 <= i <= |events|
      invariant x == Exchanged(events[..i], uri, hasOnError)
    {
      assert events[..i + 1][..i] == events[..i];
      x := OnEvent(x, events[i], uri, hasOnError);
      i := i + 1;
    }
    assert events[..i] == events;
  }

  /** An incoming request; its header map is shared with the caller and changed in place. */
  class IncomingRequest {
    const originalUrl: string
    const query: JsValue
    const httpMethod: JsValue
    const body: JsValue
    var headers: Dict<JsValue>

    constructor(originalUrl: string, query: JsValue, httpMethod: JsValue, body: JsValue, headers: Dict<JsValue>)
      ensures this.originalUrl == originalUrl && this.query == query && this.httpMethod == httpMethod
      ensures this.body == body && this.headers == headers
    {
      this.originalUrl := originalUrl;
      this.query := query;
      this.httpMethod := httpMethod;
      this.body := body;
      this.headers := headers;
    }

    /** `getServerInfo`: `None` where it throws; the override header is deleted from the request. */
    method GetServerInfo(servers: Servers) returns (r: Option<ServerInfo>)
      modifies this
      ensures var route := RouteOf(servers, originalUrl, query, old(headers));
        (route.None? ==> r.None? && headers == old(headers)) &&
        (route.Some? ==> r == Some(route.value.0) && headers == route.value.1)
    {
      var source := GetSource(servers, query);
      if source.None? {
        return None;
      }
      var target := Member(headers, TargetHeader);
      if Truthy(target) {
        headers := Remove(headers, TargetHeader);
        return Some(OverrideTarget(servers, target));
      }
      if IsOauthRequest(originalUrl) {
        return Some(ServerInfo(Str(servers.ngtOauth), OAuth));
      }
      if source.value == "ax" {
        return Some(ServerInfo(Str(servers.ngtOldAxapta), External));
      }
      r := Some(ServerInfo(Str(servers.ngtDefault), Ngt));
    }

    /** `createUri`: the server name followed by the stripped path. */
    method CreateUri(servers: Servers) returns (uri: Option<string>)
      modifies this
      ensures var route := RouteOf(servers, originalUrl, query, old(headers));
        (route.None? ==> uri.None? && headers == old(headers)) &&
        (route.Some? ==> uri == Some(ToStr(route.value.0.serverName) + CreateUriPath(originalUrl)) && headers == route.value.1)
    {
      var path := TrimQuestion(StripParams(originalUrl));
      var info := GetServerInfo(servers);
      if info.None? {
        return None;
      }
      uri := Some(ToStr(info.value.serverName) + path);
    }

    /**
     * The header preparation of `handleRequest`, in place: no encoding or
     * host header, JSON by default, and the recomputed length.
     */
    method PrepareHeaders()
      modifies this
      ensures headers == PreparedHeaders(old(headers), body)
    {
      headers := Remove(headers, "accept-encoding");
      headers := Remove(headers, "host");
      if !Truthy(Member(headers, "content-type")) {
        headers := Put(headers, "content-type", Str("application/json"));
      }
      var length := ContentLength(body);
      if length.Some? {
        headers := Put(headers, "content-length", Num(length.value));
      }
    }

    /**
     * `handleRequest` without a response sink: the headers are prepared in
     * place, the route resolved, the request sent, and the upstream's events
     * handled in order.
     */
    method HandleRequest(servers: Servers, hasOnError: bool, events: seq<Event>)
      returns (sent: Option<RequestOptions>, settled: Settlement, errorCalls: nat)
      modifies this
      ensures var h := Handled(servers, originalUrl, query, httpMethod, body, old(headers), hasOnError, events);
        headers == h.headers && sent == h.sent && settled == h.settled && errorCalls == h.errorCalls
    {
      var rejectUnauthorized := RejectUnauthorized(servers);
      PrepareHeaders();
      var uri := CreateUri(servers);
      if uri.None? {
        return None, Rejects(Thrown(TypeError)), 0;
      }
      var options := RequestOptions(AgentFor(uri.value), uri.value, headers, httpMethod, body, RequestTimeout,
                                    Member(headers, "content-type") == Str("application/json"), rejectUnauthorized);
      var x := RunExchange(events, uri.value, hasOnError);
      sent, settled, errorCalls := Some(options), x.settled, x.errorCalls;
    }
  }
}
