/**
 * The pure decisions of the static server: the MIME type of a file, the
 * clean-up and summary of the Client-Hints request headers, the choice of
 * the network address it announces, the routing of a request, and the
 * reply to a WebGL control request.
 */
module Server {
  import opened Options
  import opened Strings

  // ---------------------------------------------------------------------------
  // getContentType
  // ---------------------------------------------------------------------------

  /** The path without its trailing `/` characters. */
  function StripTrailingSlashes(p: string): (r: string)
    ensures |r| <= |p| && r == p[..|r|]
    ensures r == [] || r[|r| - 1] != '/'
    ensures forall i :: |r| <= i < |p| ==> p[i] == '/'
  {
    if p != [] && p[|p| - 1] == '/' then StripTrailingSlashes(p[..|p| - 1]) else p
  }

  /** The last segment of a path: everything after its last `/`. */
  function Basename(p: string): (b: string)
    ensures |b| <= |p| && b == p[|p| - |b|..]
    ensures '/' !in b
    ensures |b| < |p| ==> p[|p| - |b| - 1] == '/'
  {
    if p == [] || p[|p| - 1] == '/' then [] else Basename(p[..|p| - 1]) + [p[|p| - 1]]
  }

  /** The position of the last `.` in a text, if there is one. */
  function LastDot(b: string): (r: Option<nat>)
    ensures r.Some? ==> r.value < |b| && b[r.value] == '.' && '.' !in b[r.value + 1..]
    ensures r.None? ==> '.' !in b
  {
    if b == [] then None
    else if b[|b| - 1] == '.' then Some(|b| - 1)
    else
      var r := LastDot(b[..|b| - 1]);
      assert r.Some? ==> b[r.value + 1..] == b[..|b| - 1][r.value + 1..] + [b[|b| - 1]];
      assert r.None? ==> b == b[..|b| - 1] + [b[|b| - 1]];
      r
  }

  /** The extension of one path segment. */
  function SegmentExt(b: string): (e: string)
    ensures e == [] || (e[0] == '.' && EndsWith(b, e))
  {
    match LastDot(b)
    case None => []
    case Some(i) => if i == 0 || b == ".." then [] else b[i..]
  }

  /**
   * `path.extname`: from the last `.` of the last segment (trailing `/`
   * ignored) to its end; empty when that segment has no `.`, starts with its
   * only `.`, or is `..`.
   */
  function Extname(p: string): (e: string)
    ensures e == [] || (e[0] == '.' && '/' !in e && '.' !in e[1..])
    ensures EndsWith(StripTrailingSlashes(p), e)
  {
    var q := StripTrailingSlashes(p);
    var b := Basename(q);
    var e := SegmentExt(b);
    SegmentExtShape(b);
    SuffixOfSuffix(q, b, e);
    e
  }

  lemma SuffixOfSuffix(q: string, b: string, e: string)
    requires |b| <= |q| && b == q[|q| - |b|..]
    requires |e| <= |b| && e == b[|b| - |e|..]
    ensures EndsWith(q, e)
  {
    assert q[|q| - |e|..] == b[|b| - |e|..];
  }

  /** The extension of a segment is a suffix of it that starts with its only `.` and has no `/`. */
  lemma SegmentExtShape(b: string)
    requires '/' !in b
    ensures var e := SegmentExt(b);
            |e| <= |b| && e == b[|b| - |e|..] && (e == [] || (e[0] == '.' && '/' !in e && '.' !in e[1..]))
  {
    var e := SegmentExt(b);
    if e != [] {
      var i := LastDot(b).value;
      assert e == b[i..];
      assert e[1..] == b[i + 1..];
      forall c | c in e ensures c != '/' {
        var k :| 0 <= k < |e| && e[k] == c;
        assert b[i + k] == c;
      }
    }
  }

  /** A file named inside a directory has the extension of its own name. */
  lemma ExtnameOfFileInDir(dir: string, name: string)
    requires name != [] && '/' !in name
    ensures Extname(dir + "/" + name) == Extname(name)
  {
    var p := dir + "/" + name;
    assert p[|p| - 1] == name[|name| - 1] && name[|name| - 1] in name;
    assert StripTrailingSlashes(p) == p;
    assert StripTrailingSlashes(name) == name;
    BasenameAfterSlash(dir + "/", name);
    BasenameAfterSlash([], name);
    assert [] + name == name;
  }

  lemma {:induction false} BasenameAfterSlash(dir: string, name: string)
    requires dir == [] || dir[|dir| - 1] == '/'
    requires '/' !in name
    ensures Basename(dir + name) == name
    decreases |name|
  {
    if name == [] {
      assert dir + name == dir;
    } else {
      var init := name[..|name| - 1];
      var c := name[|name| - 1];
      SplitLast(dir, name);
      BasenameAfterSlash(dir, init);
      assert Basename(dir + name) == Basename(dir + init) + [c];
    }
  }

  lemma SplitLast(a: string, b: string)
    requires b != []
    ensures (a + b)[..|a + b| - 1] == a + b[..|b| - 1]
    ensures (a + b)[|a + b| - 1] == b[|b| - 1]
    ensures b == b[..|b| - 1] + [b[|b| - 1]]
  {
  }

  /** The `switch` of `getContentType` over an extension. */
  function MimeOf(e: string): string
  {
    if e == ".html" then "text/html"
    else if e == ".css" then "text/css"
    else if e == ".js" then "application/javascript"
    else if e == ".json" then "application/json"
    else if e == ".png" then "image/png"
    else if e == ".jpg" || e == ".jpeg" then "image/jpeg"
    else "application/octet-stream"
  }

  /** `getContentType`: a fixed MIME type for six extensions, `application/octet-stream` for any other. */
  function ContentType(filePath: string): string
  {
    MimeOf(Extname(filePath))
  }

  /** The six known extensions, exactly, escape the fallback type; the comparison is case-sensitive. */
  lemma ContentTypeFallback(e: string)
    ensures MimeOf(e) == "application/octet-stream"
            <==> e != ".html" && e != ".css" && e != ".js" && e != ".json" && e != ".png" && e != ".jpg" && e != ".jpeg"
    ensures MimeOf(e) == "image/jpeg" <==> e == ".jpg" || e == ".jpeg"
  {
  }

  /** A plain file name whose last `.` is not its first character has the extension from that `.` on. */
  lemma ExtnameOfName(name: string, i: nat)
    requires '/' !in name && 0 < i < |name| && name[i] == '.' && '.' !in name[i + 1..] && name != ".."
    ensures Extname(name) == name[i..]
  {
    PlainName(name);
    LastDotAt(name, i);
  }

  /** A name without `/` is its own last segment. */
  lemma PlainName(name: string)
    requires name != [] && '/' !in name
    ensures StripTrailingSlashes(name) == name && Basename(name) == name
  {
    assert name[|name| - 1] in name;
    BasenameAfterSlash([], name);
    assert [] + name == name;
  }

  lemma LastDotAt(b: string, i: nat)
    requires i < |b| && b[i] == '.' && '.' !in b[i + 1..]
    ensures LastDot(b) == Some(i)
  {
    assert b[i] in b;
  }

  /** The page itself is served as HTML. */
  lemma IndexIsHtml(page: string)
    requires page == "index.html"
    ensures ContentType(page) == "text/html"
  {
    ExtnameOfName(page, 5);
    assert page[5..] == ".html";
  }

  /** Extensions are compared case-sensitively: an upper-case one gets the fallback type. */
  lemma UpperCaseExtensionUnknown(photo: string)
    requires photo == "photo.JPG"
    ensures ContentType(photo) == "application/octet-stream"
  {
    ExtnameOfName(photo, 5);
    var e := photo[5..];
    assert e == ".JPG";
    assert e[1] != ".jpg"[1] && e[1] != ".png"[1] && e[1] != ".css"[1];
    assert |e| != |".html"| && |e| != |".js"| && |e| != |".json"| && |e| != |".jpeg"|;
    ContentTypeFallback(e);
  }

  /** Inside any directory a file gets the MIME type of its own name. */
  lemma ContentTypeInDir(dir: string, name: string)
    requires name != [] && '/' !in name
    ensures ContentType(dir + "/" + name) == ContentType(name)
  {
    ExtnameOfFileInDir(dir, name);
  }

  // ---------------------------------------------------------------------------
  // cleanClientHintValue and extractClientHints
  // ---------------------------------------------------------------------------

  /** `.replace(/^"|"$/g, '')`: one leading and then one trailing double quote are removed. */
  function StripQuotes(t: string): (r: string)
    ensures |t| - 2 <= |r| <= |t|
    ensures Contains(t, r)
  {
    var a := if t != [] && t[0] == '"' then t[1..] else t;
    var r := if a != [] && a[|a| - 1] == '"' then a[..|a| - 1] else a;
    assert OccursAt(t, r, |t| - |a|);
    r
  }

  /**
   * `cleanClientHintValue`: a header value (`None` when the header is not
   * sent, which is not a string) trimmed and stripped of one pair of quotes;
   * anything that is not a string comes back unchanged.
   */
  function CleanHint(v: Option<string>): (r: Option<string>)
    ensures v.None? <==> r.None?
  {
    match v
    case None => None
    case Some(s) => Some(StripQuotes(Trim(s)))
  }

  /** A quoted value, with or without white space around it, comes back without its quotes. */
  lemma CleanQuoted(s: string)
    ensures CleanHint(Some("\"" + s + "\"")) == Some(s)
  {
    var q := "\"" + s + "\"";
    assert q[0] == '"' && q[|q| - 1] == '"';
    TrimOfTrimmed(q);
    assert q[1..] == s + "\"";
    assert (s + "\"")[..|s|] == s;
  }

  /** A value that is already clean is left as it is. */
  lemma CleanIsIdentityOnClean(s: string)
    requires s != [] && s[0] != '"' && s[|s| - 1] != '"'
    requires !IsJsSpace(s[0]) && !IsJsSpace(s[|s| - 1])
    ensures CleanHint(Some(s)) == Some(s)
  {
    TrimOfTrimmed(s);
  }

  /** The Client-Hints request headers; `None` marks a header that was not sent. */
  datatype Headers = Headers(
    secChUa: Option<string>,
    userAgent: Option<string>,
    secChUaMobile: Option<string>,
    platform: Option<string>,
    platformVersion: Option<string>,
    arch: Option<string>,
    model: Option<string>,
    fullVersion: Option<string>,
    fullVersionList: Option<string>)

  datatype ClientHints = ClientHints(
    userAgent: Option<string>,
    mobile: bool,
    platform: Option<string>,
    platformVersion: Option<string>,
    arch: Option<string>,
    model: Option<string>,
    fullVersion: Option<string>,
    fullVersionList: Option<string>)

  datatype Extracted = Extracted(clientHints: ClientHints, detectedOs: string, isMobile: bool, hasHighEntropyData: bool)

  /** JavaScript truthiness of a header value: present and not empty. */
  predicate Truthy(v: Option<string>)
  {
    v.Some? && v.value != ""
  }

  /** `a || b` on header values: the first truthy one, else the second as it is. */
  function OrElse(a: Option<string>, b: Option<string>): (r: Option<string>)
    ensures Truthy(a) ==> r == a
    ensures !Truthy(a) ==> r == b
  {
    if Truthy(a) then a else b
  }

  /** `extractClientHints`. */
  function ExtractClientHints(h: Headers): (x: Extracted)
    ensures x.isMobile <==> h.secChUaMobile == Some("?1")
    ensures x.isMobile == x.clientHints.mobile
    ensures x.detectedOs == if Truthy(CleanHint(h.platform)) then CleanHint(h.platform).value else "Unknown"
    ensures x.hasHighEntropyData <==>
              Truthy(CleanHint(h.platformVersion)) || Truthy(CleanHint(h.arch)) || Truthy(CleanHint(h.model))
              || Truthy(CleanHint(h.fullVersion)) || Truthy(h.fullVersionList)
    ensures x.clientHints.userAgent == (if Truthy(h.secChUa) then h.secChUa else if Truthy(h.userAgent) then h.userAgent else None)
  {
    var ch := ClientHints(
      OrElse(OrElse(h.secChUa, h.userAgent), None),
      h.secChUaMobile == Some("?1"),
      CleanHint(h.platform),
      CleanHint(h.platformVersion),
      CleanHint(h.arch),
      CleanHint(h.model),
      CleanHint(h.fullVersion),
      OrElse(h.fullVersionList, None));
    var detected := if Truthy(ch.platform) then ch.platform.value else "Unknown";
    var high := Truthy(ch.platformVersion) || Truthy(ch.arch) || Truthy(ch.model) || Truthy(ch.fullVersion) || Truthy(ch.fullVersionList);
    Extracted(ch, detected, ch.mobile, high)
  }

  /** A browser sending only the low-entropy hints, with the platform quoted as usual, is reported by its bare platform name. */
  lemma LowEntropyRequest(ua: Option<string>, platform: string)
    requires platform != []
    ensures var x := ExtractClientHints(Headers(ua, None, Some("?0"), Some("\"" + platform + "\""), None, None, None, None, None));
            x.detectedOs == platform && !x.isMobile && !x.hasHighEntropyData
  {
    CleanQuoted(platform);
  }

  /** The detected system name is never empty, and an absent or blank platform header reads as `Unknown`. */
  lemma DetectedOsNonEmpty(h: Headers)
    ensures ExtractClientHints(h).detectedOs != ""
    ensures (h.platform.None? || h.platform == Some("")) ==> ExtractClientHints(h).detectedOs == "Unknown"
  {
  }

  // ---------------------------------------------------------------------------
  // getLocalIPv4
  // ---------------------------------------------------------------------------

  /** One address entry of `os.networkInterfaces()`. */
  datatype Address = Address(family: string, internal: bool, address: string)

  /** The interfaces by name, in the order the object enumerates them. */
  type Interfaces = seq<(string, seq<Address>)>

  predicate External(a: Address)
  {
    a.family == "IPv4" && !a.internal
  }

  /** The interface names the first pass prefers: wired, wireless and localized wireless ones. */
  predicate PreferredName(name: string)
  {
    Contains(name, "eth") || Contains(name, "en") || Contains(name, "wlan") || Contains(name, "无线")
  }

  /** Whether one pass of the search accepts an entry. */
  predicate Accepts(preferredOnly: bool, name: string, a: Address)
  {
    External(a) && (!preferredOnly || PreferredName(name))
  }

  /** The first accepted address among the entries of one interface. */
  function FirstIn(preferredOnly: bool, name: string, addrs: seq<Address>): Option<string>
  {
    if addrs == [] then None
    else Or(FirstIn(preferredOnly, name, addrs[..|addrs| - 1]),
            if Accepts(preferredOnly, name, addrs[|addrs| - 1]) then Some(addrs[|addrs| - 1].address) else None)
  }

  /** The first accepted address over all interfaces, in enumeration order. */
  function FirstOf(preferredOnly: bool, ifs: Interfaces): Option<string>
  {
    if ifs == [] then None
    else Or(FirstOf(preferredOnly, ifs[..|ifs| - 1]), FirstIn(preferredOnly, ifs[|ifs| - 1].0, ifs[|ifs| - 1].1))
  }

  /** The announced address: a preferred external IPv4 one, else any external IPv4 one, else the loopback address. */
  function LocalIpv4(ifs: Interfaces): string
  {
    match Or(FirstOf(true, ifs), FirstOf(false, ifs))
    case Some(a) => a
    case None => "127.0.0.1"
  }

  lemma {:induction false} FirstInPrefix(p: bool, name: string, addrs: seq<Address>, k: nat)
    requires k <= |addrs| && FirstIn(p, name, addrs[..k]).Some?
    ensures FirstIn(p, name, addrs) == FirstIn(p, name, addrs[..k])
    decreases |addrs| - k
  {
    if k < |addrs| {
      assert addrs[..k + 1][..k] == addrs[..k];
      FirstInPrefix(p, name, addrs, k + 1);
    } else {
      assert addrs[..k] == addrs;
    }
  }

  lemma {:induction false} FirstOfPrefix(p: bool, ifs: Interfaces, k: nat)
    requires k <= |ifs| && FirstOf(p, ifs[..k]).Some?
    ensures FirstOf(p, ifs) == FirstOf(p, ifs[..k])
    decreases |ifs| - k
  {
    if k < |ifs| {
      assert ifs[..k + 1][..k] == ifs[..k];
      FirstOfPrefix(p, ifs, k + 1);
    } else {
      assert ifs[..k] == ifs;
    }
  }

  /** One pass of the search: both loops stop at the first accepted entry. */
  method Search(preferredOnly: bool, ifs: Interfaces) returns (found: Option<string>)
    ensures found == FirstOf(preferredOnly, ifs)
  {
    var i := 0;
    while i < |ifs|
      invariant 0 <= i <= |ifs|
      invariant FirstOf(preferredOnly, ifs[..i]) == None
    {
      var (name, addrs) := ifs[i];
      var j := 0;
      while j < |addrs|
        invariant 0 <= j <= |addrs|
        invariant FirstIn(preferredOnly, name, addrs[..j]) == None
      {
        assert addrs[..j + 1][..j] == addrs[..j];
        if Accepts(preferredOnly, name, addrs[j]) {
          assert FirstIn(preferredOnly, name, addrs[..j + 1]) == Some(addrs[j].address);
          FirstInPrefix(preferredOnly, name, addrs, j + 1);
          assert ifs[..i + 1][..i] == ifs[..i];
          assert FirstOf(preferredOnly, ifs[..i + 1]) == Some(addrs[j].address);
          FirstOfPrefix(preferredOnly, ifs, i + 1);
          return Some(addrs[j].address);
        }
        j := j + 1;
      }
      assert addrs[..j] == addrs;
      assert ifs[..i + 1][..i] == ifs[..i];
      i := i + 1;
    }
    assert ifs[..i] == ifs;
    found := None;
  }

  /** `getLocalIPv4`, over the interface list it would read from the system. */
  method GetLocalIpv4(ifs: Interfaces) returns (ip: string)
    ensures ip == LocalIpv4(ifs)
  {
    var preferred := Search(true, ifs);
    if preferred.Some? {
      return preferred.value;
    }
    var any := Search(false, ifs);
    if any.Some? {
      return any.value;
    }
    return "127.0.0.1";
  }

  /** A pass finds an address exactly when some entry is accepted, and what it finds is an accepted entry's address. */
  lemma {:induction false} FirstOfSound(p: bool, ifs: Interfaces)
    ensures FirstOf(p, ifs).Some? <==> exists i, j :: 0 <= i < |ifs| && 0 <= j < |ifs[i].1| && Accepts(p, ifs[i].0, ifs[i].1[j])
    ensures FirstOf(p, ifs).Some? ==>
              exists i, j :: 0 <= i < |ifs| && 0 <= j < |ifs[i].1| && Accepts(p, ifs[i].0, ifs[i].1[j])
                             && ifs[i].1[j].address == FirstOf(p, ifs).value
  {
    if ifs != [] {
      var n := |ifs| - 1;
      var init := ifs[..n];
      FirstOfSound(p, init);
      FirstInSound(p, ifs[n].0, ifs[n].1);
      forall i | 0 <= i < n
        ensures init[i] == ifs[i]
      {
      }
      if exists i, j :: 0 <= i < |ifs| && 0 <= j < |ifs[i].1| && Accepts(p, ifs[i].0, ifs[i].1[j]) {
        var i, j :| 0 <= i < |ifs| && 0 <= j < |ifs[i].1| && Accepts(p, ifs[i].0, ifs[i].1[j]);
        if i < n {
          assert init[i] == ifs[i];
        }
      }
    }
  }

  lemma {:induction false} FirstInSound(p: bool, name: string, addrs: seq<Address>)
    ensures FirstIn(p, name, addrs).Some? <==> exists j :: 0 <= j < |addrs| && Accepts(p, name, addrs[j])
    ensures FirstIn(p, name, addrs).Some? ==>
              exists j :: 0 <= j < |addrs| && Accepts(p, name, addrs[j]) && addrs[j].address == FirstIn(p, name, addrs).value
  {
    if addrs != [] {
      var n := |addrs| - 1;
      var init := addrs[..n];
      FirstInSound(p, name, init);
      if exists j :: 0 <= j < |addrs| && Accepts(p, name, addrs[j]) {
        var j :| 0 <= j < |addrs| && Accepts(p, name, addrs[j]);
        if j < n {
          assert init[j] == addrs[j];
        }
      }
      if FirstIn(p, name, init).Some? {
        var j :| 0 <= j < |init| && Accepts(p, name, init[j]) && init[j].address == FirstIn(p, name, init).value;
        assert addrs[j] == init[j];
      }
    }
  }

  /**
   * The announced address belongs to an external IPv4 entry, of a preferred
   * interface whenever one exists; the loopback address is announced when no
   * external IPv4 entry exists at all.
   */
  lemma LocalIpv4Choice(ifs: Interfaces)
    ensures (exists i, j :: 0 <= i < |ifs| && 0 <= j < |ifs[i].1| && Accepts(true, ifs[i].0, ifs[i].1[j])) ==>
              exists i, j :: 0 <= i < |ifs| && 0 <= j < |ifs[i].1| && Accepts(true, ifs[i].0, ifs[i].1[j])
                             && ifs[i].1[j].address == LocalIpv4(ifs)
    ensures (exists i, j :: 0 <= i < |ifs| && 0 <= j < |ifs[i].1| && External(ifs[i].1[j])) ==>
              exists i, j :: 0 <= i < |ifs| && 0 <= j < |ifs[i].1| && External(ifs[i].1[j])
                             && ifs[i].1[j].address == LocalIpv4(ifs)
    ensures (forall i, j :: 0 <= i < |ifs| && 0 <= j < |ifs[i].1| ==> !External(ifs[i].1[j])) ==> LocalIpv4(ifs) == "127.0.0.1"
  {
    FirstOfSound(true, ifs);
    FirstOfSound(false, ifs);
  }

  // ---------------------------------------------------------------------------
  // requestListener routing and the WebGL control reply
  // ---------------------------------------------------------------------------

  const ClientHintsPath: string := "/api/client-hints"
  const WebglPath: string := "/api/webgl-control"

  /** Where a request goes. `Static` carries the resolved file and its MIME type; reading the file is left to I/O. */
  datatype Route =
    | WebglControl
    | WebglPreflight
    | ClientHintsApi
    | Forbidden
    | Static(fullPath: string, contentType: string)

  /** The containment test as written: a plain string prefix test on the resolved path. */
  predicate InsidePublicAsWritten(fullPath: string, publicDir: string)
  {
    StartsWith(fullPath, publicDir)
  }

  /** The containment test meant: the public directory itself, or a path below it. */
  predicate InsidePublic(fullPath: string, publicDir: string)
  {
    fullPath == publicDir || StartsWith(fullPath, publicDir + "/")
  }

  /** A sibling directory whose name extends the public one passes the prefix test although it lies outside. */
  lemma SiblingPassesPrefixTest()
    ensures InsidePublicAsWritten("/srv/public-secret/key.json", "/srv/public")
    ensures !InsidePublic("/srv/public-secret/key.json", "/srv/public")
  {
    var p, d := "/srv/public-secret/key.json", "/srv/public";
    assert p[..|d|] == d;
    assert p[|d|] == '-';
  }

  /** The meant test accepts only paths inside the directory, and never more than the written one. */
  lemma InsidePublicSound(fullPath: string, publicDir: string)
    ensures InsidePublic(fullPath, publicDir) ==> InsidePublicAsWritten(fullPath, publicDir)
    ensures InsidePublic(fullPath, publicDir) && |fullPath| > |publicDir| ==> fullPath[|publicDir|] == '/'
  {
    if StartsWith(fullPath, publicDir + "/") {
      assert fullPath[..|publicDir|] == (publicDir + "/")[..|publicDir|];
      assert fullPath[|publicDir|] == (publicDir + "/")[|publicDir|];
    }
  }

  /**
   * `requestListener`'s choice of route under the containment test `inside`;
   * `join` stands for `path.join`.
   */
  function RouteWith(url: string, verb: string, publicDir: string, join: (string, string) -> string,
                     inside: (string, string) -> bool): Route
  {
    if url == WebglPath && verb == "POST" then WebglControl
    else if url == WebglPath && verb == "OPTIONS" then WebglPreflight
    else if url == ClientHintsPath then ClientHintsApi
    else
      var filePath := if url == "/" then "/index.html" else url;
      var fullPath := join(publicDir, filePath);
      if !inside(fullPath, publicDir) then Forbidden
      else Static(fullPath, ContentType(fullPath))
  }

  /** The route as the server chooses it, with the plain prefix test. */
  function RouteOf(url: string, verb: string, publicDir: string, join: (string, string) -> string): Route
  {
    RouteWith(url, verb, publicDir, join, InsidePublicAsWritten)
  }

  /** The route with the containment test meant. */
  function RouteOfIntended(url: string, verb: string, publicDir: string, join: (string, string) -> string): Route
  {
    RouteWith(url, verb, publicDir, join, InsidePublic)
  }

  /** The routes answered by the server itself rather than by a file. */
  predicate IsApi(r: Route)
  {
    r == WebglControl || r == WebglPreflight || r == ClientHintsApi
  }

  /**
   * The control path is answered for POST and OPTIONS only and the hints
   * path for every method; these answers never depend on the public
   * directory or on how paths are joined.
   */
  lemma ApiRoutesComeFirst(url: string, verb: string, publicDir: string, join: (string, string) -> string,
                           otherDir: string, otherJoin: (string, string) -> string)
    ensures IsApi(RouteOf(url, verb, publicDir, join))
            <==> url == ClientHintsPath || (url == WebglPath && (verb == "POST" || verb == "OPTIONS"))
    ensures IsApi(RouteOf(url, verb, publicDir, join)) ==> RouteOf(url, verb, otherDir, otherJoin) == RouteOf(url, verb, publicDir, join)
    ensures IsApi(RouteOf(url, verb, publicDir, join)) ==> RouteOfIntended(url, verb, publicDir, join) == RouteOf(url, verb, publicDir, join)
  {
  }

  /** A request for neither API path is a file lookup of the joined path, refused when the test fails. */
  lemma FileLookup(url: string, verb: string, publicDir: string, join: (string, string) -> string,
                   inside: (string, string) -> bool, filePath: string, fullPath: string)
    requires !(url == WebglPath && (verb == "POST" || verb == "OPTIONS")) && url != ClientHintsPath
    requires filePath == (if url == "/" then "/index.html" else url) && fullPath == join(publicDir, filePath)
    ensures RouteWith(url, verb, publicDir, join, inside)
            == if inside(fullPath, publicDir) then Static(fullPath, ContentType(fullPath)) else Forbidden
  {
  }

  /** A file one level below a directory satisfies both containment tests. */
  lemma ChildInside(publicDir: string, name: string)
    ensures InsidePublic(publicDir + "/" + name, publicDir)
    ensures InsidePublicAsWritten(publicDir + "/" + name, publicDir)
  {
    var p := publicDir + "/" + name;
    assert p[..|publicDir| + 1] == publicDir + "/";
    assert p[..|publicDir|] == publicDir;
  }

  /** The root is the page itself: `index.html` inside the public directory, served as HTML by either test. */
  lemma RootServesIndex(verb: string, publicDir: string, join: (string, string) -> string)
    requires join(publicDir, "/index.html") == publicDir + "/index.html"
    ensures RouteOf("/", verb, publicDir, join) == Static(publicDir + "/index.html", "text/html")
    ensures RouteOfIntended("/", verb, publicDir, join) == Static(publicDir + "/index.html", "text/html")
  {
    RootLookup(verb, publicDir, join, "/", "/index.html", "index.html");
  }

  lemma RootLookup(verb: string, publicDir: string, join: (string, string) -> string, url: string, filePath: string, page: string)
    requires url == "/" && filePath == "/index.html" && page == "index.html"
    requires join(publicDir, filePath) == publicDir + filePath
    ensures RouteOf(url, verb, publicDir, join) == Static(publicDir + filePath, "text/html")
    ensures RouteOfIntended(url, verb, publicDir, join) == Static(publicDir + filePath, "text/html")
  {
    assert |url| != |WebglPath| && |url| != |ClientHintsPath|;
    var full := publicDir + filePath;
    assert full == publicDir + "/" + page;
    ContentTypeInDir(publicDir, page);
    IndexIsHtml(page);
    ChildInside(publicDir, page);
    FileLookup(url, verb, publicDir, join, InsidePublicAsWritten, filePath, full);
    FileLookup(url, verb, publicDir, join, InsidePublic, filePath, full);
  }

  /**
   * Any other method on the control path is not answered by the server: it
   * falls through to a file lookup of that path, which, having no extension,
   * would be sent as `application/octet-stream`.
   */
  lemma ControlGetFallsThrough(verb: string, publicDir: string, join: (string, string) -> string)
    requires verb != "POST" && verb != "OPTIONS"
    requires join(publicDir, WebglPath) == publicDir + WebglPath
    ensures RouteOf(WebglPath, verb, publicDir, join) == Static(publicDir + WebglPath, "application/octet-stream")
  {
    ControlLookup(verb, publicDir, join, WebglPath, "/api", "webgl-control");
  }

  lemma ControlLookup(verb: string, publicDir: string, join: (string, string) -> string, url: string, dir: string, name: string)
    requires url == WebglPath && dir == "/api" && name == "webgl-control"
    requires verb != "POST" && verb != "OPTIONS"
    requires join(publicDir, url) == publicDir + url
    ensures RouteOf(url, verb, publicDir, join) == Static(publicDir + url, "application/octet-stream")
  {
    assert |url| != |ClientHintsPath| && url != "/";
    var full := publicDir + url;
    assert full == (publicDir + dir) + "/" + name;
    ContentTypeInDir(publicDir + dir, name);
    NoDotUnknown(name);
    assert full[..|publicDir|] == publicDir;
    FileLookup(url, verb, publicDir, join, InsidePublicAsWritten, url, full);
  }

  /** A name without `.` has no extension and gets the fallback type. */
  lemma NoDotUnknown(name: string)
    requires name == "webgl-control"
    ensures ContentType(name) == "application/octet-stream"
  {
    assert '.' !in name && '/' !in name;
    NoDotNoExtension(name);
  }

  lemma NoDotNoExtension(name: string)
    requires name != [] && '/' !in name && '.' !in name
    ensures Extname(name) == []
  {
    PlainName(name);
  }

  /**
   * The request `/../public-secret/key.json`, which `path.join` resolves into
   * the sibling directory, is served as a file by the route as written and
   * refused by the route meant.
   */
  lemma SiblingIsServed(url: string, join: (string, string) -> string)
    requires url == "/../public-secret/key.json"
    requires join("/srv/public", url) == "/srv/public-secret/key.json"
    ensures RouteOf(url, "GET", "/srv/public", join) == Static("/srv/public-secret/key.json", "application/json")
    ensures RouteOfIntended(url, "GET", "/srv/public", join) == Forbidden
  {
    SiblingLookup(url, join, "/srv/public", "/srv/public-secret/key.json", "/srv/public-secret", "key.json", "GET");
  }

  lemma SiblingLookup(url: string, join: (string, string) -> string, publicDir: string, full: string, dir: string, name: string, verb: string)
    requires url == "/../public-secret/key.json" && publicDir == "/srv/public" && full == "/srv/public-secret/key.json"
    requires dir == "/srv/public-secret" && name == "key.json" && verb == "GET"
    requires join(publicDir, url) == full
    ensures RouteOf(url, verb, publicDir, join) == Static(full, "application/json")
    ensures RouteOfIntended(url, verb, publicDir, join) == Forbidden
  {
    SiblingPassesPrefixTest();
    assert |url| != |WebglPath| && |url| != |ClientHintsPath| && |url| != 1;
    assert full == dir + "/" + name;
    ContentTypeInDir(dir, name);
    JsonType(name);
    FileLookup(url, verb, publicDir, join, InsidePublicAsWritten, url, full);
    FileLookup(url, verb, publicDir, join, InsidePublic, url, full);
  }

  lemma JsonType(name: string)
    requires name == "key.json"
    ensures ContentType(name) == "application/json"
  {
    JsonExtension(name, ".json");
  }

  lemma JsonExtension(name: string, ext: string)
    requires name == "key.json" && ext == ".json"
    ensures Extname(name) == ext
  {
    ExtnameOfName(name, 3);
    assert name[3..] == ext;
  }

  /** Under the test meant, a static route only ever names a file inside the public directory. */
  lemma StaticStaysInside(url: string, verb: string, publicDir: string, join: (string, string) -> string)
    ensures var r := RouteOfIntended(url, verb, publicDir, join);
            r.Static? ==> r.fullPath == publicDir || (|r.fullPath| > |publicDir| && r.fullPath[..|publicDir| + 1] == publicDir + "/")
  {
  }

  /**
   * The corrected test changes a route only by refusing a file the written
   * test would serve, one outside the public directory.
   */
  lemma IntendedOnlyForbidsMore(url: string, verb: string, publicDir: string, join: (string, string) -> string)
    ensures var w, i := RouteOf(url, verb, publicDir, join), RouteOfIntended(url, verb, publicDir, join);
            w != i ==> i == Forbidden && w.Static? && !InsidePublic(w.fullPath, publicDir)
  {
    var w, i := RouteOf(url, verb, publicDir, join), RouteOfIntended(url, verb, publicDir, join);
    if w != i {
      var full := join(publicDir, if url == "/" then "/index.html" else url);
      InsidePublicSound(full, publicDir);
    }
  }

  /** A parsed JSON value, numbers as integers. */
  datatype Json = JNull | JBool(b: bool) | JNum(n: int) | JStr(s: string) | JArr(items: seq<Json>) | JObj(fields: map<string, Json>)

  /** JavaScript truthiness of a value read from the body; `None` is `undefined`. */
  predicate JsonTruthy(v: Option<Json>)
  {
    match v
    case None => false
    case Some(j) =>
      match j
      case JNull => false
      case JBool(b) => b
      case JNum(n) => n != 0
      case JStr(s) => s != ""
      case JArr(_) => true
      case JObj(_) => true
  }

  /** A property read `data.key`: a field of an object, `undefined` on any other value. */
  function Field(j: Json, key: string): Option<Json>
  {
    if j.JObj? && key in j.fields then Some(j.fields[key]) else None
  }

  datatype ControlReply = ControlReply(status: int, success: bool, action: Option<Json>, enabled: Option<Json>, message: string)

  /**
   * The reply to a WebGL control body (`None` when it is not JSON). A body of
   * `null` cannot be destructured, so it is rejected like invalid JSON.
   */
  function ControlReplyOf(body: Option<Json>): (r: ControlReply)
  {
    match body
    case None => ControlReply(400, false, None, None, "Invalid JSON payload")
    case Some(JNull) => ControlReply(400, false, None, None, "Invalid JSON payload")
    case Some(data) =>
      var action, enabled := Field(data, "action"), Field(data, "enabled");
      ControlReply(200, true, action, enabled, "WebGL " + (if JsonTruthy(enabled) then "enabled" else "disabled") + " successfully")
  }

  /**
   * A parsed body is answered with success and its own `action` and
   * `enabled`, the message saying "enabled" exactly when `enabled` is
   * truthy; anything unparsable gets 400 without success.
   */
  lemma ControlReplyShape(body: Option<Json>)
    ensures var r := ControlReplyOf(body);
            (r.status == 200 <==> r.success) && (r.status == 200 || r.status == 400)
            && (r.success <==> body.Some? && body.value != JNull)
            && (r.success ==> r.action == Field(body.value, "action") && r.enabled == Field(body.value, "enabled")
                               && (r.message == "WebGL enabled successfully" <==> JsonTruthy(r.enabled)))
  {
    var r := ControlReplyOf(body);
    if r.success && !JsonTruthy(r.enabled) {
      assert r.message[6] == 'd';
    }
  }
}
