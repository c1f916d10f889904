/** Canonical job URLs. Parsing follows urllib.parse of CPython 3.12.4 and later on strings without IP literals (before
    3.12.4 urlunsplit lost the empty authority in front of a path with two leading slashes); percent-decoding of query
    parameters is not modelled, so the lemmas ask for queries without '%' and '+'. */
module JobUrl {
  import opened Options
  import opened PyText

  const TRACKING_PARAMS: set<string> := {
    "utm_source", "utm_medium", "utm_campaign", "utm_term", "utm_content", "ref", "refid", "trackingid", "src",
    "gh_src", "lever-source"
  }

  const USES_PARAMS: set<string> := {
    "", "ftp", "hdl", "prospero", "http", "imap", "https", "shttp", "rtsp", "rtsps", "rtspu", "sip", "sips", "mms",
    "sftp", "tel"
  }

  const USES_NETLOC: set<string> := {
    "", "ftp", "http", "gopher", "nntp", "telnet", "imap", "wais", "file", "mms", "https", "shttp", "snews",
    "prospero", "rtsp", "rtsps", "rtspu", "rsync", "svn", "svn+ssh", "sftp", "nfs", "git", "git+ssh", "ws", "wss",
    "itms-services"
  }

  const VIEW_PATH := "/jobs/view/"
  const LINKEDIN_VIEW := "https://www.linkedin.com/jobs/view/"

  const LINKEDIN_HOST := "www.linkedin.com"

  function LinkedInUrl(id: string): string {
    LINKEDIN_VIEW + id + "/"
  }

  // ---------------------------------------------------------------------------------------------
  // urlparse
  // ---------------------------------------------------------------------------------------------

  datatype Parts = Parts(scheme: string, netloc: string, path: string, query: string)

  predicate IsAlpha(c: char) {
    'a' <= c <= 'z' || 'A' <= c <= 'Z'
  }

  predicate IsDigit(c: char) {
    '0' <= c <= '9'
  }

  predicate IsSchemeChar(c: char) {
    IsAlpha(c) || IsDigit(c) || c == '+' || c == '-' || c == '.'
  }

  predicate IsScheme(s: string) {
    s != "" && IsAlpha(s[0]) && forall i :: 0 <= i < |s| ==> IsSchemeChar(s[i])
  }

  /** Tabs and line ends are dropped wherever they stand. */
  function DropUnsafe(s: string): string {
    if s == "" then "" else
    if s[0] == '\t' || s[0] == '\r' || s[0] == '\n' then DropUnsafe(s[1..]) else [s[0]] + DropUnsafe(s[1..])
  }

  function LStripControls(s: string): string {
    if s != "" && s[0] <= ' ' then LStripControls(s[1..]) else s
  }

  predicate EndsNetloc(c: char) {
    c == '/' || c == '?' || c == '#'
  }

  function NetlocPrefix(s: string): (r: string)
    ensures |r| <= |s| && r == s[..|r|] && (forall i :: 0 <= i < |r| ==> !EndsNetloc(r[i]))
    ensures |r| < |s| ==> EndsNetloc(s[|r|])
  {
    if s == "" || EndsNetloc(s[0]) then "" else [s[0]] + NetlocPrefix(s[1..])
  }

  /** s.rfind(c), or -1. */
  function LastIndex(s: string, c: char): (r: int)
    ensures -1 <= r < |s|
    ensures r >= 0 ==> s[r] == c
    ensures forall i :: r < i < |s| ==> s[i] != c
  {
    if s == "" then -1 else if s[|s| - 1] == c then |s| - 1 else LastIndex(s[..|s| - 1], c)
  }

  /** Parameters belong to the last path segment and are cut off. */
  function DropParams(path: string): string {
    var j := LastIndex(path, '/');
    if j < 0 then Before(path, ';') else path[..j] + Before(path[j..], ';')
  }

  /** The lower-cased scheme, if the text up to the first colon is one, and the rest. */
  function SplitScheme(u: string): (string, string) {
    var head := Before(u, ':');
    if |head| < |u| && IsScheme(head) then (LowerText(head), u[|head| + 1..]) else ("", u)
  }

  /** The authority after a leading double slash, and the rest. */
  function SplitNetloc(rest: string): (string, string) {
    if DoubleSlashed(rest) then
      var netloc := NetlocPrefix(rest[2..]);
      (netloc, rest[2..][|netloc|..])
    else ("", rest)
  }

  function UrlSplit(url: string): Parts {
    var (scheme, rest) := SplitScheme(DropUnsafe(LStripControls(url)));
    var (netloc, located) := SplitNetloc(rest);
    var target := Before(located, '#');
    Parts(scheme, netloc, Before(target, '?'), After(target, '?'))
  }

  predicate UsesParams(scheme: string) {
    scheme in USES_PARAMS
  }

  function UrlParse(url: string): Parts {
    var p := UrlSplit(url);
    if UsesParams(p.scheme) then p.(path := DropParams(p.path)) else p
  }

  function HostInfo(netloc: string): string {
    Before(netloc[LastIndex(netloc, '@') + 1..], ':')
  }

  /** ParseResult.hostname, with "" for None: user information and port are cut off, a zone keeps its case. */
  function Hostname(netloc: string): string {
    var host := HostInfo(netloc);
    var name := Before(host, '%');
    LowerText(name) + host[|name|..]
  }

  /** parsed.hostname.lower() */
  function CanonicalHost(netloc: string): string {
    LowerText(Hostname(netloc))
  }

  type Pair = (string, string)

  function ParsePair(field: string): Pair {
    (Before(field, '='), After(field, '='))
  }

  function PairOf(field: string): seq<Pair> {
    if field == "" then [] else [ParsePair(field)]
  }

  function PairsOf(fields: seq<string>): seq<Pair> {
    if fields == [] then [] else PairOf(fields[0]) + PairsOf(fields[1..])
  }

  /** parse_qsl with keep_blank_values, without percent-decoding. */
  function ParseQuery(query: string): seq<Pair> {
    if query == "" then [] else PairsOf(Split(query, '&'))
  }

  // ---------------------------------------------------------------------------------------------
  // normalize_job_url
  // ---------------------------------------------------------------------------------------------

  function DigitPrefix(s: string): (r: string)
    ensures |r| <= |s| && r == s[..|r|] && (forall i :: 0 <= i < |r| ==> IsDigit(r[i]))
    ensures |r| < |s| ==> !IsDigit(s[|r|])
  {
    if s == "" || !IsDigit(s[0]) then "" else [s[0]] + DigitPrefix(s[1..])
  }

  predicate ViewAt(path: string, i: nat) {
    MatchesAt(path, VIEW_PATH, i) && i + |VIEW_PATH| < |path| && IsDigit(path[i + |VIEW_PATH|])
  }

  /** re.search for /jobs/view/ followed by digits: the digits of the leftmost match. */
  function ViewId(path: string, from: nat): (r: Option<string>)
    requires from <= |path|
    ensures r.None? ==> forall i: nat :: from <= i ==> !ViewAt(path, i)
    ensures r.Some? ==> exists i: nat :: from <= i && ViewAt(path, i) && r.value == DigitPrefix(path[i + |VIEW_PATH|..])
                                        && forall j: nat :: from <= j < i ==> !ViewAt(path, j)
    decreases |path| - from
  {
    if from == |path| then None
    else if ViewAt(path, from) then Some(DigitPrefix(path[from + |VIEW_PATH|..]))
    else ViewId(path, from + 1)
  }

  /** The first non-empty currentJobId. */
  function CurrentJobId(pairs: seq<Pair>): Option<string> {
    if pairs == [] then None
    else if pairs[0].0 == "currentJobId" && pairs[0].1 != "" then Some(pairs[0].1)
    else CurrentJobId(pairs[1..])
  }

  function LinkedInId(parts: Parts): Option<string> {
    var fromPath := ViewId(parts.path, 0);
    if fromPath.Some? then fromPath else CurrentJobId(ParseQuery(parts.query))
  }

  predicate IsTracking(key: string) {
    LowerText(key) in TRACKING_PARAMS
  }

  function Untracked(pair: Pair): seq<Pair> {
    if IsTracking(pair.0) then [] else [pair]
  }

  function DropTracking(pairs: seq<Pair>): seq<Pair> {
    if pairs == [] then [] else Untracked(pairs[0]) + DropTracking(pairs[1..])
  }

  function FieldsOf(pairs: seq<Pair>): seq<string> {
    seq(|pairs|, i requires 0 <= i < |pairs| => pairs[i].0 + "=" + pairs[i].1)
  }

  function RStripSlashes(path: string): (r: string)
    ensures |r| <= |path| && r == path[..|r|]
    ensures r == "" || r[|r| - 1] != '/'
    ensures forall i :: |r| <= i < |path| ==> path[i] == '/'
  {
    if path != "" && path[|path| - 1] == '/' then RStripSlashes(path[..|path| - 1]) else path
  }

  function CanonicalPath(path: string): string {
    var p := RStripSlashes(path);
    if p == "" then "/" else p
  }

  predicate UsesNetloc(scheme: string) {
    scheme in USES_NETLOC
  }

  predicate DoubleSlashed(path: string) {
    |path| >= 2 && path[..2] == "//"
  }

  /** urlunparse without params and fragment. A missing authority is written as an empty one where the path could
      be taken for one, and for the schemes that use one. */
  function UrlUnparse(scheme: string, netloc: string, path: string, query: string): string {
    var slashed := if path != "" && path[0] != '/' then "/" + path else path;
    var bare := DoubleSlashed(path) || (scheme != "" && UsesNetloc(scheme) && (path == "" || path[0] == '/'));
    var full := if netloc != "" then "//" + netloc + slashed else if bare then "//" + path else path;
    (if scheme != "" then scheme + ":" else "") + full + (if query != "" then "?" + query else "")
  }

  function NormalizeRaw(raw: string): string {
    var parts := UrlParse(raw);
    var id := LinkedInId(parts);
    if id.Some? then LinkedInUrl(id.value)
    else if parts.scheme == "" || parts.netloc == "" then raw
    else
      UrlUnparse(parts.scheme, CanonicalHost(parts.netloc), CanonicalPath(parts.path),
                 Join(FieldsOf(DropTracking(ParseQuery(parts.query))), '&'))
  }

  function NormalizeJobUrl(url: Option<string>): Option<string> {
    if url.None? || Strip(url.value) == "" then None else Some(NormalizeRaw(Strip(url.value)))
  }

  // ---------------------------------------------------------------------------------------------
  // Parsing a URL that was put together from its parts
  // ---------------------------------------------------------------------------------------------

  predicate IsPlainChar(c: char) {
    '!' <= c <= '~' && c != '[' && c != ']'
  }

  predicate AllPlain(s: string) {
    forall i :: 0 <= i < |s| ==> IsPlainChar(s[i])
  }

  lemma {:induction false} PlainKeepsAll(s: string)
    requires AllPlain(s)
    ensures DropUnsafe(s) == s
  {
    if s != "" {
      PlainKeepsAll(s[1..]);
    }
  }

  lemma PlainIsUntouched(s: string)
    requires AllPlain(s)
    ensures DropUnsafe(LStripControls(s)) == s && Strip(s) == s
  {
    assert LStripControls(s) == s;
    PlainKeepsAll(s);
    assert Trimmed(s);
    StripTrims(s);
  }

  lemma {:induction false} NetlocPrefixConcat(a: string, b: string)
    requires forall i :: 0 <= i < |a| ==> !EndsNetloc(a[i])
    requires b == "" || EndsNetloc(b[0])
    ensures NetlocPrefix(a + b) == a
  {
    if a == "" {
      assert a + b == b;
    } else {
      NetlocPrefixConcat(a[1..], b);
      assert (a + b)[1..] == a[1..] + b;
    }
  }

  /** What may follow the authority: a path, perhaps a query, perhaps a fragment. */
  predicate IsPath(path: string) {
    (path == "" || path[0] == '/') && '?' !in path && '#' !in path
  }

  predicate IsNetloc(netloc: string) {
    forall i :: 0 <= i < |netloc| ==> !EndsNetloc(netloc[i])
  }

  function OptionalPart(mark: char, part: Option<string>): string {
    if part.None? then "" else [mark] + part.value
  }

  function Located(path: string, query: Option<string>, fragment: Option<string>): string {
    path + OptionalPart('?', query) + OptionalPart('#', fragment)
  }

  function Compose(scheme: string, netloc: string, path: string, query: Option<string>,
                   fragment: Option<string>): string {
    scheme + ":" + ("//" + (netloc + Located(path, query, fragment)))
  }

  lemma SplitSchemeConcat(scheme: string, rest: string)
    requires IsScheme(scheme)
    ensures SplitScheme(scheme + ":" + rest) == (LowerText(scheme), rest)
  {
    BeforeConcat(scheme, ':', rest);
    SplitConcat(scheme + ":", rest);
  }

  lemma SplitNetlocConcat(netloc: string, located: string)
    requires IsNetloc(netloc) && (located == "" || EndsNetloc(located[0]))
    ensures SplitNetloc("//" + (netloc + located)) == (netloc, located)
  {
    SplitConcat("//", netloc + located);
    SplitConcat(netloc, located);
    NetlocPrefixConcat(netloc, located);
  }

  lemma LocatedStart(path: string, query: Option<string>, fragment: Option<string>)
    requires IsPath(path)
    ensures Located(path, query, fragment) == "" || EndsNetloc(Located(path, query, fragment)[0])
  {
    if path == "" && query.None? {
      assert Located(path, query, fragment) == OptionalPart('#', fragment);
    }
  }

  lemma CutLocated(path: string, query: Option<string>, fragment: Option<string>)
    requires IsPath(path) && (query.Some? ==> '#' !in query.value)
    ensures var target := Before(Located(path, query, fragment), '#');
            && Before(target, '?') == path
            && After(target, '?') == if query.Some? then query.value else ""
  {
    var target := path + OptionalPart('?', query);
    CutComposed(target, '#', fragment);
    CutComposed(path, '?', query);
  }

  lemma SplitComposed(u: string, scheme: string, netloc: string, path: string, query: Option<string>,
                      fragment: Option<string>)
    requires IsScheme(scheme) && IsNetloc(netloc) && IsPath(path) && (query.Some? ==> '#' !in query.value)
    requires u == Compose(scheme, netloc, path, query, fragment) && AllPlain(u)
    ensures UrlSplit(u) == Parts(LowerText(scheme), netloc, path, if query.Some? then query.value else "")
  {
    PlainIsUntouched(u);
    SplitComposedClean(u, scheme, netloc, path, query, fragment);
  }

  lemma SplitComposedClean(u: string, scheme: string, netloc: string, path: string, query: Option<string>,
                           fragment: Option<string>)
    requires IsScheme(scheme) && IsNetloc(netloc) && IsPath(path) && (query.Some? ==> '#' !in query.value)
    requires u == Compose(scheme, netloc, path, query, fragment) && DropUnsafe(LStripControls(u)) == u
    ensures UrlSplit(u) == Parts(LowerText(scheme), netloc, path, if query.Some? then query.value else "")
  {
    var located := Located(path, query, fragment);
    LocatedStart(path, query, fragment);
    SplitAt(u, scheme, netloc, located);
    CutLocated(path, query, fragment);
  }

  lemma SplitAt(u: string, scheme: string, netloc: string, located: string)
    requires DropUnsafe(LStripControls(u)) == u && u == scheme + ":" + ("//" + (netloc + located))
    requires IsScheme(scheme) && IsNetloc(netloc) && (located == "" || EndsNetloc(located[0]))
    ensures UrlSplit(u) == Parts(LowerText(scheme), netloc,
                                 Before(Before(located, '#'), '?'), After(Before(located, '#'), '?'))
  {
    SplitSchemeConcat(scheme, "//" + (netloc + located));
    SplitNetlocConcat(netloc, located);
  }

  lemma CutComposed(head: string, mark: char, part: Option<string>)
    requires mark !in head
    ensures Before(head + OptionalPart(mark, part), mark) == head
    ensures After(head + OptionalPart(mark, part), mark) == if part.Some? then part.value else ""
  {
    if part.None? {
      BeforeAbsent(head, mark);
      assert head + "" == head;
    } else {
      BeforeConcat(head, mark, part.value);
      ConcatAssoc(head, [mark], part.value);
    }
  }

  ghost predicate PlainParts(p: Parts) {
    && (p.scheme != "" ==> IsScheme(p.scheme) && LowerText(p.scheme) == p.scheme)
    && IsNetloc(p.netloc) && AllPlain(p.scheme) && AllPlain(p.netloc) && AllPlain(p.path) && AllPlain(p.query)
    && (p.netloc != "" ==> IsPath(p.path))
    && '#' !in p.query
  }

  lemma SplitSchemeFacts(u: string)
    requires AllPlain(u)
    ensures var (scheme, rest) := SplitScheme(u);
            && (scheme != "" ==> IsScheme(scheme) && LowerText(scheme) == scheme)
            && AllPlain(scheme) && AllPlain(rest)
  {
    LowerTwice(Before(u, ':'));
  }

  lemma SplitNetlocFacts(rest: string)
    requires AllPlain(rest)
    ensures var (netloc, located) := SplitNetloc(rest);
            && IsNetloc(netloc) && AllPlain(netloc) && AllPlain(located)
            && (netloc != "" ==> located == "" || EndsNetloc(located[0]))
  {
  }

  lemma TargetFacts(located: string)
    requires AllPlain(located)
    ensures var target := Before(located, '#');
            && AllPlain(Before(target, '?')) && AllPlain(After(target, '?'))
            && '#' !in After(target, '?') && '#' !in Before(target, '?')
            && (located == "" || EndsNetloc(located[0]) ==> IsPath(Before(target, '?')))
  {
  }

  lemma DropParamsFacts(path: string)
    requires AllPlain(path)
    ensures AllPlain(DropParams(path)) && (IsPath(path) ==> IsPath(DropParams(path)))
  {
  }

  /** What parsing a plain URL yields. */
  lemma ParsedFacts(u: string)
    requires AllPlain(u)
    ensures PlainParts(UrlParse(u))
  {
    PlainIsUntouched(u);
    var (scheme, rest) := SplitScheme(u);
    SplitSchemeFacts(u);
    var (netloc, located) := SplitNetloc(rest);
    SplitNetlocFacts(rest);
    TargetFacts(located);
    DropParamsFacts(UrlSplit(u).path);
  }

  // ---------------------------------------------------------------------------------------------
  // Queries survive a round trip
  // ---------------------------------------------------------------------------------------------

  /** What the parts of a parsed query parameter look like. */
  ghost predicate PairOk(p: Pair) {
    && '=' !in p.0 && '&' !in p.0 && '#' !in p.0 && '&' !in p.1 && '#' !in p.1
    && AllPlain(p.0) && AllPlain(p.1)
  }

  ghost predicate PairsOk(ps: seq<Pair>) {
    forall i :: 0 <= i < |ps| ==> PairOk(ps[i])
  }

  ghost predicate FieldOk(f: string) {
    '&' !in f && '#' !in f && AllPlain(f)
  }

  lemma {:induction false} PairsOfOk(fields: seq<string>)
    requires forall i :: 0 <= i < |fields| ==> FieldOk(fields[i])
    ensures PairsOk(PairsOf(fields))
  {
    if fields != [] {
      PairsOfOk(fields[1..]);
      assert FieldOk(fields[0]);
    }
  }

  lemma {:induction false} SplitFieldsOk(query: string)
    requires AllPlain(query) && '#' !in query
    ensures forall i :: 0 <= i < |Split(query, '&')| ==> FieldOk(Split(query, '&')[i])
    decreases |query|
  {
    var head := Before(query, '&');
    if head != query {
      SplitFieldsOk(query[|head| + 1..]);
    }
  }

  lemma ParseQueryOk(query: string)
    requires AllPlain(query) && '#' !in query
    ensures PairsOk(ParseQuery(query))
  {
    SplitFieldsOk(query);
    PairsOfOk(Split(query, '&'));
  }

  lemma PairRoundTrip(p: Pair)
    requires '=' !in p.0
    ensures ParsePair(p.0 + "=" + p.1) == p
  {
    BeforeConcat(p.0, '=', p.1);
  }

  lemma {:induction false} PairsRoundTrip(ps: seq<Pair>)
    requires PairsOk(ps)
    ensures PairsOf(FieldsOf(ps)) == ps
  {
    if ps != [] {
      PairsRoundTrip(ps[1..]);
      PairRoundTrip(ps[0]);
      assert FieldsOf(ps)[1..] == FieldsOf(ps[1..]);
      assert FieldsOf(ps)[0] == ps[0].0 + "=" + ps[0].1;
    }
  }

  function JoinPairs(ps: seq<Pair>): string {
    Join(FieldsOf(ps), '&')
  }

  lemma FieldsFacts(ps: seq<Pair>)
    requires PairsOk(ps)
    ensures forall i :: 0 <= i < |ps| ==> FieldOk(FieldsOf(ps)[i]) && FieldsOf(ps)[i] != ""
  {
    forall i | 0 <= i < |ps| ensures FieldOk(FieldsOf(ps)[i]) && FieldsOf(ps)[i] != "" {
      assert PairOk(ps[i]);
    }
  }

  lemma JoinPairsFacts(ps: seq<Pair>)
    requires PairsOk(ps)
    ensures AllPlain(JoinPairs(ps)) && '#' !in JoinPairs(ps)
    ensures JoinPairs(ps) == "" <==> ps == []
  {
    FieldsFacts(ps);
    var fields := FieldsOf(ps);
    JoinChars(fields, '&', c => IsPlainChar(c) && c != '#');
    if |ps| == 1 {
      assert Join(fields, '&') == fields[0];
    } else if |ps| > 1 {
      assert Join(fields, '&') == fields[0] + ['&'] + Join(fields[1..], '&');
    }
  }

  lemma QueryRoundTrip(ps: seq<Pair>)
    requires PairsOk(ps)
    ensures ParseQuery(JoinPairs(ps)) == ps
  {
    JoinPairsFacts(ps);
    if ps != [] {
      FieldsFacts(ps);
      SplitJoin(FieldsOf(ps), '&');
      PairsRoundTrip(ps);
    }
  }

  lemma {:induction false} DropTrackingFacts(ps: seq<Pair>)
    ensures DropTracking(DropTracking(ps)) == DropTracking(ps)
    ensures PairsOk(ps) ==> PairsOk(DropTracking(ps))
    ensures CurrentJobId(DropTracking(ps)) == CurrentJobId(ps)
  {
    if ps != [] {
      DropTrackingFacts(ps[1..]);
      var rest := DropTracking(ps[1..]);
      CurrentJobIdIsNotTracking();
      if IsTracking(ps[0].0) {
        assert DropTracking(ps) == rest;
      } else {
        assert DropTracking(ps) == [ps[0]] + rest;
        assert ([ps[0]] + rest)[1..] == rest;
      }
    }
  }

  lemma CurrentJobIdIsNotTracking()
    ensures !IsTracking("currentJobId")
  {
    assert LowerText("currentJobId") == "currentjobid";
  }

  // ---------------------------------------------------------------------------------------------
  // Idempotence
  // ---------------------------------------------------------------------------------------------

  lemma LowerHost(name: string, zone: string)
    requires '%' !in name && '@' !in name && ':' !in name && '@' !in zone && ':' !in zone
    requires zone == "" || zone[0] == '%'
    ensures Hostname(LowerText(name) + zone) == LowerText(name) + zone
  {
    var low := LowerText(name);
    var h := low + zone;
    assert LastIndex(h, '@') == -1;
    assert h[0..] == h;
    BeforeAbsent(h, ':');
    LowerTwice(name);
    LowerBefore(low, zone);
    SplitConcat(low, zone);
  }

  lemma LowerBefore(low: string, zone: string)
    requires '%' !in low && (zone == "" || zone[0] == '%')
    ensures Before(low + zone, '%') == low
  {
    if zone == "" {
      BeforeAbsent(low, '%');
      assert low + zone == low;
    } else {
      BeforeConcat(low, '%', zone[1..]);
      ConcatAssoc(low, ['%'], zone[1..]);
      assert ['%'] + zone[1..] == zone;
    }
  }

  lemma HostFacts(netloc: string)
    requires IsNetloc(netloc) && AllPlain(netloc)
    ensures CanonicalHost(CanonicalHost(netloc)) == CanonicalHost(netloc)
    ensures IsNetloc(CanonicalHost(netloc)) && AllPlain(CanonicalHost(netloc))
  {
    HostInfoFacts(netloc);
    var host := HostInfo(netloc);
    var name := Before(host, '%');
    PlainSlices(host, |name|);
    TailLacks(host, |name|, '@');
    TailLacks(host, |name|, ':');
    LowerHostInfo(name, host[|name|..], Hostname(netloc));
  }

  lemma LowerHostInfo(name: string, zone: string, h: string)
    requires IsNetloc(name) && AllPlain(name) && '@' !in name && ':' !in name && '%' !in name
    requires IsNetloc(zone) && AllPlain(zone) && '@' !in zone && ':' !in zone && (zone == "" || zone[0] == '%')
    requires h == LowerText(name) + zone
    ensures var lower := LowerText(h); CanonicalHost(lower) == lower && IsNetloc(lower) && AllPlain(lower)
  {
    LowerConcat(LowerText(name), zone);
    LowerTwice(name);
    LowerTwice(h);
    LowerLacks(zone);
    LowerHost(name, LowerText(zone));
    LowerPlain(name);
    LowerPlain(zone);
    PlainConcat(LowerText(name), LowerText(zone));
  }

  lemma LowerConcat(a: string, b: string)
    ensures LowerText(a + b) == LowerText(a) + LowerText(b)
  {
  }

  lemma LowerLacks(zone: string)
    requires '@' !in zone && ':' !in zone && (zone == "" || zone[0] == '%')
    ensures '@' !in LowerText(zone) && ':' !in LowerText(zone) && (zone == "" || LowerText(zone)[0] == '%')
  {
  }

  lemma PlainSlices(s: string, k: nat)
    requires k <= |s|
    ensures AllPlain(s) ==> AllPlain(s[..k]) && AllPlain(s[k..])
    ensures IsNetloc(s) ==> IsNetloc(s[..k]) && IsNetloc(s[k..])
  {
  }

  lemma AfterLast(s: string, c: char)
    ensures c !in s[LastIndex(s, c) + 1..]
  {
    TailLacks(s, LastIndex(s, c) + 1, c);
  }

  lemma TailLacks(s: string, j: nat, c: char)
    requires j <= |s| && forall i :: j <= i < |s| ==> s[i] != c
    ensures c !in s[j..]
  {
  }

  lemma HostInfoFacts(netloc: string)
    requires IsNetloc(netloc) && AllPlain(netloc)
    ensures var host := HostInfo(netloc); IsNetloc(host) && AllPlain(host) && '@' !in host && ':' !in host
  {
    AfterLast(netloc, '@');
    var info := netloc[LastIndex(netloc, '@') + 1..];
    PlainSlices(netloc, LastIndex(netloc, '@') + 1);
    PlainSlices(info, |HostInfo(netloc)|);
    assert forall c :: c in HostInfo(netloc) ==> c in info;
  }

  lemma LowerPlain(name: string)
    requires AllPlain(name) && IsNetloc(name)
    ensures AllPlain(LowerText(name)) && IsNetloc(LowerText(name))
  {
  }

  lemma PlainConcat(a: string, b: string)
    requires AllPlain(a) && AllPlain(b)
    ensures AllPlain(a + b)
    ensures IsNetloc(a) && IsNetloc(b) ==> IsNetloc(a + b)
  {
  }

  lemma PrefixViewAt(path: string, k: nat, i: nat)
    requires k <= |path| && ViewAt(path[..k], i)
    ensures ViewAt(path, i)
  {
    assert path[..k][i..i + |VIEW_PATH|] == path[i..i + |VIEW_PATH|];
  }

  lemma CanonicalPathFacts(path: string)
    requires IsPath(path) && AllPlain(path)
    ensures var p := CanonicalPath(path);
            && IsPath(p) && p != "" && AllPlain(p) && CanonicalPath(p) == p
            && (';' !in path ==> DropParams(p) == p)
            && (forall i: nat :: ViewAt(p, i) ==> ViewAt(path, i))
  {
    var p := CanonicalPath(path);
    if RStripSlashes(path) != "" {
      assert RStripSlashes(p) == p;
      forall i: nat | ViewAt(p, i) ensures ViewAt(path, i) {
        PrefixViewAt(path, |p|, i);
      }
    }
    if ';' !in path {
      PathWithoutParams(p);
    }
  }

  lemma PathWithoutParams(p: string)
    requires ';' !in p
    ensures DropParams(p) == p
  {
    var j := LastIndex(p, '/');
    if j < 0 {
      BeforeAbsent(p, ';');
    } else {
      NoParamsAfter(p, j);
    }
  }

  lemma NoParamsAfter(p: string, j: nat)
    requires j <= |p| && ';' !in p
    ensures p[..j] + Before(p[j..], ';') == p
  {
    TailLacks(p, j, ';');
    BeforeAbsent(p[j..], ';');
  }

  /** The URLs the idempotence law speaks about: printable ASCII without whitespace, no IP literal, no parameters
      in the path, no encoded or plus-encoded query. */
  predicate Plain(u: string) {
    var p := UrlParse(u);
    && AllPlain(u)
    && ';' !in p.path
    && '%' !in p.query && '+' !in p.query
  }

  predicate IsDecimal(s: string) {
    forall i :: 0 <= i < |s| ==> IsDigit(s[i])
  }

  /** No parameter is tracked, empty or without a value sign. */
  predicate CanonicalQuery(query: string) {
    forall i :: 0 <= i < |Split(query, '&')| ==>
      '=' in Split(query, '&')[i] && !IsTracking(ParsePair(Split(query, '&')[i]).0)
  }

  /** A job id that the URL built on it is read back as: a number; or a text with a question mark, which then starts
      the query of that URL, if neither side of it names a job and both are in canonical form. */
  predicate StableId(id: string) {
    if '?' !in id then IsDecimal(id) else
      var path, query := VIEW_PATH + Before(id, '?'), After(id, '?') + "/";
      && ViewId(path, 0).None? && CurrentJobId(ParseQuery(query)).None?
      && path[|path| - 1] != '/' && DropParams(path) == path
      && CanonicalQuery(query)
  }

  /** A LinkedIn id that comes from the query is one of those; one that comes from the path always is. */
  predicate StableJobId(u: string) {
    var p := UrlParse(u);
    var id := CurrentJobId(ParseQuery(p.query));
    ViewId(p.path, 0).None? && id.Some? ==> StableId(id.value)
  }

  lemma {:induction false} DigitPrefixConcat(id: string, rest: string)
    requires IsDecimal(id) && (rest == "" || !IsDigit(rest[0]))
    ensures DigitPrefix(id + rest) == id
  {
    if id == "" {
      assert id + rest == rest;
    } else {
      DigitPrefixConcat(id[1..], rest);
      assert (id + rest)[1..] == id[1..] + rest;
    }
  }

  lemma ViewIdOfCanonical(id: string)
    requires id != "" && IsDecimal(id)
    ensures ViewId(VIEW_PATH + (id + "/"), 0) == Some(id)
  {
    SplitConcat(VIEW_PATH, id + "/");
    DigitPrefixConcat(id, "/");
    assert ViewAt(VIEW_PATH + (id + "/"), 0);
  }

  lemma LinkedInSpelled()
    ensures LINKEDIN_VIEW == "https" + ":" + ("//" + (LINKEDIN_HOST + VIEW_PATH))
  {
  }

  /** A canonical LinkedIn URL parses into LinkedIn's host and the view path. */
  lemma ParseLinkedIn(v: string)
    requires AllPlain(v) && '?' !in v && '#' !in v
    ensures UrlParse(LinkedInUrl(v)) == Parts("https", LINKEDIN_HOST, VIEW_PATH + (v + "/"), "")
  {
    var u := LinkedInUrl(v);
    var path := VIEW_PATH + (v + "/");
    ComposeLinkedIn(v);
    SplitComposed(u, "https", LINKEDIN_HOST, path, None, None);
    assert LowerText("https") == "https";
    ConcatAssoc(VIEW_PATH, v, "/");
    LastSegmentEmpty(VIEW_PATH + v);
  }

  lemma ComposeLinkedIn(v: string)
    ensures LinkedInUrl(v) == Compose("https", LINKEDIN_HOST, VIEW_PATH + (v + "/"), None, None)
    ensures AllPlain(v) ==> AllPlain(LinkedInUrl(v))
  {
    LinkedInSpelled();
    LinkedInJoined("https", "//", LINKEDIN_HOST, VIEW_PATH, LINKEDIN_VIEW, v, "/");
    LinkedInIsPlain();
  }

  lemma LinkedInIsPlain()
    ensures AllPlain(LINKEDIN_VIEW) && AllPlain("/")
  {
  }

  lemma LinkedInJoined(scheme: string, marks: string, host: string, path: string, view: string, v: string, end: string)
    requires view == scheme + ":" + (marks + (host + path))
    ensures view + v + end == scheme + ":" + (marks + (host + Located(path + (v + end), None, None)))
  {
    var w := v + end;
    ConcatAssoc(view, v, end);
    ConcatAssoc(scheme + ":", marks + (host + path), w);
    ConcatAssoc(marks, host + path, w);
    ConcatAssoc(host, path, w);
    assert Located(path + w, None, None) == path + w;
  }

  lemma LastSegmentEmpty(p: string)
    ensures DropParams(p + "/") == p + "/"
  {
    var q := p + "/";
    assert LastIndex(q, '/') == |p|;
    assert q[|p|..] == "/";
    BeforeAbsent("/", ';');
  }

  lemma LinkedInIsStable(id: string)
    requires id != "" && IsDecimal(id)
    ensures NormalizeRaw(LinkedInUrl(id)) == LinkedInUrl(id)
  {
    ParseLinkedIn(id);
    ViewIdOfCanonical(id);
  }

  /** The canonical path and query of a URL, parsed again, are themselves, and still name no LinkedIn job. */
  lemma CanonicalParts(p: Parts, scheme: string, netloc: string)
    requires PlainParts(p) && p.netloc != "" && ';' !in p.path && LinkedInId(p).None?
    ensures var path, pairs := CanonicalPath(p.path), DropTracking(ParseQuery(p.query));
            var query := JoinPairs(pairs);
            && IsPath(path) && path != "" && AllPlain(path) && DropParams(path) == path && CanonicalPath(path) == path
            && AllPlain(query) && '#' !in query && JoinPairs(DropTracking(ParseQuery(query))) == query
            && LinkedInId(Parts(scheme, netloc, path, query)).None?
  {
    var path, pairs := CanonicalPath(p.path), DropTracking(ParseQuery(p.query));
    CanonicalPathFacts(p.path);
    ParseQueryOk(p.query);
    DropTrackingFacts(ParseQuery(p.query));
    JoinPairsFacts(pairs);
    QueryRoundTrip(pairs);
    assert ViewId(path, 0).None?;
  }

  lemma GeneralIsStable(p: Parts)
    requires PlainParts(p) && p.scheme != "" && p.netloc != "" && CanonicalHost(p.netloc) != "" && ';' !in p.path
    requires LinkedInId(p).None?
    ensures var n := UrlUnparse(p.scheme, CanonicalHost(p.netloc), CanonicalPath(p.path),
                                JoinPairs(DropTracking(ParseQuery(p.query))));
            AllPlain(n) && NormalizeRaw(n) == n
  {
    var host, path := CanonicalHost(p.netloc), CanonicalPath(p.path);
    var query := JoinPairs(DropTracking(ParseQuery(p.query)));
    HostFacts(p.netloc);
    CanonicalParts(p, p.scheme, host);
    UnparseComposes(p.scheme, host, path, query);
    ParseUnparsed(UrlUnparse(p.scheme, host, path, query), p.scheme, host, path, query);
  }

  lemma ParseUnparsed(n: string, scheme: string, host: string, path: string, query: string)
    requires n == Compose(scheme, host, path, if query == "" then None else Some(query), None)
    requires IsScheme(scheme) && LowerText(scheme) == scheme && AllPlain(scheme)
    requires IsNetloc(host) && AllPlain(host)
    requires IsPath(path) && path != "" && AllPlain(path) && DropParams(path) == path
    requires '#' !in query && AllPlain(query)
    ensures AllPlain(n) && UrlParse(n) == Parts(scheme, host, path, query)
  {
    var q := if query == "" then None else Some(query);
    var located := Located(path, q, None);
    assert AllPlain(located) by {
      PlainConcat(path, OptionalPart('?', q));
      PlainConcat(path + OptionalPart('?', q), "");
    }
    PlainConcat(host, located);
    PlainConcat("//", host + located);
    PlainConcat(scheme + ":", "//" + (host + located));
    SplitComposed(n, scheme, host, path, q, None);
  }

  lemma UnparseComposes(scheme: string, host: string, path: string, query: string)
    requires scheme != "" && host != "" && path != "" && path[0] == '/'
    ensures UrlUnparse(scheme, host, path, query) ==
            Compose(scheme, host, path, if query == "" then None else Some(query), None)
  {
    var tail := if query == "" then "" else "?" + query;
    assert Located(path, if query == "" then None else Some(query), None) == path + tail;
    ConcatAssoc(scheme + ":", "//" + host + path, tail);
    ConcatAssoc("//" + host, path, tail);
    ConcatAssoc("//", host, path + tail);
  }

  /** Without a host the canonical form has no authority, and is then left alone. */
  lemma HostlessIsStable(p: Parts)
    requires PlainParts(p) && p.scheme != "" && p.netloc != "" && CanonicalHost(p.netloc) == "" && ';' !in p.path
    requires LinkedInId(p).None?
    ensures var n := UrlUnparse(p.scheme, "", CanonicalPath(p.path), JoinPairs(DropTracking(ParseQuery(p.query))));
            AllPlain(n) && NormalizeRaw(n) == n
  {
    var path, query := CanonicalPath(p.path), JoinPairs(DropTracking(ParseQuery(p.query)));
    CanonicalParts(p, p.scheme, "");
    ParseHostless(UrlUnparse(p.scheme, "", path, query), p.scheme, path, query);
  }

  lemma ParseHostless(n: string, scheme: string, path: string, query: string)
    requires n == UrlUnparse(scheme, "", path, query)
    requires IsScheme(scheme) && LowerText(scheme) == scheme && AllPlain(scheme)
    requires IsPath(path) && path != "" && AllPlain(path) && DropParams(path) == path
    requires '#' !in query && AllPlain(query)
    ensures AllPlain(n) && UrlParse(n) == Parts(scheme, "", path, query)
  {
    var q := if query == "" then None else Some(query);
    if UsesNetloc(scheme) || DoubleSlashed(path) {
      UnparseHostless(scheme, path, query);
      ParseUnparsed(n, scheme, "", path, query);
    } else {
      UnparseBare(scheme, path, query);
      ParseBare(n, scheme, path, q);
    }
  }

  lemma LocatedIsTail(path: string, query: string)
    ensures Located(path, if query == "" then None else Some(query), None) ==
            path + if query == "" then "" else "?" + query
  {
  }

  lemma UnparseHostless(scheme: string, path: string, query: string)
    requires scheme != "" && (UsesNetloc(scheme) || DoubleSlashed(path)) && path != "" && path[0] == '/'
    ensures UrlUnparse(scheme, "", path, query) ==
            Compose(scheme, "", path, if query == "" then None else Some(query), None)
  {
    var tail := if query == "" then "" else "?" + query;
    LocatedIsTail(path, query);
    assert "//" + "" + path == "//" + path && "" + (path + tail) == path + tail;
    ConcatAssoc(scheme + ":", "//" + path, tail);
    ConcatAssoc("//", path, tail);
  }

  lemma UnparseBare(scheme: string, path: string, query: string)
    requires scheme != "" && !UsesNetloc(scheme) && !DoubleSlashed(path)
    ensures UrlUnparse(scheme, "", path, query)
         == scheme + ":" + Located(path, if query == "" then None else Some(query), None)
  {
    LocatedIsTail(path, query);
    ConcatAssoc(scheme + ":", path, if query == "" then "" else "?" + query);
  }

  lemma ParseBare(n: string, scheme: string, path: string, q: Option<string>)
    requires n == scheme + ":" + Located(path, q, None)
    requires IsScheme(scheme) && LowerText(scheme) == scheme && AllPlain(scheme)
    requires IsPath(path) && path != "" && AllPlain(path) && DropParams(path) == path && !DoubleSlashed(path)
    requires q.Some? ==> '#' !in q.value && AllPlain(q.value)
    ensures AllPlain(n) && UrlParse(n) == Parts(scheme, "", path, if q.Some? then q.value else "")
  {
    var located := Located(path, q, None);
    PlainConcat(path, OptionalPart('?', q));
    PlainConcat(path + OptionalPart('?', q), "");
    PlainConcat(scheme + ":", located);
    PlainIsUntouched(n);
    SplitSchemeConcat(scheme, located);
    NotDoubleSlashed(path, q);
    CutLocated(path, q, None);
  }

  lemma NotDoubleSlashed(path: string, q: Option<string>)
    requires path != "" && !DoubleSlashed(path)
    ensures !DoubleSlashed(Located(path, q, None))
  {
    var located := Located(path, q, None);
    assert located == path + OptionalPart('?', q);
    if |path| >= 2 {
      assert located[..2] == path[..2];
    } else if q.Some? {
      assert located[..2][1] == '?';
    }
  }

  // ---------------------------------------------------------------------------------------------
  // Exactly when normalising is not idempotent
  // ---------------------------------------------------------------------------------------------

  lemma ShorterId(v: string, d: string)
    requires v != "" && !IsDecimal(v) && ViewId(VIEW_PATH + (v + "/"), 0) == Some(d)
    ensures |d| < |v|
  {
    var path := VIEW_PATH + (v + "/");
    var i: nat :| ViewAt(path, i) && d == DigitPrefix(path[i + |VIEW_PATH|..]);
    ShorterIdAt(VIEW_PATH, v, i);
  }

  lemma ShorterIdAt(prefix: string, v: string, i: nat)
    requires v != "" && !IsDecimal(v) && i + |prefix| <= |prefix + (v + "/")|
    ensures |DigitPrefix((prefix + (v + "/"))[i + |prefix|..])| < |v|
  {
    var path := prefix + (v + "/");
    var rest := path[i + |prefix|..];
    if i == 0 {
      SplitConcat(prefix, v + "/");
      NonDecimalPrefix(v);
    } else if rest != "" {
      assert rest[|rest| - 1] == path[|path| - 1] == '/';
    }
  }

  lemma NonDecimalPrefix(v: string)
    requires !IsDecimal(v)
    ensures |DigitPrefix(v + "/")| < |v|
  {
    var d := DigitPrefix(v + "/");
    var k :| 0 <= k < |v| && !IsDigit(v[k]);
    assert (v + "/")[k] == v[k];
    assert d == (v + "/")[..|d|];
  }

  lemma HostIsNoLonger(netloc: string)
    ensures |CanonicalHost(netloc)| <= |netloc|
  {
  }

  lemma ComposedLength(scheme: string, host: string, path: string)
    ensures |Compose(scheme, host, path, None, None)| == |scheme| + 3 + |host| + |path|
  {
  }

  lemma NonNumericIsUnstable(v: string)
    requires v != "" && AllPlain(v) && '?' !in v && '#' !in v && !IsDecimal(v)
    ensures |NormalizeRaw(LinkedInUrl(v))| < |LinkedInUrl(v)|
  {
    var path := VIEW_PATH + (v + "/");
    ParseLinkedIn(v);
    ComposeLinkedIn(v);
    ComposedLength("https", LINKEDIN_HOST, path);
    var id := ViewId(path, 0);
    if id.Some? {
      ShorterId(v, id.value);
    } else {
      ShorterPath(path);
      ShortUnparse(CanonicalPath(path));
    }
  }

  lemma ShorterPath(path: string)
    requires |path| >= 2 && path[0] == '/' && path[|path| - 1] == '/'
    ensures |CanonicalPath(path)| < |path| && CanonicalPath(path)[0] == '/'
  {
  }

  lemma ShortUnparse(p: string)
    requires p != "" && p[0] == '/'
    ensures |UrlUnparse("https", CanonicalHost(LINKEDIN_HOST), p, "")| <= |"https"| + 3 + |LINKEDIN_HOST| + |p|
  {
    HostIsNoLonger(LINKEDIN_HOST);
  }

  lemma {:induction false} CurrentJobIdOk(pairs: seq<Pair>)
    requires PairsOk(pairs)
    ensures var id := CurrentJobId(pairs); id.Some? ==> id.value != "" && AllPlain(id.value) && '#' !in id.value
  {
    if pairs != [] {
      assert PairOk(pairs[0]);
      CurrentJobIdOk(pairs[1..]);
    }
  }

  lemma LinkedInInjective(v: string, w: string)
    ensures LinkedInUrl(v) == LinkedInUrl(w) ==> v == w
  {
    ConcatAssoc(LINKEDIN_VIEW, v, "/");
    ConcatAssoc(LINKEDIN_VIEW, w, "/");
    if LinkedInUrl(v) == LinkedInUrl(w) {
      SplitConcat(LINKEDIN_VIEW, v + "/");
      SplitConcat(LINKEDIN_VIEW, w + "/");
      assert v == (v + "/")[..|v + "/"| - 1] && w == (w + "/")[..|w + "/"| - 1];
    }
  }

  // An id with a question mark

  lemma QuestionedParts(id: string)
    requires '?' in id
    ensures id == Before(id, '?') + "?" + After(id, '?') && '?' !in Before(id, '?')
    ensures AllPlain(id) ==> AllPlain(Before(id, '?')) && AllPlain(After(id, '?'))
    ensures '#' !in id ==> '#' !in Before(id, '?') && '#' !in After(id, '?')
  {
    var head := Before(id, '?');
    assert head != id;
    assert id == head + "?" + id[|head| + 1..];
  }

  lemma ComposeQuestioned(id: string)
    requires '?' in id
    ensures LinkedInUrl(id) ==
            Compose("https", LINKEDIN_HOST, VIEW_PATH + Before(id, '?'), Some(After(id, '?') + "/"), None)
  {
    var a, b := Before(id, '?'), After(id, '?');
    ComposeLinkedIn(id);
    QuestionedParts(id);
    QuestionedLocated(VIEW_PATH, a, b, id);
  }

  lemma QuestionedLocated(path: string, a: string, b: string, id: string)
    requires id == a + "?" + b
    ensures Located(path + (id + "/"), None, None) == Located(path + a, Some(b + "/"), None)
  {
    ConcatAssoc(a + "?", b, "/");
    ConcatAssoc(a, "?", b + "/");
    ConcatAssoc(path, a, "?" + (b + "/"));
  }

  /** A URL built from canonical parts: a lower-case scheme, a host alone, a path and a query. */
  ghost predicate IsBuilt(n: string, scheme: string, host: string, path: string, query: string) {
    && IsScheme(scheme) && LowerText(scheme) == scheme && UsesParams(scheme)
    && IsNetloc(host) && host != "" && CanonicalHost(host) == host
    && IsPath(path) && AllPlain(path) && path != "" && query != "" && AllPlain(query) && '#' !in query
    && n == Compose(scheme, host, path, Some(query), None) && AllPlain(n)
  }

  lemma QuestionedIsBuilt(id: string)
    requires AllPlain(id) && '#' !in id && '?' in id
    ensures IsBuilt(LinkedInUrl(id), "https", LINKEDIN_HOST, VIEW_PATH + Before(id, '?'), After(id, '?') + "/")
  {
    ComposeLinkedIn(id);
    ComposeQuestioned(id);
    QuestionedParts(id);
    ViewPathIsPath(Before(id, '?'));
    NoMarkWithSlash(After(id, '?'));
    HttpsFacts();
    LinkedInHostFacts();
  }

  lemma NoMarkWithSlash(b: string)
    requires '#' !in b && AllPlain(b)
    ensures '#' !in b + "/" && AllPlain(b + "/")
  {
  }

  lemma HttpsFacts()
    ensures IsScheme("https") && LowerText("https") == "https" && UsesParams("https")
  {
    assert LowerText("https") == "https";
  }

  lemma LinkedInHostFacts()
    ensures IsNetloc(LINKEDIN_HOST) && CanonicalHost(LINKEDIN_HOST) == LINKEDIN_HOST
  {
    LowerCaseHost(LINKEDIN_HOST);
  }

  lemma LowerCaseHost(host: string)
    requires forall i :: 0 <= i < |host| ==> 'a' <= host[i] <= 'z' || host[i] == '.'
    ensures IsNetloc(host) && CanonicalHost(host) == host
  {
    LowerCaseStays(host);
    LowerHost(host, "");
    assert host + "" == host;
  }

  lemma LowerCaseStays(host: string)
    requires forall i :: 0 <= i < |host| ==> 'a' <= host[i] <= 'z' || host[i] == '.'
    ensures LowerText(host) == host && IsNetloc(host)
    ensures '%' !in host && '@' !in host && ':' !in host
  {
  }

  lemma ParseBuilt(n: string, scheme: string, host: string, path: string, query: string)
    requires IsBuilt(n, scheme, host, path, query)
    ensures UrlParse(n) == Parts(scheme, host, DropParams(path), query)
  {
    SplitComposed(n, scheme, host, path, Some(query), None);
  }

  lemma ViewPathIsPath(a: string)
    requires '?' !in a && '#' !in a && AllPlain(a)
    ensures IsPath(VIEW_PATH + a) && AllPlain(VIEW_PATH + a)
  {
  }

  /** Cutting parameters and trailing slashes leaves a path as it is exactly if it has neither. */
  lemma CanonicalIffClean(path: string)
    requires |path| > 1
    ensures CanonicalPath(DropParams(path)) == path <==> path[|path| - 1] != '/' && DropParams(path) == path
  {
    var cut := DropParams(path);
    assert |cut| <= |path|;
    if |cut| == |path| {
      var j := LastIndex(path, '/');
      assert j >= 0 ==> path == path[..j] + path[j..];
      assert cut == path;
    }
  }

  lemma {:induction false} DropTrackingUntracked(ps: seq<Pair>)
    ensures forall i :: 0 <= i < |DropTracking(ps)| ==> !IsTracking(DropTracking(ps)[i].0)
  {
    if ps != [] {
      DropTrackingUntracked(ps[1..]);
    }
  }

  lemma {:induction false} CanonicalFieldsSurvive(fields: seq<string>)
    requires forall i :: 0 <= i < |fields| ==> '=' in fields[i] && !IsTracking(ParsePair(fields[i]).0)
    ensures FieldsOf(DropTracking(PairsOf(fields))) == fields
  {
    if fields != [] {
      CanonicalFieldsSurvive(fields[1..]);
      FirstFieldSurvives(fields[0], PairsOf(fields[1..]));
      assert fields == [fields[0]] + fields[1..];
    }
  }

  lemma FirstFieldSurvives(field: string, rest: seq<Pair>)
    requires '=' in field && !IsTracking(ParsePair(field).0)
    ensures FieldsOf(DropTracking(PairOf(field) + rest)) == [field] + FieldsOf(DropTracking(rest))
  {
    var pair := ParsePair(field);
    assert Before(field, '=') != field;
    assert field == pair.0 + "=" + pair.1;
    assert PairOf(field) == [pair];
    assert ([pair] + rest)[1..] == rest;
    assert DropTracking([pair] + rest) == [pair] + DropTracking(rest);
  }

  lemma WrittenFieldsAreCanonical(ps: seq<Pair>, i: nat)
    requires PairsOk(ps) && i < |ps| && !IsTracking(ps[i].0)
    ensures '=' in FieldsOf(ps)[i] && !IsTracking(ParsePair(FieldsOf(ps)[i]).0)
  {
    assert PairOk(ps[i]);
    PairRoundTrip(ps[i]);
    assert (ps[i].0 + "=" + ps[i].1)[|ps[i].0|] == '=';
  }

  /** A query is written back as it was read exactly if it is canonical. */
  lemma QueryStaysIff(query: string)
    requires query != "" && AllPlain(query) && '#' !in query
    ensures JoinPairs(DropTracking(ParseQuery(query))) == query <==> CanonicalQuery(query)
  {
    var fields := Split(query, '&');
    var ps := DropTracking(ParseQuery(query));
    JoinSplit(query, '&');
    if CanonicalQuery(query) {
      CanonicalFieldsSurvive(fields);
    }
    if JoinPairs(ps) == query {
      ParseQueryOk(query);
      DropTrackingFacts(ParseQuery(query));
      DropTrackingUntracked(ParseQuery(query));
      JoinPairsFacts(ps);
      FieldsFacts(ps);
      SplitJoin(FieldsOf(ps), '&');
      forall i | 0 <= i < |fields| ensures '=' in fields[i] && !IsTracking(ParsePair(fields[i]).0) {
        WrittenFieldsAreCanonical(ps, i);
      }
    }
  }

  lemma {:induction false} FieldValuesAreShorter(query: string)
    ensures forall i :: 0 <= i < |Split(query, '&')| ==> |Split(query, '&')[i]| <= |query|
    decreases |query|
  {
    var head := Before(query, '&');
    if head != query {
      FieldValuesAreShorter(query[|head| + 1..]);
    }
  }

  lemma {:induction false} IdIsShorter(fields: seq<string>, n: nat)
    requires forall i :: 0 <= i < |fields| ==> |fields[i]| <= n
    ensures var id := CurrentJobId(PairsOf(fields)); id.Some? ==> |id.value| < n
  {
    if fields != [] {
      IdIsShorter(fields[1..], n);
      if fields[0] != "" {
        var pair := ParsePair(fields[0]);
        assert PairsOf(fields) == [pair] + PairsOf(fields[1..]);
        assert PairsOf(fields)[1..] == PairsOf(fields[1..]);
        assert pair.1 != "" ==> |pair.1| < |fields[0]|;
      } else {
        assert PairsOf(fields) == PairsOf(fields[1..]);
      }
    }
  }

  /** The job id in a query is shorter than the query. */
  lemma QueryIdIsShorter(query: string)
    ensures var id := CurrentJobId(ParseQuery(query)); id.Some? ==> |id.value| < |query|
  {
    FieldValuesAreShorter(query);
    if query != "" {
      IdIsShorter(Split(query, '&'), |query|);
    }
  }

  /** A built URL that names no job stays as it is exactly if its path and its query do. */
  lemma UnnamedStaysIff(n: string, scheme: string, host: string, path: string, query: string)
    requires IsBuilt(n, scheme, host, path, query) && LinkedInId(UrlParse(n)).None?
    ensures NormalizeRaw(n) == n <==>
              CanonicalPath(DropParams(path)) == path && JoinPairs(DropTracking(ParseQuery(query))) == query
  {
    ParseBuilt(n, scheme, host, path, query);
    var p, q := CanonicalPath(DropParams(path)), JoinPairs(DropTracking(ParseQuery(query)));
    CutPathFacts(path);
    CutQueryFacts(query);
    UnparseComposes(scheme, host, p, q);
    SameComposedIff(n, scheme, host, path, query, p, q);
  }

  lemma CutPathFacts(path: string)
    requires IsPath(path) && AllPlain(path)
    ensures var p := CanonicalPath(DropParams(path)); IsPath(p) && p != "" && p[0] == '/' && AllPlain(p)
  {
    DropParamsFacts(path);
  }

  lemma CutQueryFacts(query: string)
    requires AllPlain(query) && '#' !in query
    ensures var q := JoinPairs(DropTracking(ParseQuery(query))); AllPlain(q) && '#' !in q
  {
    ParseQueryOk(query);
    DropTrackingFacts(ParseQuery(query));
    JoinPairsFacts(DropTracking(ParseQuery(query)));
  }

  lemma SameComposedIff(n: string, scheme: string, host: string, path: string, query: string, p: string, q: string)
    requires IsBuilt(n, scheme, host, path, query) && IsPath(p) && '#' !in q
    ensures Compose(scheme, host, p, if q == "" then None else Some(q), None) == n <==> p == path && q == query
  {
    SplitComposed(n, scheme, host, path, Some(query), None);
    if Compose(scheme, host, p, if q == "" then None else Some(q), None) == n {
      SplitComposed(n, scheme, host, p, if q == "" then None else Some(q), None);
    }
  }

  lemma QuestionedStableIff(id: string)
    requires AllPlain(id) && '#' !in id && '?' in id
    ensures NormalizeRaw(LinkedInUrl(id)) == LinkedInUrl(id) <==> StableId(id)
  {
    var path, query := VIEW_PATH + Before(id, '?'), After(id, '?') + "/";
    QuestionedIsBuilt(id);
    ParseBuilt(LinkedInUrl(id), "https", LINKEDIN_HOST, path, query);
    CanonicalIffClean(path);
    QueryStaysIff(query);
    var found := LinkedInId(UrlParse(LinkedInUrl(id)));
    if found.Some? {
      NamedIdDiffers(id, DropParams(path), query);
      LinkedInInjective(found.value, id);
    } else {
      UnnamedStaysIff(LinkedInUrl(id), "https", LINKEDIN_HOST, path, query);
    }
  }

  lemma NamedIdDiffers(id: string, path: string, query: string)
    requires '?' in id && query == After(id, '?') + "/"
    ensures var fromPath, fromQuery := ViewId(path, 0), CurrentJobId(ParseQuery(query));
            fromPath != Some(id) && fromQuery != Some(id)
  {
    QueryIdIsShorter(query);
    assert Before(id, '?') != id;
  }

  /** Exactly which job ids make a URL that normalises to itself. */
  lemma StableIdIff(id: string)
    requires id != "" && AllPlain(id) && '#' !in id
    ensures NormalizeRaw(LinkedInUrl(id)) == LinkedInUrl(id) <==> StableId(id)
  {
    if '?' in id {
      QuestionedStableIff(id);
    } else if IsDecimal(id) {
      LinkedInIsStable(id);
    } else {
      NonNumericIsUnstable(id);
    }
  }

  /** The id found in a plain URL is plain, and if it comes from the path it is a number. */
  lemma FoundIdFacts(u: string)
    requires Plain(u) && LinkedInId(UrlParse(u)).Some?
    ensures var id := LinkedInId(UrlParse(u)).value;
            && id != "" && AllPlain(id) && '#' !in id
            && (StableId(id) <==> StableJobId(u))
  {
    var p := UrlParse(u);
    if ViewId(p.path, 0).Some? {
      PathIdFacts(p.path);
    } else {
      ParsedFacts(u);
      ParseQueryOk(p.query);
      CurrentJobIdOk(ParseQuery(p.query));
    }
  }

  lemma PathIdFacts(path: string)
    requires ViewId(path, 0).Some?
    ensures var id := ViewId(path, 0).value; id != "" && AllPlain(id) && '#' !in id && StableId(id)
  {
    var id := ViewId(path, 0).value;
    assert IsDecimal(id);
    DecimalFacts(id);
  }

  lemma DecimalFacts(id: string)
    requires IsDecimal(id)
    ensures AllPlain(id) && '#' !in id && StableId(id)
  {
    assert '?' !in id;
  }

  /** What normalising makes of a plain URL is plain, and normalises to itself unless it is a LinkedIn URL built on
      an id that does not come back. */
  lemma RawIdempotentIff(u: string)
    requires Plain(u)
    ensures AllPlain(NormalizeRaw(u))
    ensures NormalizeRaw(NormalizeRaw(u)) == NormalizeRaw(u) <==> StableJobId(u)
  {
    var p := UrlParse(u);
    ParsedFacts(u);
    var id := LinkedInId(p);
    if id.Some? {
      FoundIdFacts(u);
      ComposeLinkedIn(id.value);
      StableIdIff(id.value);
    } else if p.scheme != "" && p.netloc != "" {
      if CanonicalHost(p.netloc) != "" {
        GeneralIsStable(p);
      } else {
        HostlessIsStable(p);
      }
    }
  }

  /** On every plain URL, normalising twice is normalising once if and only if the LinkedIn id is a stable one. */
  lemma IdempotentIff(u: string)
    requires Plain(u)
    ensures NormalizeJobUrl(NormalizeJobUrl(Some(u))) == NormalizeJobUrl(Some(u)) <==> StableJobId(u)
  {
    PlainIsUntouched(u);
    RawIdempotentIff(u);
    PlainIsUntouched(NormalizeRaw(u));
    if u == "" {
      assert StableJobId(u);
    } else {
      NormalizedIsNotEmpty(u);
    }
  }

  lemma NormalizedIsNotEmpty(u: string)
    requires u != ""
    ensures NormalizeRaw(u) != ""
  {
  }

  // ---------------------------------------------------------------------------------------------
  // Tracking parameters do not matter
  // ---------------------------------------------------------------------------------------------

  function QueryUrl(scheme: string, netloc: string, path: string, fields: seq<string>,
                    fragment: Option<string>): string {
    Compose(scheme, netloc, path, if fields == [] then None else Some(Join(fields, '&')), fragment)
  }

  ghost predicate FieldsOk(fields: seq<string>) {
    forall i :: 0 <= i < |fields| ==> '&' !in fields[i] && '#' !in fields[i]
  }

  lemma ParseJoined(fields: seq<string>)
    requires fields != [] && FieldsOk(fields)
    ensures ParseQuery(Join(fields, '&')) == PairsOf(fields)
  {
    SplitJoin(fields, '&');
    if Join(fields, '&') == "" {
      assert fields == Split("", '&') == [""];
      assert fields[1..] == [];
    }
  }

  lemma JoinedHasNoMark(fields: seq<string>)
    requires FieldsOk(fields)
    ensures '#' !in Join(fields, '&')
  {
    JoinChars(fields, '&', c => c != '#');
  }

  lemma {:induction false} PairsOfConcat(a: seq<string>, b: seq<string>)
    ensures PairsOf(a + b) == PairsOf(a) + PairsOf(b)
  {
    if a == [] {
      assert a + b == b;
    } else {
      PairsOfConcat(a[1..], b);
      assert (a + b)[1..] == a[1..] + b;
      ConcatAssoc(PairOf(a[0]), PairsOf(a[1..]), PairsOf(b));
    }
  }

  lemma {:induction false} DropTrackingConcat(a: seq<Pair>, b: seq<Pair>)
    ensures DropTracking(a + b) == DropTracking(a) + DropTracking(b)
  {
    if a == [] {
      assert a + b == b;
    } else {
      DropTrackingConcat(a[1..], b);
      assert (a + b)[1..] == a[1..] + b;
      ConcatAssoc(Untracked(a[0]), DropTracking(a[1..]), DropTracking(b));
    }
  }

  /** The untracked parameters of a list of fields distribute over concatenation. */
  lemma UntrackedConcat(a: seq<string>, b: seq<string>)
    ensures DropTracking(PairsOf(a + b)) == DropTracking(PairsOf(a)) + DropTracking(PairsOf(b))
  {
    PairsOfConcat(a, b);
    DropTrackingConcat(PairsOf(a), PairsOf(b));
  }

  lemma TrackedFieldVanishes(t: string)
    requires IsTracking(ParsePair(t).0)
    ensures DropTracking(PairsOf([t])) == []
  {
    EmptyKeyIsNotTracking();
    assert PairsOf([t]) == [ParsePair(t)];
    assert DropTracking([ParsePair(t)]) == Untracked(ParsePair(t)) + DropTracking([]);
  }

  lemma InsertedPairIsDropped(fields: seq<string>, i: nat, t: string)
    requires i <= |fields| && IsTracking(ParsePair(t).0)
    ensures DropTracking(PairsOf(fields[..i] + [t] + fields[i..])) == DropTracking(PairsOf(fields))
  {
    assert fields == fields[..i] + fields[i..];
    PairBetweenIsDropped(fields[..i], t, fields[i..]);
  }

  lemma PairBetweenIsDropped(a: seq<string>, t: string, b: seq<string>)
    requires IsTracking(ParsePair(t).0)
    ensures DropTracking(PairsOf(a + [t] + b)) == DropTracking(PairsOf(a + b))
  {
    UntrackedConcat(a, b);
    UntrackedConcat(a, [t]);
    UntrackedConcat(a + [t], b);
    TrackedFieldVanishes(t);
    assert DropTracking(PairsOf(a)) + [] == DropTracking(PairsOf(a));
  }

  lemma EmptyKeyIsNotTracking()
    ensures !IsTracking("")
  {
    assert LowerText("") == "";
  }

  /** The result depends on the query only through its untracked parameters. */
  lemma SameUntrackedQuery(u: string, w: string)
    requires var p, q := UrlParse(u), UrlParse(w);
             && p.(query := "") == q.(query := "") && p.scheme != "" && p.netloc != ""
             && DropTracking(ParseQuery(p.query)) == DropTracking(ParseQuery(q.query))
    ensures NormalizeRaw(u) == NormalizeRaw(w)
  {
    DropTrackingFacts(ParseQuery(UrlParse(u).query));
    DropTrackingFacts(ParseQuery(UrlParse(w).query));
  }

  lemma ParseQueryUrl(u: string, scheme: string, netloc: string, path: string, fields: seq<string>,
                      fragment: Option<string>)
    requires IsScheme(scheme) && IsNetloc(netloc) && IsPath(path) && FieldsOk(fields)
    requires u == QueryUrl(scheme, netloc, path, fields, fragment) && AllPlain(u)
    ensures var p := UrlParse(u);
            && p.scheme == LowerText(scheme) && p.netloc == netloc
            && p.path == (if UsesParams(LowerText(scheme)) then DropParams(path) else path)
            && ParseQuery(p.query) == PairsOf(fields)
  {
    var query := if fields == [] then None else Some(Join(fields, '&'));
    JoinedHasNoMark(fields);
    SplitComposed(u, scheme, netloc, path, query, fragment);
    if fields != [] {
      ParseJoined(fields);
    }
  }

  /** Inserting a tracking parameter anywhere in the query leaves the canonical form unchanged. */
  lemma TrackingInsertion(u: string, w: string, scheme: string, netloc: string, path: string, fields: seq<string>,
                          fragment: Option<string>, i: nat, t: string)
    requires IsScheme(scheme) && IsNetloc(netloc) && netloc != "" && IsPath(path) && FieldsOk(fields) && FieldsOk([t])
    requires i <= |fields| && IsTracking(ParsePair(t).0)
    requires u == QueryUrl(scheme, netloc, path, fields, fragment) && AllPlain(u)
    requires w == QueryUrl(scheme, netloc, path, fields[..i] + [t] + fields[i..], fragment) && AllPlain(w)
    ensures NormalizeJobUrl(Some(w)) == NormalizeJobUrl(Some(u))
  {
    var more := fields[..i] + [t] + fields[i..];
    assert [t][0] == t;
    assert FieldsOk(more);
    ParseQueryUrl(u, scheme, netloc, path, fields, fragment);
    ParseQueryUrl(w, scheme, netloc, path, more, fragment);
    InsertedPairIsDropped(fields, i, t);
    assert LowerText(scheme) != "";
    SameUntrackedQuery(w, u);
    PlainIsUntouched(u);
    PlainIsUntouched(w);
    ComposedLengths(scheme, netloc, path, fields, fragment);
    ComposedLengths(scheme, netloc, path, more, fragment);
  }

  lemma ComposedLengths(scheme: string, netloc: string, path: string, fields: seq<string>, fragment: Option<string>)
    requires scheme != ""
    ensures QueryUrl(scheme, netloc, path, fields, fragment) != ""
  {
  }
}
