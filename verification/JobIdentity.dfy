/** Which URLs are taken for the same job: what the normal form of a URL is, told from the parts it is written with, and
    exactly when two URLs have the same one. */
module JobIdentity {
  import opened JobUrl
  import opened Options
  import opened PyText

  // ---------------------------------------------------------------------------------------------
  // Trailing slashes
  // ---------------------------------------------------------------------------------------------

  function Slashes(n: nat): string {
    seq(n, (i: nat) => '/')
  }

  /** The paths differ at most in the slashes at their ends. */
  ghost predicate SameButSlashes(p: string, q: string) {
    exists stem: string, i: nat, j: nat :: p == stem + Slashes(i) && q == stem + Slashes(j)
  }

  /** r is the path without the slashes at its end, or one slash if there is nothing else. */
  ghost predicate WithoutSlashes(path: string, r: string) {
    if forall i :: 0 <= i < |path| ==> path[i] == '/' then r == "/"
    else r != "" && r[|r| - 1] != '/' && exists n: nat :: path == r + Slashes(n)
  }

  lemma StrippedStem(path: string)
    ensures path == RStripSlashes(path) + Slashes(|path| - |RStripSlashes(path)|)
  {
  }

  lemma {:induction false} SlashesAreStripped(stem: string, n: nat)
    ensures RStripSlashes(stem + Slashes(n)) == RStripSlashes(stem)
  {
    if n == 0 {
      assert stem + Slashes(0) == stem;
    } else {
      assert (stem + Slashes(n))[..|stem| + n - 1] == stem + Slashes(n - 1);
      SlashesAreStripped(stem, n - 1);
    }
  }

  lemma CanonicalPathIff(p: string, q: string)
    ensures CanonicalPath(p) == CanonicalPath(q) <==> SameButSlashes(p, q)
  {
    if CanonicalPath(p) == CanonicalPath(q) {
      StrippedStem(p);
      StrippedStem(q);
      assert RStripSlashes(p) == RStripSlashes(q);
    }
    if stem: string, i: nat, j: nat :| p == stem + Slashes(i) && q == stem + Slashes(j) {
      SlashesAreStripped(stem, i);
      SlashesAreStripped(stem, j);
    }
  }

  lemma CanonicalIsWithoutSlashes(path: string)
    ensures WithoutSlashes(path, CanonicalPath(path))
  {
    StrippedStem(path);
    var r := RStripSlashes(path);
    if r != "" {
      assert path[|r| - 1] == r[|r| - 1];
    }
  }

  // ---------------------------------------------------------------------------------------------
  // Untracked parameters
  // ---------------------------------------------------------------------------------------------

  ghost predicate Increasing(ps: seq<nat>, n: nat) {
    && (forall a, b :: 0 <= a < b < |ps| ==> ps[a] < ps[b])
    && (forall a :: 0 <= a < |ps| ==> ps[a] < n)
  }

  /** ps are the positions of the parameters whose key, in lower case, is not a tracking key. */
  ghost predicate UntrackedAt(ps: seq<nat>, pairs: seq<Pair>) {
    && Increasing(ps, |pairs|)
    && forall i: nat :: i < |pairs| ==> (i in ps <==> LowerText(pairs[i].0) !in TRACKING_PARAMS)
  }

  /** The parameters that are not tracked, in their order. */
  ghost predicate UntrackedOf(kept: seq<Pair>, pairs: seq<Pair>) {
    exists ps: seq<nat> :: UntrackedAt(ps, pairs) && Chosen(kept, pairs, ps)
  }

  ghost predicate Chosen(kept: seq<Pair>, pairs: seq<Pair>, ps: seq<nat>) {
    |kept| == |ps| && forall k :: 0 <= k < |ps| ==> ps[k] < |pairs| && kept[k] == pairs[ps[k]]
  }

  ghost predicate SameUntracked(a: seq<Pair>, b: seq<Pair>) {
    exists kept :: UntrackedOf(kept, a) && UntrackedOf(kept, b)
  }

  lemma {:induction false} DropTrackingPositions(pairs: seq<Pair>) returns (ps: seq<nat>)
    ensures UntrackedAt(ps, pairs) && Chosen(DropTracking(pairs), pairs, ps)
  {
    if pairs == [] {
      ps := [];
    } else {
      var init, last := pairs[..|pairs| - 1], pairs[|pairs| - 1];
      var before := DropTrackingPositions(init);
      ps := OneMorePosition(init, last, before);
      assert pairs == init + [last];
    }
  }

  lemma OneMorePosition(init: seq<Pair>, last: Pair, before: seq<nat>) returns (ps: seq<nat>)
    requires UntrackedAt(before, init) && Chosen(DropTracking(init), init, before)
    ensures UntrackedAt(ps, init + [last]) && Chosen(DropTracking(init + [last]), init + [last], ps)
  {
    DropTrackingLast(init, last);
    OneMorePair(DropTracking(init), init, last, before);
    ps := if LowerText(last.0) in TRACKING_PARAMS then before else before + [|init|];
  }

  lemma OneMorePair(kept: seq<Pair>, init: seq<Pair>, last: Pair, ps: seq<nat>)
    requires UntrackedAt(ps, init) && Chosen(kept, init, ps)
    ensures if LowerText(last.0) in TRACKING_PARAMS
            then UntrackedAt(ps, init + [last]) && Chosen(kept, init + [last], ps)
            else UntrackedAt(ps + [|init|], init + [last]) && Chosen(kept + [last], init + [last], ps + [|init|])
  {
    forall i: nat | i < |init| ensures (init + [last])[i] == init[i] && (i in ps + [|init|] <==> i in ps) {}
  }

  lemma DropTrackingLast(init: seq<Pair>, last: Pair)
    ensures DropTracking(init + [last]) ==
            if LowerText(last.0) in TRACKING_PARAMS then DropTracking(init) else DropTracking(init) + [last]
  {
    DropTrackingConcat(init, [last]);
    assert DropTracking([last]) == Untracked(last);
  }

  lemma DropTrackingIsUntracked(pairs: seq<Pair>)
    ensures UntrackedOf(DropTracking(pairs), pairs)
  {
    var ps := DropTrackingPositions(pairs);
  }

  lemma {:induction false} IncreasingIsUnique(ps: seq<nat>, qs: seq<nat>, n: nat)
    requires Increasing(ps, n) && Increasing(qs, n) && forall i: nat :: i < n ==> (i in ps <==> i in qs)
    ensures ps == qs
    decreases |ps|
  {
    BothOrNeither(ps, qs, n);
    BothOrNeither(qs, ps, n);
    if ps != [] {
      var x, y := ps[|ps| - 1], qs[|qs| - 1];
      LastIsLargest(ps, qs, n);
      LastIsLargest(qs, ps, n);
      var p, q := ps[..|ps| - 1], qs[..|qs| - 1];
      forall i: nat | i < x ensures i in p <==> i in q {
        assert i in p <==> i in ps;
        assert i in q <==> i in qs;
      }
      IncreasingIsUnique(p, q, x);
    }
  }

  lemma BothOrNeither(ps: seq<nat>, qs: seq<nat>, n: nat)
    requires Increasing(ps, n) && Increasing(qs, n) && forall i: nat :: i < n ==> (i in ps <==> i in qs)
    ensures ps != [] ==> qs != []
  {
    if ps != [] {
      assert ps[0] in qs;
    }
  }

  lemma LastIsLargest(ps: seq<nat>, qs: seq<nat>, n: nat)
    requires Increasing(ps, n) && Increasing(qs, n) && forall i: nat :: i < n ==> (i in ps <==> i in qs)
    requires ps != [] && qs != []
    ensures ps[|ps| - 1] <= qs[|qs| - 1]
  {
    assert ps[|ps| - 1] in qs;
  }

  lemma UntrackedIsUnique(kept: seq<Pair>, pairs: seq<Pair>)
    ensures UntrackedOf(kept, pairs) <==> kept == DropTracking(pairs)
  {
    DropTrackingIsUntracked(pairs);
    if UntrackedOf(kept, pairs) {
      var ps: seq<nat> :| UntrackedAt(ps, pairs) && Chosen(kept, pairs, ps);
      var qs := DropTrackingPositions(pairs);
      IncreasingIsUnique(ps, qs, |pairs|);
      assert kept == DropTracking(pairs);
    }
  }

  lemma SameUntrackedIff(a: seq<Pair>, b: seq<Pair>)
    ensures SameUntracked(a, b) <==> DropTracking(a) == DropTracking(b)
  {
    DropTrackingIsUntracked(a);
    DropTrackingIsUntracked(b);
    if kept :| UntrackedOf(kept, a) && UntrackedOf(kept, b) {
      UntrackedIsUnique(kept, a);
      UntrackedIsUnique(kept, b);
    }
  }

  // ---------------------------------------------------------------------------------------------
  // When two URLs are the same job
  // ---------------------------------------------------------------------------------------------

  /** A plain URL with a scheme and an authority that names no LinkedIn job. */
  predicate Addressed(u: string) {
    var p := UrlParse(u);
    Plain(u) && p.scheme != "" && p.netloc != "" && LinkedInId(p).None?
  }

  /** The normal form read back: the lower-case host alone, the path without trailing slashes, the untracked
      parameters in order. */
  lemma NormalFormParts(u: string)
    requires Addressed(u)
    ensures var p, r := UrlParse(u), UrlParse(NormalizeRaw(u));
            && r.scheme == p.scheme && r.netloc == CanonicalHost(p.netloc)
            && WithoutSlashes(p.path, r.path) && UntrackedOf(ParseQuery(r.query), ParseQuery(p.query))
  {
    ParsedBack(u);
    CanonicalIsWithoutSlashes(UrlParse(u).path);
    DropTrackingIsUntracked(ParseQuery(UrlParse(u).query));
  }

  lemma ParsedBack(u: string)
    requires Addressed(u)
    ensures var p, r := UrlParse(u), UrlParse(NormalizeRaw(u));
            && r.scheme == p.scheme && r.netloc == CanonicalHost(p.netloc) && r.path == CanonicalPath(p.path)
            && ParseQuery(r.query) == DropTracking(ParseQuery(p.query))
  {
    var p := UrlParse(u);
    ParsedFacts(u);
    var pairs := DropTracking(ParseQuery(p.query));
    ParseQueryOk(p.query);
    DropTrackingFacts(ParseQuery(p.query));
    QueryRoundTrip(pairs);
    UnparsedBack(p, JoinPairs(pairs));
  }

  lemma UnparsedBack(p: Parts, query: string)
    requires PlainParts(p) && p.scheme != "" && p.netloc != "" && ';' !in p.path && LinkedInId(p).None?
    requires query == JoinPairs(DropTracking(ParseQuery(p.query)))
    ensures UrlParse(UrlUnparse(p.scheme, CanonicalHost(p.netloc), CanonicalPath(p.path), query)) ==
            Parts(p.scheme, CanonicalHost(p.netloc), CanonicalPath(p.path), query)
  {
    var host, path := CanonicalHost(p.netloc), CanonicalPath(p.path);
    HostFacts(p.netloc);
    CanonicalParts(p, p.scheme, host);
    WrittenBack(p.scheme, host, path, query);
  }

  lemma WrittenBack(scheme: string, host: string, path: string, query: string)
    requires IsScheme(scheme) && LowerText(scheme) == scheme && AllPlain(scheme)
    requires IsNetloc(host) && AllPlain(host)
    requires IsPath(path) && path != "" && AllPlain(path) && DropParams(path) == path
    requires '#' !in query && AllPlain(query)
    ensures UrlParse(UrlUnparse(scheme, host, path, query)) == Parts(scheme, host, path, query)
  {
    var n := UrlUnparse(scheme, host, path, query);
    if host == "" {
      ParseHostless(n, scheme, path, query);
    } else {
      UnparseComposes(scheme, host, path, query);
      ParseUnparsed(n, scheme, host, path, query);
    }
  }

  /** Two such URLs are taken for the same job exactly if they agree on the scheme and the host in lower case, on the
      path up to the slashes at its end, and on the untracked parameters in order. */
  lemma IdentifiedIff(u: string, w: string)
    requires Addressed(u) && Addressed(w)
    ensures var p, q := UrlParse(u), UrlParse(w);
            NormalizeRaw(u) == NormalizeRaw(w) <==>
              && p.scheme == q.scheme && CanonicalHost(p.netloc) == CanonicalHost(q.netloc)
              && SameButSlashes(p.path, q.path) && SameUntracked(ParseQuery(p.query), ParseQuery(q.query))
  {
    var p, q := UrlParse(u), UrlParse(w);
    ParsedBack(u);
    ParsedBack(w);
    CanonicalPathIff(p.path, q.path);
    SameUntrackedIff(ParseQuery(p.query), ParseQuery(q.query));
  }

  // ---------------------------------------------------------------------------------------------
  // The normal form from what is written
  // ---------------------------------------------------------------------------------------------

  function Authority(user: Option<string>, host: string, port: Option<string>): string {
    (if user.Some? then user.value + "@" else "") + (host + OptionalPart(':', port))
  }

  predicate HostPart(host: string) {
    host != "" && '@' !in host && ':' !in host
  }

  lemma LastIndexIs(s: string, c: char, j: nat)
    requires j < |s| && s[j] == c && c !in s[j + 1..]
    ensures LastIndex(s, c) == j
  {
    forall i | j < i < |s| ensures s[i] != c {
      assert s[i] == s[j + 1..][i - j - 1];
    }
  }

  lemma AfterUser(user: string, rest: string)
    requires '@' !in rest
    ensures (user + "@" + rest)[LastIndex(user + "@" + rest, '@') + 1..] == rest
  {
    var s := user + "@" + rest;
    SplitConcat(user + "@", rest);
    LastIndexIs(s, '@', |user|);
  }

  lemma WithoutUser(rest: string)
    requires '@' !in rest
    ensures rest[LastIndex(rest, '@') + 1..] == rest
  {
  }

  lemma HostOfAuthority(user: Option<string>, host: string, port: Option<string>)
    requires HostPart(host) && (port.Some? ==> '@' !in port.value)
    ensures HostInfo(Authority(user, host, port)) == host
  {
    var rest := host + OptionalPart(':', port);
    NoUserIn(host, port);
    CutComposed(host, ':', port);
    if user.Some? {
      AfterUser(user.value, rest);
    } else {
      WithoutUser(rest);
      assert "" + rest == rest;
    }
    HostInfoIs(Authority(user, host, port), rest, host);
  }

  lemma NoUserIn(host: string, port: Option<string>)
    requires '@' !in host && (port.Some? ==> '@' !in port.value)
    ensures '@' !in host + OptionalPart(':', port)
  {
  }

  lemma HostInfoIs(netloc: string, rest: string, host: string)
    requires netloc[LastIndex(netloc, '@') + 1..] == rest && Before(rest, ':') == host
    ensures HostInfo(netloc) == host
  {
  }

  lemma LowerWithZone(name: string, zone: string)
    ensures LowerText(LowerText(name) + zone) == LowerText(name + zone)
  {
    LowerConcat(LowerText(name), zone);
    LowerTwice(name);
    LowerConcat(name, zone);
  }

  /** Neither the user information nor the port nor the case of the host matters. */
  lemma CanonicalHostOf(user: Option<string>, host: string, port: Option<string>)
    requires HostPart(host) && (port.Some? ==> '@' !in port.value)
    ensures CanonicalHost(Authority(user, host, port)) == LowerText(host)
  {
    HostOfAuthority(user, host, port);
    LowerHostname(Authority(user, host, port), host);
  }

  lemma LowerHostname(netloc: string, host: string)
    requires HostInfo(netloc) == host
    ensures CanonicalHost(netloc) == LowerText(host)
  {
    var name := Before(host, '%');
    LowerWithZone(name, host[|name|..]);
    assert host == name + host[|name|..];
  }

  /** No parameter names a LinkedIn job. */
  predicate NoJobId(pairs: seq<Pair>) {
    forall i :: 0 <= i < |pairs| && pairs[i].0 == "currentJobId" ==> pairs[i].1 == ""
  }

  lemma {:induction false} NoCurrentJobId(pairs: seq<Pair>)
    ensures CurrentJobId(pairs).None? <==> NoJobId(pairs)
  {
    if pairs != [] {
      NoCurrentJobId(pairs[1..]);
    }
  }

  lemma NoViewId(path: string, n: nat)
    requires forall i: nat :: !ViewAt(path, i)
    ensures ViewId(path + Slashes(n), 0).None?
  {
    var longer := path + Slashes(n);
    forall i: nat ensures !ViewAt(longer, i) {
      if ViewAt(longer, i) {
        ViewWithin(path, n, i);
      }
    }
  }

  lemma ViewWithin(path: string, n: nat, i: nat)
    requires ViewAt(path + Slashes(n), i)
    ensures ViewAt(path, i)
  {
    var longer := path + Slashes(n);
    assert longer[i + |VIEW_PATH|] != '/';
    assert longer[i..i + |VIEW_PATH|] == path[i..i + |VIEW_PATH|];
  }

  /** A written field is read as its key and its value. Without a sign the value is empty; an empty field is none. */
  lemma FieldIsRead(key: string, value: Option<string>)
    requires '=' !in key
    ensures PairOf(key + OptionalPart('=', value)) ==
            if key == "" && value.None? then [] else [(key, if value.Some? then value.value else "")]
  {
    CutComposed(key, '=', value);
  }

  function QueryPart(pairs: seq<Pair>): Option<string> {
    if pairs == [] then None else Some(JoinPairs(pairs))
  }

  /** A path without parameters, query or fragment that ends in no slash and names no LinkedIn job. */
  ghost predicate StemPath(path: string) {
    && (path != "" ==> path[0] == '/' && path[|path| - 1] != '/')
    && '?' !in path && '#' !in path && ';' !in path && forall i: nat :: !ViewAt(path, i)
  }

  lemma StemWithSlashes(path: string, slashes: nat)
    requires StemPath(path)
    ensures IsPath(path + Slashes(slashes)) && ';' !in path + Slashes(slashes)
  {
  }

  lemma ParsedFromParts(u: string, scheme: string, netloc: string, path: string, slashes: nat, pairs: seq<Pair>,
                        fragment: Option<string>)
    requires IsScheme(scheme) && IsNetloc(netloc) && StemPath(path) && PairsOk(pairs)
    requires u == Compose(scheme, netloc, path + Slashes(slashes), QueryPart(pairs), fragment) && AllPlain(u)
    ensures var p := UrlParse(u);
            && p.scheme == LowerText(scheme) && p.netloc == netloc && p.path == path + Slashes(slashes)
            && ParseQuery(p.query) == pairs
  {
    var full := path + Slashes(slashes);
    StemWithSlashes(path, slashes);
    JoinPairsFacts(pairs);
    SplitComposed(u, scheme, netloc, full, QueryPart(pairs), fragment);
    PathWithoutParams(full);
    QueryRoundTrip(pairs);
  }

  /** The normal form of a URL that names no LinkedIn job is made of its scheme and host in lower case, its path without
      trailing slashes, or one slash, and its untracked parameters: user, port and fragment are gone. */
  lemma NormalFormOf(u: string, scheme: string, user: Option<string>, host: string, port: Option<string>, path: string,
                     slashes: nat, pairs: seq<Pair>, fragment: Option<string>)
    requires IsScheme(scheme) && HostPart(host) && (port.Some? ==> '@' !in port.value)
    requires IsNetloc(Authority(user, host, port)) && StemPath(path) && PairsOk(pairs) && NoJobId(pairs)
    requires u == Compose(scheme, Authority(user, host, port), path + Slashes(slashes), QueryPart(pairs), fragment)
    requires AllPlain(u)
    ensures exists kept ::
              && UntrackedOf(kept, pairs)
              && NormalizeRaw(u) ==
                 Compose(LowerText(scheme), LowerText(host), if path == "" then "/" else path, QueryPart(kept), None)
  {
    ParsedFromParts(u, scheme, Authority(user, host, port), path, slashes, pairs, fragment);
    CanonicalHostOf(user, host, port);
    NoViewId(path, slashes);
    NoCurrentJobId(pairs);
    SlashesAreStripped(path, slashes);
    DropTrackingIsUntracked(pairs);
    var kept, p := DropTracking(pairs), if path == "" then "/" else path;
    DropTrackingFacts(pairs);
    JoinPairsFacts(kept);
    UnparseComposes(LowerText(scheme), LowerText(host), p, JoinPairs(kept));
  }

  /** A LinkedIn URL whose path names a job: the digits after the leftmost /jobs/view/ that digits follow. */
  lemma PathIdNormalForm(u: string, at: nat, digits: string)
    requires var path := UrlParse(u).path;
             && MatchesAt(path, "/jobs/view/" + digits, at) && digits != "" && IsDecimal(digits)
             && (forall i: nat :: i < at ==> !ViewAt(path, i))
             && (at + 11 + |digits| < |path| ==> !IsDigit(path[at + 11 + |digits|]))
    ensures NormalizeRaw(u) == "https://www.linkedin.com/jobs/view/" + digits + "/"
  {
    ViewOfMatch(UrlParse(u).path, at, digits);
  }

  lemma ViewOfMatch(path: string, at: nat, digits: string)
    requires MatchesAt(path, "/jobs/view/" + digits, at) && digits != "" && IsDecimal(digits)
    requires at + 11 + |digits| < |path| ==> !IsDigit(path[at + 11 + |digits|])
    requires forall i: nat :: i < at ==> !ViewAt(path, i)
    ensures ViewId(path, 0) == Some(digits)
  {
    var rest := path[at + 11 + |digits|..];
    MatchedTail(path, at, digits);
    assert path[at + 11] == path[at + 11..][0] == digits[0];
    LeftmostView(path, at);
    DigitPrefixConcat(digits, rest);
  }

  lemma LeftmostView(path: string, at: nat)
    requires ViewAt(path, at) && forall i: nat :: i < at ==> !ViewAt(path, i)
    ensures ViewId(path, 0) == Some(DigitPrefix(path[at + |VIEW_PATH|..]))
  {
    var id := ViewId(path, 0);
    var i: nat :| ViewAt(path, i) && id.value == DigitPrefix(path[i + |VIEW_PATH|..])
                  && forall j: nat :: 0 <= j < i ==> !ViewAt(path, j);
    assert i == at;
  }

  lemma MatchedTail(path: string, at: nat, digits: string)
    requires MatchesAt(path, "/jobs/view/" + digits, at)
    ensures MatchesAt(path, "/jobs/view/", at) && at + 11 + |digits| <= |path|
    ensures path[at + 11..] == digits + path[at + 11 + |digits|..]
  {
    SplitConcat("/jobs/view/", digits);
    var matched := path[at..at + 11 + |digits|];
    assert matched[..11] == path[at..at + 11];
    assert matched[11..] == path[at + 11..at + 11 + |digits|];
    assert path[at + 11..] == path[at + 11..at + 11 + |digits|] + path[at + 11 + |digits|..];
  }

  /** One whose query does: the first currentJobId that is not empty. */
  lemma QueryIdNormalForm(u: string, k: nat)
    requires var pairs := ParseQuery(UrlParse(u).query);
             && (forall i: nat :: !ViewAt(UrlParse(u).path, i)) && k < |pairs|
             && pairs[k].0 == "currentJobId" && pairs[k].1 != "" && NoJobId(pairs[..k])
    ensures NormalizeRaw(u) ==
            "https://www.linkedin.com/jobs/view/" + ParseQuery(UrlParse(u).query)[k].1 + "/"
  {
    FirstJobId(ParseQuery(UrlParse(u).query), k);
  }

  lemma {:induction false} FirstJobId(pairs: seq<Pair>, k: nat)
    requires k < |pairs| && pairs[k].0 == "currentJobId" && pairs[k].1 != "" && NoJobId(pairs[..k])
    ensures CurrentJobId(pairs) == Some(pairs[k].1)
  {
    if k > 0 {
      assert pairs[..k][0] == pairs[0];
      assert pairs[1..][..k - 1] == pairs[..k][1..];
      FirstJobId(pairs[1..], k - 1);
    }
  }

  /** A URL without a scheme or an authority that names no job is kept as it is. */
  lemma UnaddressedIsKept(u: string)
    requires var p := UrlParse(u);
             && (p.scheme == "" || p.netloc == "")
             && (forall i: nat :: !ViewAt(p.path, i)) && NoJobId(ParseQuery(p.query))
    ensures NormalizeRaw(u) == u
  {
    NoCurrentJobId(ParseQuery(UrlParse(u).query));
  }

  lemma {:induction false} DropsUnsafe(a: string, c: char, b: string)
    requires c == '\t' || c == '\r' || c == '\n'
    ensures DropUnsafe(a + [c] + b) == DropUnsafe(a + b)
  {
    if a == "" {
      assert a + [c] + b == [c] + b && a + b == b;
      assert ([c] + b)[1..] == b;
    } else {
      DropsUnsafe(a[1..], c, b);
      assert (a + [c] + b)[1..] == a[1..] + [c] + b && (a + b)[1..] == a[1..] + b;
    }
  }

  lemma {:induction false} SkipsControls(a: string, c: char, b: string)
    requires c == '\t' || c == '\r' || c == '\n'
    ensures DropUnsafe(LStripControls(a + [c] + b)) == DropUnsafe(LStripControls(a + b))
  {
    if a == "" {
      assert a + [c] + b == [c] + b && a + b == b;
      assert ([c] + b)[1..] == b;
    } else if a[0] <= ' ' {
      SkipsControls(a[1..], c, b);
      assert (a + [c] + b)[1..] == a[1..] + [c] + b && (a + b)[1..] == a[1..] + b;
    } else {
      DropsUnsafe(a, c, b);
    }
  }

  /** Tabs and line ends anywhere in a URL, and blanks and control characters in front of it, are not read. */
  lemma UnsafeIsNotRead(a: string, c: char, b: string)
    ensures c == '\t' || c == '\r' || c == '\n' ==> UrlParse(a + [c] + b) == UrlParse(a + b)
    ensures c <= ' ' ==> UrlParse([c] + b) == UrlParse(b)
  {
    if c == '\t' || c == '\r' || c == '\n' {
      SkipsControls(a, c, b);
    }
    assert ([c] + b)[1..] == b;
  }

  /** White space around a URL does not matter, and with nothing else there is no URL. */
  lemma SurroundingSpace(before: string, u: string, after: string)
    requires forall i :: 0 <= i < |before| ==> IsSpace(before[i])
    requires forall i :: 0 <= i < |after| ==> IsSpace(after[i])
    requires Trimmed(u)
    ensures NormalizeJobUrl(Some(before + u + after)) == if u == "" then None else Some(NormalizeRaw(u))
  {
    var s := before + u + after;
    var a, b := StripSlice(s);
    if u == "" {
      assert forall i :: 0 <= i < |s| ==> IsSpace(s[i]);
    } else {
      assert s[|before|] == u[0] && s[|before| + |u| - 1] == u[|u| - 1];
      assert a == |before| && b == |before| + |u|;
      assert s[a..b] == u;
    }
  }

  /** The parameters of the last path segment do not matter, for the schemes that have them. */
  lemma ParamsDoNotMatter(u: string, w: string, scheme: string, netloc: string, path: string, params: string,
                          query: Option<string>, fragment: Option<string>)
    requires IsScheme(scheme) && IsNetloc(netloc) && netloc != "" && IsPath(path) && LowerText(scheme) in USES_PARAMS
    requires path != "" && '/' !in params && '?' !in params && '#' !in params && (query.Some? ==> '#' !in query.value)
    requires u == Compose(scheme, netloc, path, query, fragment) && AllPlain(u)
    requires w == Compose(scheme, netloc, path + ";" + params, query, fragment) && AllPlain(w)
    ensures NormalizeRaw(w) == NormalizeRaw(u)
  {
    assert LowerText(scheme) != "";
    SplitComposed(u, scheme, netloc, path, query, fragment);
    SplitComposed(w, scheme, netloc, path + ";" + params, query, fragment);
    ParamsAreCut(path, params);
  }

  lemma ParamsAreCut(path: string, params: string)
    requires path != "" && path[0] == '/' && '/' !in params
    ensures DropParams(path + ";" + params) == DropParams(path)
  {
    var longer := path + ";" + params;
    var j := LastIndex(path, '/');
    assert longer[j] == '/';
    forall i | j < i < |longer| ensures longer[i] != '/' {
      assert i > |path| ==> longer[i] == params[i - |path| - 1];
    }
    assert LastIndex(longer, '/') == j;
    assert longer[j..] == path[j..] + ";" + params;
    assert longer[..j] == path[..j];
    CutAtFirst(path[j..], ';', params);
  }

  lemma CutAtFirst(head: string, c: char, rest: string)
    ensures Before(head + [c] + rest, c) == Before(head, c)
  {
    if c in head {
      var a := Before(head, c);
      assert |a| < |head| by {
        assert |a| == |head| ==> a == head;
      }
      assert head + [c] + rest == a + [c] + (head[|a| + 1..] + [c] + rest);
      BeforeConcat(a, c, head[|a| + 1..] + [c] + rest);
    } else {
      BeforeConcat(head, c, rest);
      BeforeAbsent(head, c);
    }
  }
}
