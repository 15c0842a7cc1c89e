/** Browser seed multiaddresses: classification, canonicalisation for a host, and resolution. */
module BrowserSeeds {
  import opened Wrappers
  import opened Sequences

  predicate IsSegment(segment: string) {
    segment != ""
  }

  /** `multiaddr_segments`: the non-empty pieces between slashes. */
  function Segments(value: string): seq<string> {
    Filter(Split(value), IsSegment)
  }

  function JoinSlash(segments: seq<string>): string {
    if segments == [] then ""
    else if |segments| == 1 then segments[0]
    else segments[0] + "/" + JoinSlash(segments[1..])
  }

  predicate IsIp(segment: string) {
    segment == "ip4" || segment == "ip6"
  }

  predicate IsHostKind(segment: string) {
    IsIp(segment) || segment == "dns4" || segment == "dns6"
  }

  predicate WebrtcDirect(segments: seq<string>) {
    && "webrtc-direct" in segments
    && segments != []
    && IsHostKind(segments[0])
    && "certhash" in segments
  }

  predicate Direct(segments: seq<string>) {
    WebrtcDirect(segments) || ("webtransport" in segments && "quic-v1" in segments && "certhash" in segments)
  }

  predicate Dialable(segments: seq<string>) {
    Direct(segments) || "wss" in segments || "ws" in segments
  }

  predicate IsWebrtcDirectSeed(url: string) {
    WebrtcDirect(Segments(url))
  }

  predicate IsDialableSeed(url: string) {
    Dialable(Segments(url))
  }

  /** What makes an address dialable, word by word. */
  lemma DialableIff(segments: seq<string>)
    ensures WebrtcDirect(segments) <==>
              && "webrtc-direct" in segments && "certhash" in segments
              && segments[0] in {"ip4", "ip6", "dns4", "dns6"}
    ensures Dialable(segments) <==>
              || "ws" in segments || "wss" in segments || WebrtcDirect(segments)
              || ("webtransport" in segments && "quic-v1" in segments && "certhash" in segments)
  {
  }

  /** `canonicalize_browser_seed_url`: a dialable IP seed is readdressed to the edge's DNS name. */
  function Rewrite(host: string, url: string): string {
    var segments := Segments(url);
    if |segments| < 3 || !IsIp(segments[0]) || !IsDialableSeed(url) then url
    else "/dns4/" + host + "/" + JoinSlash(segments[2..])
  }

  lemma ReplaceHead(head: string, parts: seq<string>, more: seq<string>)
    requires parts != []
    ensures (parts + more)[0] == parts[0]
    ensures [head] + (parts + more)[1..] == [head] + parts[1..] + more
    ensures [head] + (parts + more) == [head] + parts + more
  {
    assert (parts + more)[1..] == parts[1..] + more;
  }

  lemma SplitGrow(c: char, rest: string, whole: string, more: seq<string>)
    requires Split(whole) == Split(rest) + more
    ensures Split([c] + whole) == Split([c] + rest) + more
  {
    SplitCons(c, whole);
    SplitCons(c, rest);
    ReplaceHead(if c == '/' then "" else [c] + Split(rest)[0], Split(rest), more);
  }

  lemma {:induction false} SplitConcat(a: string, b: string)
    ensures Split(a + "/" + b) == Split(a) + Split(b)
  {
    if a == "" {
      assert a + "/" + b == ['/'] + b;
      SplitCons('/', b);
    } else {
      SplitConcat(a[1..], b);
      SplitGrow(a[0], a[1..], a[1..] + "/" + b, Split(b));
      assert a + "/" + b == [a[0]] + (a[1..] + "/" + b);
      assert a == [a[0]] + a[1..];
    }
  }

  lemma SegmentsConcat(a: string, b: string)
    ensures Segments(a + "/" + b) == Segments(a) + Segments(b)
  {
    SplitConcat(a, b);
    FilterConcat(Split(a), Split(b), IsSegment);
  }

  ghost predicate AllSegments(segments: seq<string>) {
    forall i :: 0 <= i < |segments| ==> segments[i] != "" && '/' !in segments[i]
  }

  lemma SegmentsAreSegments(url: string)
    ensures AllSegments(Segments(url))
  {
    FilterMembers(Split(url), IsSegment);
    forall i | 0 <= i < |Segments(url)|
      ensures Segments(url)[i] != "" && '/' !in Segments(url)[i]
    {
      assert Segments(url)[i] in Segments(url);
    }
  }

  lemma OneSegment(segment: string)
    requires segment != "" && '/' !in segment
    ensures Segments(segment) == [segment]
  {
    SplitPlain(segment);
    FilterAll([segment], IsSegment);
  }

  lemma {:induction false} JoinedSegments(segments: seq<string>)
    requires AllSegments(segments)
    ensures Segments(JoinSlash(segments)) == segments
  {
    if segments == [] {
      assert Split("") == [""];
    } else {
      OneSegment(segments[0]);
      if |segments| > 1 {
        JoinedSegments(segments[1..]);
        SegmentsConcat(segments[0], JoinSlash(segments[1..]));
      }
    }
  }

  lemma LeadingSlash(rest: string)
    ensures Segments("/" + rest) == Segments(rest)
  {
    SegmentsConcat("", rest);
    assert "" + "/" + rest == "/" + rest;
    assert Split("") == [""] && Filter([""], IsSegment) == [];
  }

  lemma BehindHost(host: string, tail: seq<string>)
    requires AllSegments(tail)
    ensures Segments(host + "/" + JoinSlash(tail)) == Segments(host) + tail
  {
    JoinedSegments(tail);
    SegmentsConcat(host, JoinSlash(tail));
  }

  lemma BehindKind(kind: string, behind: string)
    requires kind != "" && '/' !in kind
    ensures Segments("/" + (kind + "/" + behind)) == [kind] + Segments(behind)
  {
    SegmentsConcat(kind, behind);
    OneSegment(kind);
    LeadingSlash(kind + "/" + behind);
  }

  lemma Grouping(host: string, joined: string)
    ensures "/dns4/" + host + "/" + joined == "/" + ("dns4" + "/" + (host + "/" + joined))
  {
    assert "/dns4/" == "/" + "dns4" + "/";
  }

  lemma AddressedSegments(host: string, tail: seq<string>)
    requires AllSegments(tail)
    ensures Segments("/dns4/" + host + "/" + JoinSlash(tail)) == ["dns4"] + Segments(host) + tail
  {
    var behind, address := host + "/" + JoinSlash(tail), Segments(host);
    Grouping(host, JoinSlash(tail));
    BehindHost(host, tail);
    BehindKind("dns4", behind);
    assert ["dns4"] + (address + tail) == ["dns4"] + address + tail;
  }

  /** The segments of a rewritten seed: the address pair gives way to the host, the rest stays. */
  lemma RewrittenSegments(host: string, url: string)
    requires Rewrite(host, url) != url
    ensures |Segments(url)| >= 3 && IsIp(Segments(url)[0])
    ensures Segments(Rewrite(host, url)) == ["dns4"] + Segments(host) + Segments(url)[2..]
  {
    SegmentsAreSegments(url);
    AddressedSegments(host, Segments(url)[2..]);
  }

  /** Just the dialable seeds at an IP address, with something behind the address, are readdressed. */
  lemma RewriteIff(host: string, url: string)
    ensures Rewrite(host, url) != url <==>
              |Segments(url)| > 2 && Segments(url)[0] in {"ip4", "ip6"} && IsDialableSeed(url)
  {
    if |Segments(url)| >= 3 && IsIp(Segments(url)[0]) && IsDialableSeed(url) {
      SegmentsAreSegments(url);
      AddressedSegments(host, Segments(url)[2..]);
    }
  }

  lemma RewriteTwice(host: string, url: string)
    ensures Rewrite(host, Rewrite(host, url)) == Rewrite(host, url)
  {
    if Rewrite(host, url) != url {
      RewrittenSegments(host, url);
    }
  }

  /** One entry of the canonical list: rewritten, unless its rewriting is already listed in its own right. */
  function Pick(host: string, canonical: set<string>, url: string): string {
    var rewritten := Rewrite(host, url);
    if rewritten != url && rewritten in canonical then url else rewritten
  }

  /** `canonicalize_browser_seed_urls_for_host`. */
  function Canonicalize(host: string, urls: seq<string>): seq<string> {
    var distinct := Dedupe(urls);
    var canonical := set url | url in distinct && Rewrite(host, url) == url;
    Dedupe(Map(distinct, (url: string) => Pick(host, canonical, url)))
  }

  /** What the list for a host contains, in terms of the input alone. */
  lemma CanonicalMembers(host: string, urls: seq<string>, v: string)
    ensures v in Canonicalize(host, urls) <==>
            exists url :: url in urls
              && v == if Rewrite(host, url) != url && Rewrite(host, url) in urls then url else Rewrite(host, url)
  {
    var distinct := Dedupe(urls);
    var canonical := set url | url in distinct && Rewrite(host, url) == url;
    var picked := Map(distinct, (url: string) => Pick(host, canonical, url));
    forall url | url in urls
      ensures Rewrite(host, url) in canonical <==> Rewrite(host, url) in urls
    {
      RewriteTwice(host, url);
    }
    if v in picked {
      var i :| 0 <= i < |picked| && picked[i] == v;
      assert distinct[i] in urls;
    }
    forall url | url in urls
      ensures Pick(host, canonical, url) in picked
    {
      var i :| 0 <= i < |distinct| && distinct[i] == url;
      assert picked[i] == Pick(host, canonical, url);
    }
  }

  lemma KeptUnrewritten(host: string, urls: seq<string>, v: string)
    requires v in Canonicalize(host, urls) && Rewrite(host, v) != v
    ensures v in urls && Rewrite(host, v) in urls
  {
    CanonicalMembers(host, urls, v);
    var url :| url in urls
      && v == if Rewrite(host, url) != url && Rewrite(host, url) in urls then url else Rewrite(host, url);
    RewriteTwice(host, url);
  }

  /**
   * Canonicalisation represents every input by itself or by its rewriting, keeps every input that
   * is canonical already, and leaves an IP seed unrewritten exactly when its rewriting was an input.
   */
  lemma CanonicalRepresents(host: string, urls: seq<string>, url: string)
    requires url in urls
    ensures url in Canonicalize(host, urls) || Rewrite(host, url) in Canonicalize(host, urls)
    ensures Rewrite(host, url) == url ==> url in Canonicalize(host, urls)
    ensures Rewrite(host, url) != url ==> (url in Canonicalize(host, urls) <==> Rewrite(host, url) in urls)
    ensures Rewrite(host, url) in Canonicalize(host, urls)
  {
    CanonicalMembers(host, urls, url);
    CanonicalMembers(host, urls, Rewrite(host, url));
    RewriteTwice(host, url);
    if Rewrite(host, url) != url && url in Canonicalize(host, urls) {
      KeptUnrewritten(host, urls, url);
    }
  }

  lemma CanonicalAddsNothing(host: string, urls: seq<string>, v: string)
    requires v in Canonicalize(host, urls)
    ensures NoDuplicates(Canonicalize(host, urls))
    ensures v in urls || exists url :: url in urls && v == Rewrite(host, url)
  {
    CanonicalMembers(host, urls, v);
  }

  /** A second canonicalisation changes nothing, not even the order. */
  lemma CanonicalIdempotent(host: string, urls: seq<string>)
    ensures Canonicalize(host, Canonicalize(host, urls)) == Canonicalize(host, urls)
  {
    var once := Canonicalize(host, urls);
    DedupeIsIdentity(once);
    var canonical := set url | url in once && Rewrite(host, url) == url;
    var again := Map(once, (url: string) => Pick(host, canonical, url));
    forall i | 0 <= i < |once|
      ensures again[i] == once[i]
    {
      var v := once[i];
      CanonicalMembers(host, urls, v);
      RewriteTwice(host, v);
      if Rewrite(host, v) != v {
        KeptUnrewritten(host, urls, v);
        CanonicalRepresents(host, urls, v);
      }
    }
    assert again == once;
  }

  /** Segments that name a transport; an address is none of them. */
  predicate IsTransportWord(segment: string) {
    segment in {"webrtc-direct", "certhash", "webtransport", "quic-v1", "wss", "ws"}
  }

  /** The address segment is not itself a transport word. */
  predicate PlainAddress(url: string) {
    |Segments(url)| >= 2 ==> !IsTransportWord(Segments(url)[1])
  }

  /** Readdressing drops the address pair and adds the host: nothing else can gain or lose a word. */
  lemma Readdressed(host: seq<string>, segments: seq<string>)
    requires |segments| >= 3 && WebrtcDirect(segments)
    ensures WebrtcDirect(["dns4"] + host + segments[2..]) <==>
              && ("webrtc-direct" in host || "webrtc-direct" in segments[2..])
              && ("certhash" in host || "certhash" in segments[2..])
    ensures !IsTransportWord(segments[1]) ==> WebrtcDirect(["dns4"] + host + segments[2..])
  {
    var moved := ["dns4"] + host + segments[2..];
    assert moved[0] == "dns4";
    assert segments == [segments[0], segments[1]] + segments[2..];
  }

  /**
   * A rewritten webrtc-direct seed stays one exactly when both of its words survive: behind the
   * address or in the host. A plain address is enough.
   */
  lemma RewriteKeepsWebrtc(host: string, url: string)
    requires IsWebrtcDirectSeed(url) && Rewrite(host, url) != url
    ensures IsWebrtcDirectSeed(Rewrite(host, url)) <==>
            && ("webrtc-direct" in Segments(host) || "webrtc-direct" in Segments(url)[2..])
            && ("certhash" in Segments(host) || "certhash" in Segments(url)[2..])
    ensures PlainAddress(url) ==> IsWebrtcDirectSeed(Rewrite(host, url))
  {
    RewrittenSegments(host, url);
    Readdressed(Segments(host), Segments(url));
  }

  lemma ThreeSegments(a: string, b: string, c: string)
    requires AllSegments([a, b, c])
    ensures Segments("/" + (a + "/" + (b + "/" + c))) == [a, b, c]
  {
    assert [a, b, c][0] == a && [a, b, c][1] == b && [a, b, c][2] == c;
    OneSegment(c);
    BehindSegment(b, c);
    BehindKind(a, b + "/" + c);
  }

  lemma BehindSegment(segment: string, behind: string)
    requires segment != "" && '/' !in segment
    ensures Segments(segment + "/" + behind) == [segment] + Segments(behind)
  {
    SegmentsConcat(segment, behind);
    OneSegment(segment);
  }

  /** A seed whose address is a transport word. */
  const ODD_SEED := "/" + ("ip4" + "/" + ("certhash" + "/" + "webrtc-direct"))

  lemma OddSeedSegments()
    ensures Segments(ODD_SEED) == ["ip4", "certhash", "webrtc-direct"]
    ensures JoinSlash(Segments(ODD_SEED)[2..]) == "webrtc-direct"
  {
    ThreeSegments("ip4", "certhash", "webrtc-direct");
    assert ["ip4", "certhash", "webrtc-direct"][2..] == ["webrtc-direct"];
  }

  lemma OddSeedRewritten()
    ensures Segments("/dns4/" + "edge" + "/" + "webrtc-direct") == ["dns4", "edge", "webrtc-direct"]
  {
    AddressedSegments("edge", ["webrtc-direct"]);
    OneSegment("edge");
  }

  /** The failure is real: a webrtc-direct seed with such an address is not even dialable once rewritten. */
  lemma AddressWordIsLost()
    ensures IsWebrtcDirectSeed(ODD_SEED) && Rewrite("edge", ODD_SEED) != ODD_SEED
    ensures !IsDialableSeed(Rewrite("edge", ODD_SEED))
  {
    OddSeedSegments();
    OddSeedRewritten();
    var rewritten := "/dns4/" + "edge" + "/" + "webrtc-direct";
    assert Segments(rewritten)[0] != Segments(ODD_SEED)[0];
  }

  lemma ReaddressedDialable(host: seq<string>, segments: seq<string>)
    requires |segments| >= 3 && IsIp(segments[0]) && Dialable(segments) && !IsTransportWord(segments[1])
    ensures Dialable(["dns4"] + host + segments[2..])
  {
    if WebrtcDirect(segments) {
      Readdressed(host, segments);
    } else {
      var moved := ["dns4"] + host + segments[2..];
      assert segments == [segments[0], segments[1]] + segments[2..];
      assert forall word :: word in segments[2..] ==> word in moved;
    }
  }

  lemma RewriteKeepsDialable(host: string, url: string)
    requires IsDialableSeed(url) && PlainAddress(url)
    ensures IsDialableSeed(Rewrite(host, url))
  {
    if Rewrite(host, url) != url {
      RewrittenSegments(host, url);
      ReaddressedDialable(Segments(host), Segments(url));
    }
  }

  /** `prefer_validated_browser_seed_urls`. */
  function Prefer(urls: seq<string>): seq<string> {
    if exists url :: url in urls && IsWebrtcDirectSeed(url) then Filter(urls, IsWebrtcDirectSeed) else urls
  }

  /** Which of the three sources `resolve_seed_node_urls` works on: the input, the edge, the environment. */
  function Candidates(input: seq<string>, fetched: Result<seq<string>, ()>, fromEnv: seq<string>)
    : Result<seq<string>, ()>
  {
    if input != [] then Ok(input)
    else if fetched.Err? then fetched
    else if fetched.value != [] then fetched
    else Ok(fromEnv)
  }

  function CanonicalizeFor(host: Option<string>, urls: seq<string>): seq<string> {
    if host.Some? then Canonicalize(host.value, urls) else Dedupe(urls)
  }

  /** The browser-capable seeds left of the candidates; no host means the edge is addressed by IP. */
  function Resolved(host: Option<string>, candidates: seq<string>): seq<string> {
    Filter(CanonicalizeFor(host, Prefer(Dedupe(candidates))), IsDialableSeed)
  }

  datatype Refusal = FetchFailed | NoBrowserSeed

  /** What resolution comes to, with the edge's answer and the parsed lists given. */
  function Resolution(
    input: seq<string>, fetched: Result<seq<string>, ()>, fromEnv: seq<string>, host: Option<string>)
    : Result<seq<string>, Refusal>
  {
    var candidates := Candidates(input, fetched, fromEnv);
    if candidates.Err? then Err(FetchFailed)
    else if Resolved(host, candidates.value) == [] then Err(NoBrowserSeed)
    else Ok(Resolved(host, candidates.value))
  }

  /** `resolve_seed_node_urls`. */
  method ResolveSeedNodeUrls(
    input: seq<string>, fetched: Result<seq<string>, ()>, fromEnv: seq<string>, host: Option<string>)
    returns (r: Result<seq<string>, Refusal>)
    ensures r == Resolution(input, fetched, fromEnv, host)
  {
    var urls := DedupeSeen(input);
    if urls == [] {
      if fetched.Err? {
        return Err(FetchFailed);
      }
      urls := DedupeSeen(fetched.value);
      if urls == [] {
        urls := DedupeSeen(fromEnv);
      }
    }
    urls := Prefer(urls);
    urls := CanonicalizeFor(host, urls);
    urls := Filter(urls, IsDialableSeed);
    if urls == [] {
      return Err(NoBrowserSeed);
    }
    return Ok(urls);
  }

  lemma NothingResolves(host: Option<string>)
    ensures Resolved(host, []) == []
  {
    assert Prefer(Dedupe([])) == [];
  }

  /**
   * The sources in their order: a given list decides alone, whatever the edge or the environment say;
   * without one the edge's list does, and a failed fetch is an error; the environment counts last.
   */
  lemma SourcesInOrder(
    input: seq<string>, fetched: Result<seq<string>, ()>, fromEnv: seq<string>,
    otherwise: Result<seq<string>, ()>, instead: seq<string>, host: Option<string>)
    ensures input != [] ==> Resolution(input, fetched, fromEnv, host) == Resolution(input, otherwise, instead, host)
    ensures input == [] && fetched.Ok? && fetched.value != [] ==>
              Resolution(input, fetched, fromEnv, host) == Resolution(fetched.value, otherwise, instead, host)
    ensures input == [] && fetched.Err? ==> Resolution(input, fetched, fromEnv, host) == Err(FetchFailed)
    ensures input == [] && fetched == Ok([]) && fromEnv != [] ==>
              Resolution(input, fetched, fromEnv, host) == Resolution(fromEnv, otherwise, instead, host)
    ensures input == [] && fetched == Ok([]) && fromEnv == [] ==>
              Resolution(input, fetched, fromEnv, host) == Err(NoBrowserSeed)
  {
    NothingResolves(host);
  }

  /** Each entry of a canonicalised list is an input or the rewriting of one, and each input leaves its rewriting. */
  lemma CanonicalizedFrom(host: Option<string>, urls: seq<string>, v: string)
    ensures NoDuplicates(CanonicalizeFor(host, urls))
    ensures v in CanonicalizeFor(host, urls) ==>
              v in urls || (host.Some? && exists url :: url in urls && v == Rewrite(host.value, url))
    ensures v in urls ==> (if host.Some? then Rewrite(host.value, v) else v) in CanonicalizeFor(host, urls)
  {
    if host.Some? {
      if v in Canonicalize(host.value, urls) {
        CanonicalAddsNothing(host.value, urls, v);
      }
      if v in urls {
        CanonicalRepresents(host.value, urls, v);
      }
    }
  }

  lemma PreferMembers(urls: seq<string>, v: string)
    ensures (exists url :: url in urls && IsWebrtcDirectSeed(url)) ==>
              (v in Prefer(urls) <==> v in urls && IsWebrtcDirectSeed(v))
    ensures (forall url :: url in urls ==> !IsWebrtcDirectSeed(url)) ==> Prefer(urls) == urls
  {
    FilterMembers(urls, IsWebrtcDirectSeed);
  }

  /** Only webrtc-direct candidates count once there is one. */
  ghost predicate Preferred(candidates: seq<string>, url: string) {
    && url in candidates
    && (IsWebrtcDirectSeed(url) || forall other :: other in candidates ==> !IsWebrtcDirectSeed(other))
  }

  /** What becomes of a preferred candidate: it is readdressed, unless that address is a candidate itself. */
  ghost predicate Becomes(host: Option<string>, candidates: seq<string>, url: string, v: string) {
    if host == None then v == url
    else if Rewrite(host.value, url) != url && Preferred(candidates, Rewrite(host.value, url)) then v == url
    else v == Rewrite(host.value, url)
  }

  lemma PreferredIff(candidates: seq<string>, url: string)
    ensures url in Prefer(Dedupe(candidates)) <==> Preferred(candidates, url)
  {
    PreferMembers(Dedupe(candidates), url);
  }

  /** Just what comes out: the dialable ones among what becomes of the preferred candidates. */
  lemma ResolvedMembers(host: Option<string>, candidates: seq<string>, v: string)
    ensures v in Resolved(host, candidates) <==>
              IsDialableSeed(v) && exists url :: Preferred(candidates, url) && Becomes(host, candidates, url, v)
  {
    var preferred := Prefer(Dedupe(candidates));
    FilterMembers(CanonicalizeFor(host, preferred), IsDialableSeed);
    forall url
      ensures url in preferred <==> Preferred(candidates, url)
    {
      PreferredIff(candidates, url);
    }
    if host.Some? {
      CanonicalMembers(host.value, preferred, v);
    }
  }

  lemma ResolvedIsClean(host: Option<string>, candidates: seq<string>)
    ensures NoDuplicates(Resolved(host, candidates))
    ensures forall v :: v in Resolved(host, candidates) ==> IsDialableSeed(v)
  {
    var urls := CanonicalizeFor(host, Prefer(Dedupe(candidates)));
    CanonicalizedFrom(host, Prefer(Dedupe(candidates)), "");
    FilterKeepsDistinct(urls, IsDialableSeed);
    FilterMembers(urls, IsDialableSeed);
  }

  /** With any webrtc-direct candidate, every seed that comes out is webrtc-direct. */
  lemma ResolvedIsWebrtc(host: Option<string>, candidates: seq<string>, v: string)
    requires forall url :: url in candidates ==> PlainAddress(url)
    requires exists url :: url in candidates && IsWebrtcDirectSeed(url)
    requires v in Resolved(host, candidates)
    ensures IsWebrtcDirectSeed(v)
  {
    var preferred := Prefer(Dedupe(candidates));
    FilterMembers(CanonicalizeFor(host, preferred), IsDialableSeed);
    CanonicalizedFrom(host, preferred, v);
    PreferMembers(Dedupe(candidates), v);
    if v !in preferred {
      var url :| url in preferred && v == Rewrite(host.value, url);
      PreferMembers(Dedupe(candidates), url);
      if v != url {
        RewriteKeepsWebrtc(host.value, url);
      }
    }
  }

  /** Something comes out exactly when some candidate was dialable. */
  lemma ResolvedIffDialable(host: Option<string>, candidates: seq<string>)
    requires forall url :: url in candidates ==> PlainAddress(url)
    ensures Resolved(host, candidates) != [] <==> exists url :: url in candidates && IsDialableSeed(url)
  {
    var preferred := Prefer(Dedupe(candidates));
    FilterMembers(CanonicalizeFor(host, preferred), IsDialableSeed);
    if Resolved(host, candidates) != [] {
      var v := Resolved(host, candidates)[0];
      assert v in Resolved(host, candidates);
      CanonicalizedFrom(host, preferred, v);
      PreferMembers(Dedupe(candidates), v);
      if v !in preferred {
        var url :| url in preferred && v == Rewrite(host.value, url);
        PreferMembers(Dedupe(candidates), url);
        assert v != url;
        assert IsDialableSeed(url);
      }
    }
    if url :| url in candidates && IsDialableSeed(url) {
      var kept := SomePreferred(candidates, url);
      CanonicalizedFrom(host, preferred, kept);
      if host.Some? {
        RewriteKeepsDialable(host.value, kept);
      }
    }
  }

  lemma SomePreferred(candidates: seq<string>, url: string) returns (kept: string)
    requires url in candidates && IsDialableSeed(url)
    ensures kept in candidates && kept in Prefer(Dedupe(candidates)) && IsDialableSeed(kept)
  {
    PreferMembers(Dedupe(candidates), url);
    if other :| other in Dedupe(candidates) && IsWebrtcDirectSeed(other) {
      PreferMembers(Dedupe(candidates), other);
      kept := other;
    } else {
      kept := url;
    }
  }
}
