/** When two spellings name the same git remote (`remote_identity`). */
module Remotes {
  import opened Wrappers

  function RemoveSuffix(s: string, suffix: string): string {
    if |s| >= |suffix| && s[|s| - |suffix|..] == suffix then s[..|s| - |suffix|] else s
  }

  function StartsWith(s: string, prefix: string): bool {
    prefix <= s
  }

  /** `str.find`: the first occurrence. */
  function Find(s: string, pattern: string): (at: Option<nat>)
    ensures at.Some? ==> at.value + |pattern| <= |s|
  {
    if pattern <= s then Some(0)
    else if s == "" then None
    else match Find(s[1..], pattern)
      case Some(at) => Some(at + 1)
      case None => None
  }

  function AfterLast(s: string, c: char): string {
    if s == "" then ""
    else if c in s[1..] then AfterLast(s[1..], c)
    else if s[0] == c then s[1..]
    else s
  }

  function Lower(s: string): (r: string)
    ensures |r| == |s|
  {
    if s == "" then ""
    else [if 'A' <= s[0] <= 'Z' then (s[0] as int + 32) as char else s[0]] + Lower(s[1..])
  }

  /** Authority and path of a URL behind its scheme: the user goes. */
  function WithoutUser(rest: string): string {
    match Find(rest, "/")
    case Some(slash) => AfterLast(rest[..slash], '@') + rest[slash..]
    case None => AfterLast(rest, '@')
  }

  /** The `host:path` form of ssh: the first colon becomes a slash. */
  function ColonToSlash(rest: string): string {
    match Find(rest, ":")
    case Some(at) => rest[..at] + "/" + rest[at + 1..]
    case None => rest
  }

  /** `remote_identity` once the suffixes are gone: host and path, without scheme or user. */
  function Identify(value: string): string {
    Lower(
      if StartsWith(value, "git@") then ColonToSlash(value[4..])
      else match Find(value, "://")
        case None => value
        case Some(at) => WithoutUser(value[at + 3..]))
  }

  function RemoteIdentity(url: string): string {
    Identify(RemoveSuffix(RemoveSuffix(url, "/"), ".git"))
  }

  lemma {:induction false} FindFirst(before: string, pattern: string, after: string)
    requires pattern != "" && pattern[0] !in before
    ensures Find(before + pattern + after, pattern) == Some(|before|)
  {
    if before == "" {
      assert before + pattern + after == pattern + after;
    } else {
      var whole := before + pattern + after;
      assert whole[0] == before[0] && before[0] in before;
      assert whole[1..] == before[1..] + pattern + after;
      assert forall c :: c in before[1..] ==> c in before;
      FindFirst(before[1..], pattern, after);
    }
  }

  lemma {:induction false} AfterLastAt(user: string, host: string)
    requires '@' !in host
    ensures AfterLast(user + "@" + host, '@') == host
    ensures AfterLast(host, '@') == host
  {
    if host != "" {
      assert host[0] in host;
    }
    if user == "" {
      assert user + "@" + host == "@" + host;
      assert ("@" + host)[1..] == host;
    } else {
      AfterLastAt(user[1..], host);
      var whole := user + "@" + host;
      assert whole[1..] == user[1..] + "@" + host;
      assert whole[1..][|user| - 1] == '@';
    }
  }

  /** A host name and a repository path as both spellings of a remote use them. */
  predicate RemoteName(host: string, path: string) {
    && '@' !in host && ':' !in host && '/' !in host
    && path != "" && path[|path| - 1] != '/'
    && RemoveSuffix(path, ".git") == path
  }

  /** Whatever precedes the path, the optional `.git` is the only suffix that goes. */
  lemma SuffixOfPath(front: string, path: string)
    requires path != "" && path[|path| - 1] != '/' && RemoveSuffix(path, ".git") == path
    requires front != "" && front[|front| - 1] in ['/', ':']
    ensures RemoveSuffix(RemoveSuffix(front + path, "/"), ".git") == front + path
    ensures RemoveSuffix(RemoveSuffix(front + path + ".git", "/"), ".git") == front + path
  {
    var url := front + path;
    assert url[|url| - 1] == path[|path| - 1];
    assert RemoveSuffix(url, "/") == url;
    if |url| >= 4 {
      var tail := url[|url| - 4..];
      assert |path| >= 4 ==> tail == path[|path| - 4..];
      assert |path| < 4 ==> tail[3 - |path|] == url[|front| - 1];
    }
    var longer := url + ".git";
    assert longer[|longer| - 1..] != "/";
    assert longer[|longer| - 4..] == ".git" && longer[..|longer| - 4] == url;
  }

  lemma FrontedIdentity(front: string, path: string)
    requires path != "" && path[|path| - 1] != '/' && RemoveSuffix(path, ".git") == path
    requires front != "" && front[|front| - 1] in ['/', ':']
    ensures RemoteIdentity(front + path) == Identify(front + path)
    ensures RemoteIdentity(front + path + ".git") == Identify(front + path)
  {
    SuffixOfPath(front, path);
  }

  lemma ColonIdentity(host: string, path: string)
    requires ':' !in host
    ensures Identify("git@" + (host + ":" + path)) == Lower(host + "/" + path)
  {
    var rest := host + ":" + path;
    assert ("git@" + rest)[4..] == rest;
    FindFirst(host, ":", path);
    assert rest[..|host|] == host && rest[|host| + 1..] == path;
  }

  /** What may stand before `://`. */
  predicate Scheme(scheme: string) {
    ':' !in scheme && '@' !in scheme
  }

  lemma BehindScheme(scheme: string, rest: string)
    requires Scheme(scheme)
    ensures var url := scheme + "://" + rest;
            && Find(url, "://") == Some(|scheme|) && url[|scheme| + 3..] == rest
            && !StartsWith(url, "git@")
  {
    var url := scheme + "://" + rest;
    FindFirst(scheme, "://", rest);
    var k := if |scheme| > 3 then 3 else |scheme|;
    assert |scheme| > 3 ==> scheme[3] in scheme && url[3] == scheme[3];
    assert |scheme| <= 3 ==> url[|scheme|] == ':';
    assert url[k] != "git@"[k];
  }

  lemma UserGoes(authority: string, host: string, path: string)
    requires '/' !in authority && AfterLast(authority, '@') == host
    ensures WithoutUser(authority + "/" + path) == host + "/" + path
  {
    var rest := authority + "/" + path;
    FindFirst(authority, "/", path);
    assert rest[..|authority|] == authority && rest[|authority|..] == "/" + path;
    assert host + ("/" + path) == host + "/" + path;
  }

  lemma IdentifyUrl(scheme: string, authority: string, host: string, path: string)
    requires Scheme(scheme) && '/' !in authority && AfterLast(authority, '@') == host
    ensures Identify(scheme + "://" + (authority + "/" + path)) == Lower(host + "/" + path)
  {
    BehindScheme(scheme, authority + "/" + path);
    UserGoes(authority, host, path);
  }

  /** `git@host:path`, and a URL of any scheme with or without user; `.git` and a slash may end either. */
  datatype Spelling =
    | Ssh(git: bool, slash: bool)
    | Url(scheme: string, user: Option<string>, git: bool, slash: bool)

  function Front(host: string, spelling: Spelling): string {
    match spelling
    case Ssh(_, _) => "git@" + host + ":"
    case Url(scheme, None, _, _) => scheme + "://" + (host + "/")
    case Url(scheme, Some(user), _, _) => scheme + "://" + (user + "@" + host + "/")
  }

  function Spell(host: string, path: string, spelling: Spelling): string {
    Front(host, spelling) + path + (if spelling.git then ".git" else "") + (if spelling.slash then "/" else "")
  }

  predicate Spellable(host: string, path: string, spelling: Spelling) {
    && RemoteName(host, path)
    && (spelling.Url? ==> Scheme(spelling.scheme) && (spelling.user.Some? ==> '/' !in spelling.user.value))
  }

  /** One slash at the end is not part of a remote. */
  lemma TrailingSlash(url: string)
    requires url != "" && url[|url| - 1] != '/'
    ensures RemoteIdentity(url + "/") == RemoteIdentity(url)
  {
    assert (url + "/")[|url|..] == "/" && (url + "/")[..|url|] == url;
    assert url[|url| - 1..] != "/";
  }

  lemma FrontIdentity(host: string, path: string, spelling: Spelling)
    requires Spellable(host, path, spelling)
    ensures Identify(Front(host, spelling) + path) == Lower(host + "/" + path)
  {
    match spelling
    case Ssh(_, _) =>
      ColonIdentity(host, path);
      assert "git@" + host + ":" + path == "git@" + (host + ":" + path);
    case Url(scheme, None, _, _) =>
      AfterLastAt("", host);
      IdentifyUrl(scheme, host, host, path);
      assert scheme + "://" + (host + "/") + path == scheme + "://" + (host + "/" + path);
    case Url(scheme, Some(user), _, _) =>
      AfterLastAt(user, host);
      IdentifyUrl(scheme, user + "@" + host, host, path);
      assert scheme + "://" + (user + "@" + host + "/") + path == scheme + "://" + (user + "@" + host + "/" + path);
  }

  lemma FrontEnds(host: string, spelling: Spelling)
    ensures var front := Front(host, spelling);
            front != "" && front[|front| - 1] in ['/', ':']
  {
  }

  /** Every spelling of a remote has one identity: lower-case host and path. */
  lemma SpellingsAgree(host: string, path: string, spelling: Spelling)
    requires Spellable(host, path, spelling)
    ensures RemoteIdentity(Spell(host, path, spelling)) == Lower(host + "/" + path)
  {
    var front := Front(host, spelling);
    FrontEnds(host, spelling);
    FrontIdentity(host, path, spelling);
    FrontedIdentity(front, path);
    var url := front + path + (if spelling.git then ".git" else "");
    assert front + path + "" == front + path && url + "" == url;
    if spelling.slash {
      TrailingSlash(url);
    }
  }

  /** Lower case, character by character: only the letters from A to Z move, by 32 places. */
  lemma {:induction false} LowerAt(s: string, i: nat)
    requires i < |s|
    ensures Lower(s)[i] as int == s[i] as int + (if 65 <= s[i] as int <= 90 then 32 else 0)
  {
    if i > 0 {
      LowerAt(s[1..], i - 1);
    }
  }

  lemma {:induction false} LowerConcat(a: string, b: string)
    ensures Lower(a + b) == Lower(a) + Lower(b)
  {
    if a == "" {
      assert a + b == b;
    } else {
      LowerConcat(a[1..], b);
      assert (a + b)[1..] == a[1..] + b;
    }
  }

  lemma {:induction false} LowerKeepsSlashes(s: string)
    ensures '/' in Lower(s) <==> '/' in s
  {
    if s != "" {
      LowerKeepsSlashes(s[1..]);
      assert s == [s[0]] + s[1..];
      assert Lower(s) == [Lower(s)[0]] + Lower(s[1..]);
    }
  }

  lemma NoSlashBefore(a: string, b: string, k: nat)
    requires '/' !in a && k < |a|
    ensures (a + "/" + b)[k] != '/'
  {
  }

  /** Two texts that agree split at their first slashes into the same parts. */
  lemma FirstSlash(a: string, b: string, c: string, d: string)
    requires '/' !in a && '/' !in c
    ensures a + "/" + b == c + "/" + d <==> a == c && b == d
  {
    if |c| < |a| {
      NoSlashBefore(a, b, |c|);
      assert (c + "/" + d)[|c|] == '/';
    } else if |a| < |c| {
      NoSlashBefore(c, d, |a|);
      assert (a + "/" + b)[|a|] == '/';
    } else {
      SplitAtEqualLength(a, b, c, d);
    }
  }

  lemma SplitAtEqualLength(a: string, b: string, c: string, d: string)
    requires |a| == |c|
    ensures a + "/" + b == c + "/" + d <==> a == c && b == d
  {
    var one, two := a + "/" + b, c + "/" + d;
    assert one[..|a|] == a && two[..|c|] == c;
    assert one[|a| + 1..] == b && two[|c| + 1..] == d;
  }

  lemma IdentityParts(host: string, path: string)
    requires '/' !in host
    ensures Lower(host + "/" + path) == Lower(host) + "/" + Lower(path)
    ensures '/' !in Lower(host)
  {
    LowerConcat(host + "/", path);
    LowerConcat(host, "/");
    LowerKeepsSlashes(host);
    assert "/"[1..] == "" && Lower("/") == "/" + Lower("");
  }

  lemma SpelledParts(host: string, path: string, spelling: Spelling)
    requires Spellable(host, path, spelling)
    ensures RemoteIdentity(Spell(host, path, spelling)) == Lower(host) + "/" + Lower(path)
    ensures '/' !in Lower(host)
  {
    SpellingsAgree(host, path, spelling);
    IdentityParts(host, path);
  }

  /** What `verify_remote` relies on: two spellings have one identity exactly for the same host and path. */
  lemma SameRemoteIff(
    host: string, path: string, spelling: Spelling, otherHost: string, otherPath: string, otherSpelling: Spelling)
    requires Spellable(host, path, spelling) && Spellable(otherHost, otherPath, otherSpelling)
    ensures RemoteIdentity(Spell(host, path, spelling)) == RemoteIdentity(Spell(otherHost, otherPath, otherSpelling))
            <==> Lower(host) == Lower(otherHost) && Lower(path) == Lower(otherPath)
  {
    SpelledParts(host, path, spelling);
    SpelledParts(otherHost, otherPath, otherSpelling);
    FirstSlash(Lower(host), Lower(path), Lower(otherHost), Lower(otherPath));
  }
}
