/** What a pusher cuts out of its push URL for the connect command. */
module PushUrls {
  import opened Bytes
  import opened Wrappers

  const SLASH: byte := 0x2F
  const COLON: byte := 0x3A
  const ROOT: seq<byte> := [SLASH]
  const SCHEME_END: seq<byte> := [COLON, SLASH, SLASH]

  predicate Matches(s: seq<byte>, pattern: seq<byte>, at: nat) {
    at + |pattern| <= |s| && s[at..at + |pattern|] == pattern
  }

  /** The first occurrence at or behind a position. */
  function Find(s: seq<byte>, pattern: seq<byte>, from: nat): (at: Option<nat>)
    ensures at.Some? ==> from <= at.value && at.value + |pattern| <= |s|
    decreases |s| - from
  {
    if from + |pattern| > |s| then None
    else if Matches(s, pattern, from) then Some(from)
    else if from == |s| then None
    else Find(s, pattern, from + 1)
  }

  /** Where the path begins. Without a scheme the search begins at 2, the position "not found" plus three. */
  function PathStart(url: seq<byte>): Option<nat> {
    var scheme := Find(url, SCHEME_END, 0);
    Find(url, ROOT, if scheme.Some? then scheme.value + 3 else 2)
  }

  /** The first part of a path. */
  function FirstPart(path: seq<byte>): (part: seq<byte>)
    requires path != []
    ensures |part| < |path|
  {
    var end := Find(path, ROOT, 1);
    if end.Some? then path[1..end.value] else path[1..]
  }

  function AppOf(url: seq<byte>): seq<byte> {
    var start := PathStart(url);
    FirstPart(if start.Some? then url[start.value..] else ROOT)
  }

  /** The URL up to the end of the first part of its path. */
  function TcUrlOf(url: seq<byte>): seq<byte> {
    var start := PathStart(url);
    if start.Some? then url[..Min(start.value + |AppOf(url)| + 1, |url|)] else []
  }

  lemma {:induction false} FoundAt(s: seq<byte>, pattern: seq<byte>, from: nat, at: nat)
    requires from <= at && pattern != [] && Matches(s, pattern, at)
    requires forall k :: from <= k < at ==> s[k] != pattern[0]
    ensures Find(s, pattern, from) == Some(at)
    decreases at - from
  {
    if from < at {
      FirstOfMatch(s, pattern, from);
      hide Matches;
      FoundAt(s, pattern, from + 1, at);
    }
  }

  lemma FirstOfMatch(s: seq<byte>, pattern: seq<byte>, at: nat)
    requires pattern != []
    ensures Matches(s, pattern, at) ==> s[at] == pattern[0]
  {
  }

  lemma {:induction false} NotFound(s: seq<byte>, b: byte, from: nat)
    requires forall k :: from <= k < |s| ==> s[k] != b
    ensures Find(s, [b], from) == None
    decreases |s| - from
  {
    if from < |s| {
      FirstOfMatch(s, [b], from);
      hide Matches;
      NotFound(s, b, from + 1);
    }
  }

  /** A part of a whole, at its place. */
  lemma PartMatches(a: seq<byte>, pattern: seq<byte>, b: seq<byte>)
    ensures Matches(a + pattern + b, pattern, |a|)
  {
  }

  lemma FirstPartIs(app: seq<byte>, rest: seq<byte>)
    requires SLASH !in app && (rest == [] || rest[0] == SLASH)
    ensures FirstPart(ROOT + app + rest) == app
  {
    var path := ROOT + app + rest;
    if rest == [] {
      NotFound(path, SLASH, 1);
    } else {
      assert path == (ROOT + app) + ROOT + rest[1..];
      PartMatches(ROOT + app, ROOT, rest[1..]);
      FoundAt(path, ROOT, 1, 1 + |app|);
    }
    hide Find;
  }

  /** A URL in its parts gives the application's name, and the URL up to the end of that name. */
  lemma UrlParts(scheme: seq<byte>, host: seq<byte>, app: seq<byte>, rest: seq<byte>)
    requires COLON !in scheme && SLASH !in host && SLASH !in app && (rest == [] || rest[0] == SLASH)
    ensures var front := scheme + SCHEME_END + host + ROOT + app;
            AppOf(front + rest) == app && TcUrlOf(front + rest) == front
  {
    var front := scheme + SCHEME_END + host;
    var path := ROOT + app + rest;
    var url := front + path;
    assert scheme + SCHEME_END + host + ROOT + app + rest == url;
    PathStartIs(scheme, host, path);
    hide PathStart, FirstPart;
    assert url[|front|..] == path;
    FirstPartIs(app, rest);
    assert url[..|front| + |app| + 1] == scheme + SCHEME_END + host + ROOT + app;
  }

  lemma PathStartIs(scheme: seq<byte>, host: seq<byte>, path: seq<byte>)
    requires COLON !in scheme && SLASH !in host && path != [] && path[0] == SLASH
    ensures PathStart(scheme + SCHEME_END + host + path) == Some(|scheme + SCHEME_END + host|)
  {
    hide Find, Matches;
    var front := scheme + SCHEME_END + host;
    var url := front + path;
    assert url == scheme + SCHEME_END + (host + path);
    PartMatches(scheme, SCHEME_END, host + path);
    FoundAt(url, SCHEME_END, 0, |scheme|);
    assert url == front + ROOT + path[1..];
    PartMatches(front, ROOT, path[1..]);
    forall k | |scheme| + 3 <= k < |front| ensures url[k] != SLASH {
      assert url[k] == host[k - |scheme| - 3];
    }
    FoundAt(url, ROOT, |scheme| + 3, |front|);
  }

  /** The same with the characters spelled out: rtmp://host/app/rest gives app and rtmp://host/app. */
  lemma SpelledUrl(scheme: seq<byte>, host: seq<byte>, app: seq<byte>, rest: seq<byte>)
    requires ':' as int !in scheme && '/' as int !in host && '/' as int !in app
    requires rest == [] || rest[0] == '/' as int
    ensures var front := scheme + Ascii("://") + host + Ascii("/") + app;
            AppOf(front + rest) == app && TcUrlOf(front + rest) == front
  {
    assert SCHEME_END == Ascii("://") && ROOT == Ascii("/");
    hide Ascii;
    UrlParts(scheme, host, app, rest);
  }

  /** Without a path the application has no name and no address. */
  lemma NoPath(scheme: seq<byte>, host: seq<byte>)
    requires ':' as int !in scheme && '/' as int !in host
    ensures var url := scheme + Ascii("://") + host; AppOf(url) == [] && TcUrlOf(url) == []
  {
    var url := scheme + SCHEME_END + host;
    assert SCHEME_END == Ascii("://");
    PartMatches(scheme, SCHEME_END, host);
    FoundAt(url, SCHEME_END, 0, |scheme|);
    forall k | |scheme| + 3 <= k < |url| ensures url[k] != SLASH {
      assert url[k] == host[k - |scheme| - 3];
    }
    NotFound(url, SLASH, |scheme| + 3);
    NotFound(ROOT, SLASH, 1);
    hide Find, Ascii;
  }

  /** Without a scheme the first two characters are not looked at. */
  lemma NoScheme(two: seq<byte>, host: seq<byte>, app: seq<byte>)
    requires |two| == 2 && ':' as int !in two + host + app && '/' as int !in host && '/' as int !in app
    ensures var front := two + host + Ascii("/") + app; AppOf(front) == app && TcUrlOf(front) == front
  {
    var url := two + host + ROOT + app;
    assert ROOT == Ascii("/");
    NoColon(url);
    PartMatches(two + host, ROOT, app);
    assert two + host + ROOT + app == url;
    forall k | 2 <= k < 2 + |host| ensures url[k] != SLASH {
      assert url[k] == host[k - 2];
    }
    FoundAt(url, ROOT, 2, 2 + |host|);
    assert url[2 + |host|..] == ROOT + app + [];
    FirstPartIs(app, []);
    hide Find, FirstPart, Ascii;
  }

  lemma NoColon(url: seq<byte>)
    requires COLON !in url
    ensures Find(url, SCHEME_END, 0) == None
  {
    NoMatchWithout(url, 0);
  }

  lemma {:induction false} NoMatchWithout(url: seq<byte>, from: nat)
    requires COLON !in url
    ensures Find(url, SCHEME_END, from) == None
    decreases |url| - from
  {
    if from < |url| {
      FirstOfMatch(url, SCHEME_END, from);
      hide Matches;
      NoMatchWithout(url, from + 1);
    }
  }
}
