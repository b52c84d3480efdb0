/** isValidWebSocketUrl (JS/websocket.js and script.js): the anchored pattern
      ^(ws|wss)://[a-zA-Z0-9.-]+(?::\d+)?(?:/[a-zA-Z0-9-._~:/?#[\]@!$&'()*+,;=]*)?$
    written twice: once as the grammar the pattern denotes (a decomposition
    into scheme, "://", host, optional port and optional path that is
    claimed to exist), and once as a left-to-right recognizer. The lemma
    RecognizerMatchesGrammar shows the two agree on every string. */
module WsUrl {
  import opened Basics

  predicate IsAsciiLetter(c: char) { ('a' <= c <= 'z') || ('A' <= c <= 'Z') }

  predicate IsDigit(c: char) { '0' <= c <= '9' }

  /** The class [a-zA-Z0-9.-]. */
  predicate IsHostChar(c: char) { IsAsciiLetter(c) || IsDigit(c) || c == '.' || c == '-' }

  /** The class [a-zA-Z0-9-._~:/?#[\]@!$&'()*+,;=]: letters, digits, the
      unreserved marks and the sub-delimiters; neither '%' nor space. */
  predicate IsPathChar(c: char) {
    IsAsciiLetter(c) || IsDigit(c) || c in "-._~:/?#[]@!$&'()*+,;="
  }

  // ---------------------------------------------------------------------
  // The grammar the pattern denotes, one stage at a time

  predicate IsScheme(s: string) { s == "ws" || s == "wss" }

  /** [a-zA-Z0-9.-]+ */
  predicate IsHost(h: string) {
    |h| > 0 && forall i :: 0 <= i < |h| ==> IsHostChar(h[i])
  }

  /** (?::\d+)? */
  predicate IsPortPart(p: string) {
    p == [] || (|p| >= 2 && p[0] == ':' && forall i :: 1 <= i < |p| ==> IsDigit(p[i]))
  }

  /** (?:/[...]*)? */
  predicate IsPathPart(q: string) {
    q == [] || (q[0] == '/' && forall i :: 1 <= i < |q| ==> IsPathChar(q[i]))
  }

  /** What may follow the host: an optional port, then an optional path. */
  ghost predicate PortThenPathGrammar(t: string) {
    exists port, path :: t == port + path && IsPortPart(port) && IsPathPart(path)
  }

  /** What follows "://": a host, then the port and path. */
  ghost predicate HostThenRestGrammar(r: string) {
    exists host, tail :: r == host + tail && IsHost(host) && PortThenPathGrammar(tail)
  }

  /** The whole anchored pattern. */
  ghost predicate MatchesGrammar(u: string) {
    exists scheme, rest :: u == scheme + "://" + rest && IsScheme(scheme) && HostThenRestGrammar(rest)
  }

  // ---------------------------------------------------------------------
  // The recognizer, one stage at a time

  /** Length of the longest prefix of host characters. */
  function HostLength(r: string): (n: nat)
    ensures n <= |r|
    ensures forall k :: 0 <= k < n ==> IsHostChar(r[k])
    ensures n < |r| ==> !IsHostChar(r[n])
    decreases |r|
  {
    if |r| > 0 && IsHostChar(r[0]) then 1 + HostLength(r[1..]) else 0
  }

  /** Length of the longest prefix of decimal digits. */
  function DigitsLength(r: string): (n: nat)
    ensures n <= |r|
    ensures forall k :: 0 <= k < n ==> IsDigit(r[k])
    ensures n < |r| ==> !IsDigit(r[n])
    decreases |r|
  {
    if |r| > 0 && IsDigit(r[0]) then 1 + DigitsLength(r[1..]) else 0
  }

  predicate PathCharsOnly(q: string)
    decreases |q|
  {
    |q| == 0 || (IsPathChar(q[0]) && PathCharsOnly(q[1..]))
  }

  predicate PathOk(q: string) {
    q == [] || (q[0] == '/' && PathCharsOnly(q[1..]))
  }

  predicate PortThenPathOk(t: string) {
    if |t| > 0 && t[0] == ':' then
      var d := DigitsLength(t[1..]);
      d > 0 && PathOk(t[1 + d..])
    else PathOk(t)
  }

  predicate HostThenRestOk(r: string) {
    var h := HostLength(r);
    h > 0 && PortThenPathOk(r[h..])
  }

  /** isValidWebSocketUrl(u). "wss://" and "ws://" differ in their third
      character, so at most one of the two branches applies. */
  function IsValidWebSocketUrl(u: string): (r: bool)
    ensures r ==> StartsWith(u, "ws://") || StartsWith(u, "wss://")
  {
    if StartsWith(u, "wss://") then HostThenRestOk(u[6..])
    else if StartsWith(u, "ws://") then HostThenRestOk(u[5..])
    else false
  }

  // ---------------------------------------------------------------------
  // Agreement, stage by stage

  lemma {:induction false} PathCharsOnlyIff(q: string)
    ensures PathCharsOnly(q) <==> forall k :: 0 <= k < |q| ==> IsPathChar(q[k])
    decreases |q|
  {
    if |q| > 0 {
      PathCharsOnlyIff(q[1..]);
      assert forall k :: 1 <= k < |q| ==> q[k] == q[1..][k - 1];
    }
  }

  lemma PathOkIff(q: string)
    ensures PathOk(q) <==> IsPathPart(q)
  {
    if q != [] {
      PathCharsOnlyIff(q[1..]);
      assert forall k :: 1 <= k < |q| ==> q[k] == q[1..][k - 1];
    }
  }

  lemma {:induction false} DigitsLengthExact(r: string, n: nat)
    requires n <= |r|
    requires forall k :: 0 <= k < n ==> IsDigit(r[k])
    requires n < |r| ==> !IsDigit(r[n])
    ensures DigitsLength(r) == n
    decreases n
  {
    if n > 0 {
      DigitsLengthExact(r[1..], n - 1);
    }
  }

  lemma {:induction false} HostLengthExact(r: string, n: nat)
    requires n <= |r|
    requires forall k :: 0 <= k < n ==> IsHostChar(r[k])
    requires n < |r| ==> !IsHostChar(r[n])
    ensures HostLength(r) == n
    decreases n
  {
    if n > 0 {
      HostLengthExact(r[1..], n - 1);
    }
  }

  lemma PortThenPathSound(t: string)
    requires PortThenPathOk(t)
    ensures PortThenPathGrammar(t)
  {
    if |t| > 0 && t[0] == ':' {
      var d := DigitsLength(t[1..]);
      var port, path := t[..1 + d], t[1 + d..];
      PathOkIff(path);
      assert forall i :: 1 <= i < |port| ==> port[i] == t[1..][i - 1];
      assert t == port + path && IsPortPart(port) && IsPathPart(path);
    } else {
      PathOkIff(t);
      assert t == [] + t && IsPortPart([]);
    }
  }

  lemma PortThenPathComplete(t: string, port: string, path: string)
    requires t == port + path && IsPortPart(port) && IsPathPart(path)
    ensures PortThenPathOk(t)
  {
    PathOkIff(path);
    if port != [] {
      var n := |port| - 1;
      assert forall k :: 0 <= k < n ==> t[1..][k] == port[k + 1];
      assert n < |t[1..]| ==> t[1..][n] == path[0];
      DigitsLengthExact(t[1..], n);
      assert t[1 + n..] == path;
    } else {
      assert t == path;
    }
  }

  lemma PortThenPathIff(t: string)
    ensures PortThenPathOk(t) <==> PortThenPathGrammar(t)
  {
    if PortThenPathOk(t) {
      PortThenPathSound(t);
    }
    if PortThenPathGrammar(t) {
      var port, path :| t == port + path && IsPortPart(port) && IsPathPart(path);
      PortThenPathComplete(t, port, path);
    }
  }

  /** A non-empty rest after the host starts with ':' or '/'. */
  lemma RestStartsWithDelimiter(t: string)
    requires PortThenPathGrammar(t) && t != []
    ensures t[0] == ':' || t[0] == '/'
  {
    var port, path :| t == port + path && IsPortPart(port) && IsPathPart(path);
    if port == [] {
      assert t == path;
    }
  }

  lemma HostThenRestSound(r: string)
    requires HostThenRestOk(r)
    ensures HostThenRestGrammar(r)
  {
    var h := HostLength(r);
    var host, tail := r[..h], r[h..];
    PortThenPathSound(tail);
    forall i | 0 <= i < |host| ensures IsHostChar(host[i]) {
      assert host[i] == r[i];
    }
    assert r == host + tail && IsHost(host) && PortThenPathGrammar(tail);
  }

  lemma HostThenRestComplete(r: string, host: string, tail: string)
    requires r == host + tail && IsHost(host) && PortThenPathGrammar(tail)
    ensures HostThenRestOk(r)
  {
    if tail != [] {
      RestStartsWithDelimiter(tail);
      assert r[|host|] == tail[0];
    }
    HostLengthExact(r, |host|);
    assert r[|host|..] == tail;
    PortThenPathIff(tail);
  }

  lemma HostThenRestIff(r: string)
    ensures HostThenRestOk(r) <==> HostThenRestGrammar(r)
  {
    if HostThenRestOk(r) {
      HostThenRestSound(r);
    }
    if HostThenRestGrammar(r) {
      var host, tail :| r == host + tail && IsHost(host) && PortThenPathGrammar(tail);
      HostThenRestComplete(r, host, tail);
    }
  }

  lemma ValidImpliesGrammar(u: string)
    requires IsValidWebSocketUrl(u)
    ensures MatchesGrammar(u)
  {
    var a := if StartsWith(u, "wss://") then 6 else 5;
    var scheme, rest := u[..a - 3], u[a..];
    HostThenRestIff(rest);
    assert u[a - 3..a] == "://";
    assert u == scheme + "://" + rest;
    assert IsScheme(scheme);
  }

  /** A concatenation splits back into its two parts. */
  lemma PrefixSplit(p: string, rest: string)
    ensures (p + rest)[..|p|] == p && (p + rest)[|p|..] == rest
  {
  }

  /** A string that starts with "ws://" does not start with "wss://": the
      two differ in their third character. */
  lemma WsNotWss(u: string)
    requires StartsWith(u, "ws://")
    ensures !StartsWith(u, "wss://")
  {
    assert u[2] == u[..5][2] == ':';
    if |u| >= 6 {
      assert u[..6][2] == u[2];
    }
  }

  lemma GrammarImpliesValid(u: string, scheme: string, rest: string)
    requires u == scheme + "://" + rest && IsScheme(scheme) && HostThenRestGrammar(rest)
    ensures IsValidWebSocketUrl(u)
  {
    var host, tail :| rest == host + tail && IsHost(host) && PortThenPathGrammar(tail);
    HostThenRestComplete(rest, host, tail);
    var p := scheme + "://";
    assert u == p + rest;
    PrefixSplit(p, rest);
    if scheme == "ws" {
      assert p == "ws://";
      WsNotWss(u);
      assert u[5..] == rest;
    } else {
      assert p == "wss://";
      assert u[6..] == rest;
    }
  }

  /** The recognizer accepts exactly the strings the pattern matches. */
  lemma RecognizerMatchesGrammar(u: string)
    ensures IsValidWebSocketUrl(u) <==> MatchesGrammar(u)
  {
    if IsValidWebSocketUrl(u) {
      ValidImpliesGrammar(u);
    }
    if MatchesGrammar(u) {
      var scheme, rest :| u == scheme + "://" + rest && IsScheme(scheme) && HostThenRestGrammar(rest);
      GrammarImpliesValid(u, scheme, rest);
    }
  }

  /** The pattern bounds neither the number of port digits nor their
      value: every host, digit string and path make a valid URL. */
  lemma PortUnbounded(host: string, digits: string, path: string)
    requires IsHost(host) && IsPathPart(path)
    requires |digits| > 0 && forall i :: 0 <= i < |digits| ==> IsDigit(digits[i])
    ensures IsValidWebSocketUrl("ws://" + host + ":" + digits + path)
  {
    var port := ":" + digits;
    assert IsPortPart(port) by {
      forall i | 1 <= i < |port| ensures IsDigit(port[i]) {
        assert port[i] == digits[i - 1];
      }
    }
    var tail := port + path;
    assert PortThenPathGrammar(tail);
    var rest := host + tail;
    assert HostThenRestGrammar(rest);
    assert "ws://" + host + ":" + digits + path == "ws" + "://" + rest;
    GrammarImpliesValid("ws://" + host + ":" + digits + path, "ws", rest);
  }

  /** A port above 65535, which a URL parser refuses, passes the check. */
  lemma PortAboveRangeAccepted(u: string)
    requires u == "ws://host:99999/a"
    ensures IsValidWebSocketUrl(u)
  {
    var host, digits, path := u[5..9], u[10..15], u[15..];
    assert IsHost(host) by {
      forall i | 0 <= i < |host| ensures IsHostChar(host[i]) {
      }
    }
    forall i | 0 <= i < |digits| ensures IsDigit(digits[i]) {
    }
    assert IsPathPart(path);
    assert u == "ws://" + host + ":" + digits + path;
    PortUnbounded(host, digits, path);
  }

  // ---------------------------------------------------------------------
  // Every character of an accepted URL lies in the path class; in
  // particular no accepted URL contains '%' or a space.

  predicate AllPathChars(s: string) {
    forall k :: 0 <= k < |s| ==> IsPathChar(s[k])
  }

  lemma PathOkChars(q: string)
    requires PathOk(q)
    ensures AllPathChars(q)
  {
    if q != [] {
      PathCharsOnlyIff(q[1..]);
      assert forall k :: 1 <= k < |q| ==> q[k] == q[1..][k - 1];
    }
  }

  /** A string whose two parts, split at n, are path characters only is
      path characters only. */
  lemma AllPathCharsSplit(s: string, n: nat)
    requires n <= |s|
    requires AllPathChars(s[..n]) && AllPathChars(s[n..])
    ensures AllPathChars(s)
  {
    forall k | 0 <= k < |s| ensures IsPathChar(s[k]) {
      if k < n {
        assert s[..n][k] == s[k];
      } else {
        assert s[n..][k - n] == s[k];
      }
    }
  }

  /** Every host character and every digit is a path character. */
  lemma HostPrefixChars(r: string, n: nat)
    requires n <= |r|
    requires forall k :: 0 <= k < n ==> IsHostChar(r[k])
    ensures AllPathChars(r[..n])
  {
    forall k | 0 <= k < n ensures IsPathChar(r[..n][k]) {
      assert r[..n][k] == r[k];
    }
  }

  lemma PortThenPathChars(t: string)
    requires PortThenPathOk(t)
    ensures AllPathChars(t)
  {
    if |t| > 0 && t[0] == ':' {
      var d := DigitsLength(t[1..]);
      PathOkChars(t[1 + d..]);
      HostPrefixChars(t[1..], d);
      assert t[1..][d..] == t[1 + d..];
      AllPathCharsSplit(t[1..], d);
      assert t[..1] == [':'];
      AllPathCharsSplit(t, 1);
    } else {
      PathOkChars(t);
    }
  }

  lemma HostThenRestChars(r: string)
    requires HostThenRestOk(r)
    ensures AllPathChars(r)
  {
    var h := HostLength(r);
    PortThenPathChars(r[h..]);
    HostPrefixChars(r, h);
    AllPathCharsSplit(r, h);
  }

  lemma SchemePrefixChars()
    ensures AllPathChars("ws://") && AllPathChars("wss://")
  {
  }

  lemma NoPercentOrSpace(s: string)
    requires AllPathChars(s)
    ensures '%' !in s && ' ' !in s
  {
    forall k | 0 <= k < |s| ensures s[k] != '%' && s[k] != ' ' {
      assert IsPathChar(s[k]);
    }
  }

  lemma AcceptedUrlChars(u: string)
    requires IsValidWebSocketUrl(u)
    ensures AllPathChars(u)
    ensures '%' !in u && ' ' !in u
  {
    var a := if StartsWith(u, "wss://") then 6 else 5;
    HostThenRestChars(u[a..]);
    SchemePrefixChars();
    assert AllPathChars(u[..a]);
    AllPathCharsSplit(u, a);
    NoPercentOrSpace(u);
  }
}
