/** NAS addresses: splitting and joining host and port as Go's `net` package does, and the
    prefix test that decides which sessions live on a NAS (internal/radius/coa.go). */
module Hosts {
  import opened Domain

  function IndexOf(s: string, c: char): (i: int)
    ensures -1 <= i < |s|
    ensures i >= 0 ==> s[i] == c && c !in s[..i]
    ensures i < 0 ==> c !in s
  {
    if s == "" then -1
    else if s[0] == c then 0
    else
      var rest := IndexOf(s[1..], c);
      if rest < 0 then -1 else assert s[..rest + 1] == [s[0]] + s[1..][..rest]; rest + 1
  }

  function LastIndexOf(s: string, c: char): (i: int)
    ensures -1 <= i < |s|
    ensures i >= 0 ==> s[i] == c && c !in s[i + 1..]
    ensures i < 0 ==> c !in s
  {
    if s == "" then -1
    else if s[|s| - 1] == c then |s| - 1
    else
      var front := LastIndexOf(s[..|s| - 1], c);
      if front < 0 then assert s == s[..|s| - 1] + [s[|s| - 1]]; -1
      else assert s[front + 1..] == s[..|s| - 1][front + 1..] + [s[|s| - 1]]; front
  }

  /** The host part of `host:port` or `[host]:port`, or None where Go reports an error. */
  function SplitHostPort(hostport: string): Option<string> {
    var i := LastIndexOf(hostport, ':');
    if i < 0 then None
    else if hostport[0] == '[' then
      var end := IndexOf(hostport, ']');
      if end < 0 || end + 1 != i then None
      else if '[' in hostport[1..] || ']' in hostport[end + 1..] then None
      else Some(hostport[1..end])
    else
      var host := hostport[..i];
      if ':' in host || '[' in hostport || ']' in hostport then None
      else Some(host)
  }

  function HostOf(addr: string): string {
    var split := SplitHostPort(addr);
    if split.Some? then split.value else addr
  }

  function JoinHostPort(host: string, port: string): string {
    if ':' in host then "[" + host + "]:" + port else host + ":" + port
  }

  /** The address a Disconnect-Request for a session on this NAS is sent to. */
  function PodAddress(host: string): string { JoinHostPort(host, "3799") }

  /** Whether a session's NAS address counts as being on the NAS at `nasAddr`. */
  predicate NasContains(sessionNas: string, nasAddr: string) {
    HostOf(nasAddr) <= sessionNas
  }

  predicate BracketFree(s: string) { '[' !in s && ']' !in s }

  lemma LastIndexOfUnique(s: string, c: char, i: nat)
    requires i < |s| && s[i] == c && c !in s[i + 1..]
    ensures LastIndexOf(s, c) == i
  {
  }

  lemma IndexOfUnique(s: string, c: char, i: nat)
    requires i < |s| && s[i] == c && c !in s[..i]
    ensures IndexOf(s, c) == i
  {
  }

  lemma SplitOfPlainHost(host: string, port: string)
    requires BracketFree(host) && BracketFree(port) && ':' !in port && ':' !in host
    ensures SplitHostPort(host + ":" + port) == Some(host)
  {
    var a := host + ":" + port;
    assert a[|host| + 1..] == port && a[..|host|] == host;
    LastIndexOfUnique(a, ':', |host|);
  }

  lemma SplitOfBracketedHost(host: string, port: string)
    requires BracketFree(host) && BracketFree(port) && ':' !in port
    ensures SplitHostPort("[" + host + "]:" + port) == Some(host)
  {
    var a, end := "[" + host + "]:" + port, |host| + 1;
    assert a[..end] == "[" + host && a[1..end] == host;
    assert a[end + 1] == ':' && a[end + 2..] == port;
    LastIndexOfUnique(a, ':', end + 1);
    IndexOfUnique(a, ']', end);
    assert a[1..] == host + "]:" + port;
    assert a[end + 1..] == ":" + port;
  }

  /** Joining and splitting again gives the host back, IPv6 hosts included. */
  lemma SplitOfJoin(host: string, port: string)
    requires BracketFree(host) && BracketFree(port) && ':' !in port
    ensures SplitHostPort(JoinHostPort(host, port)) == Some(host)
  {
    if ':' in host {
      SplitOfBracketedHost(host, port);
    } else {
      SplitOfPlainHost(host, port);
    }
  }

  lemma HostOfPodAddress(host: string)
    requires BracketFree(host)
    ensures HostOf(PodAddress(host)) == host
  {
    SplitOfJoin(host, "3799");
  }

  /** Exactly which sessions an ACK from their own NAS reaches: all of them, except those
      whose NAS address is written in brackets, as every IPv6 address is. */
  lemma AckReachesSessionIff(sessionNas: string)
    requires BracketFree(HostOf(sessionNas))
    ensures NasContains(sessionNas, PodAddress(HostOf(sessionNas)))
       <==> HostOf(sessionNas) == "" || sessionNas[0] != '['
  {
    var host := HostOf(sessionNas);
    HostOfPodAddress(host);
    if sessionNas != "" && sessionNas[0] == '[' {
      assert host != sessionNas by { assert sessionNas[0] in sessionNas; }
      assert host != "" ==> host[0] in host;
    }
  }

  /** For the addresses Go prints, that is: exactly the hosts without a colon. */
  lemma AckReachesRemoteAddrIff(host: string, port: string)
    requires BracketFree(host) && BracketFree(port) && ':' !in port
    ensures NasContains(JoinHostPort(host, port), PodAddress(host)) <==> ':' !in host
  {
    SplitOfJoin(host, port);
    if ':' !in host && host != "" {
      assert JoinHostPort(host, port)[0] in host;
    }
    AckReachesSessionIff(JoinHostPort(host, port));
  }

  /** A host as it appears in an address: without brackets, and with two colons at least if
      it has any, as every IPv6 address has. */
  predicate HostShaped(h: string) {
    BracketFree(h) && (':' in h ==> exists i, j :: 0 <= i < j < |h| && h[i] == h[j] == ':')
  }

  /** The hosts a contacted host matches: those it is a prefix of, both without colons. */
  predicate HostMatches(contacted: string, host: string) {
    contacted == "" || (':' !in contacted && ':' !in host && contacted <= host)
  }

  lemma LongPrefixHasColon(h: string, g: string, port: string)
    requires h <= g + ":" + port && |h| > |g|
    ensures ':' in h
  {
    assert h[|g|] == (g + ":" + port)[|g|];
  }

  lemma PrefixWithinHost(h: string, g: string, port: string)
    requires ':' !in g && ':' !in port && HostShaped(h)
    ensures h <= g + ":" + port <==> ':' !in h && h <= g
  {
    var a := g + ":" + port;
    assert forall i :: 0 <= i < |a| ==> (a[i] == ':' <==> i == |g|);
    if h <= a {
      assert forall i :: 0 <= i < |h| ==> h[i] == a[i];
      if |h| > |g| {
        LongPrefixHasColon(h, g, port);
      }
    }
  }

  /** Exactly which sessions an ACK from the NAS at `h` reaches: those on hosts that have
      `h` as a prefix, where neither has a colon. */
  lemma MatchIff(g: string, port: string, h: string)
    requires BracketFree(g) && BracketFree(port) && ':' !in port && HostShaped(h)
    ensures NasContains(JoinHostPort(g, port), PodAddress(h)) <==> HostMatches(h, g)
  {
    HostOfPodAddress(h);
    if ':' in g {
      assert h != "" ==> h[0] in h;
    } else {
      PrefixWithinHost(h, g, port);
    }
  }

  /** A NAS address as Go prints the remote address of a packet. */
  ghost predicate IsRemoteAddr(a: string) {
    exists g, port :: RemoteAddr(a, g, port)
  }

  predicate RemoteAddr(a: string, g: string, port: string) {
    HostShaped(g) && BracketFree(port) && ':' !in port && a == JoinHostPort(g, port)
  }

  /** Requests are sent to port 3799 of the host (section 2.1 of RFC 3576). */
  lemma PodPort(host: string)
    requires BracketFree(host)
    ensures ':' !in host ==> PodAddress(host) == host + ":3799"
    ensures ':' in host ==> PodAddress(host) == "[" + host + "]:3799"
    ensures HostOf(PodAddress(host)) == host
  {
    SplitOfJoin(host, "3799");
  }

  lemma MatchByHost(a: string, h: string)
    requires IsRemoteAddr(a) && HostShaped(h)
    ensures HostShaped(HostOf(a)) && (NasContains(a, PodAddress(h)) <==> HostMatches(h, HostOf(a)))
  {
    var g, port :| RemoteAddr(a, g, port);
    SplitOfJoin(g, port);
    MatchIff(g, port, h);
  }
}
