/** Host and port parsing of `cgi.rs`: Go's `net.SplitHostPort`, the lenient
    remote address split on top of it, and SERVER_NAME and SERVER_PORT. */
module HostPort {
  import opened Wrappers
  import opened Bytes
  import Sequences

  datatype HostAndPort = HostAndPort(host: bytes, port: bytes)

  datatype Scheme = Http | Https

  const HTTP_PORT: bytes := [56, 48]
  const HTTPS_PORT: bytes := [52, 52, 51]

  // ---- The parser ---------------------------------------------------------

  /** What the bracket branch and the bare branch leave to the common check: the
      host, and the offsets from which brackets are refused. */
  datatype Scan = Scan(host: bytes, openFrom: nat, closeFrom: nat)

  function ScanHost(s: bytes, colon: nat): (r: Option<Scan>)
    requires colon < |s|
    ensures r.Some? ==> r.value.openFrom <= |s| && r.value.closeFrom <= |s|
  {
    if s[0] == OPEN then
      var closing := Find(s, CLOSE);
      if closing == |s| || closing + 1 == |s| || closing + 1 != colon then None
      else Some(Scan(s[1..closing], 1, closing + 1))
    else if COLON in s[..colon] then None
    else Some(Scan(s[..colon], 0, 0))
  }

  function SplitHostPort(s: bytes): Option<HostAndPort> {
    var end := FindLast(s, COLON);
    if end == 0 then None else
    match ScanHost(s, end - 1)
    case None => None
    case Some(scan) =>
      if OPEN in s[scan.openFrom..] || CLOSE in s[scan.closeFrom..] then None
      else Some(HostAndPort(scan.host, s[end..]))
  }

  // ---- Its grammar ----------------------------------------------------------

  predicate Plain(s: bytes) {
    OPEN !in s && CLOSE !in s
  }

  /** `h:p` and `[h]:p`. */
  function JoinBare(hp: HostAndPort): bytes {
    hp.host + [COLON] + hp.port
  }

  function JoinBracketed(hp: HostAndPort): bytes {
    [OPEN] + hp.host + [CLOSE] + [COLON] + hp.port
  }

  predicate Separable(hp: HostAndPort) {
    Plain(hp.host) && Plain(hp.port) && COLON !in hp.port
  }

  predicate Derives(s: bytes, hp: HostAndPort) {
    && Separable(hp)
    && ((COLON !in hp.host && s == JoinBare(hp)) || s == JoinBracketed(hp))
  }

  lemma SplitBare(hp: HostAndPort)
    requires Separable(hp) && COLON !in hp.host
    ensures SplitHostPort(JoinBare(hp)) == Some(hp)
  {
    var s := JoinBare(hp);
    FindLastAt(hp.host, COLON, hp.port);
    assert s[..|hp.host|] == hp.host && s[|hp.host| + 1..] == hp.port;
    assert s[0] != OPEN by {
      if hp.host != [] { assert s[0] == hp.host[0]; }
    }
  }

  lemma BracketsAndColon(h: bytes, p: bytes)
    requires Plain(h) && COLON !in p
    ensures var s := JoinBracketed(HostAndPort(h, p));
            Find(s, CLOSE) == |h| + 1 && FindLast(s, COLON) == |h| + 3
  {
    FindLastAt([OPEN] + h + [CLOSE], COLON, p);
    FindAt([OPEN] + h, CLOSE, [CLOSE] + ([COLON] + p));
    Sequences.Regroup([OPEN] + h, [CLOSE], [COLON] + p, []);
    Sequences.Regroup([OPEN] + h + [CLOSE], [COLON], p, []);
  }

  lemma BracketedParts(h: bytes, p: bytes)
    ensures var s := JoinBracketed(HostAndPort(h, p));
            && s[1..] == h + [CLOSE, COLON] + p
            && s[1..|h| + 1] == h
            && s[|h| + 2..] == [COLON] + p
            && s[|h| + 3..] == p
  {
  }

  lemma SplitBracketed(hp: HostAndPort)
    requires Separable(hp)
    ensures SplitHostPort(JoinBracketed(hp)) == Some(hp)
  {
    BracketsAndColon(hp.host, hp.port);
    BracketedParts(hp.host, hp.port);
  }

  /** Whatever is accepted comes apart at the brackets and the colon. */
  lemma AcceptedBracketed(s: bytes, colon: nat)
    requires colon < |s| && s[colon] == COLON && s[0] == OPEN && ScanHost(s, colon).Some?
    requires OPEN !in s[1..] && CLOSE !in s[colon..] && COLON !in s[colon + 1..]
    ensures Derives(s, HostAndPort(ScanHost(s, colon).value.host, s[colon + 1..]))
  {
  }

  lemma SplitYieldsDerivation(s: bytes)
    ensures SplitHostPort(s).Some? ==> Derives(s, SplitHostPort(s).value)
  {
    if SplitHostPort(s).Some? {
      var colon := FindLast(s, COLON) - 1;
      if s[0] == OPEN {
        AcceptedBracketed(s, colon);
      } else {
        assert s == s[..colon] + [COLON] + s[colon + 1..];
      }
    }
  }

  /** The parser accepts exactly the strings of the grammar, and returns the one
      host and port they were made of. */
  lemma SplitIsTheGrammar(s: bytes, hp: HostAndPort)
    ensures SplitHostPort(s) == Some(hp) <==> Derives(s, hp)
  {
    SplitYieldsDerivation(s);
    if Derives(s, hp) {
      if s == JoinBracketed(hp) { SplitBracketed(hp); } else { SplitBare(hp); }
    }
  }

  // ---- Remote addresses -------------------------------------------------------

  function Unbracketed(ip: bytes): bytes {
    if |ip| >= 2 && ip[0] == OPEN && ip[|ip| - 1] == CLOSE then ip[1..|ip| - 1] else ip
  }

  function SplitRemoteAddr(addr: bytes): HostAndPort {
    match SplitHostPort(addr)
    case Some(hp) => hp
    case None =>
      var end := FindLast(addr, COLON);
      if end == 0 then HostAndPort(Unbracketed(addr), [])
      else HostAndPort(Unbracketed(addr[..end - 1]), addr[end..])
  }

  function Bracketed(h: bytes): bytes {
    [OPEN] + h + [CLOSE]
  }

  lemma FallbackKeepsAll(addr: bytes, end: nat)
    requires end <= |addr| && (end > 0 ==> addr[end - 1] == COLON)
    ensures var ip := if end == 0 then addr else addr[..end - 1];
            var h := Unbracketed(ip);
            && (ip == h || ip == Bracketed(h))
            && (end > 0 ==> addr == ip + [COLON] + addr[end..])
  {
  }

  /** The split is total, and nothing of an address is lost but its last colon
      and one pair of brackets around the host. */
  lemma RemoteAddrKeepsAll(addr: bytes)
    ensures var hp := SplitRemoteAddr(addr);
            && COLON !in hp.port
            && (if COLON in addr then addr == JoinBare(hp) || addr == JoinBracketed(hp)
                else hp.port == [] && (addr == hp.host || addr == Bracketed(hp.host)))
  {
    if SplitHostPort(addr).Some? {
      SplitYieldsDerivation(addr);
      assert FindLast(addr, COLON) > 0;
    } else {
      FallbackKeepsAll(addr, FindLast(addr, COLON));
    }
  }

  /** The bracket pair of an address without a port is recognised only when the
      host has no colon: an IPv6 address in brackets loses its last group to the
      port. */
  lemma BracketedWithoutPort(h: bytes)
    requires Plain(h)
    ensures SplitRemoteAddr(Bracketed(h)) == HostAndPort(h, []) <==> COLON !in h
  {
  }

  /** The address `[::1]` comes apart at its last colon. */
  lemma LoopbackWithoutPort()
    ensures SplitRemoteAddr(Bracketed([COLON, COLON, 49])) == HostAndPort([OPEN, COLON], [49, CLOSE])
  {
    var addr := Bracketed([COLON, COLON, 49]);
    assert addr == [OPEN, COLON] + [COLON] + [49, CLOSE];
    FindLastAt([OPEN, COLON], COLON, [49, CLOSE]);
    FindAt([OPEN, COLON, COLON, 49], CLOSE, [CLOSE]);
    assert addr == [OPEN, COLON, COLON, 49] + [CLOSE];
    assert addr[..2] == [OPEN, COLON] && addr[3..] == [49, CLOSE];
  }

  // ---- SERVER_NAME and SERVER_PORT ------------------------------------------------

  function DefaultPort(scheme: Scheme): bytes {
    match scheme case Http => HTTP_PORT case Https => HTTPS_PORT
  }

  function DeriveServerName(host: bytes): bytes {
    match SplitHostPort(host)
    case Some(hp) => if hp.host != [] then hp.host else host
    case None => host
  }

  function DeriveServerPort(host: bytes, scheme: Scheme): bytes {
    match SplitHostPort(host)
    case Some(hp) => if hp.port != [] then hp.port else DefaultPort(scheme)
    case None => DefaultPort(scheme)
  }

  /** Both at once, over one parse; a missing half falls back on its own. */
  function DeriveServerNameAndPort(host: bytes, scheme: Scheme): HostAndPort {
    var parsed := SplitHostPort(host);
    var name := if parsed.Some? && parsed.value.host != [] then parsed.value.host else host;
    var port := if parsed.Some? && parsed.value.port != [] then parsed.value.port else DefaultPort(scheme);
    HostAndPort(name, port)
  }

  /** What a request's Host field means for the script: the two halves of any
      authority that was joined from them, and the scheme's port for any Host
      that derives from no such pair. */
  lemma ServerNameAndPort(host: bytes, scheme: Scheme, hp: HostAndPort)
    ensures DeriveServerNameAndPort(host, scheme) == HostAndPort(DeriveServerName(host), DeriveServerPort(host, scheme))
    ensures Derives(host, hp) && hp.host != [] ==> DeriveServerName(host) == hp.host
    ensures Derives(host, hp) && hp.port != [] ==> DeriveServerPort(host, scheme) == hp.port
    ensures Derives(host, hp) && hp.host == [] ==> DeriveServerName(host) == host
    ensures Derives(host, hp) && hp.port == [] ==> DeriveServerPort(host, scheme) == DefaultPort(scheme)
    ensures (forall other :: !Derives(host, other)) ==>
              DeriveServerNameAndPort(host, scheme) == HostAndPort(host, DefaultPort(scheme))
  {
    SplitIsTheGrammar(host, hp);
    SplitYieldsDerivation(host);
  }
}
