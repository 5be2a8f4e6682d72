/** Rewriting the address of an external chaincode server with the identifier of the peer. */
module Address {
  import opened Common
  import opened Strings

  datatype Parsed = Parsed(hostname: string, domain: string, port: string)

  predicate EndsWith(s: string, suffix: string) { |suffix| <= |s| && s[|s| - |suffix|..] == suffix }

  function TrimSuffix(s: string, suffix: string): string { if EndsWith(s, suffix) then s[..|s| - |suffix|] else s }

  function Last(parts: seq<string>): string
    requires parts != []
  {
    parts[|parts| - 1]
  }

  /** The host part of an address and its port, if there is exactly one colon. */
  function HostPort(address: string): Option<(string, string)> {
    var items := Split(address, ':');
    if |items| == 2 then Some((items[0], items[1])) else None
  }

  /** parseAddress. */
  function ParseAddress(address: string): Option<Parsed> {
    match HostPort(address)
    case None => None
    case Some(hp) =>
      var domain := Last(Split(hp.0, '.'));
      Some(Parsed(TrimSuffix(hp.0, "." + domain), domain, hp.1))
  }

  function Rejoin(p: Parsed): string { p.hostname + "." + p.domain + ":" + p.port }

  lemma {:induction false} HostPortIs(host: string, port: string)
    requires ':' !in host && ':' !in port
    ensures HostPort(host + ":" + port) == Some((host, port))
  {
    SplitAppend(host, port, ':');
    SplitWhole(host, ':');
    SplitWhole(port, ':');
  }

  lemma {:induction false} HostPortOf(address: string)
    ensures HostPort(address).Some? ==> var (host, port) := HostPort(address).value;
      address == host + ":" + port && ':' !in host && ':' !in port
  {
    var items := Split(address, ':');
    SplitFree(address, ':');
    JoinSplit(address, ':');
    if |items| == 2 {
      assert items[0] in items && items[1] in items;
      assert items[1..] == [items[1]];
    }
  }

  /** An address parses exactly if it is a host and a port around its only colon. */
  lemma {:induction false} ParsesIffOneColon(address: string)
    ensures ParseAddress(address).Some? <==>
      exists host: string, port: string :: HostAndPort(address, host, port)
  {
    HostPortOf(address);
    if HostPort(address).Some? {
      assert HostAndPort(address, HostPort(address).value.0, HostPort(address).value.1);
    }
    if host: string, port: string :| HostAndPort(address, host, port) { HostPortIs(host, port); }
  }

  predicate HostAndPort(address: string, host: string, port: string) {
    address == host + ":" + port && ':' !in host && ':' !in port
  }

  /** The last component of a host, and what is left without it. */
  lemma {:induction false} LastOf(host: string)
    ensures '.' !in Last(Split(host, '.'))
    ensures if '.' in host then host == TrimSuffix(host, "." + Last(Split(host, '.'))) + "." + Last(Split(host, '.'))
      else Last(Split(host, '.')) == host && TrimSuffix(host, "." + Last(Split(host, '.'))) == host
  {
    SplitFree(host, '.');
    assert Last(Split(host, '.')) in Split(host, '.');
    if '.' in host { LastOfDotted(host); } else { SplitWhole(host, '.'); }
  }

  lemma {:induction false} LastOfDotted(host: string)
    requires '.' in host
    ensures host == TrimSuffix(host, "." + Last(Split(host, '.'))) + "." + Last(Split(host, '.'))
  {
    var parts := Split(host, '.');
    SplitFree(host, '.');
    JoinSplit(host, '.');
    assert parts[0] in parts;
    JoinLast(parts);
    Trimmed(Join(parts[..|parts| - 1], '.'), "." + Last(parts));
  }

  lemma {:induction false} Trimmed(a: string, suffix: string)
    ensures TrimSuffix(a + suffix, suffix) == a
  {}

  lemma {:induction false} JoinLast(parts: seq<string>)
    requires |parts| > 1
    ensures Join(parts, '.') == Join(parts[..|parts| - 1], '.') + ("." + Last(parts))
  {
    var k := |parts| - 1;
    assert parts == parts[..k] + [parts[k]];
    JoinAppend(parts[..k], [parts[k]], '.');
  }

  lemma {:induction false} LastIs(hostname: string, domain: string)
    requires '.' !in domain
    ensures Last(Split(hostname + "." + domain, '.')) == domain
    ensures TrimSuffix(hostname + "." + domain, "." + domain) == hostname
  {
    SplitAppend(hostname, domain, '.');
    SplitWhole(domain, '.');
    assert hostname + "." + domain == hostname + ("." + domain);
  }

  /** Parsing undoes rejoining. */
  lemma {:induction false} ParseRejoined(p: Parsed)
    requires ':' !in p.hostname && ':' !in p.domain && ':' !in p.port && '.' !in p.domain
    ensures ParseAddress(Rejoin(p)) == Some(p)
  {
    HostPortIs(p.hostname + "." + p.domain, p.port);
    LastIs(p.hostname, p.domain);
  }

  /** Rejoining undoes parsing exactly if the host contains a dot; without one, host and domain are the same. */
  lemma {:induction false} RejoinParsed(address: string)
    requires ParseAddress(address).Some?
    ensures Rejoin(ParseAddress(address).value) == address <==> '.' in HostPort(address).value.0
    ensures '.' !in HostPort(address).value.0 ==>
              ParseAddress(address).value.hostname == ParseAddress(address).value.domain
  {
    HostPortOf(address);
    var (host, port) := HostPort(address).value;
    LastOf(host);
    if '.' !in host { assert |Rejoin(ParseAddress(address).value)| > |address|; }
  }

  /** For an address without a domain, its host is taken for both parts. */
  lemma {:induction false} UndottedHost(host: string, port: string)
    requires ':' !in host && ':' !in port && '.' !in host
    ensures ParseAddress(host + ":" + port) == Some(Parsed(host, host, port))
    ensures Rejoin(Parsed(host, host, port)) != host + ":" + port
  {
    HostPortIs(host, port);
    LastOf(host);
    assert |Rejoin(Parsed(host, host, port))| == |host + ":" + port| + |host| + 1;
  }

  lemma {:induction false} PartsFree(address: string)
    requires ParseAddress(address).Some?
    ensures var p := ParseAddress(address).value;
      ':' !in p.hostname && ':' !in p.domain && ':' !in p.port && '.' !in p.domain
  {
    HostPortOf(address);
    var (host, port) := HostPort(address).value;
    LastOf(host);
    JoinSplit(host, '.');
    if '.' in host {
      var p := ParseAddress(address).value;
      assert forall c | c in p.hostname || c in p.domain :: c in host;
    }
  }

  // ----- injection -----

  /** The address with the peer in front of the hostname. */
  function WithHostname(peer: string, address: string): string { peer + "-" + address }

  /** The address with the peer in front of the domain. */
  function WithDomain(peer: string, p: Parsed): string { p.hostname + "." + peer + "-" + p.domain + ":" + p.port }

  lemma {:induction false} NoPortAgain(host: string, port: string)
    requires ':' in host
    ensures HostPort(host + ":" + port).None?
  {
    SplitAppend(host, port, ':');
    var items := Split(host, ':');
    assert |items| == 1 ==> Join(items, ':') == items[0];
    JoinSplit(host, ':');
    SplitFree(host, ':');
    assert items[0] in items;
  }

  /**
   * Injecting into the domain gives an address with just that domain exactly if the peer has neither a dot nor a
   * colon.
   */
  lemma {:induction false} DomainInjected(peer: string, address: string)
    requires ParseAddress(address).Some?
    ensures var p := ParseAddress(address).value;
      ParseAddress(WithDomain(peer, p)) == Some(p.(domain := peer + "-" + p.domain)) <==> '.' !in peer && ':' !in peer
  {
    var p := ParseAddress(address).value;
    PartsFree(address);
    var q := p.(domain := peer + "-" + p.domain);
    assert WithDomain(peer, p) == Rejoin(q);
    assert forall c :: c in q.domain <==> c in peer || c == '-' || c in p.domain;
    if ':' in peer {
      NoPortAgain(q.hostname + "." + q.domain, q.port);
    } else if '.' in peer {
      if ParseAddress(Rejoin(q)).Some? { PartsFree(Rejoin(q)); }
    } else {
      ParseRejoined(q);
    }
  }

  /**
   * Injecting into the hostname gives an address with just that hostname exactly if the host contains a dot and the
   * peer no colon. Without a dot in the host the domain changes along.
   */
  lemma {:induction false} HostnameInjected(peer: string, address: string)
    requires ParseAddress(address).Some?
    ensures var p := ParseAddress(address).value;
      ParseAddress(WithHostname(peer, address)) == Some(p.(hostname := peer + "-" + p.hostname))
      <==> '.' in HostPort(address).value.0 && ':' !in peer
  {
    var p := ParseAddress(address).value;
    HostPortOf(address);
    PartsFree(address);
    RejoinParsed(address);
    var (host, port) := HostPort(address).value;
    var host' := peer + "-" + host;
    assert WithHostname(peer, address) == host' + ":" + port;
    if ':' in peer {
      NoPortAgain(host', port);
    } else if '.' in host {
      DottedInjected(peer, address);
    } else {
      HostPortIs(host', port);
      UndottedInjected(peer, address);
    }
  }

  lemma {:induction false} DottedInjected(peer: string, address: string)
    requires ParseAddress(address).Some? && '.' in HostPort(address).value.0 && ':' !in peer
    ensures var p := ParseAddress(address).value;
      ParseAddress(WithHostname(peer, address)) == Some(p.(hostname := peer + "-" + p.hostname))
  {
    var p := ParseAddress(address).value;
    PartsFree(address);
    RejoinParsed(address);
    var q := p.(hostname := peer + "-" + p.hostname);
    assert WithHostname(peer, address) == Rejoin(q);
    ParseRejoined(q);
  }

  /** What is put in front of an undotted host changes the domain along. */
  lemma {:induction false} UndottedInjected(peer: string, address: string)
    requires ParseAddress(address).Some? && '.' !in HostPort(address).value.0
    requires var (host, port) := HostPort(address).value;
      HostPort(WithHostname(peer, address)) == Some((peer + "-" + host, port))
    ensures var p := ParseAddress(address).value;
      ParseAddress(WithHostname(peer, address)) != Some(p.(hostname := peer + "-" + p.hostname))
  {
    var host := HostPort(address).value.0;
    LastOf(host);
    NewDomain(peer, host);
  }

  /** The domain of an undotted host changes when something is put in front of it. */
  lemma {:induction false} NewDomain(peer: string, host: string)
    requires '.' !in host
    ensures Last(Split(peer + "-" + host, '.')) != host
  {
    var s := peer + "-" + host;
    LastOf(s);
    var last := Last(Split(s, '.'));
    assert '.' in s ==> s[|s| - |last| - 1] == '.';
    assert s[|peer|] == '-';
  }

  // ----- the rewriting of connection.json -----

  /** A value in the decoded JSON, as far as this code tells values apart. */
  datatype Value = Text(text: string) | OtherValue(json: string)

  /** getPeerID: the name without blanks. */
  function PeerId(name: string): (id: string)
    ensures ' ' !in id
    ensures ' ' !in name ==> id == name
  {
    if name == "" then "" else (if name[0] == ' ' then "" else [name[0]]) + PeerId(name[1..])
  }

  lemma {:induction false} Associative(a: string, b: string, c: string)
    ensures a + (b + c) == a + b + c
  {}

  lemma {:induction false} PeerIdStep(c: char, rest: string)
    ensures PeerId([c] + rest) == if c == ' ' then PeerId(rest) else [c] + PeerId(rest)
  {
    assert ([c] + rest)[1..] == rest;
  }

  /** Taking blanks out works piece by piece, so it keeps everything else, in order. */
  lemma {:induction false} PeerIdAppend(a: string, b: string)
    ensures PeerId(a + b) == PeerId(a) + PeerId(b)
  {
    if a == "" {
      assert a + b == b;
    } else {
      assert a == [a[0]] + a[1..] && a + b == [a[0]] + (a[1..] + b);
      PeerIdStep(a[0], a[1..]);
      PeerIdStep(a[0], a[1..] + b);
      PeerIdAppend(a[1..], b);
      Associative([a[0]], PeerId(a[1..]), PeerId(b));
    }
  }

  datatype Rewriting = Unchanged | Rewritten(fields: map<string, Value>) | Failed

  predicate IsText(fields: map<string, Value>, key: string) { key in fields && fields[key].Text? }

  const InjectKey: string := "injectIdentifier"
  const AddressKey: string := "address"

  /** The fields ask for an injection, and everything it needs is there. */
  predicate Rewritable(fields: map<string, Value>, peerName: string) {
    && IsText(fields, InjectKey) && IsText(fields, AddressKey)
    && PeerId(peerName) != "" && ParseAddress(fields[AddressKey].text).Some?
  }

  /**
   * injectPeerIdentifier, between decoding and encoding. Only the address field can change, and that only if the
   * fields ask for it, the address parses and the peer has a name; a file that does not ask is not even checked. The
   * identifier "hostname" changes just the hostname of the address, if its host has a dot and the peer no colon, and
   * "domain" just the domain, if the peer has neither; any other identifier changes nothing.
   */
  method Inject(fields: map<string, Value>, peerName: string) returns (r: Rewriting)
    ensures r == Unchanged <==> !IsText(fields, "injectIdentifier")
    ensures r.Rewritten? <==> Rewritable(fields, peerName)
    ensures r.Rewritten? ==> r.fields.Keys == fields.Keys && r.fields["address"].Text?
    ensures r.Rewritten? ==> forall k | k in fields && k != "address" :: r.fields[k] == fields[k]
    ensures r.Rewritten? && fields["injectIdentifier"].text == "hostname" ==>
              var peer, address := PeerId(peerName), fields["address"].text;
              var p := ParseAddress(address).value;
              && r.fields["address"].text == peer + "-" + address
              && (ParseAddress(r.fields["address"].text) == Some(p.(hostname := peer + "-" + p.hostname))
                  <==> '.' in HostPort(address).value.0 && ':' !in peer)
    ensures r.Rewritten? && fields["injectIdentifier"].text == "domain" ==>
              var peer, address := PeerId(peerName), fields["address"].text;
              var p := ParseAddress(address).value;
              && r.fields["address"].text == p.hostname + "." + peer + "-" + p.domain + ":" + p.port
              && (ParseAddress(r.fields["address"].text) == Some(p.(domain := peer + "-" + p.domain))
                  <==> '.' !in peer && ':' !in peer)
    ensures r.Rewritten? && fields["injectIdentifier"].text !in {"hostname", "domain"} ==> r.fields == fields
  {
    if !IsText(fields, InjectKey) { return Unchanged; }
    if !IsText(fields, AddressKey) { return Failed; }
    var peer := PeerId(peerName);
    if peer == "" { return Failed; }
    var address := fields[AddressKey].text;
    match ParseAddress(address) {
      case None => return Failed;
      case Some(p) =>
        assert "hostname"[0] != "domain"[0];
        HostnameInjected(peer, address);
        DomainInjected(peer, address);
        var updated := fields;
        if fields[InjectKey].text == "hostname" {
          updated := updated[AddressKey := Text(peer + "-" + address)];
        } else if fields[InjectKey].text == "domain" {
          updated := updated[AddressKey := Text(p.hostname + "." + peer + "-" + p.domain + ":" + p.port)];
        }
        return Rewritten(updated);
    }
  }
}
