/**
 * The host-string checks of the Tari merge-mining client's constructor: the
 * scheme prefix, the trimming of trailing slashes, the choice of the upstream
 * node among the candidates the address-list parser yields, and the final
 * host and port test. The address-list parser and the name resolver are not
 * part of this model; they enter as function parameters.
 */
module HostParsing {
  import opened Common

  /** The scheme every Tari node address starts with. */
  const TARI_PREFIX: string := "tari://"

  /** One entry the address-list parser hands to the constructor's callback. */
  datatype Candidate = Candidate(isV6: bool, address: string, ip: string, port: int)

  /**
   * What a successful name resolution leaves in the callback's by-value copies
   * of the family and the host.
   */
  datatype Resolved = Resolved(isV6: bool, ip: string)

  /** The relay server's upstream node fields: family, host and port. */
  datatype Endpoint = Endpoint(isV6: bool, host: string, port: int)

  /** The node fields as the relay server's constructor initialises them. */
  const UNSET_ENDPOINT: Endpoint := Endpoint(false, "", 0)

  /** The address-list parser: the candidates a trimmed host string lists, in order. */
  type AddressListParser = string -> seq<Candidate>

  /** The name resolver: `None` when the name does not resolve. */
  type Resolver = (string, bool) -> Option<Resolved>

  datatype HostError = MissingPrefix | EmptyHost | NoUsableEndpoint

  /** `host.find(TARI_PREFIX) == 0`. */
  predicate HasTariPrefix(host: string)
  {
    |TARI_PREFIX| <= |host| && host[..|TARI_PREFIX|] == TARI_PREFIX
  }

  /** `k` slash characters. */
  function Slashes(k: nat): (s: string)
    ensures |s| == k
    ensures forall i :: 0 <= i < k ==> s[i] == '/'
  {
    if k == 0 then "" else Slashes(k - 1) + "/"
  }

  predicate HasNonSlash(s: string)
  {
    exists i :: 0 <= i < |s| && s[i] != '/'
  }

  /** `s` with all its trailing slashes removed. */
  function TrimSlashes(s: string): string
    decreases |s|
  {
    if |s| > 0 && s[|s| - 1] == '/' then TrimSlashes(s[..|s| - 1]) else s
  }

  /** The trimmed string is a prefix of `s` that does not end in a slash, and only slashes were removed. */
  lemma {:induction false} TrimSlashesShape(s: string)
    ensures TrimSlashes(s) <= s
    ensures TrimSlashes(s) == [] || TrimSlashes(s)[|TrimSlashes(s)| - 1] != '/'
    ensures forall i :: |TrimSlashes(s)| <= i < |s| ==> s[i] == '/'
    decreases |s|
  {
    if |s| > 0 && s[|s| - 1] == '/' {
      var p := s[..|s| - 1];
      TrimSlashesShape(p);
      assert p <= s;
    }
  }

  /** Conversely, any prefix with that shape is the trimmed string. */
  lemma {:induction false} TrimSlashesUnique(s: string, t: string)
    requires t <= s
    requires t == [] || t[|t| - 1] != '/'
    requires forall i :: |t| <= i < |s| ==> s[i] == '/'
    ensures TrimSlashes(s) == t
    decreases |s|
  {
    if |s| > |t| {
      assert s[|s| - 1] == '/';
      var p := s[..|s| - 1];
      assert t <= p;
      TrimSlashesUnique(p, t);
    } else {
      assert s == t;
    }
  }

  /** Extra trailing slashes do not change the trimmed string. */
  lemma {:induction false} TrimIgnoresAppendedSlashes(s: string, k: nat)
    ensures TrimSlashes(s + Slashes(k)) == TrimSlashes(s)
    decreases k
  {
    if k == 0 {
      assert s + Slashes(0) == s;
    } else {
      var t := s + Slashes(k);
      assert t == (s + Slashes(k - 1)) + "/";
      assert t[..|t| - 1] == s + Slashes(k - 1);
      TrimIgnoresAppendedSlashes(s, k - 1);
    }
  }

  /** Trimming leaves nothing exactly when the string is made of slashes only. */
  lemma TrimEmptyIffAllSlashes(s: string)
    ensures TrimSlashes(s) == [] <==> !HasNonSlash(s)
  {
    TrimSlashesShape(s);
    var t := TrimSlashes(s);
    if t != [] {
      assert s[|t| - 1] == t[|t| - 1];
    }
  }

  /** `std::string::back()`: defined only on a non-empty string. */
  function Back(s: string): char
    requires |s| > 0
  {
    s[|s| - 1]
  }

  /**
   * The slash-popping loop as written: it calls `back()` before asking whether
   * anything is left, so it is defined only when the string holds a character
   * other than '/'.
   */
  method StripTrailingSlashesAsWritten(host: string) returns (r: string)
    requires HasNonSlash(host)
    ensures r == TrimSlashes(host)
  {
    r := host;
    while Back(r) == '/'
      invariant HasNonSlash(r)
      invariant TrimSlashes(r) == TrimSlashes(host)
      decreases |r|
    {
      ghost var i :| 0 <= i < |r| && r[i] != '/';
      r := r[..|r| - 1];
      assert r[i] != '/';
    }
  }

  /**
   * A host that is the bare scheme followed by slashes leaves nothing but
   * slashes after the prefix is erased, so the loop as written pops them all
   * and then calls `back()` on the empty string that trimming leaves.
   */
  lemma BareSchemeBreaksAsWritten(k: nat)
    ensures HasTariPrefix(TARI_PREFIX + Slashes(k))
    ensures !HasNonSlash((TARI_PREFIX + Slashes(k))[|TARI_PREFIX|..])
    ensures TrimSlashes((TARI_PREFIX + Slashes(k))[|TARI_PREFIX|..]) == []
  {
    var h := TARI_PREFIX + Slashes(k);
    assert h[..|TARI_PREFIX|] == TARI_PREFIX;
    assert h[|TARI_PREFIX|..] == Slashes(k);
    TrimEmptyIffAllSlashes(Slashes(k));
  }

  /** The slash-popping loop with the emptiness test it needs. */
  method StripTrailingSlashes(host: string) returns (r: string)
    ensures r == TrimSlashes(host)
  {
    r := host;
    while |r| > 0 && r[|r| - 1] == '/'
      invariant TrimSlashes(r) == TrimSlashes(host)
      decreases |r|
    {
      r := r[..|r| - 1];
    }
  }

  /**
   * What the constructor's callback stores for one candidate: the candidate
   * itself when name resolution is off, what the resolver leaves behind when it
   * succeeds, and nothing when it fails.
   */
  function Accept(c: Candidate, dns: bool, resolve: Resolver): Option<Endpoint>
  {
    if !dns then Some(Endpoint(c.isV6, c.ip, c.port))
    else match resolve(c.ip, c.isV6)
      case Some(res) => Some(Endpoint(res.isV6, res.ip, c.port))
      case None => None
  }

  /** The node fields after the callback has seen every candidate in order. */
  function LastAccepted(init: Endpoint, cands: seq<Candidate>, dns: bool, resolve: Resolver): Endpoint
    decreases |cands|
  {
    if cands == [] then init
    else
      var last := Accept(cands[|cands| - 1], dns, resolve);
      if last.Some? then last.value else LastAccepted(init, cands[..|cands| - 1], dns, resolve)
  }

  /**
   * The stored endpoint is the initial one when no candidate is accepted, and
   * otherwise that of the last accepted candidate: later ones overwrite earlier ones.
   */
  lemma {:induction false} LastAcceptedIsLatest(init: Endpoint, cands: seq<Candidate>, dns: bool, resolve: Resolver)
    ensures (forall i :: 0 <= i < |cands| ==> Accept(cands[i], dns, resolve).None?) ==>
      LastAccepted(init, cands, dns, resolve) == init
    ensures (exists i :: 0 <= i < |cands| && Accept(cands[i], dns, resolve).Some?) ==>
      exists k :: 0 <= k < |cands| && Accept(cands[k], dns, resolve) == Some(LastAccepted(init, cands, dns, resolve)) &&
        forall j :: k < j < |cands| ==> Accept(cands[j], dns, resolve).None?
    decreases |cands|
  {
    if cands != [] {
      var n := |cands|;
      var p := cands[..n - 1];
      LastAcceptedIsLatest(init, p, dns, resolve);
      if Accept(cands[n - 1], dns, resolve).None? {
        assert forall i :: 0 <= i < n - 1 ==> p[i] == cands[i];
        if exists i :: 0 <= i < n && Accept(cands[i], dns, resolve).Some? {
          var i :| 0 <= i < n && Accept(cands[i], dns, resolve).Some?;
          assert Accept(p[i], dns, resolve).Some?;
          var k :| 0 <= k < n - 1 && Accept(p[k], dns, resolve) == Some(LastAccepted(init, p, dns, resolve)) &&
            forall j :: k < j < n - 1 ==> Accept(p[j], dns, resolve).None?;
          assert Accept(cands[k], dns, resolve) == Some(LastAccepted(init, cands, dns, resolve));
        }
      }
    }
  }

  /** The callback loop: every accepted candidate overwrites the stored endpoint. */
  method SelectEndpoint(init: Endpoint, cands: seq<Candidate>, dns: bool, resolve: Resolver) returns (ep: Endpoint)
    ensures ep == LastAccepted(init, cands, dns, resolve)
  {
    ep := init;
    for i := 0 to |cands|
      invariant ep == LastAccepted(init, cands[..i], dns, resolve)
    {
      var c := cands[i];
      var isV6, ip, accepted := c.isV6, c.ip, true;
      if dns {
        match resolve(ip, isV6) {
          case Some(res) => isV6, ip := res.isV6, res.ip;
          case None => accepted := false;
        }
      }
      if accepted {
        ep := Endpoint(isV6, ip, c.port);
      }
      assert cands[..i + 1][..i] == cands[..i];
    }
    assert cands[..|cands|] == cands;
  }

  /** The outcome of the constructor's host checks. */
  function ParsedEndpoint(host: string, dns: bool, addressList: AddressListParser, resolve: Resolver): Result<Endpoint, HostError>
  {
    if !HasTariPrefix(host) then Err(MissingPrefix)
    else
      var rest := TrimSlashes(host[|TARI_PREFIX|..]);
      if rest == [] then Err(EmptyHost)
      else
        var ep := LastAccepted(UNSET_ENDPOINT, addressList(rest), dns, resolve);
        if ep.host == [] || ep.port == 0 || ep.port >= 65536 then Err(NoUsableEndpoint) else Ok(ep)
  }

  /** The constructor's host checks, up to the point where the relay server is started. */
  method ParseHost(host: string, dns: bool, addressList: AddressListParser, resolve: Resolver) returns (r: Result<Endpoint, HostError>)
    ensures r == ParsedEndpoint(host, dns, addressList, resolve)
  {
    if !HasTariPrefix(host) {
      return Err(MissingPrefix);
    }
    var rest := host[|TARI_PREFIX|..];
    rest := StripTrailingSlashes(rest);
    if rest == [] {
      return Err(EmptyHost);
    }
    var ep := SelectEndpoint(UNSET_ENDPOINT, addressList(rest), dns, resolve);
    if ep.host == [] || ep.port == 0 || ep.port >= 65536 {
      return Err(NoUsableEndpoint);
    }
    return Ok(ep);
  }

  /** A host without the scheme is refused, and so is one with nothing but slashes after it. */
  lemma ParsedEndpointRejects(host: string, dns: bool, addressList: AddressListParser, resolve: Resolver)
    ensures ParsedEndpoint(host, dns, addressList, resolve) == Err(MissingPrefix) <==> !HasTariPrefix(host)
    ensures ParsedEndpoint(host, dns, addressList, resolve) == Err(EmptyHost) <==>
      HasTariPrefix(host) && !HasNonSlash(host[|TARI_PREFIX|..])
  {
    if HasTariPrefix(host) {
      TrimEmptyIffAllSlashes(host[|TARI_PREFIX|..]);
    }
  }

  /** The bare scheme, with any number of slashes, is refused as empty rather than read past its end. */
  lemma BareSchemeRejected(k: nat, dns: bool, addressList: AddressListParser, resolve: Resolver)
    ensures ParsedEndpoint(TARI_PREFIX + Slashes(k), dns, addressList, resolve) == Err(EmptyHost)
  {
    BareSchemeBreaksAsWritten(k);
    ParsedEndpointRejects(TARI_PREFIX + Slashes(k), dns, addressList, resolve);
  }

  /** Any number of extra trailing slashes gives the same outcome. */
  lemma {:induction false} TrailingSlashesIgnored(host: string, k: nat, dns: bool, addressList: AddressListParser, resolve: Resolver)
    requires HasTariPrefix(host)
    ensures ParsedEndpoint(host + Slashes(k), dns, addressList, resolve) == ParsedEndpoint(host, dns, addressList, resolve)
  {
    var n := |TARI_PREFIX|;
    assert (host + Slashes(k))[..n] == host[..n];
    assert (host + Slashes(k))[n..] == host[n..] + Slashes(k);
    TrimIgnoresAppendedSlashes(host[n..], k);
  }

  /**
   * An accepted endpoint has a non-empty host and a port that is neither 0 nor
   * above 65535, and it is the last candidate the callback accepted; when every
   * candidate port is non-negative, the port lies in 1..65535. When no
   * candidate is accepted the host is refused.
   */
  lemma ParsedEndpointValid(host: string, dns: bool, addressList: AddressListParser, resolve: Resolver)
    requires HasTariPrefix(host) && HasNonSlash(host[|TARI_PREFIX|..])
    ensures var cands := addressList(TrimSlashes(host[|TARI_PREFIX|..]));
      var r := ParsedEndpoint(host, dns, addressList, resolve);
      && ((forall i :: 0 <= i < |cands| ==> Accept(cands[i], dns, resolve).None?) ==> r == Err(NoUsableEndpoint))
      && (r.Ok? ==>
            && r.value.host != [] && r.value.port != 0 && r.value.port < 65536
            && (exists k :: 0 <= k < |cands| && Accept(cands[k], dns, resolve) == Some(r.value) &&
                  forall j :: k < j < |cands| ==> Accept(cands[j], dns, resolve).None?)
            && ((forall i :: 0 <= i < |cands| ==> cands[i].port >= 0) ==> 1 <= r.value.port <= 65535))
  {
    var rest := TrimSlashes(host[|TARI_PREFIX|..]);
    TrimEmptyIffAllSlashes(host[|TARI_PREFIX|..]);
    var cands := addressList(rest);
    LastAcceptedIsLatest(UNSET_ENDPOINT, cands, dns, resolve);
    var ep := LastAccepted(UNSET_ENDPOINT, cands, dns, resolve);
    if ep.host != [] && (forall i :: 0 <= i < |cands| ==> cands[i].port >= 0) {
      assert exists i :: 0 <= i < |cands| && Accept(cands[i], dns, resolve).Some?;
      var k :| 0 <= k < |cands| && Accept(cands[k], dns, resolve) == Some(ep);
      assert ep.port == cands[k].port;
    }
  }
}
