/**
 * The local relay that lets the remote-procedure stub reach the Tari node:
 * a server listening on a random loopback port, and clients that are paired
 * two by two (the downstream connection from the stub, the upstream one to the
 * node) and forward each other's bytes. Sockets, the event loop and the
 * transport base class are outside the model: what they decide (bind and
 * connect outcomes, address conversion, the send verdict) enters as
 * parameters, and the base class's own fields are plain fields here.
 */
module Relay {
  import opened Common

  /** Bind attempts `start` makes before giving up. */
  const MAX_LISTEN_ATTEMPTS: nat := 10

  /** The dynamic port range the listen port is drawn from: 49152 up to 49152 + 16384 - 1. */
  const DYNAMIC_PORT_BASE: int := 49152
  const DYNAMIC_PORT_COUNT: nat := 16384

  /** The port tried for one draw of the random device. */
  function AttemptPort(draw: uint32): (port: int)
    ensures 49152 <= port <= 65535
  {
    DYNAMIC_PORT_BASE + draw % DYNAMIC_PORT_COUNT
  }

  /** Every port of the dynamic range can be drawn. */
  lemma AttemptPortCoversRange(port: int)
    requires 49152 <= port <= 65535
    ensures AttemptPort(port - 49152) == port
  {
  }

  /** The index of the first successful attempt, if any. */
  function FirstSuccess(bound: seq<bool>): (k: Option<nat>)
    ensures k.Some? ==> k.value < |bound| && bound[k.value] && forall j :: 0 <= j < k.value ==> !bound[j]
    ensures k.None? ==> forall j :: 0 <= j < |bound| ==> !bound[j]
  {
    if bound == [] then None
    else if bound[0] then Some(0)
    else
      var rest := FirstSuccess(bound[1..]);
      if rest.Some? then Some(rest.value + 1) else None
  }

  /**
   * The send callback: copies all of `data` to the front of the buffer the
   * transport offers, or nothing at all when it does not fit.
   */
  method CopyIntoSendBuffer(data: seq<byte>, buf: array<byte>, bufSize: nat) returns (n: nat)
    requires bufSize <= buf.Length
    modifies buf
    ensures |data| > bufSize ==> n == 0 && buf[..] == old(buf[..])
    ensures |data| <= bufSize ==> n == |data| && buf[..n] == data && buf[n..] == old(buf[n..])
  {
    if |data| > bufSize {
      return 0;
    }
    for i := 0 to |data|
      invariant buf[..i] == data[..i]
      invariant buf[i..] == old(buf[i..])
    {
      buf[i] := data[i];
    }
    return |data|;
  }

  /** Two clients form one live tunnel: each points at the other and saved the other's current reset counter. */
  predicate PairedTogether(a: TariClient, b: TariClient)
    reads a, b
  {
    && a.paired == b && a.savedResetCounter == b.resetCounter
    && b.paired == a && b.savedResetCounter == a.resetCounter
  }

  /**
   * A tunnel that `ConnectUpstream` forms is live from both ends, so a reset
   * of either client finds it paired and tears down both directions.
   */
  lemma PairedTogetherIsLive(a: TariClient, b: TariClient)
    requires PairedTogether(a, b)
    ensures a.IsPaired() && a.paired == b
    ensures b.IsPaired() && b.paired == a
    ensures PairedTogether(b, a)
  {
  }

  /** The peers the clients of `S` point at. */
  ghost function Peers(S: set<TariClient>): set<TariClient?>
    reads S
  {
    set c | c in S && c.paired != null :: c.paired
  }

  /** Every peer pointer of a client in `S` points into `S`. */
  ghost predicate ClosedUnderPaired(S: set<TariClient>)
    reads S
  {
    forall c :: c in S && c.paired != null ==> c.paired in S
  }

  /** Every live pairing among the clients of `S` is held by both ends. */
  ghost predicate SymmetricPairings(S: set<TariClient>)
    reads S, Peers(S)
  {
    forall c :: c in S && c.IsPaired() ==> c.paired in S && PairedTogether(c, c.paired)
  }

  /**
   * A reset keeps every live pairing symmetric, provided a stale peer's
   * counter is not the sentinel `UINT32_MAX` (see `SentinelRevivesStalePairing`).
   */
  method ResetKeepsPairingsSymmetric(S: set<TariClient>, a: TariClient)
    requires a in S && ClosedUnderPaired(S) && SymmetricPairings(S)
    requires a.paired != a
    requires a.paired != null && !a.IsPaired() ==> a.paired.resetCounter != UINT32_MAX
    modifies a, a.paired
    ensures ClosedUnderPaired(S) && SymmetricPairings(S)
  {
    a.Reset();
  }

  /**
   * Opening an upstream connection keeps every live pairing symmetric, when no
   * live pairing points at either of the two clients being paired.
   */
  method ConnectUpstreamKeepsPairingsSymmetric(S: set<TariClient>, server: TariServer, downstream: TariClient,
                                               upstream: TariClient, addrOk: bool, connectOk: bool)
    returns (ok: bool)
    requires downstream in S && upstream in S && upstream != downstream
    requires ClosedUnderPaired(S) && SymmetricPairings(S)
    requires forall c :: c in S && c.IsPaired() ==> c.paired != downstream && c.paired != upstream
    modifies server, downstream, upstream
    ensures ok == (addrOk && connectOk)
    ensures ok ==> PairedTogether(downstream, upstream)
    ensures ClosedUnderPaired(S) && SymmetricPairings(S)
  {
    ok := server.ConnectUpstream(downstream, upstream, addrOk, connectOk);
  }

  /**
   * The sentinel `UINT32_MAX` is a value a reset counter can reach. A client
   * with a stale peer whose counter has reached it reads as paired after its
   * own reset, while the peer does not point back.
   */
  method SentinelRevivesStalePairing() returns (revived: bool)
    ensures revived
  {
    var a := new TariClient();
    var b := new TariClient();
    b.resetCounter := UINT32_MAX;
    a.paired, a.savedResetCounter := b, 0;
    a.Reset();
    revived := a.IsPaired() && b.paired == null;
  }

  class TariServer {
    /** The upstream node, set once while the client is constructed. */
    var nodeIsV6: bool
    var nodeHost: string
    var nodePort: int
    /** The transport's listen port; negative while nothing listens. */
    var listenPort: int
    var loopThreadCreated: bool
    /** Clients handed back to the transport's reuse pool. */
    var pool: seq<TariClient>

    constructor ()
      ensures !nodeIsV6 && nodeHost == [] && nodePort == 0
      ensures listenPort == -1 && !loopThreadCreated && pool == []
    {
      nodeIsV6, nodeHost, nodePort := false, [], 0;
      listenPort, loopThreadCreated, pool := -1, false, [];
    }

    /**
     * Tries up to ten random dynamic ports until one binds, then starts the
     * event-loop thread. `draws[i]` is the random device's i-th value,
     * `bound[i]` whether the i-th bind succeeds, `threadOk` whether the thread
     * starts. `tried` lists the ports attempted, in order.
     */
    method Start(draws: seq<uint32>, bound: seq<bool>, threadOk: bool) returns (ok: bool, tried: seq<int>)
      requires |draws| == MAX_LISTEN_ATTEMPTS && |bound| == MAX_LISTEN_ATTEMPTS
      modifies this
      ensures |tried| <= MAX_LISTEN_ATTEMPTS
      ensures forall i :: 0 <= i < |tried| ==> tried[i] == AttemptPort(draws[i]) && 49152 <= tried[i] <= 65535
      ensures FirstSuccess(bound).Some? ==>
        |tried| == FirstSuccess(bound).value + 1 && listenPort == tried[|tried| - 1]
      ensures FirstSuccess(bound).None? ==> |tried| == MAX_LISTEN_ATTEMPTS && listenPort == old(listenPort)
      ensures ok <==> listenPort >= 0 && threadOk
      ensures loopThreadCreated == (old(loopThreadCreated) || ok)
      ensures nodeIsV6 == old(nodeIsV6) && nodeHost == old(nodeHost) && nodePort == old(nodePort) && pool == old(pool)
    {
      tried := [];
      var i := 0;
      while i < MAX_LISTEN_ATTEMPTS
        invariant 0 <= i <= MAX_LISTEN_ATTEMPTS && |tried| == i
        invariant forall j :: 0 <= j < i ==> tried[j] == AttemptPort(draws[j]) && !bound[j]
        invariant listenPort == old(listenPort) && loopThreadCreated == old(loopThreadCreated)
        invariant nodeIsV6 == old(nodeIsV6) && nodeHost == old(nodeHost) && nodePort == old(nodePort) && pool == old(pool)
      {
        var port := AttemptPort(draws[i]);
        tried := tried + [port];
        if bound[i] {
          listenPort := port;
          break;
        }
        i := i + 1;
      }
      if listenPort < 0 {
        return false, tried;
      }
      if !threadOk {
        return false, tried;
      }
      loopThreadCreated := true;
      ok := true;
    }

    /**
     * Opens the upstream connection for a new downstream one. `upstream` is
     * the client the reuse pool hands out, `addrOk` whether the node's address
     * converts, `connectOk` whether the connect is issued. Only a full success
     * pairs the two clients.
     */
    method ConnectUpstream(downstream: TariClient, upstream: TariClient, addrOk: bool, connectOk: bool) returns (ok: bool)
      requires upstream != downstream
      modifies this, upstream, downstream
      ensures ok == (addrOk && connectOk)
      ensures upstream.owner == this && upstream.port == nodePort && upstream.isV6 == nodeIsV6
      ensures pool == if addrOk then old(pool) else old(pool) + [upstream]
      ensures ok ==> PairedTogether(downstream, upstream)
      ensures !ok ==> unchanged(downstream)
      ensures !ok ==> upstream.paired == old(upstream.paired) && upstream.savedResetCounter == old(upstream.savedResetCounter)
      ensures downstream.owner == old(downstream.owner) && downstream.isIncoming == old(downstream.isIncoming)
      ensures downstream.resetCounter == old(downstream.resetCounter) && downstream.closing == old(downstream.closing)
      ensures downstream.port == old(downstream.port) && downstream.isV6 == old(downstream.isV6)
      ensures upstream.resetCounter == old(upstream.resetCounter) && upstream.isIncoming == old(upstream.isIncoming)
      ensures upstream.closing == old(upstream.closing)
      ensures nodeIsV6 == old(nodeIsV6) && nodeHost == old(nodeHost) && nodePort == old(nodePort)
      ensures listenPort == old(listenPort) && loopThreadCreated == old(loopThreadCreated)
    {
      upstream.owner := this;
      upstream.port := nodePort;
      upstream.isV6 := nodeIsV6;

      if !addrOk {
        pool := pool + [upstream];
        return false;
      }

      if !connectOk {
        return false;
      }

      upstream.paired := downstream;
      upstream.savedResetCounter := downstream.resetCounter;

      downstream.paired := upstream;
      downstream.savedResetCounter := upstream.resetCounter;

      return true;
    }
  }

  class TariClient {
    /** Transport base state: the owning server, the direction, the reset counter, the peer address, a pending close. */
    var owner: TariServer?
    var isIncoming: bool
    var resetCounter: uint32
    var port: int
    var isV6: bool
    var closing: bool

    /** The other end of the tunnel and its reset counter as it was when the two were paired. */
    var paired: TariClient?
    var savedResetCounter: uint32

    constructor ()
      ensures paired == null && savedResetCounter == UINT32_MAX && !IsPaired()
      ensures owner == null && !isIncoming && !closing
    {
      owner, isIncoming, resetCounter := null, false, 0;
      port, isV6, closing := 0, false, false;
      paired, savedResetCounter := null, UINT32_MAX;
    }

    /** The peer is set and has not been reset since the pairing. */
    predicate IsPaired()
      reads this, paired
    {
      paired != null && paired.resetCounter == savedResetCounter
    }

    /** The transport's close(): the connection is marked for closing. */
    method Close()
      modifies this
      ensures closing
      ensures owner == old(owner) && isIncoming == old(isIncoming) && resetCounter == old(resetCounter)
      ensures port == old(port) && isV6 == old(isV6)
      ensures paired == old(paired) && savedResetCounter == old(savedResetCounter)
    {
      closing := true;
    }

    /**
     * Tears the tunnel down: a live peer forgets this client and is closed,
     * and this client forgets its peer. The saved counter always becomes the
     * sentinel `UINT32_MAX`; a stale peer pointer is left in place, so the
     * client still reads as paired if that peer's counter equals the sentinel.
     */
    method Reset()
      requires paired != this
      modifies if IsPaired() then {this, paired} else {this}
      ensures old(IsPaired()) ==> paired == null && old(paired).paired == null && old(paired).closing
      ensures old(IsPaired()) ==> !IsPaired() && !old(paired).IsPaired()
      ensures old(IsPaired()) ==>
        && old(paired).savedResetCounter == old(paired.savedResetCounter)
        && old(paired).owner == old(paired.owner) && old(paired).isIncoming == old(paired.isIncoming)
        && old(paired).resetCounter == old(paired.resetCounter)
        && old(paired).port == old(paired.port) && old(paired).isV6 == old(paired.isV6)
      ensures !old(IsPaired()) ==> paired == old(paired)
      ensures savedResetCounter == UINT32_MAX
      ensures IsPaired() <==> !old(IsPaired()) && paired != null && paired.resetCounter == UINT32_MAX
      ensures owner == old(owner) && isIncoming == old(isIncoming) && resetCounter == old(resetCounter)
      ensures port == old(port) && isV6 == old(isV6) && closing == old(closing)
    {
      if IsPaired() {
        paired.paired := null;
        paired.Close();
        paired := null;
      }
      savedResetCounter := UINT32_MAX;
    }

    /**
     * Called when the connection is established: refused without an owning
     * server, an incoming connection gets its upstream partner, an outgoing one
     * is accepted as it is.
     */
    method OnConnect(upstream: TariClient, addrOk: bool, connectOk: bool) returns (ok: bool)
      requires upstream != this
      modifies this, owner, upstream
      ensures owner == old(owner) && isIncoming == old(isIncoming)
      ensures owner == null ==> !ok && unchanged(this, upstream)
      ensures owner != null && !isIncoming ==> ok && unchanged(this, owner, upstream)
      ensures owner != null && isIncoming ==> ok == (addrOk && connectOk)
      ensures owner != null && isIncoming && !ok ==>
        && unchanged(this)
        && upstream.paired == old(upstream.paired) && upstream.savedResetCounter == old(upstream.savedResetCounter)
      ensures owner != null && isIncoming && ok ==> PairedTogether(this, upstream) && upstream.owner == owner
      ensures owner != null && isIncoming ==>
        && owner.nodeIsV6 == old(owner.nodeIsV6) && owner.nodeHost == old(owner.nodeHost)
        && owner.nodePort == old(owner.nodePort)
        && owner.listenPort == old(owner.listenPort) && owner.loopThreadCreated == old(owner.loopThreadCreated)
        && owner.pool == (if addrOk then old(owner.pool) else old(owner.pool) + [upstream])
        && upstream.port == owner.nodePort && upstream.isV6 == owner.nodeIsV6
        && upstream.resetCounter == old(upstream.resetCounter) && upstream.isIncoming == old(upstream.isIncoming)
        && upstream.closing == old(upstream.closing)
        && resetCounter == old(resetCounter) && port == old(port) && isV6 == old(isV6) && closing == old(closing)
    {
      var server := owner;
      if server == null {
        return false;
      }
      if isIncoming {
        ok := server.ConnectUpstream(this, upstream, addrOk, connectOk);
        return;
      }
      return true;
    }

    /**
     * Forwards what was read to the paired client: `to` is the client the
     * bytes are sent to, `buf` its send buffer (of which the transport offers
     * `bufSize` bytes). Refused without an owner or a live pairing; otherwise
     * `sent` is the transport's verdict on the send.
     */
    method OnRead(data: seq<byte>, buf: array<byte>, bufSize: nat, sent: bool) returns (ok: bool, written: nat, to: TariClient?)
      requires bufSize <= buf.Length
      modifies buf
      ensures owner == null || !IsPaired() ==> !ok && written == 0 && to == null && buf[..] == old(buf[..])
      ensures owner != null && IsPaired() ==> to == paired && ok == sent
      ensures owner != null && IsPaired() && |data| > bufSize ==> written == 0 && buf[..] == old(buf[..])
      ensures owner != null && IsPaired() && |data| <= bufSize ==>
        written == |data| && buf[..|data|] == data && buf[|data|..] == old(buf[|data|..])
    {
      if owner == null {
        return false, 0, null;
      }
      if !IsPaired() {
        return false, 0, null;
      }
      to := paired;
      written := CopyIntoSendBuffer(data, buf, bufSize);
      ok := sent;
    }
  }
}
