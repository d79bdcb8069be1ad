/**
 * The Tari merge-mining client: the constructor that checks the host, starts
 * the relay and launches the chain-identifier job; `get_params`, which reads
 * the cached chain parameters; the job's update of the cached identifier; and
 * `submit_solution`, which does nothing yet.
 */
module MergeMiningClient {
  import opened Common
  import opened HostParsing
  import opened ChainParams
  import opened Relay

  datatype ClientError = InvalidHost(reason: HostError) | ListenFailed | LoopThreadFailed

  class MergeMiningClientTari {
    /** The cached chain parameters: the identifier bytes and the difficulty. */
    var auxId: array<byte>
    var auxDiff: Difficulty
    const auxWallet: string
    const hostStr: string
    const server: TariServer

    ghost predicate Valid()
      reads this
    {
      auxId.Length == HASH_SIZE
    }

    /** The cached parameters as a value. */
    function Params(): ChainParameters
      reads this, auxId
    {
      ChainParameters(auxId[..], auxDiff)
    }

    constructor (host: string, wallet: string, server: TariServer)
      ensures Valid() && fresh(auxId)
      ensures Params() == EMPTY_PARAMS
      ensures hostStr == host && auxWallet == wallet && this.server == server
    {
      auxId := new byte[HASH_SIZE](_ => 0);
      auxDiff := Difficulty(0, 0);
      auxWallet := wallet;
      hostStr := host;
      this.server := server;
      new;
      assert auxId[..] == seq(HASH_SIZE, _ => 0 as byte);
    }

    /**
     * Hands out a copy of the cached parameters when both are set; otherwise
     * reports failure and gives back `outParams` untouched.
     */
    method GetParams(outParams: ChainParameters) returns (ok: bool, result: ChainParameters)
      requires Valid()
      ensures ok <==> Available(Params())
      ensures result == if ok then Params() else outParams
    {
      if IsZeroHash(auxId[..]) || auxDiff.IsEmpty() {
        return false, outParams;
      }
      return true, Params();
    }

    /** `submit_solution` accepts a block and its merkle proof and does nothing with them. */
    method SubmitSolution(blob: seq<byte>, merkleProof: seq<seq<byte>>)
      ensures unchanged(this, auxId, server)
    {
    }

    /**
     * The chain-identifier job's write: `id` is the identifier the two remote
     * calls produced (empty when they fail). An identifier of exactly one hash
     * width is copied into the cache byte by byte; any other is ignored.
     */
    method MergeMiningGetChainId(id: seq<byte>)
      requires Valid()
      modifies auxId
      ensures Valid()
      ensures Params() == WithChainId(old(Params()), id)
    {
      if |id| == HASH_SIZE {
        for i := 0 to HASH_SIZE
          invariant auxId[..i] == id[..i]
          invariant auxId[i..] == old(auxId[i..])
        {
          auxId[i] := id[i];
        }
        assert auxId[..] == id;
      }
    }
  }

  /**
   * Nothing in the client ever sets the difficulty, so however many
   * identifiers the chain-identifier job stores into a freshly constructed
   * client, `get_params` keeps failing and leaves the caller's value alone.
   */
  method ParamsStayUnavailable(client: MergeMiningClientTari, ids: seq<seq<byte>>, outParams: ChainParameters)
    returns (ok: bool, result: ChainParameters)
    requires client.Valid() && client.Params() == EMPTY_PARAMS
    modifies client.auxId
    ensures client.Valid() && client.Params().auxDiff == EMPTY_PARAMS.auxDiff
    ensures !ok && result == outParams
  {
    for i := 0 to |ids|
      invariant client.Valid() && client.Params().auxDiff == EMPTY_PARAMS.auxDiff
    {
      client.MergeMiningGetChainId(ids[i]);
    }
    ok, result := client.GetParams(outParams);
  }

  /**
   * The client's constructor as a fallible factory. `dns` is whether names
   * are resolved; `addressList` and `resolve` are the address-list parser and
   * the resolver; `draws`, `bound` and `threadOk` decide the relay start as in
   * `TariServer.Start`.
   */
  method Create(host: string, wallet: string, dns: bool, addressList: AddressListParser, resolve: Resolver,
                draws: seq<uint32>, bound: seq<bool>, threadOk: bool)
    returns (r: Result<MergeMiningClientTari, ClientError>)
    requires |draws| == MAX_LISTEN_ATTEMPTS && |bound| == MAX_LISTEN_ATTEMPTS
    ensures ParsedEndpoint(host, dns, addressList, resolve).Err? ==>
      r == Err(InvalidHost(ParsedEndpoint(host, dns, addressList, resolve).error))
    ensures ParsedEndpoint(host, dns, addressList, resolve).Ok? && FirstSuccess(bound).None? ==> r == Err(ListenFailed)
    ensures ParsedEndpoint(host, dns, addressList, resolve).Ok? && FirstSuccess(bound).Some? && !threadOk ==>
      r == Err(LoopThreadFailed)
    ensures r.Ok? <==> ParsedEndpoint(host, dns, addressList, resolve).Ok? && FirstSuccess(bound).Some? && threadOk
    ensures r.Ok? ==>
      && fresh(r.value) && fresh(r.value.server) && r.value.Valid()
      && r.value.hostStr == host && r.value.auxWallet == wallet
      && Endpoint(r.value.server.nodeIsV6, r.value.server.nodeHost, r.value.server.nodePort) ==
           ParsedEndpoint(host, dns, addressList, resolve).value
      && r.value.server.listenPort == AttemptPort(draws[FirstSuccess(bound).value])
      && r.value.server.loopThreadCreated
      && r.value.Params() == EMPTY_PARAMS && !Available(r.value.Params())
  {
    var server := new TariServer();
    // The candidate loop starts from the node fields the new server holds.
    assert Endpoint(server.nodeIsV6, server.nodeHost, server.nodePort) == UNSET_ENDPOINT;
    var parsed := ParseHost(host, dns, addressList, resolve);
    if parsed.Err? {
      return Err(InvalidHost(parsed.error));
    }
    var ep := parsed.value;
    server.nodeIsV6, server.nodeHost, server.nodePort := ep.isV6, ep.host, ep.port;

    var ok, tried := server.Start(draws, bound, threadOk);
    if !ok {
      if server.listenPort < 0 {
        return Err(ListenFailed);
      }
      return Err(LoopThreadFailed);
    }
    var client := new MergeMiningClientTari(host, wallet, server);
    return Ok(client);
  }
}
