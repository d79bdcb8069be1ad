# Tari merge-mining relay, modelled in Dafny

This project models the core of p2pool's Tari merge-mining client
(`src/merge_mining_client_tari.cpp`). That core does five things:

- It checks the `tari://` host string and picks the upstream Tari node.
- It caches the chain parameters that `get_params` hands out. The cache holds the
  chain identifier and the difficulty.
- Its background job writes the chain identifier into that cache.
- It starts a loopback relay server on a random dynamic port.
- It runs the relay clients. Each one is paired with the client at the other end
  of its tunnel. A client's reset tears the tunnel down, and reads from it are
  forwarded byte for byte to the paired client.

Modules:

- `Common` (`common.dfy`): integer widths, `byte`, `Option` and `Result`.
- `HostParsing` (`host_parsing.dfy`): the constructor's host checks, as specification
  functions and as the methods that run them. This includes the slash-popping loop and
  the loop over the parser's candidates.
- `ChainParams` (`chain_params.dfy`): the chain parameters as values and what an
  identifier update does to them.
- `Relay` (`relay.dfy`): `TariServer` and `TariClient` as classes whose methods update
  their fields, and the send callback as an in-place copy into an `array`.
- `MergeMiningClient` (`merge_mining_client.dfy`): the client class and its constructor,
  written as a fallible factory `Create`. The class holds the identifier bytes in an
  `array`, as the fixed hash the source copies into.

The read and write locks make every cache access one atomic step, so each access is one
method call here. The client's `SubmitSolution` has an empty body and no `modifies`
clause, so it changes nothing.

Some things come from outside this file. The address-list parser, the name resolver, the
random device, bind results, thread creation, address conversion, connect results and
the transport's verdict on a send all enter as parameters.

The header `merge_mining_client_tari.h` and the transport base class are not part of this
model. The model takes the following from them:

- `TARI_PREFIX` is `"tari://"`.
- `HASH_SIZE` is 32.
- `is_paired()` means: the peer pointer is set and the peer's reset counter equals the
  saved one.
- A hash is empty when all its bytes are zero. The identifier is a fixed `HASH_SIZE`
  array: line 152 copies into `aux_id.h`.
- A difficulty is a 128-bit value held as two 64-bit halves. It is empty when both
  halves are zero.
- A successful `start_listening` sets the listen port to the port it bound. The listen
  port starts at -1.

Points where the code's behaviour is easy to misread:

- Every accepted candidate overwrites the stored endpoint (lines 56-60). So the last
  accepted candidate wins, not the first.
- The final test at line 63 refuses only port 0 and ports of 65536 or more. A negative
  port from the parser would pass. `ParsedEndpointValid` proves the range 1..65535 only
  for candidates whose ports are non-negative.
- Nothing in this file ever sets `aux_diff`. So `get_params` can never succeed in this
  snapshot, whatever identifiers arrive (`NeverAvailableWithoutDifficulty`).
- An all-zero 32-byte identifier is stored, but it still counts as empty.

## Model

| member | source | states |
|---|---|---|
| HostParsing.StripTrailingSlashes | src/merge_mining_client_tari.cpp:44-46 | pops trailing '/' while the string is non-empty; the result is the trimmed string (corrected loop, used by the model) |
| HostParsing.StripTrailingSlashesAsWritten | src/merge_mining_client_tari.cpp:44-46 | the loop as written, which calls `back()` before any emptiness test: it is defined only when the string holds a non-'/' character, and then it yields the trimmed string |
| HostParsing.BareSchemeBreaksAsWritten | src/merge_mining_client_tari.cpp:42-46 | for `tari://` followed by any number of slashes, the prefix is present and the remainder is all slashes, so trimming it leaves the empty string; the loop as written evaluates `back()` on that empty string |
| HostParsing.TrimSlashesShape | src/merge_mining_client_tari.cpp:44-46 | the trimmed string is a prefix of the input that does not end in '/', and only '/' characters were removed |
| HostParsing.TrimSlashesUnique | src/merge_mining_client_tari.cpp:44-46 | conversely, any prefix with that shape is the trimmed string, so the characterisation is exact |
| HostParsing.TrimIgnoresAppendedSlashes | src/merge_mining_client_tari.cpp:44-46 | appending k slashes does not change the trimmed string |
| HostParsing.TrimEmptyIffAllSlashes | src/merge_mining_client_tari.cpp:44-51 | trimming leaves the empty string exactly when the input is made of slashes only |
| HostParsing.LastAcceptedIsLatest | src/merge_mining_client_tari.cpp:53-61 | the stored endpoint is the initial one when no candidate passes `!dns \|\| resolve`; otherwise it is the endpoint of an accepted candidate that has no accepted candidate after it |
| HostParsing.SelectEndpoint | src/merge_mining_client_tari.cpp:53-61 | the callback loop: each accepted candidate overwrites family, host and port, taking the resolver's family and host when dns is on; the result is the last accepted endpoint |
| HostParsing.ParseHost | src/merge_mining_client_tari.cpp:37-66 | the constructor's host checks run in order (prefix, erase, trim, empty test, candidate loop, host and port test); the outcome equals the specification `ParsedEndpoint` |
| HostParsing.ParsedEndpointRejects | src/merge_mining_client_tari.cpp:37-51 | refused as missing the prefix exactly when the host does not start with `tari://`; refused as empty exactly when only slashes follow the prefix |
| HostParsing.BareSchemeRejected | src/merge_mining_client_tari.cpp:42-51 | `tari://` followed by any number of slashes is refused as an empty host |
| HostParsing.TrailingSlashesIgnored | src/merge_mining_client_tari.cpp:42-53 | for a host with the prefix, extra trailing slashes give the same outcome, endpoint or error |
| HostParsing.ParsedEndpointValid | src/merge_mining_client_tari.cpp:53-66 | no accepted candidate means refusal; an accepted endpoint has a non-empty host, a port other than 0 and below 65536, and is the last accepted candidate; with non-negative candidate ports its port is in 1..65535 |
| ChainParams.ChainIdUpdate | src/merge_mining_client_tari.cpp:150-156 | an id of exactly HASH_SIZE bytes replaces aux_id and keeps aux_diff, and then the parameters are available iff the id is non-zero and a difficulty is cached; any other length leaves everything unchanged |
| ChainParams.LastValidChainIdWins | src/merge_mining_client_tari.cpp:150-156 | over several updates the difficulty never changes; with no id of the right length nothing changes; otherwise the last id of the right length is the cached one |
| ChainParams.NeverAvailableWithoutDifficulty | src/merge_mining_client_tari.cpp:97-102 | starting from an empty difficulty, no sequence of identifier updates makes the parameters available |
| Relay.AttemptPort | src/merge_mining_client_tari.cpp:183 | each attempted port lies in 49152..65535 |
| Relay.AttemptPortCoversRange | src/merge_mining_client_tari.cpp:183 | every port in 49152..65535 is attempted for some draw |
| Relay.FirstSuccess | src/merge_mining_client_tari.cpp:182-186 | the index found is a successful attempt with no success before it; none means no attempt succeeds |
| Relay.CopyIntoSendBuffer | src/merge_mining_client_tari.cpp:294-302 | data longer than the offered buffer: returns 0 and leaves the buffer unchanged; otherwise the first `size` bytes equal the data, the rest are unchanged, and it returns `size` |
| Relay.PairedTogetherIsLive | src/merge_mining_client_tari.cpp:232-236 | after a successful pairing both clients are live-paired with each other, so the relation is symmetric |
| Relay.TariServer.constructor | src/merge_mining_client_tari.cpp:168-176 | the node fields start as (v4, empty host, port 0), nothing listens, and no thread has been created |
| Relay.TariServer.Start | src/merge_mining_client_tari.cpp:178-201 | at most 10 attempts, each on `AttemptPort` of its draw; it stops at the first bind that succeeds, whose port becomes the listen port; it succeeds iff a port is listening and the loop thread starts; the node fields are unchanged |
| Relay.TariServer.ConnectUpstream | src/merge_mining_client_tari.cpp:203-239 | the upstream client gets the owner, port and family; a failed address conversion returns it to the pool and fails; a failed connect fails; neither failure pairs anything; the downstream client's other fields never change; success pairs the two clients symmetrically, each saving the other's current reset counter |
| Relay.ResetKeepsPairingsSymmetric | src/merge_mining_client_tari.cpp:258-266 | within a set of clients closed under the peer pointer, a reset keeps every live pairing held by both ends, unless the reset client's stale peer has counter `UINT32_MAX` |
| Relay.ConnectUpstreamKeepsPairingsSymmetric | src/merge_mining_client_tari.cpp:203-239 | opening an upstream connection keeps every live pairing in the set held by both ends, and on success pairs the two clients with each other, provided no live pairing pointed at either of them |
| Relay.SentinelRevivesStalePairing | src/merge_mining_client_tari.cpp:258-266 | there are clients where, after a reset, the client reads as paired through a stale peer whose counter is `UINT32_MAX`, while the peer does not point back |
| Relay.TariClient.constructor | src/merge_mining_client_tari.cpp:250-256 | a fresh client has no peer and the saved counter `UINT32_MAX`, so it is unpaired |
| Relay.TariClient.Reset | src/merge_mining_client_tari.cpp:258-266 | if it was paired, the peer's pointer is cleared, the peer is closed, its own pointer is cleared, and neither side is paired afterwards; if not, the pointer is kept and the stale peer is not touched; the saved counter becomes `UINT32_MAX`; no other field of either client changes; afterwards the client is paired only through a stale peer whose counter is `UINT32_MAX` |
| Relay.TariClient.OnConnect | src/merge_mining_client_tari.cpp:268-280 | fails without an owner and changes nothing; an outgoing client succeeds and changes nothing; an incoming one succeeds iff its upstream is connected, and is then paired with it; when it fails, the client is unchanged and the upstream's pairing fields are unchanged; on the incoming path, the server's node endpoint and listen state are kept, a failed address conversion returns the upstream client to the pool, the upstream gets the node's port and family, and this client's transport fields are kept |
| Relay.TariClient.OnRead | src/merge_mining_client_tari.cpp:282-303 | fails with nothing written and no target when there is no owner or no live pairing; otherwise the target is the paired client, and the callback writes all of the data or none into its send buffer, as in `CopyIntoSendBuffer` |
| MergeMiningClient.MergeMiningClientTari.constructor | src/merge_mining_client_tari.cpp:30-36 | the cached parameters start zeroed, so they are unavailable |
| MergeMiningClient.MergeMiningClientTari.GetParams | src/merge_mining_client_tari.cpp:93-103 | succeeds iff neither the identifier nor the difficulty is empty; on success it returns the cached parameters, otherwise the caller's value unchanged; it modifies nothing |
| MergeMiningClient.MergeMiningClientTari.MergeMiningGetChainId | src/merge_mining_client_tari.cpp:150-156 | the job's locked write: the cache becomes `WithChainId` of the old cache, so the id is copied byte for byte only when it is HASH_SIZE long |
| MergeMiningClient.MergeMiningClientTari.SubmitSolution | src/merge_mining_client_tari.cpp:105-109 | has no `modifies` clause, so it changes nothing: the block and its merkle proof are ignored |
| MergeMiningClient.ParamsStayUnavailable | src/merge_mining_client_tari.cpp:93-103 | on a freshly constructed client, after any number of chain-identifier writes, the difficulty is still empty and `get_params` fails, returning the caller's value unchanged |
| MergeMiningClient.Create | src/merge_mining_client_tari.cpp:30-81 | host errors, listen failure and thread failure each abort construction; otherwise the server holds the parsed endpoint, listens on the first port that bound, runs its loop thread, and the parameters start unavailable |

## Findings

| source | as written | input that shows it | evidently intended | confidence | as-written member | corrected member |
|---|---|---|---|---|---|---|
| src/merge_mining_client_tari.cpp:44 | `while (host.back() == '/')` runs before the emptiness test at line 48, so `back()` is called on an empty string | host `tari://` (or `tari:///`): after the prefix is erased the remainder is empty, or becomes empty after one pop | stop popping at the empty string, then refuse the host as empty at line 48 | not executed; high (calling `back()` on an empty `std::string` is undefined behaviour) | HostParsing.StripTrailingSlashesAsWritten, HostParsing.BareSchemeBreaksAsWritten | HostParsing.StripTrailingSlashes, HostParsing.BareSchemeRejected |

## Left out

- The gRPC channel and stub, and the two remote calls `GetNewBlockTemplate` and `GetNewBlock` (lines 78, 132-147), are foreign library calls. Their combined result is the `id` parameter of `MergeMiningGetChainId`. A failed call gives an empty id.
- `uv_queue_work`, the job's lifetime (lines 111-163), the read and write locks and the background-job counters are not modelled. They are concurrency machinery. Each locked section is one atomic method call.
- MergeMiningClient.Create: it does not run the chain-identifier job. The source only queues that job, which runs later. `MergeMiningGetChainId` models the job's effect.
- The destructor and teardown (lines 83-91), `on_shutdown` and `get_log_category` are not modelled. They are plumbing.
- Logging is not modelled. Neither are the address strings built for logs and for the upstream client (lines 74-76 and 220-226). They are formatting only.
- `parse_address_list`, `resolve_host` and `str_to_ip` are external parsing and DNS. They enter as the parameters `addressList` and `resolve` and the boolean `addrOk`. The IP address `str_to_ip` writes into the upstream client is not stored.
- The transport base class (`start_listening`, `connect_to_peer`, `send`, `get_client`, `return_client`, `close`, SOCKS5 tunnelling) is socket I/O outside this file. Its outcomes are parameters. `close` only marks the client as closing.
- The base class also increments the reset counter, and this model does not. Symmetry of live pairings (`Relay.SymmetricPairings`) is proved to survive one pairing, given that no live pairing points at either client, and one reset, given that a stale peer's counter is not `UINT32_MAX`. That exception is real (`Relay.SentinelRevivesStalePairing`). The invariant is not proved across every event the transport produces, such as a counter increment of a peer that another client still points at.
- `std::random_device` is nondeterministic. Its ten draws are a parameter.
- Relay.TariClient.OnRead: the paired client's send buffer is passed in as `buf`. The model returns the target client, but does not tie `buf` to that client, because the transport's buffers are not part of this model. Its return value in the paired case is the parameter `sent`. It stands for whatever `TCPServer::send` makes of the callback's result, because `send` is not part of this model.
- Relay.TariServer.Start: it assumes that a successful bind sets the listen port to the bound port and a failed one leaves it alone, because `start_listening` is not part of this model.
