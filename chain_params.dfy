/**
 * The cached parameters of the merge-mined Tari chain, as values: the chain
 * identifier (one hash wide) and the difficulty. The read and write locks
 * around them make every access one atomic step, so each access is a plain
 * function or method here.
 */
module ChainParams {
  import opened Common

  /** Width of a hash, and so of a chain identifier, in bytes. */
  const HASH_SIZE: nat := 32

  /** A 128-bit difficulty as two 64-bit halves. */
  datatype Difficulty = Difficulty(lo: uint64, hi: uint64)
  {
    predicate IsEmpty()
    {
      lo == 0 && hi == 0
    }
  }

  datatype ChainParameters = ChainParameters(auxId: seq<byte>, auxDiff: Difficulty)

  /** A hash is empty when all of its bytes are zero. */
  predicate IsZeroHash(h: seq<byte>)
  {
    forall i :: 0 <= i < |h| ==> h[i] == 0
  }

  /** `get_params` hands the parameters out only when neither field is empty. */
  predicate Available(p: ChainParameters)
  {
    !IsZeroHash(p.auxId) && !p.auxDiff.IsEmpty()
  }

  /** The zero-initialised parameters the client starts with. */
  const EMPTY_PARAMS: ChainParameters := ChainParameters(seq(HASH_SIZE, _ => 0 as byte), Difficulty(0, 0))

  /** The cache after the refresh job has received `id`. */
  function WithChainId(p: ChainParameters, id: seq<byte>): ChainParameters
  {
    if |id| == HASH_SIZE then p.(auxId := id) else p
  }

  /** The cache after the refresh job has received each of `ids` in turn. */
  function AfterChainIds(p: ChainParameters, ids: seq<seq<byte>>): ChainParameters
    decreases |ids|
  {
    if ids == [] then p else AfterChainIds(WithChainId(p, ids[0]), ids[1..])
  }

  /**
   * An identifier of exactly one hash width replaces the cached one byte for
   * byte and keeps the difficulty; any other length changes nothing. The
   * update makes the parameters available exactly when the new identifier is
   * not all zeros and a difficulty is already cached.
   */
  lemma ChainIdUpdate(p: ChainParameters, id: seq<byte>)
    ensures var q := WithChainId(p, id);
      && q.auxDiff == p.auxDiff
      && (|id| == HASH_SIZE ==> q.auxId == id && (Available(q) <==> !IsZeroHash(id) && !p.auxDiff.IsEmpty()))
      && (|id| != HASH_SIZE ==> q == p)
  {
  }

  /**
   * No identifier update ever sets the difficulty: starting from an empty
   * difficulty, the parameters stay unavailable whatever identifiers arrive.
   */
  lemma {:induction false} NeverAvailableWithoutDifficulty(p: ChainParameters, ids: seq<seq<byte>>)
    requires p.auxDiff.IsEmpty()
    ensures AfterChainIds(p, ids).auxDiff == p.auxDiff
    ensures !Available(AfterChainIds(p, ids))
    decreases |ids|
  {
    if ids != [] {
      NeverAvailableWithoutDifficulty(WithChainId(p, ids[0]), ids[1..]);
    }
  }

  /** The last identifier of the right length is the one cached; shorter or longer ones are ignored. */
  lemma {:induction false} LastValidChainIdWins(p: ChainParameters, ids: seq<seq<byte>>)
    ensures AfterChainIds(p, ids).auxDiff == p.auxDiff
    ensures (forall i :: 0 <= i < |ids| ==> |ids[i]| != HASH_SIZE) ==> AfterChainIds(p, ids) == p
    ensures forall k :: 0 <= k < |ids| && |ids[k]| == HASH_SIZE && (forall j :: k < j < |ids| ==> |ids[j]| != HASH_SIZE) ==>
      AfterChainIds(p, ids).auxId == ids[k]
    decreases |ids|
  {
    if ids != [] {
      var q := WithChainId(p, ids[0]);
      var rest := ids[1..];
      LastValidChainIdWins(q, rest);
      assert forall i :: 0 <= i < |rest| ==> rest[i] == ids[i + 1];
      forall k | 0 <= k < |ids| && |ids[k]| == HASH_SIZE && (forall j :: k < j < |ids| ==> |ids[j]| != HASH_SIZE)
        ensures AfterChainIds(p, ids).auxId == ids[k]
      {
        if k > 0 {
          assert |rest[k - 1]| == HASH_SIZE;
          assert forall j :: k - 1 < j < |rest| ==> |rest[j]| != HASH_SIZE;
        } else {
          assert forall j :: 0 <= j < |rest| ==> |rest[j]| != HASH_SIZE;
        }
      }
    }
  }
}
