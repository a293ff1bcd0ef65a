/** The peg-zone client: transaction submission and the views it rebuilds
    from the node's store (Bitcoin header trunk and tip, signatory sets,
    balances). */
module Client {
  import opened Octets
  import opened Outcomes
  import opened Store

  /** A 32-byte digest. */
  type Digest = s: Bytes | |s| == 32 witness seq(32, _ => 0)

  /** `bitcoin::BlockHash`. */
  datatype BlockHash = BlockHash(digest: Digest)

  /** `bitcoin::BlockHeader`. */
  datatype BlockHeader = BlockHeader(
    version: int, prevBlockhash: BlockHash, merkleRoot: Digest, time: nat, bits: nat, nonce: nat)

  /** A custodial key holder with its voting weight. */
  datatype Signatory = Signatory(publicKey: Bytes, votingPower: nat)

  type SignatorySet = seq<Signatory>

  /** The decoded form of a stored signatory-set snapshot; only its set is
      read by the client. */
  datatype SignatorySetSnapshot = SignatorySetSnapshot(signatories: SignatorySet)

  datatype WorkProofTransaction = WorkProofTransaction(publicKey: Bytes, nonce: u64)

  /** The application's transactions; the client builds only work proofs. */
  datatype Transaction = WorkProof(workProof: WorkProofTransaction)

  /** The node's answer to a committed transaction, handed back unread. */
  datatype CommitResponse = CommitResponse(raw: Bytes)

  /** What `broadcast_tx_commit` answers: the commit response, or an RPC
      error with its message. */
  datatype RpcReply = Committed(response: CommitResponse) | RpcFailed(message: string)

  /** The collaborators the client calls but does not define, each a
      function of its input:
      `decodeSnapshot` is `SignatorySetSnapshot::decode`;
      `loadTrunk` and `loadTip` are `HeaderCache::load_trunk` and
      `HeaderCache::tip` (the tip already projected to its `stored.header`)
      over a header cache built on the store;
      `serialize` is `serde_json::to_vec` of a transaction;
      `broadcastTxCommit` is the RPC call that submits a payload and waits
      for its commit. */
  datatype Externals = Externals(
    decodeSnapshot: Bytes -> Result<SignatorySetSnapshot>,
    loadTrunk: MerkStore -> Option<seq<BlockHash>>,
    loadTip: MerkStore -> Result<Option<BlockHeader>>,
    serialize: Transaction -> Bytes,
    broadcastTxCommit: Bytes -> RpcReply)

  /** Store keys, as their ASCII bytes. */
  const SignatoriesKey: Bytes := [115, 105, 103, 110, 97, 116, 111, 114, 105, 101, 115]  // "signatories"
  const PrevSignatoriesKey: Bytes := [112, 114, 101, 118, 95, 115, 105, 103, 110, 97, 116, 111, 114, 105, 101, 115]  // "prev_signatories"
  const BalancesPrefix: Bytes := [98, 97, 108, 97, 110, 99, 101, 115, 47]  // "balances/"

  /** Error messages. */
  const SignatorySetMissing := "Signatory set was not available in the store"
  const SnapshotMissing := "Signatory set snapshot was not available in the store"
  const TrunkMissing := "Unable to get header trunk"
  const RpcErrorPrefix := "Tendermint RPC error: "

  /** The key under which the balance of `address` is stored. */
  function BalanceKey(address: Bytes): (k: Bytes)
    ensures |k| == |BalancesPrefix| + |address|
    ensures k[..|BalancesPrefix|] == BalancesPrefix && k[|BalancesPrefix|..] == address
  {
    BalancesPrefix + address
  }

  class Client {
    const remote: RemoteStore
    const ext: Externals

    constructor (remote: RemoteStore, ext: Externals)
      ensures this.remote == remote && this.ext == ext
    {
      this.remote := remote;
      this.ext := ext;
    }

    /** `send`: serializes `tx`, submits it and waits for its commit. The
        node's response comes back unchanged; an RPC failure becomes a
        transport error carrying the RPC's message. */
    function Send(tx: Transaction): (r: Result<CommitResponse>)
      ensures var reply := ext.broadcastTxCommit(ext.serialize(tx));
              && (reply.Committed? <==> r.Ok?)
              && (reply.Committed? ==> r.value == reply.response)
              && (reply.RpcFailed? ==> r.error == Transport(RpcErrorPrefix + reply.message))
    {
      match ext.broadcastTxCommit(ext.serialize(tx))
      case Committed(response) => Ok(response)
      case RpcFailed(message) => Err(Transport(RpcErrorPrefix + message))
    }

    /** `submit_work_proof`: sends exactly one work-proof transaction made
        of the given key and nonce, and returns what sending it returns. */
    function SubmitWorkProof(publicKey: Bytes, nonce: u64): (r: Result<CommitResponse>)
      ensures r == Send(WorkProof(WorkProofTransaction(publicKey, nonce)))
    {
      var tx := WorkProof(WorkProofTransaction(publicKey, nonce));
      Send(tx)
    }

    /** `get_bitcoin_block_hashes`: the header cache's trunk, unchanged, or
        a not-found error when the cache has none. */
    function GetBitcoinBlockHashes(): (r: Result<seq<BlockHash>>)
      ensures r.Ok? <==> ext.loadTrunk(remote.backend).Some?
      ensures r.Ok? ==> r.value == ext.loadTrunk(remote.backend).value
      ensures r.Err? ==> r.error == NotFound(TrunkMissing)
    {
      match ext.loadTrunk(remote.backend)
      case Some(trunk) => Ok(trunk)
      case None => Err(NotFound(TrunkMissing))
    }

    /** `get_bitcoin_tip`: the tip header; an error of the header cache is
        passed on, and a cache without a tip panics. */
    function GetBitcoinTip(): (r: Run<BlockHeader>)
      ensures r.Panicked? <==> ext.loadTip(remote.backend) == Ok(None)
      ensures r.Panicked? ==> r.panic == MissingBitcoinTip
      ensures ext.loadTip(remote.backend).Err? ==> r == Returned(Err(ext.loadTip(remote.backend).error))
      ensures ext.loadTip(remote.backend).Ok? && ext.loadTip(remote.backend).value.Some? ==>
                r == Returned(Ok(ext.loadTip(remote.backend).value.value))
    {
      match ext.loadTip(remote.backend)
      case Err(e) => Returned(Err(e))
      case Ok(Some(tip)) => Returned(Ok(tip))
      case Ok(None) => Panicked(MissingBitcoinTip)
    }

    /** The lookup closure of `get_signatory_sets`: the signatory set of the
        snapshot stored under `key`. */
    function SignatorySetAt(key: Bytes): (r: Result<SignatorySet>)
      ensures key in remote.backend.faults ==> r == Err(remote.backend.faults[key])
      ensures key !in remote.backend.faults && key !in remote.backend.entries ==>
                r == Err(NotFound(SignatorySetMissing))
      ensures key !in remote.backend.faults && key in remote.backend.entries ==>
                var decoded := ext.decodeSnapshot(remote.backend.entries[key]);
                && (decoded.Err? ==> r == Err(decoded.error))
                && (decoded.Ok? ==> r == Ok(decoded.value.signatories))
    {
      match remote.Get(key)
      case Err(e) => Err(e)
      case Ok(None) => Err(NotFound(SignatorySetMissing))
      case Ok(Some(bytes)) =>
        match ext.decodeSnapshot(bytes)
        case Err(e) => Err(e)
        case Ok(snapshot) => Ok(snapshot.signatories)
    }

    /** `get_signatory_sets`: the current and the previous signatory sets,
        in that order; the current one is looked up first, so its failure
        is the one reported when both fail. */
    function GetSignatorySets(): (r: Result<seq<SignatorySet>>)
      ensures r.Ok? <==> SignatorySetAt(SignatoriesKey).Ok? && SignatorySetAt(PrevSignatoriesKey).Ok?
      ensures r.Ok? ==>
                r.value == [SignatorySetAt(SignatoriesKey).value, SignatorySetAt(PrevSignatoriesKey).value]
      ensures SignatorySetAt(SignatoriesKey).Err? ==> r == Err(SignatorySetAt(SignatoriesKey).error)
      ensures SignatorySetAt(SignatoriesKey).Ok? && SignatorySetAt(PrevSignatoriesKey).Err? ==>
                r == Err(SignatorySetAt(PrevSignatoriesKey).error)
    {
      match SignatorySetAt(SignatoriesKey)
      case Err(e) => Err(e)
      case Ok(current) =>
        match SignatorySetAt(PrevSignatoriesKey)
        case Err(e) => Err(e)
        case Ok(previous) => Ok([current, previous])
    }

    /** `get_signatory_set_snapshot`: the decoded snapshot stored under
        "signatories", or a not-found error when the key is absent. */
    function GetSignatorySetSnapshot(): (r: Result<SignatorySetSnapshot>)
      ensures SignatoriesKey in remote.backend.faults ==> r == Err(remote.backend.faults[SignatoriesKey])
      ensures SignatoriesKey !in remote.backend.faults && SignatoriesKey !in remote.backend.entries ==>
                r == Err(NotFound(SnapshotMissing))
      ensures SignatoriesKey !in remote.backend.faults && SignatoriesKey in remote.backend.entries ==>
                r == ext.decodeSnapshot(remote.backend.entries[SignatoriesKey])
    {
      match remote.Get(SignatoriesKey)
      case Err(e) => Err(e)
      case Ok(None) => Err(NotFound(SnapshotMissing))
      case Ok(Some(bytes)) => ext.decodeSnapshot(bytes)
    }

    /** What `get_balance` does: a failed query returns its error, a missing
        key is a zero balance, an 8-byte value is read big-endian, and a
        value of any other length makes `copy_from_slice` panic. */
    function BalanceOf(address: Bytes): (r: Run<u64>)
      ensures remote.Get(BalanceKey(address)).Err? ==>
                r == Returned(Err(remote.Get(BalanceKey(address)).error))
      ensures r.Panicked? <==>
                remote.Get(BalanceKey(address)).Ok? && remote.Get(BalanceKey(address)).value.Some? &&
                |remote.Get(BalanceKey(address)).value.value| != 8
    {
      match remote.Get(BalanceKey(address))
      case Err(e) => Returned(Err(e))
      case Ok(None) => Returned(Ok(0))
      case Ok(Some(value)) =>
        if |value| == 8 then Returned(Ok(U64FromBeBytes(value)))
        else Panicked(SliceLengthMismatch(|value|, 8))
    }

    /** `get_balance`: zero-fills an 8-byte buffer, copies the stored value
        into it and folds it big-endian into a `u64`. */
    method GetBalance(address: Bytes) returns (r: Run<u64>)
      ensures r == BalanceOf(address)
    {
      var key := BalanceKey(address);
      var fetched := remote.Get(key);
      match fetched
      case Err(e) =>
        return Returned(Err(e));
      case Ok(None) =>
        return Returned(Ok(0));
      case Ok(Some(value)) =>
        var buffer := new byte[8](_ => 0);
        // copy_from_slice: the lengths must agree before anything is copied
        if |value| != buffer.Length {
          return Panicked(SliceLengthMismatch(|value|, buffer.Length));
        }
        for i := 0 to buffer.Length
          invariant forall j | 0 <= j < i :: buffer[j] == value[j]
        {
          buffer[i] := value[i];
        }
        assert buffer[..] == value;
        // from_be_bytes
        var acc: nat := 0;
        for i := 0 to buffer.Length
          invariant acc == FromBeBytes(buffer[..i])
        {
          assert buffer[..i + 1][..i] == buffer[..i];
          acc := acc * 256 + buffer[i] as int;
        }
        assert buffer[..buffer.Length] == value;
        Pow256Of8();
        return Returned(Ok(acc as u64));
    }
  }

  /** An absent balance key is a zero balance, not an error. */
  lemma BalanceMissIsZero(c: Client, address: Bytes)
    requires BalanceKey(address) !in c.remote.backend.faults
    requires BalanceKey(address) !in c.remote.backend.entries
    ensures c.BalanceOf(address) == Returned(Ok(0))
  {
  }

  /** A stored 8-byte value is the big-endian encoding of the balance read
      from it. */
  lemma BalanceOfEightBytes(c: Client, address: Bytes, value: Bytes)
    requires c.remote.Get(BalanceKey(address)) == Ok(Some(value))
    requires |value| == 8
    ensures c.BalanceOf(address).Returned? && c.BalanceOf(address).result.Ok?
    ensures U64ToBeBytes(c.BalanceOf(address).result.value) == value
  {
    U64ToBeBytesOfFromBeBytes(value);
  }

  /** Storing the big-endian encoding of `v` and reading the balance back
      gives `v`. */
  lemma BalanceRoundTrip(c: Client, address: Bytes, v: u64)
    requires c.remote.Get(BalanceKey(address)) == Ok(Some(U64ToBeBytes(v)))
    ensures c.BalanceOf(address) == Returned(Ok(v))
  {
  }

  /** A stored value of any length but 8 yields no balance: neither
      truncated nor padded, the read panics. */
  lemma BalanceOfOtherLengthPanics(c: Client, address: Bytes, value: Bytes)
    requires c.remote.Get(BalanceKey(address)) == Ok(Some(value))
    requires |value| != 8
    ensures c.BalanceOf(address) == Panicked(SliceLengthMismatch(|value|, 8))
  {
  }

  /** The balance of `address` depends on the store only through the key
      `"balances/" + address`. */
  lemma BalanceReadsOnlyItsKey(c1: Client, c2: Client, address: Bytes)
    requires c1.remote.Get(BalanceKey(address)) == c2.remote.Get(BalanceKey(address))
    ensures c1.BalanceOf(address) == c2.BalanceOf(address)
  {
  }

  /** Distinct addresses have distinct balance keys, and no balance key is
      one of the signatory keys. */
  lemma BalanceKeysAreSeparate(address: Bytes, other: Bytes)
    ensures BalanceKey(address) == BalanceKey(other) ==> address == other
    ensures BalanceKey(address) != SignatoriesKey && BalanceKey(address) != PrevSignatoriesKey
  {
    assert BalanceKey(address)[0] == BalancesPrefix[0];
  }

  /** The signatory set under `key` depends on the store only through
      `key`. */
  lemma SignatorySetAtReadsOnlyItsKey(c1: Client, c2: Client, key: Bytes)
    requires c1.ext.decodeSnapshot == c2.ext.decodeSnapshot
    requires c1.remote.Get(key) == c2.remote.Get(key)
    ensures c1.SignatorySetAt(key) == c2.SignatorySetAt(key)
  {
  }

  /** The signatory sets depend on the store only through the two
      signatory keys. */
  lemma SignatorySetsReadOnlyTheirKeys(c1: Client, c2: Client)
    requires c1.ext.decodeSnapshot == c2.ext.decodeSnapshot
    requires c1.remote.Get(SignatoriesKey) == c2.remote.Get(SignatoriesKey)
    requires c1.remote.Get(PrevSignatoriesKey) == c2.remote.Get(PrevSignatoriesKey)
    ensures c1.GetSignatorySets() == c2.GetSignatorySets()
  {
    SignatorySetAtReadsOnlyItsKey(c1, c2, SignatoriesKey);
    SignatorySetAtReadsOnlyItsKey(c1, c2, PrevSignatoriesKey);
  }

  /** Against the same store state, when both signatory sets are available
      the snapshot read on its own holds the first of them. (Two calls of
      the source query the node afresh and may see different states.) */
  lemma SnapshotHoldsCurrentSet(c: Client)
    requires c.GetSignatorySets().Ok?
    ensures c.GetSignatorySetSnapshot().Ok?
    ensures c.GetSignatorySetSnapshot().value.signatories == c.GetSignatorySets().value[0]
  {
  }

  /** The payload `SubmitWorkProof` hands to the transport is the serialized
      work proof, and its result is the transport's reply to that payload:
      the commit response unchanged, or a transport error with the RPC's
      message. With an injective serializer, that payload determines the key
      and the nonce. */
  lemma SubmitWorkProofForwardsPayload(c: Client, key: Bytes, nonce: u64, otherKey: Bytes, otherNonce: u64)
    requires forall a, b :: c.ext.serialize(a) == c.ext.serialize(b) ==> a == b
    ensures var payload := c.ext.serialize(WorkProof(WorkProofTransaction(key, nonce)));
            var reply := c.ext.broadcastTxCommit(payload);
            && (reply.Committed? ==> c.SubmitWorkProof(key, nonce) == Ok(reply.response))
            && (reply.RpcFailed? ==>
                  c.SubmitWorkProof(key, nonce) == Err(Transport(RpcErrorPrefix + reply.message)))
            && (payload == c.ext.serialize(WorkProof(WorkProofTransaction(otherKey, otherNonce))) ==>
                  key == otherKey && nonce == otherNonce)
  {
  }
}
