# Peg-zone chain client, modelled in Dafny

This project models the view-reconstruction layer of the nomic peg-zone
client (`chain/client/src/client.rs`). The client talks to a Tendermint node
that keeps a Bitcoin-anchored peg ledger. It does two things:

- it submits transactions, such as a work proof that redeems a nonce for
  voting power, and waits for them to commit;
- it rebuilds views of chain state from authenticated lookups in the node's
  key/value store: the Bitcoin header trunk and tip, the current and
  previous signatory sets, and account balances.

Modules:

- `Octets` (`octets.dfy`): bytes, `u64`, and the big-endian conversion used by
  `u64::from_be_bytes`. Both round trips between an n-byte string and its
  number are proved.
- `Outcomes` (`outcomes.dfy`): the client's error classes (not found, decode,
  transport) and `Run<T>`. A `Run<T>` either returns a `Result<T>` or panics
  with a named `Panic`. Each panic of the source is an explicit outcome, so a
  contract can say that a call never returns normally.
- `Store` (`store.dfy`): the node's store as a value `MerkStore`. It holds the
  replicated entries and the keys whose authenticated query fails.
  `RemoteStore` is a class over an immutable `MerkStore`. Its `Get` passes the
  lookup through unchanged. Its `Put` and `Delete` always panic. No field of
  the class can change, so no operation writes to the store.
- `Client` (`client.dfy`): the `Client` class, which holds a `RemoteStore` and
  the collaborators it calls (`Externals`). It has the transaction submission
  and the three views. `GetBalance` is a method that copies into an 8-byte
  array and folds it, as the source does. `BalanceOf` is the function that
  specifies it. The lemmas give the balance properties (a miss reads 0, round
  trip, a wrong length panics, only its own key is read) and the signatory-set
  properties.

The collaborators the client calls but does not define are function-valued
fields of `Externals`:

- snapshot decoding (`SignatorySetSnapshot::decode`);
- the header cache's trunk and tip (`HeaderCache::load_trunk`, `HeaderCache::tip`);
- transaction serialization (`serde_json::to_vec`);
- the commit-waiting RPC call (`broadcast_tx_commit`).

Because each is a function, the same stored bytes always decode to the same
snapshot.

The model follows the code as written, including where it departs from the behaviour one might expect of these views:

- `get_signatory_sets` reports a missing current set and a missing previous
  set with the same message ("Signatory set was not available in the store").
  The model keeps that one message. Which set was missing shows only in the
  order of the checks: the current set is looked up first.
- A stored balance whose length is not 8 bytes makes `copy_from_slice` panic.
  The code does not return a decode error for it. The model gives
  `Panicked(SliceLengthMismatch(length, 8))`: the value is never truncated or
  padded.
- A missing Bitcoin tip panics (`Panicked(MissingBitcoinTip)`). It is not a
  not-found error.
- An empty trunk is not a failure: when the header cache answers `Some([])`,
  `get_bitcoin_block_hashes` returns `Ok([])`. Only `None` gives the
  not-found error.

## Model

| member | source | states |
|---|---|---|
| `Octets.FromBeBytes` | chain/client/src/client.rs:152 | the big-endian value of an n-byte string is below 256^n |
| `Octets.ToBeBytes` | chain/client/src/client.rs:152 | the n-byte big-endian encoding of a number below 256^n has exactly n bytes |
| `Octets.FromBeBytesOfToBeBytes` | chain/client/src/client.rs:152 | decoding the encoding of v gives back v |
| `Octets.ToBeBytesOfFromBeBytes` | chain/client/src/client.rs:152 | encoding the decoded value of s at its own length gives back s, so the conversion is a bijection |
| `Octets.U64FromBeBytes` | chain/client/src/client.rs:152 | `u64::from_be_bytes` of 8 bytes is their big-endian value, always in the `u64` range |
| `Octets.U64ToBeBytes` | chain/client/src/client.rs:152 | the 8-byte encoding of a `u64` reads back as the same `u64` |
| `Octets.U64ToBeBytesOfFromBeBytes` | chain/client/src/client.rs:152 | every 8-byte string is the encoding of the `u64` it reads as |
| `Store.MerkStore.Lookup` | chain/client/src/client.rs:31 | a query fails exactly on the faulty keys, with their error; it is `None` exactly when the key is neither faulty nor stored; otherwise it is the stored value |
| `Store.RemoteStore.constructor` | chain/client/src/client.rs:24-25 | the adapter wraps the given store client |
| `Store.RemoteStore.Get` | chain/client/src/client.rs:29-33 | the backend's lookup result, unchanged; a value is found exactly when the key is stored and not faulty |
| `Store.RemoteStore.Put` | chain/client/src/client.rs:37-39 | a write always panics with the write-on-remote-store panic and never returns |
| `Store.RemoteStore.Delete` | chain/client/src/client.rs:41-43 | a delete always panics with the delete-on-remote-store panic and never returns |
| `Client.BalanceKey` | chain/client/src/client.rs:144 | the balance key is `"balances/"` followed by the raw address bytes: its prefix is the namespace and its rest is the address |
| `Client.Client.constructor` | chain/client/src/client.rs:57-60 | the session holds the given store adapter and connection |
| `Client.Client.Send` | chain/client/src/client.rs:71-81 | the transaction is serialized and broadcast; a committed response comes back unchanged, and an RPC failure becomes a transport error whose message is "Tendermint RPC error: " followed by the RPC's message |
| `Client.Client.SubmitWorkProof` | chain/client/src/client.rs:97-107 | sends exactly `WorkProof{public_key, nonce}` built from its arguments and returns what `send` returns for it |
| `Client.Client.GetBitcoinBlockHashes` | chain/client/src/client.rs:84-93 | succeeds exactly when the header cache has a trunk, and then returns that trunk in its order; otherwise a not-found error "Unable to get header trunk" |
| `Client.Client.GetBitcoinTip` | chain/client/src/client.rs:109-118 | panics exactly when the header cache answers with no tip; passes a cache error on; otherwise returns the tip header |
| `Client.Client.SignatorySetAt` | chain/client/src/client.rs:122-128 | a faulty key gives its query error; an absent key gives the not-found error; a stored key gives the decoder's error or the decoded snapshot's signatory set |
| `Client.Client.GetSignatorySets` | chain/client/src/client.rs:120-134 | succeeds exactly when both the current and the previous set are available, and then returns exactly `[current, previous]`; a failure of the current set is reported before the previous set is considered |
| `Client.Client.GetSignatorySetSnapshot` | chain/client/src/client.rs:136-141 | reads only `"signatories"`: a query error is passed on, an absent key gives the not-found error "Signatory set snapshot was not available in the store", and a stored key gives exactly the decode of those bytes |
| `Client.Client.BalanceOf` | chain/client/src/client.rs:143-153 | a failed query under the balance key returns its error unchanged; the balance read panics exactly when a value is stored under the balance key and its length is not 8 |
| `Client.Client.GetBalance` | chain/client/src/client.rs:143-153 | the zero-filled 8-byte buffer, once copied into and folded big-endian, gives the result `BalanceOf` specifies |
| `Client.BalanceMissIsZero` | chain/client/src/client.rs:145-148 | an absent balance key reads as balance 0, not as an error |
| `Client.BalanceOfEightBytes` | chain/client/src/client.rs:150-152 | a stored 8-byte value yields a balance, and that balance re-encodes to exactly the stored bytes |
| `Client.BalanceRoundTrip` | chain/client/src/client.rs:150-152 | storing the 8-byte big-endian encoding of v under the balance key and reading the balance gives v |
| `Client.BalanceOfOtherLengthPanics` | chain/client/src/client.rs:150-151 | a stored value of any length but 8 yields no balance: `copy_from_slice` panics with that length against 8 |
| `Client.BalanceReadsOnlyItsKey` | chain/client/src/client.rs:144-145 | two stores that answer the same for `"balances/" + address` give the same balance for that address |
| `Client.BalanceKeysAreSeparate` | chain/client/src/client.rs:144 | distinct addresses have distinct balance keys, and no balance key is `"signatories"` or `"prev_signatories"` |
| `Client.SignatorySetAtReadsOnlyItsKey` | chain/client/src/client.rs:122-128 | the signatory set under a key depends on the store only through that key |
| `Client.SignatorySetsReadOnlyTheirKeys` | chain/client/src/client.rs:130-133 | both signatory sets depend on the store only through `"signatories"` and `"prev_signatories"` |
| `Client.SnapshotHoldsCurrentSet` | chain/client/src/client.rs:136-141 | against the same store state, when both sets are available the snapshot read alone succeeds and holds the first of them |
| `Client.SubmitWorkProofForwardsPayload` | chain/client/src/client.rs:102-106 | the work proof's serialized payload is what reaches the transport, and the result is the transport's reply to it (commit response unchanged, or a transport error with the RPC's message); with an injective serializer the payload determines key and nonce |

## Left out

- Tendermint RPC transport, `broadcast_tx_commit` itself, and `Client::new` / `RemoteStore::new` address parsing and their `unwrap`/`expect` panics: network I/O. The broadcast is an abstract function of the serialized bytes.
- `serde_json::to_vec` of a `Transaction`: a foreign library. It is an abstract total function, and it is assumed injective only where a lemma says so.
- Client.Client.Send: the `unwrap` on serialization is taken never to fail, because serializing the derived transaction type does not fail.
- Merkle-proof verification inside the store client: foreign cryptography. The `MerkStore` value stands for the authenticated answers, and a failed proof is one of its faulty keys.
- The header cache's trunk and tip selection: its source is not part of this model. Both are abstract functions of the store contents. The model assumes `load_trunk` and `tip` only read the store; the cache is handed the store adapter mutably, and a write by it would panic through `RemoteStore::put`, which is not modelled.
- `SignatorySetSnapshot::decode` and the layout of `SignatorySet`: their source is not part of this model. Decoding is an abstract function, and a snapshot holds just its signatory set.
- Transaction variants other than `WorkProof`: the client builds no others.
- Concurrency, blocking, and consistency between successive calls: each call is one deterministic function of the store value.
