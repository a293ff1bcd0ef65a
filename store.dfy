/** The read-only view of the node's authenticated key/value store. */
module Store {
  import opened Octets
  import opened Outcomes

  /** What an authenticated query against the node's store answers, key by
      key: `entries` holds the replicated state, and `faults` the keys whose
      query fails (the RPC call fails or the Merkle proof does not verify),
      with the error the query reports. A fault wins over an entry. */
  datatype MerkStore = MerkStore(entries: map<Bytes, Bytes>, faults: map<Bytes, Error>) {

    /** `MerkStoreClient::get`: one authenticated lookup. */
    function Lookup(key: Bytes): (r: Result<Option<Bytes>>)
      ensures r.Err? <==> key in faults
      ensures r.Err? ==> r.error == faults[key]
      ensures r == Ok(None) <==> key !in faults && key !in entries
      ensures r.Ok? && r.value.Some? ==> key in entries && r.value.value == entries[key]
    {
      if key in faults then Err(faults[key])
      else if key in entries then Ok(Some(entries[key]))
      else Ok(None)
    }
  }

  /** `RemoteStore`: wraps the store client. It has no mutable state, and its
      write operations panic, so nothing done through it changes the store. */
  class RemoteStore {
    const backend: MerkStore

    constructor (backend: MerkStore)
      ensures this.backend == backend
    {
      this.backend := backend;
    }

    /** `Read::get`: the backend's answer, passed through unchanged. */
    function Get(key: Bytes): (r: Result<Option<Bytes>>)
      ensures r == backend.Lookup(key)
      ensures r.Ok? && r.value.Some? <==> key !in backend.faults && key in backend.entries
    {
      backend.Lookup(key)
    }

    /** `Write::put`: always panics; the store is never written. */
    method Put(key: Bytes, value: Bytes) returns (r: Run<()>)
      ensures r == Panicked(WriteOnRemoteStore)
    {
      r := Panicked(WriteOnRemoteStore);
    }

    /** `Write::delete`: always panics; the store is never written. */
    method Delete(key: Bytes) returns (r: Run<()>)
      ensures r == Panicked(DeleteOnRemoteStore)
    {
      r := Panicked(DeleteOnRemoteStore);
    }
  }
}
