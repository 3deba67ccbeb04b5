/** The local-file key store of the KMS.

    The store is a file holding an ordered sequence of key records. It is
    modelled here by that sequence itself (an empty file, `[]`, is the empty
    sequence) together with a flag saying whether the file can be read and
    written. Saving appends one record; searching by identity lists the keys
    whose path falls under a DID; searching for a private key looks up the
    record whose path equals a key identifier exactly.
 */
module Kms {

  /** The key-type tag carried by a key identifier ("ETH", "BJJ", ...). */
  type KeyType = string

  /** A key identifier: its type and the opaque key path that names it. */
  datatype KeyID = KeyID(keyType: KeyType, id: string)

  /** One record of the key store file: where the key lives (a path that
      starts with the owning DID for identity keys), its type and the private
      key material. */
  datatype KeyRecord = KeyRecord(keyPath: string, keyType: string, privateKey: string)

  /** Why an operation on the store failed. */
  datatype Error =
    | FileAccess   // the backing file could not be read or written
    | KeyNotFound  // no record has the requested key path

  datatype Result<T> = Ok(value: T) | Err(error: Error)

  datatype Outcome = Pass | Fail(error: Error)

  /** Entries of the key-material map that a save reads. */
  const JsonKeyType: string := "type"
  const JsonKeyData: string := "data"

  /** A map read as Go reads one: a missing entry yields the empty string. */
  function Lookup(m: map<string, string>, k: string): string
  {
    if k in m then m[k] else ""
  }

  /** The record that saving `keyMaterial` under `id` stores. */
  function RecordOf(keyMaterial: map<string, string>, id: string): KeyRecord
  {
    KeyRecord(id, Lookup(keyMaterial, JsonKeyType), Lookup(keyMaterial, JsonKeyData))
  }

  /** A key path belongs to a DID when the DID's string form is a prefix of it. */
  predicate UnderDid(did: string, keyPath: string)
  {
    did <= keyPath
  }

  /** The key identifier a search by identity reports for a record. */
  function KeyIdOf(rec: KeyRecord): KeyID
  {
    KeyID(rec.keyType, rec.keyPath)
  }

  /** The positions at which `flags` holds, in increasing order: every listed
      position is set and every set position is listed. */
  function TruePositions(flags: seq<bool>): (idx: seq<nat>)
    ensures |idx| <= |flags|
    ensures forall j :: 0 <= j < |idx| ==> idx[j] < |flags| && flags[idx[j]]
    ensures forall j, l :: 0 <= j < l < |idx| ==> idx[j] < idx[l]
    ensures forall i :: 0 <= i < |flags| && flags[i] ==> i in idx
  {
    if flags == [] then []
    else
      var last := |flags| - 1;
      var front := TruePositions(flags[..last]);
      assert forall i :: 0 <= i < last ==> flags[..last][i] == flags[i];
      if flags[last] then front + [last] else front
  }

  /** For each record, whether it lies under `did`. The ensures only repeat
      the body; they are there so that the verifier need not unfold it. */
  function UnderDidFlags(records: seq<KeyRecord>, did: string): (flags: seq<bool>)
    ensures |flags| == |records|
    ensures forall i :: 0 <= i < |records| ==> flags[i] == UnderDid(did, records[i].keyPath)
  {
    seq(|records|, i requires 0 <= i < |records| => UnderDid(did, records[i].keyPath))
  }

  /** The positions, in increasing order, of the records under `did`. */
  function MatchIndices(records: seq<KeyRecord>, did: string): seq<nat>
  {
    TruePositions(UnderDidFlags(records, did))
  }

  /** The key identifiers, in file order, of the records under `did`: one key
      per matching record, each the projection of the record at the
      corresponding matching position. Built as the file is scanned, each
      matching record appending its key. */
  function KeysUnderDid(records: seq<KeyRecord>, did: string): (keys: seq<KeyID>)
    ensures |keys| == |MatchIndices(records, did)| <= |records|
    ensures forall j :: 0 <= j < |keys| ==> keys[j] == KeyIdOf(records[MatchIndices(records, did)[j]])
  {
    if records == [] then []
    else
      var last := |records| - 1;
      var front := KeysUnderDid(records[..last], did);
      assert UnderDidFlags(records, did)[..last] == UnderDidFlags(records[..last], did);
      assert forall i :: 0 <= i < last ==> records[..last][i] == records[i];
      if UnderDid(did, records[last].keyPath) then front + [KeyIdOf(records[last])] else front
  }

  /** Search by identity lists exactly the projections of the records under
      the DID. */
  lemma KeysUnderDidMembers(records: seq<KeyRecord>, did: string)
    ensures forall k :: k in KeysUnderDid(records, did) ==>
              exists i :: 0 <= i < |records| && UnderDid(did, records[i].keyPath) && k == KeyIdOf(records[i])
    ensures forall i :: 0 <= i < |records| && UnderDid(did, records[i].keyPath) ==> KeyIdOf(records[i]) in KeysUnderDid(records, did)
  {
    var keys, idx := KeysUnderDid(records, did), MatchIndices(records, did);
    forall i | 0 <= i < |records| && UnderDid(did, records[i].keyPath)
      ensures KeyIdOf(records[i]) in keys
    {
      var j :| 0 <= j < |idx| && idx[j] == i;
      assert keys[j] == KeyIdOf(records[i]);
    }
  }

  /** The private key of the first record whose key path is exactly `id`. */
  function FindPrivateKey(records: seq<KeyRecord>, id: string): (r: Result<string>)
    ensures r.Err? <==> forall i :: 0 <= i < |records| ==> records[i].keyPath != id
    ensures r.Err? ==> r.error == KeyNotFound
    ensures r.Ok? ==>
              exists i :: 0 <= i < |records| && records[i].keyPath == id && records[i].privateKey == r.value
                          && forall j :: 0 <= j < i ==> records[j].keyPath != id
  {
    if records == [] then Err(KeyNotFound)
    else if records[0].keyPath == id then Ok(records[0].privateKey)
    else
      var r := FindPrivateKey(records[1..], id);
      assert forall i :: 1 <= i < |records| ==> records[i] == records[1..][i - 1];
      r
  }

  /** The key store backed by one file. */
  class LocalStorageFileManager {
    /** The records the file holds, in file order. */
    var records: seq<KeyRecord>
    /** Whether the file can be read and written. */
    var accessible: bool

    /** A manager over a file with the given contents. */
    constructor (contents: seq<KeyRecord>, accessible: bool)
      ensures records == contents && this.accessible == accessible
    {
      records := contents;
      this.accessible := accessible;
    }

    /** Stores `keyMaterial` under the key path `id`: appends one record, or
        fails without changing the file when it cannot be accessed. */
    method SaveKeyMaterialToFile(keyMaterial: map<string, string>, id: string) returns (res: Outcome)
      modifies this
      ensures accessible == old(accessible)
      ensures res == (if old(accessible) then Pass else Fail(FileAccess))
      ensures records == if res.Pass? then old(records) + [RecordOf(keyMaterial, id)] else old(records)
    {
      if !accessible {
        return Fail(FileAccess);
      }
      records := records + [RecordOf(keyMaterial, id)];
      res := Pass;
    }

    /** The identifiers of the keys owned by `did`; an empty list when it owns
        none, an error only when the file cannot be read. */
    function SearchByIdentityInFile(did: string): (r: Result<seq<KeyID>>)
      reads this
      ensures r.Err? <==> !accessible
      ensures r.Err? ==> r.error == FileAccess
      ensures r.Ok? ==> r.value == KeysUnderDid(records, did)
      ensures r.Ok? ==> forall k :: k in r.value <==>
                exists i :: 0 <= i < |records| && UnderDid(did, records[i].keyPath) && k == KeyIdOf(records[i])
    {
      if !accessible then Err(FileAccess)
      else
        KeysUnderDidMembers(records, did);
        Ok(KeysUnderDid(records, did))
    }

    /** The private key stored under exactly `keyID.id`; the key type of the
        query plays no part. */
    function SearchPrivateKeyInFile(keyID: KeyID): (r: Result<string>)
      reads this
      ensures !accessible ==> r == Err(FileAccess)
      ensures accessible ==> r == FindPrivateKey(records, keyID.id)
      ensures accessible && r.Ok? ==> exists i :: 0 <= i < |records| && records[i].keyPath == keyID.id
                                                  && records[i].privateKey == r.value
                                                  && forall j :: 0 <= j < i ==> records[j].keyPath != keyID.id
      ensures accessible ==> (r.Err? <==> forall i :: 0 <= i < |records| ==> records[i].keyPath != keyID.id)
      ensures accessible && r.Err? ==> r.error == KeyNotFound
    {
      if !accessible then Err(FileAccess) else FindPrivateKey(records, keyID.id)
    }
  }

  /** Saving extends a search by identity by exactly the saved key, when it
      is under the DID, and keeps the earlier keys in their order. */
  lemma KeysUnderDidAfterSave(records: seq<KeyRecord>, rec: KeyRecord, did: string)
    ensures KeysUnderDid(records + [rec], did)
         == KeysUnderDid(records, did) + (if UnderDid(did, rec.keyPath) then [KeyIdOf(rec)] else [])
  {
    assert (records + [rec])[..|records|] == records;
  }

  /** After a save, a private-key search finds what it found before; only
      when nothing matched before does the saved record answer. */
  lemma {:induction false} FindPrivateKeyAfterSave(records: seq<KeyRecord>, rec: KeyRecord, id: string)
    ensures FindPrivateKey(records + [rec], id)
         == if FindPrivateKey(records, id).Ok? then FindPrivateKey(records, id)
            else if rec.keyPath == id then Ok(rec.privateKey)
            else Err(KeyNotFound)
  {
    if records != [] {
      assert (records + [rec])[1..] == records[1..] + [rec];
      FindPrivateKeyAfterSave(records[1..], rec, id);
    }
  }

  /** A key saved under a fresh path is the one a private-key search for that
      path returns. */
  lemma SavedKeyIsFound(records: seq<KeyRecord>, keyMaterial: map<string, string>, id: string)
    requires forall i :: 0 <= i < |records| ==> records[i].keyPath != id
    ensures FindPrivateKey(records + [RecordOf(keyMaterial, id)], id) == Ok(Lookup(keyMaterial, JsonKeyData))
  {
    FindPrivateKeyAfterSave(records, RecordOf(keyMaterial, id), id);
  }

  /** Saving again under a path already in use does not change the key a
      private-key search for that path returns. */
  lemma ResavedPathKeepsFirstKey(records: seq<KeyRecord>, keyMaterial: map<string, string>, id: string)
    requires exists i :: 0 <= i < |records| && records[i].keyPath == id
    ensures FindPrivateKey(records + [RecordOf(keyMaterial, id)], id) == FindPrivateKey(records, id)
  {
    FindPrivateKeyAfterSave(records, RecordOf(keyMaterial, id), id);
  }

  /** A key saved under a path that starts with a DID is listed by a search
      by identity for that DID, as the last key, with the saved type. */
  lemma SavedKeyIsListed(records: seq<KeyRecord>, keyMaterial: map<string, string>, did: string, suffix: string)
    ensures var keys := KeysUnderDid(records + [RecordOf(keyMaterial, did + suffix)], did);
            |keys| > 0 && keys[|keys| - 1] == KeyID(Lookup(keyMaterial, JsonKeyType), did + suffix)
  {
    KeysUnderDidAfterSave(records, RecordOf(keyMaterial, did + suffix), did);
  }

  /** Saving a key that belongs to another DID leaves a search by identity
      unchanged. */
  lemma OtherDidSaveUnseen(records: seq<KeyRecord>, keyMaterial: map<string, string>, id: string, did: string)
    requires !UnderDid(did, id)
    ensures KeysUnderDid(records + [RecordOf(keyMaterial, id)], did) == KeysUnderDid(records, did)
  {
    KeysUnderDidAfterSave(records, RecordOf(keyMaterial, id), did);
  }

  /** A search by identity is empty exactly when no record lies under the DID. */
  lemma NoMatchIsEmpty(records: seq<KeyRecord>, did: string)
    ensures KeysUnderDid(records, did) == [] <==> forall i :: 0 <= i < |records| ==> !UnderDid(did, records[i].keyPath)
  {
    KeysUnderDidMembers(records, did);
    if KeysUnderDid(records, did) != [] {
      assert KeysUnderDid(records, did)[0] in KeysUnderDid(records, did);
    }
  }

  /** Every key a search by identity lists can be resolved to a private key,
      and to the key of a record with that very path. */
  lemma ListedKeysResolve(records: seq<KeyRecord>, did: string, k: KeyID)
    requires k in KeysUnderDid(records, did)
    ensures FindPrivateKey(records, k.id).Ok?
    ensures UnderDid(did, k.id)
  {
    KeysUnderDidMembers(records, did);
  }

  /** The key type of a private-key query does not affect the result. */
  lemma QueryTypeIgnored(store: LocalStorageFileManager, t1: KeyType, t2: KeyType, id: string)
    ensures store.SearchPrivateKeyInFile(KeyID(t1, id)) == store.SearchPrivateKeyInFile(KeyID(t2, id))
  {
  }
}
