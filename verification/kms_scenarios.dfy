/** The behaviours the key store's tests pin down, restated as assertions
    about the model with the tests' own values. Each method is a client of
    the store; its assertions follow from the contracts and definitions in
    module Kms. */
module KmsScenarios {
  import opened Kms

  /** Saving into a file holding `[]` leaves exactly the saved record in it. */
  method SaveIntoEmptyFile()
  {
    var ls := new LocalStorageFileManager([], true);
    var keyMaterial := map[JsonKeyType := "Ethereum", JsonKeyData := "0xABC123"];
    var res := ls.SaveKeyMaterialToFile(keyMaterial, "key1");
    assert res == Pass;
    assert |ls.records| == 1;
    assert ls.records[0] == KeyRecord("key1", "Ethereum", "0xABC123");
  }

  /** Saving to a file that cannot be written reports an error. */
  method SaveToUnwritableFile()
  {
    var ls := new LocalStorageFileManager([], false);
    var res := ls.SaveKeyMaterialToFile(map["type" := "Ethereum", "data" := "0xABC123"], "key1");
    assert res.Fail?;
  }

  /** Only the record under the DID is reported, with its full key path. */
  method SearchByIdentityMatches()
  {
    // The DID is written in two parts because the verifier does not look
    // inside long string literals; the short first part lets it see where
    // this DID differs from "did:example:...".
    var identity := "did:polygonid:" + "polygon:amoy:2qQ68JkRcf3ybQNvgRV9BP6qLgBrXmUezqBi4wsEuV";
    var ls := new LocalStorageFileManager(
      [KeyRecord(identity + "/key1", "ETH", "0xABC123")] + [KeyRecord("did:example:456/key2", "Bitcoin", "0xDEF456")],
      true);
    KeysUnderDidAfterSave([KeyRecord(identity + "/key1", "ETH", "0xABC123")],
                          KeyRecord("did:example:456/key2", "Bitcoin", "0xDEF456"), identity);
    // The two DIDs first differ at their fifth character.
    assert !UnderDid(identity, "did:example:456/key2") by {
      assert identity[4] == 'p';
      assert "did:example:456/key2"[4] == 'e';
    }
    assert UnderDid(identity, identity + "/key1");
    KeysUnderDidAfterSave([], KeyRecord(identity + "/key1", "ETH", "0xABC123"), identity);
    assert [] + [KeyRecord(identity + "/key1", "ETH", "0xABC123")] == [KeyRecord(identity + "/key1", "ETH", "0xABC123")];
    assert KeysUnderDid(ls.records, identity) == [KeyID("ETH", identity + "/key1")];
    var r := ls.SearchByIdentityInFile(identity);
    assert r == Ok([KeyID("ETH", identity + "/key1")]);
  }

  /** A search by identity on an unreadable file reports an error. */
  method SearchByIdentityUnreadable()
  {
    var identity := "did:polygonid:polygon:amoy:2qQ68JkRcf3ybQNvgRV9BP6qLgBrXmUezqBi4wsEuV";
    var ls := new LocalStorageFileManager([], false);
    var r := ls.SearchByIdentityInFile(identity);
    assert r.Err?;
  }

  /** A search by identity that matches nothing succeeds with no keys. */
  method SearchByIdentityNoMatch()
  {
    // The DID is written in two parts because the verifier does not look
    // inside long string literals; the short first part lets it see where
    // this DID differs from "did:example:...".
    var identity := "did:polygonid:" + "polygon:amoy:2qQ68JkRcf3ybQNvgRV9BP6qLgBrXmUezqBi4wsEuV";
    var ls := new LocalStorageFileManager([KeyRecord("did:example:456/key1", "ETH", "0xABC123")], true);
    // The two DIDs first differ at their fifth character.
    assert !UnderDid(identity, "did:example:456/key1") by {
      assert identity[4] == 'p';
      assert "did:example:456/key1"[4] == 'e';
    }
    NoMatchIsEmpty(ls.records, identity);
    var r := ls.SearchByIdentityInFile(identity);
    assert r == Ok([]);
  }

  /** A query that leaves the key type unset finds the key by its path. */
  method SearchPrivateKeyMatches()
  {
    var ls := new LocalStorageFileManager([KeyRecord("key1", "ETH", "0xABC123")], true);
    var r := ls.SearchPrivateKeyInFile(KeyID("", "key1"));
    assert r == Ok("0xABC123");
  }

  /** A query for a path no record has fails, with no fallback. */
  method SearchPrivateKeyNotFound()
  {
    var ls := new LocalStorageFileManager([KeyRecord("key1", "Ethereum", "0xABC123")], true);
    var r := ls.SearchPrivateKeyInFile(KeyID("", "key2"));
    assert r == Err(KeyNotFound);
  }
}
