# Local-file key store of the issuer node's KMS

This project models the local-file key store of the issuer node's key
management service (package `kms`). The store keeps its keys in one file.
The file holds an ordered list of key records `{KeyPath, KeyType, PrivateKey}`
(`localStorageBJJKeyProviderFileContent`). Three operations work on it:

- `saveKeyMaterialToFile` turns a key-material map and an id into a record and
  appends it to the file.
- `searchByIdentityInFile` lists a `KeyID{Type, ID}` for every record whose key
  path falls under a DID. A DID that owns nothing gets an empty list, not an
  error.
- `searchPrivateKeyInFile` returns the private key of the record whose key
  path equals the requested `KeyID.ID` exactly. The query's `Type` plays no
  part. When no record matches, it returns an error.

The tests show an error when the file cannot be written for the save
(`internal/kms/local_storage_utils_test.go:41-48`) and when it cannot be read
for the search by identity (`internal/kms/local_storage_utils_test.go:80-86`).

The implementation file of the store is not part of this model. Its behaviour
is taken from its tests in `internal/kms/local_storage_utils_test.go`, and the
model claims nothing those tests leave open beyond the choices listed under
"Modelling choices".

Layout:

- `kms_local_storage.dfy`, module `Kms`:
  - the record and key-identifier datatypes;
  - the two specification functions `KeysUnderDid` (filter and project) and
    `FindPrivateKey` (first exact match);
  - `TruePositions`, the increasing list of matching positions, which pins
    down the number and the order of the keys a search by identity returns;
  - the class `LocalStorageFileManager`, whose `records` field is the file's
    contents and whose `accessible` flag stands for whether the file can be
    read and written;
  - lemmas that relate saving to both searches.
- `kms_scenarios.dfy`, module `KmsScenarios`: one client method per test.
  Each builds a store with the test's own values and asserts the test's
  expectations. The assertions follow from the contracts and definitions of
  `Kms`.

## Modelling choices

- A key path is under a DID when the DID's string form is a prefix of the path
  (`UnderDid`). The tests are also consistent with a substring match. The
  predicate is kept in one place, and nothing is claimed beyond the prefix
  reading.
- Saving appends the new record after the existing ones. The tests only show
  a save into an empty file (`[]`), which yields exactly the one record.
- The type and private key are read from the key-material map under the
  entries named by the constants `jsonKeyType` and `jsonKeyData`. Their
  values are not part of this model; the model assumes `"type"` and `"data"`
  (`JsonKeyType`, `JsonKeyData`), the literals the failing-write test at
  `internal/kms/local_storage_utils_test.go:44` happens to use. No proof
  depends on these values beyond their being distinct. A missing entry reads as the empty string, as a
  Go map read does.
- When several records share a key path, the private-key search returns the
  first one in file order. The tests hold a single record.
- A search by identity lists one key per matching record, in file order, so
  two records with the same path give two keys. The tests show at most one
  match.
- A private-key search on a file that cannot be read fails with a file-access
  error, and a failed save leaves the file as it was. The tests show neither.
- A single `accessible` flag covers both a file that cannot be read and one
  that cannot be written. The DID is used in its string form.

## Model

| member | source | states |
|---|---|---|
| `Kms.TruePositions` | internal/kms/local_storage_utils_test.go:57-76 | The positions at which a flag list holds, each listed once, in increasing order, and no other positions. It is never longer than the flag list. |
| `Kms.KeysUnderDid` | internal/kms/local_storage_utils_test.go:57-76 | There is exactly one key per record under the DID, in file order. The j-th key is `{Type: KeyType, ID: KeyPath}` of the j-th record under the DID. So the :58-61 file yields exactly one key. |
| `Kms.KeysUnderDidMembers` | internal/kms/local_storage_utils_test.go:57-76 | Every listed KeyID is the projection of some record under the DID, and every record under the DID has its KeyID listed. |
| `Kms.FindPrivateKey` | internal/kms/local_storage_utils_test.go:122-159 | The result is an error exactly when no record's key path equals the id, and that error is `KeyNotFound`. Otherwise it is the private key of the first record whose key path is exactly the id. There is no fallback to another record. |
| `Kms.LocalStorageFileManager.constructor` | internal/kms/local_storage_utils_test.go:20 | A manager opened on a file sees that file's records and accessibility. |
| `Kms.LocalStorageFileManager.SaveKeyMaterialToFile` | internal/kms/local_storage_utils_test.go:20-48 | On an accessible file it succeeds and appends one record: `KeyPath` is the id, `KeyType` is the map's type entry, `PrivateKey` is its data entry. On an inaccessible file it returns a file-access error and leaves the records unchanged. |
| `Kms.LocalStorageFileManager.SearchByIdentityInFile` | internal/kms/local_storage_utils_test.go:51-112 | It fails exactly when the file cannot be read. Otherwise the result is exactly `KeysUnderDid` of the file's records: one KeyID per record under the DID, in file order, and a KeyID is in it if and only if it is the projection of such a record. |
| `Kms.LocalStorageFileManager.SearchPrivateKeyInFile` | internal/kms/local_storage_utils_test.go:116-159 | On an unreadable file it returns a file-access error. Otherwise it fails with `KeyNotFound` exactly when no key path equals `KeyID.ID`. A success is the private key of the first record with that exact path; the result equals `FindPrivateKey` of the file's records. |
| `Kms.KeysUnderDidAfterSave` | internal/kms/local_storage_utils_test.go:25-76 | After a save, search by identity gives the earlier keys in the same order. The saved key is added at the end exactly when its path is under the DID. |
| `Kms.FindPrivateKeyAfterSave` | internal/kms/local_storage_utils_test.go:25-159 | After a save, search private key gives the same result as before when something matched before. Otherwise it gives the saved record's key when its path is the id, and `KeyNotFound` when it is not. |
| `Kms.SavedKeyIsFound` | internal/kms/local_storage_utils_test.go:20-136 | A key saved under an id that no record has yet is what a private-key search for that id returns. |
| `Kms.ResavedPathKeepsFirstKey` | internal/kms/local_storage_utils_test.go:122-136 | Saving again under an id already present does not change what a private-key search for that id returns. This follows from the first-match choice under "Modelling choices"; the cited test holds a single record. |
| `Kms.SavedKeyIsListed` | internal/kms/local_storage_utils_test.go:57-76 | A key saved under the DID followed by a suffix (such as `/key1`) is the last key a search by identity for that DID lists. Its full path is the ID and the saved type is the Type. |
| `Kms.OtherDidSaveUnseen` | internal/kms/local_storage_utils_test.go:57-75 | Saving a key whose path is not under the DID leaves that DID's search result unchanged. |
| `Kms.NoMatchIsEmpty` | internal/kms/local_storage_utils_test.go:89-112 | Search by identity returns the empty list if and only if no record lies under the DID. |
| `Kms.ListedKeysResolve` | internal/kms/local_storage_utils_test.go:73-76 | Every KeyID listed for a DID resolves with a private-key search, and its ID lies under that DID. |
| `Kms.QueryTypeIgnored` | internal/kms/local_storage_utils_test.go:134 | A private-key search does not depend on the query's key type, only on its ID. |

## Left out

- The store's implementation file is not part of this model. Behaviour the tests do not show follows the choices listed above.
- Real file I/O and JSON encoding: the file is modelled as its decoded record list. The `accessible` flag stands for open, read and write failures, and the different OS errors are not told apart.
- A file that exists but holds malformed JSON is not modelled. Its decode error is not distinguished from other access failures.
- Parsing a DID (`w3c.ParseDID`) comes from an external library. The model takes the DID's string form as given.
- The `context.Context` parameters and any locking around file access are left out, because the model is sequential.
- `cmd/platform/main.go` is not part of this model. It covers configuration, database, vault and blockchain client set-up, the key-provider registry, the HTTP server and signal handling, and is all start-up wiring and I/O.
