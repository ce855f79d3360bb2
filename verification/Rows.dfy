/** File and version rows, shared by the folder copy and the blob store. */
module Rows {
  import opened Options

  // Where the bytes of a file or version live: a blob on disk, its wrapped key, the plaintext size,
  // and the SHA-256 of the plaintext ("" when not recorded; version rows never record it).
  datatype Blob = Blob(path: string, key: string, size: nat, hash: string)

  datatype File = File(name: string, owner: string, folder: Option<string>, blob: Blob, deleted: bool)

  datatype Version = Version(file: string, no: nat, blob: Blob, createdBy: string)

  type Files = map<string, File>

  type Versions = map<string, Version>
}
