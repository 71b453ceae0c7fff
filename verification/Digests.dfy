/** Digests and compression as functions about which only their shape is known. */
module Digests {
  import opened Text

  datatype FileHashes = FileHashes(size: int, md5: string, sha1: string, sha256: string)

  /** What Go returns for a missing map entry. */
  const NO_HASHES := FileHashes(0, "", "", "")

  /** The hash functions, printed in hexadecimal, and gzip. */
  datatype Hasher = Hasher(
    md5: string -> string, sha1: string -> string, sha256: string -> string, gzip: string -> string)

  /** `hashManifest`. */
  function HashesOf(h: Hasher, data: string): FileHashes {
    FileHashes(|data|, h.md5(data), h.sha1(data), h.sha256(data))
  }

  predicate Hex(s: string) {
    forall i :: 0 <= i < |s| ==> IsDigit(s[i]) || 'a' <= s[i] <= 'f'
  }

  /** Digests have the lengths by which a Release file tells them apart. */
  predicate WellSized(f: FileHashes) {
    |f.md5| == 32 && |f.sha1| == 40 && |f.sha256| == 64 && Hex(f.md5) && Hex(f.sha1) && Hex(f.sha256)
  }

  ghost predicate Proper(h: Hasher) {
    forall data :: WellSized(HashesOf(h, data))
  }
}
