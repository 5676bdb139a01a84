// SHA-256 as an abstract incremental hash, and the streaming digest of a file.
module Digest {
  import opened Prelude

  // The hash is uninterpreted; all that is known is that it is incremental.
  datatype Sha<!S(!new)> = Sha(init: S, update: (S, seq<byte>) -> S, hex: S -> string) {
    ghost predicate Lawful() {
      && (forall s, a, b :: update(update(s, a), b) == update(s, a + b))
      && (forall s :: update(s, []) == s)
    }
  }

  // Such hashes exist: one that keeps everything it was given is incremental.
  lemma {:induction false} SomeShaIsLawful(hex: seq<byte> -> string) returns (sha: Sha<seq<byte>>)
    ensures sha.Lawful() && forall bytes :: OneShot(sha, bytes) == hex(bytes)
  {
    sha := Sha([], (s, bytes) => s + bytes, hex);
    forall s: seq<byte>, a: seq<byte>, b: seq<byte>
      ensures sha.update(sha.update(s, a), b) == sha.update(s, a + b)
    {
      assert (s + a) + b == s + (a + b);
    }
    forall bytes: seq<byte>
      ensures sha.update(bytes, []) == bytes && sha.update([], bytes) == bytes
    {
      assert bytes + [] == bytes == [] + bytes;
    }
  }

  // The one-shot digest, `compute_digest`.
  function OneShot<S(!new)>(sha: Sha<S>, bytes: seq<byte>): string {
    sha.hex(sha.update(sha.init, bytes))
  }

  // An open file. A read may return fewer bytes than asked for, or fail.
  class Reader {
    const content: seq<byte>
    const sound: bool  // no read fails
    var pos: nat
    var failed: bool   // whether a read has failed

    constructor (content: seq<byte>, sound: bool)
      ensures this.content == content && this.sound == sound && pos == 0 && !failed
    {
      this.content := content;
      this.sound := sound;
      pos := 0;
      failed := false;
    }

    method Read(buf: array<byte>) returns (r: Result<nat, string>)
      requires pos <= |content|
      modifies this`pos, this`failed, buf
      ensures old(pos) <= pos <= |content|
      ensures r.Err? ==> pos == old(pos) && failed && !sound
      ensures r.Ok? ==> failed == old(failed)
      ensures r.Ok? ==> pos == old(pos) + r.value && r.value <= buf.Length
      ensures r.Ok? && r.value == 0 ==> pos == |content| || buf.Length == 0
      ensures r.Ok? ==> buf[..r.value] == content[old(pos)..pos]
    {
      var fails := *;
      if fails && !sound {
        failed := true;
        return Err("read failed");
      }
      var available := if |content| - pos < buf.Length then |content| - pos else buf.Length;
      if available == 0 {
        return Ok(0);
      }
      var n: nat :| 1 <= n <= available;
      forall i | 0 <= i < n {
        buf[i] := content[pos + i];
      }
      pos := pos + n;
      return Ok(n);
    }
  }

  // Reading through one reused 8192-byte buffer, however the reads fall,
  // computes the digest of the whole content, or fails when a read fails.
  method ComputeSha256<S(!new)>(sha: Sha<S>, file: Reader) returns (r: Result<string, string>)
    requires sha.Lawful() && file.pos == 0 && !file.failed
    modifies file
    ensures r.Err? <==> file.failed
    ensures file.sound ==> r.Ok?
    ensures r.Ok? ==> r.value == OneShot(sha, file.content)
  {
    var hasher := sha.init;
    var buf := new byte[8192];
    assert file.content[..0] == [];
    while true
      invariant file.pos <= |file.content| && !file.failed
      invariant hasher == sha.update(sha.init, file.content[..file.pos])
      decreases |file.content| - file.pos
    {
      ghost var before := file.pos;
      var read := file.Read(buf);
      if read.Err? {
        return Err(read.error);
      }
      if read.value == 0 {
        break;
      }
      hasher := sha.update(hasher, buf[..read.value]);
      assert file.content[..file.pos] == file.content[..before] + file.content[before..file.pos];
    }
    assert file.content[..file.pos] == file.content;
    return Ok(sha.hex(hasher));
  }
}
