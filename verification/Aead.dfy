/** AES-256-GCM as the node uses it: a 12-byte nonce, a body as long as the
    plaintext, a 16-byte tag (sections 7.1 and 7.2 of NIST SP 800-38D).

    The ideal: a string opens under the session key exactly when it is what was
    sealed under that key for the nonce it starts with. Nonces are drawn at random;
    the model takes them as parameters that have not been used before. */
module Aead {
  import opened Common

  const NONCE_LEN: nat := 12
  const TAG_LEN: nat := 16
  const OVERHEAD: nat := NONCE_LEN + TAG_LEN

  type Nonce = seq<byte>

  /** The encryption function of one key: nonce and plaintext to body and tag. */
  datatype Cipher = Cipher(enc: (Nonce, seq<byte>) -> seq<byte>) {
    ghost predicate Valid() {
      forall n: Nonce, p: seq<byte> :: |enc(n, p)| == |p| + TAG_LEN
    }

    /** The string that travels: nonce, body, tag. */
    function Sealed(n: Nonce, p: seq<byte>): seq<byte> {
      n + enc(n, p)
    }
  }

  /** Everything sealed so far under one session key, by nonce. */
  type Log = map<Nonce, seq<byte>>

  function Open(c: Cipher, log: Log, w: seq<byte>): Option<seq<byte>> {
    if |w| < OVERHEAD then None
    else if w[..NONCE_LEN] in log && w[NONCE_LEN..] == c.enc(w[..NONCE_LEN], log[w[..NONCE_LEN]])
    then Some(log[w[..NONCE_LEN]])
    else None
  }

  ghost predicate FreshNonce(log: Log, n: Nonce) {
    |n| == NONCE_LEN && n !in log
  }

  /** What was sealed opens, and nothing else that starts with its nonce does. */
  lemma OpensExactly(c: Cipher, log: Log, n: Nonce, p: seq<byte>, w: seq<byte>)
    requires c.Valid() && |n| == NONCE_LEN && n in log && log[n] == p
    requires |w| >= OVERHEAD && w[..NONCE_LEN] == n
    ensures Open(c, log, w) == if w == c.Sealed(n, p) then Some(p) else None
    ensures |c.Sealed(n, p)| == |p| + OVERHEAD
  {
    assert w == w[..NONCE_LEN] + w[NONCE_LEN..];
    if w == c.Sealed(n, p) {
      assert w[NONCE_LEN..] == c.enc(n, p);
    }
  }

  lemma OpenedLength(c: Cipher, log: Log, w: seq<byte>)
    requires c.Valid()
    ensures Open(c, log, w).Some? ==> |Open(c, log, w).value| + OVERHEAD == |w|
  {}

  /** One session key, shared by both ends, together with all that was sealed under it. */
  class Session {
    const cipher: Cipher
    var log: Log

    ghost predicate Valid() {
      cipher.Valid()
    }

    constructor (cipher: Cipher)
      requires cipher.Valid()
      ensures Valid() && this.cipher == cipher && log == map[]
    {
      this.cipher := cipher;
      this.log := map[];
    }
  }

  /** Encrypts `input` into output[lo..hi]. The tag is copied over the whole rest of
      the region, so a region longer than needed panics. */
  method EncryptInto(input: seq<byte>, output: array<byte>, lo: nat, hi: nat, s: Session, nonce: Nonce)
    returns (r: Outcome<nat>)
    requires lo <= hi <= output.Length
    requires s.Valid() && FreshNonce(s.log, nonce)
    modifies output, s`log
    ensures hi - lo < |input| + OVERHEAD ==>
              r == Err && output[..] == old(output[..]) && s.log == old(s.log)
    ensures hi - lo > |input| + OVERHEAD ==> r == Panic && s.log == old(s.log)[nonce := input]
    ensures hi - lo == |input| + OVERHEAD ==>
              && r == Ok(|input| + OVERHEAD)
              && s.log == old(s.log)[nonce := input]
              && output[lo..hi] == s.cipher.Sealed(nonce, input)
    ensures output[..lo] == old(output[..lo]) && output[hi..] == old(output[hi..])
  {
    if hi - lo < NONCE_LEN + |input| + TAG_LEN {
      return Err;
    }
    var data := lo + NONCE_LEN;
    var tag := data + |input|;
    var sealed := s.cipher.enc(nonce, input);
    forall i | 0 <= i < NONCE_LEN { output[lo + i] := nonce[i]; }
    forall i | 0 <= i < |input| { output[data + i] := sealed[i]; }
    s.log := s.log[nonce := input];
    if hi - tag != TAG_LEN {
      return Panic;
    }
    forall i | 0 <= i < TAG_LEN { output[tag + i] := sealed[|input| + i]; }
    assert output[lo..hi] == nonce + sealed;
    return Ok(NONCE_LEN + |input| + TAG_LEN);
  }

  /** Decrypts `input` into output[lo..hi]. A rejected tag leaves the ciphertext body
      in the buffer, never a plaintext. */
  method DecryptInto(input: seq<byte>, output: array<byte>, lo: nat, hi: nat, s: Session)
    returns (r: Outcome<nat>)
    requires lo <= hi <= output.Length
    requires s.Valid()
    modifies output
    ensures |input| < OVERHEAD || hi - lo < |input| - OVERHEAD ==>
              r == Err && output[..] == old(output[..])
    ensures |input| >= OVERHEAD && hi - lo >= |input| - OVERHEAD ==>
              var n := |input| - OVERHEAD;
              && output[..lo] == old(output[..lo]) && output[lo + n..] == old(output[lo + n..])
              && match Open(s.cipher, s.log, input)
                 case Some(p) => r == Ok(n) && output[lo..lo + n] == p
                 case None => r == Err && output[lo..lo + n] == input[NONCE_LEN..NONCE_LEN + n]
  {
    if |input| < NONCE_LEN + TAG_LEN {
      return Err;
    }
    var n := |input| - NONCE_LEN - TAG_LEN;
    if hi - lo < n {
      return Err;
    }
    forall i | 0 <= i < n { output[lo + i] := input[NONCE_LEN + i]; }
    match Open(s.cipher, s.log, input)
    case None =>
      return Err;
    case Some(plain) =>
      OpenedLength(s.cipher, s.log, input);
      forall i | 0 <= i < n { output[lo + i] := plain[i]; }
      return Ok(n);
  }
}
