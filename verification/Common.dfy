/** Vocabulary shared by the whole model: bytes, outcomes of fallible calls,
    and the two cryptographic idealisations' first half, SHA-256. */
module Common {

  /** How much of a file travels in one block. */
  const READ_CHUNK_SIZE: nat := 64 * 1024

  newtype byte = b: int | 0 <= b < 256

  datatype Option<+T> = None | Some(value: T)

  /** How a call ends: with a value, with an error the caller can handle, or
      with a panic that unwinds the handler. */
  datatype Outcome<+T> = Ok(value: T) | Err | Panic

  /** The text of a digest field. `Sha256Of(x)` stands for the hexadecimal SHA-256
      of `x`; being a constructor it is injective, which is the collision freedom
      the model assumes. A peer may also put any other text in the field. */
  datatype Digest = Sha256Of(content: seq<byte>) | OtherText(text: string)

  function Min(a: int, b: int): (r: int)
    ensures r <= a && r <= b && (r == a || r == b)
  {
    if a < b then a else b
  }

  function Max(a: int, b: int): (r: int)
    ensures r >= a && r >= b && (r == a || r == b)
  {
    if a < b then b else a
  }

  /** Reading past a first part of a stream leaves the rest of it. */
  lemma PrefixSplits(first: seq<byte>, rest: seq<byte>, data: seq<byte>, pos: nat)
    requires pos <= |data| && first + rest <= data[pos..]
    ensures first <= data[pos..] && pos + |first| <= |data|
    ensures rest <= data[pos + |first|..]
  {
    assert forall i :: 0 <= i < |first| ==> first[i] == (first + rest)[i] == data[pos..][i];
    forall i | 0 <= i < |rest| ensures rest[i] == data[pos + |first|..][i] {
      assert rest[i] == (first + rest)[|first| + i] == data[pos..][|first| + i];
    }
  }

  /** A finite set of numbers always leaves a number free. */
  lemma {:induction false} SomeNumberIsFree(used: set<nat>) returns (n: nat)
    ensures forall m :: m in used ==> m < n
    ensures n !in used
  {
    if used == {} {
      n := 0;
    } else {
      var m :| m in used;
      var k := SomeNumberIsFree(used - {m});
      n := Max(k, m + 1);
      forall x | x in used ensures x < n {
        if x != m { assert x in used - {m}; }
      }
    }
  }
}
