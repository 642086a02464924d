/** Files as byte sequences, and a reader whose reads may be short. */
module Files {
  import opened Common

  /** How much a read gives that could give `most` bytes and is cut short at `limit`:
      at least one byte, unless the file is at its end. */
  function ReadLength(most: nat, limit: nat): nat {
    if most == 0 then 0 else Max(1, Min(most, limit))
  }

  class FileSource {
    const data: seq<byte>
    /** Where the operating system cuts each read short. */
    const limits: nat -> nat
    var pos: nat
    var calls: nat

    ghost predicate Valid()
      reads this
    {
      pos <= |data|
    }

    constructor (data: seq<byte>, limits: nat -> nat)
      ensures Valid() && this.data == data && this.limits == limits && pos == 0 && calls == 0
    {
      this.data := data;
      this.limits := limits;
      this.pos := 0;
      this.calls := 0;
    }

    method Seek(offset: nat)
      modifies this
      ensures Valid() && pos == Min(offset, |data|)
    {
      pos := if offset < |data| then offset else |data|;
    }

    /** Reads some bytes into buf[lo..]; zero bytes only at the end of the file. */
    method Read(buf: array<byte>, lo: nat) returns (n: nat)
      requires Valid() && lo < buf.Length
      modifies this, buf
      ensures Valid() && pos == old(pos) + n && n <= buf.Length - lo
      ensures n == 0 <==> old(pos) == |data|
      ensures n == ReadLength(Min(buf.Length - lo, |data| - old(pos)), limits(old(calls))) && calls == old(calls) + 1
      ensures buf[lo..lo + n] == data[old(pos)..old(pos) + n]
      ensures buf[..lo] == old(buf[..lo]) && buf[lo + n..] == old(buf[lo + n..])
    {
      n := ReadLength(Min(buf.Length - lo, |data| - pos), limits(calls));
      forall i | 0 <= i < n { buf[lo + i] := data[pos + i]; }
      pos := pos + n;
      calls := calls + 1;
    }

    /** Reads on until `limit` bytes or the end of the file, however short the reads. */
    method TakeToEnd(limit: nat) returns (bytes: seq<byte>)
      requires Valid()
      modifies this
      ensures Valid() && pos == old(pos) + |bytes| && |bytes| == Min(limit, |data| - old(pos))
      ensures bytes == data[old(pos)..pos]
    {
      bytes := [];
      ghost var start := pos;
      while |bytes| < limit
        invariant Valid() && start <= pos && bytes == data[start..pos] && |bytes| <= limit
        decreases limit - |bytes|
      {
        var cap := new byte[limit - |bytes|](_ => 0);
        ghost var before := pos;
        var n := Read(cap, 0);
        if n == 0 {
          return;
        }
        assert cap[0..0 + n] == cap[..n];
        assert data[start..pos] == data[start..before] + data[before..pos];
        bytes := bytes + cap[..n];
      }
    }
  }
}
