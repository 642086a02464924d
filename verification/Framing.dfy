/** Length-prefixed encrypted frames, read and written through the connection's
    memory pool. */
module Framing {
  import opened Common
  import opened Aead

  const MAX_FRAME_LENGTH: nat := 1024 * 1024 * 16
  const U32_SPAN: nat := 0x1_0000_0000

  /** The largest payload whose frame the reader takes. */
  const MAX_PAYLOAD: nat := MAX_FRAME_LENGTH - OVERHEAD

  function BigEndian(n: nat): (r: seq<byte>)
    requires n < U32_SPAN
    ensures |r| == 4
  {
    [(n / 0x100_0000) as byte, (n / 0x1_0000 % 0x100) as byte, (n / 0x100 % 0x100) as byte, (n % 0x100) as byte]
  }

  function FromBigEndian(b: seq<byte>): (n: nat)
    requires |b| == 4
    ensures n < U32_SPAN
  {
    b[0] as nat * 0x100_0000 + b[1] as nat * 0x1_0000 + b[2] as nat * 0x100 + b[3] as nat
  }

  lemma BigEndianRoundTrip(n: nat)
    requires n < U32_SPAN
    ensures FromBigEndian(BigEndian(n)) == n
  {
    var a, b, c := n / 0x100, n / 0x1_0000, n / 0x100_0000;
    assert n == 0x100 * a + n % 0x100;
    assert a / 0x100 == b && a == 0x100 * b + a % 0x100;
    assert b / 0x100 == c && b == 0x100 * c + b % 0x100;
  }

  /** The most significant byte comes first: a digit more, to base 256, shifts the bytes. */
  lemma MostSignificantFirst(m: nat, digit: byte)
    requires m < 0x100_0000
    ensures BigEndian(m * 0x100 + digit as nat) == BigEndian(m)[1..] + [digit]
  {
    var n := m * 0x100 + digit as nat;
    assert n / 0x100 == m && n % 0x100 == digit as nat;
    assert n / 0x1_0000 == m / 0x100 && n / 0x100_0000 == m / 0x1_0000;
    assert m / 0x1_0000 < 0x100;
  }

  /** The reading end of a connection: all the peer sends before it closes, and how
      far it has been read. */
  class Reader {
    const data: seq<byte>
    var pos: nat

    ghost predicate Valid()
      reads this
    {
      pos <= |data|
    }

    constructor (data: seq<byte>)
      ensures Valid() && this.data == data && pos == 0
    {
      this.data := data;
      this.pos := 0;
    }

    /** Reads exactly n bytes, or consumes the rest and reports end of file. */
    method ReadExact(n: nat) returns (r: Option<seq<byte>>)
      requires Valid()
      modifies this
      ensures Valid()
      ensures if n <= |data| - old(pos)
              then r == Some(data[old(pos)..old(pos) + n]) && pos == old(pos) + n
              else r == None && pos == |data|
    {
      if n <= |data| - pos {
        r := Some(data[pos..pos + n]);
        pos := pos + n;
      } else {
        r := None;
        pos := |data|;
      }
    }
  }

  /** The writing end: everything written so far. */
  class Writer {
    var out: seq<byte>

    constructor ()
      ensures out == []
    {
      out := [];
    }

    method WriteAll(bytes: seq<byte>)
      modifies this
      ensures out == old(out) + bytes
    {
      out := out + bytes;
    }
  }

  class Pool {
    var buf: array<byte>

    constructor (n: nat)
      ensures buf.Length == n && fresh(buf)
    {
      buf := new byte[n](_ => 0);
    }

    /** Grows the pool to n bytes when it is shorter, keeping what it holds. */
    method Ensure(n: nat)
      modifies this
      ensures buf.Length == Max(old(buf.Length), n)
      ensures buf == old(buf) || fresh(buf)
      ensures buf[..old(buf.Length)] == old(buf[..])
    {
      if buf.Length < n {
        var bigger := new byte[n](_ => 0);
        forall i | 0 <= i < buf.Length { bigger[i] := buf[i]; }
        assert bigger[..buf.Length] == buf[..];
        buf := bigger;
      }
    }
  }

  // ---- What one read means ---------------------------------------------------

  /** A frame length the reader goes on with. */
  predicate AcceptableLength(n: nat) {
    OVERHEAD <= n <= MAX_FRAME_LENGTH
  }

  function LengthAt(data: seq<byte>, pos: nat): Option<nat>
    requires pos <= |data|
  {
    if |data| - pos < 4 then None else Some(FromBigEndian(data[pos..pos + 4]))
  }

  datatype Frame = Frame(payload: seq<byte>, next: nat)

  function FrameAt(c: Cipher, log: Log, data: seq<byte>, pos: nat): Option<Frame>
    requires pos <= |data|
  {
    match LengthAt(data, pos)
    case None => None
    case Some(n) =>
      if !AcceptableLength(n) || |data| - pos - 4 < n then None
      else match Open(c, log, data[pos + 4..pos + 4 + n])
           case None => None
           case Some(p) => Some(Frame(p, pos + 4 + n))
  }

  /** What the pool must hold for the read at pos: ciphertext and, after it, plaintext. */
  function PoolNeed(data: seq<byte>, pos: nat): (need: nat)
    requires pos <= |data|
    ensures need <= 2 * MAX_FRAME_LENGTH - OVERHEAD
  {
    match LengthAt(data, pos)
    case None => 0
    case Some(n) => if AcceptableLength(n) then n + (n - OVERHEAD) else 0
  }

  /** That is no more than the two of them: for a frame that is read, its bytes after the
      length prefix, and its payload. */
  lemma PoolHoldsJustBoth(c: Cipher, log: Log, data: seq<byte>, pos: nat)
    requires c.Valid() && pos <= |data| && FrameAt(c, log, data, pos).Some?
    ensures var f := FrameAt(c, log, data, pos).value;
            PoolNeed(data, pos) == (f.next - pos - 4) + |f.payload|
  {
    var n := LengthAt(data, pos).value;
    OpenedLength(c, log, data[pos + 4..pos + 4 + n]);
  }

  method ReadFrameLength(r: Reader) returns (len: Outcome<nat>)
    requires r.Valid()
    modifies r
    ensures r.Valid() && len != Panic && r.pos >= old(r.pos)
    ensures len.Ok? <==> exists n :: LengthAt(r.data, old(r.pos)) == Some(n) && 0 < n <= MAX_FRAME_LENGTH
    ensures len.Ok? ==> LengthAt(r.data, old(r.pos)) == Some(len.value) && r.pos == old(r.pos) + 4
  {
    var prefix := r.ReadExact(4);
    match prefix
    case None => return Err;
    case Some(b) =>
      var n := FromBigEndian(b);
      if n == 0 || n > MAX_FRAME_LENGTH {
        return Err;
      }
      return Ok(n);
  }

  /** Reads one frame through the pool. On success the plaintext is in
      pool.buf[region.0..region.1], behind the ciphertext and clear of it. */
  method ReadEncryptDataInto(r: Reader, s: Session, pool: Pool) returns (region: Outcome<(nat, nat)>)
    requires r.Valid() && s.Valid()
    modifies r, pool, pool.buf
    ensures r.Valid() && region != Panic && r.pos >= old(r.pos)
    ensures pool.buf == old(pool.buf) || fresh(pool.buf)
    ensures pool.buf.Length == Max(old(pool.buf.Length), PoolNeed(r.data, old(r.pos)))
    ensures match FrameAt(s.cipher, s.log, r.data, old(r.pos))
            case None => region == Err
            case Some(f) =>
              && r.pos == f.next
              && region.Ok?
              && var (lo, hi) := region.value;
              && old(r.pos) + 4 + lo == f.next
              && lo <= hi <= pool.buf.Length
              && pool.buf[..lo] == r.data[old(r.pos) + 4..f.next]
              && pool.buf[lo..hi] == f.payload
  {
    var len := ReadFrameLength(r);
    if !len.Ok? {
      return Err;
    }
    var n := len.value;
    if n < NONCE_LEN + TAG_LEN {
      return Err;
    }
    var plain := n - NONCE_LEN - TAG_LEN;
    pool.Ensure(n + plain);
    var body := r.ReadExact(n);
    if body.None? {
      return Err;
    }
    forall i | 0 <= i < n { pool.buf[i] := body.value[i]; }
    assert pool.buf[..n] == body.value;
    var outcome := DecryptInto(pool.buf[..n], pool.buf, n, n + plain, s);
    if !outcome.Ok? {
      return Err;
    }
    return Ok((n, n + plain));
  }

  /** Writes one frame. The length prefix is the low 32 bits of the frame length. */
  method WriteEncryptFrameInto(w: Writer, payload: seq<byte>, s: Session, nonce: Nonce, pool: Pool)
    returns (r: Outcome<()>)
    requires s.Valid() && FreshNonce(s.log, nonce)
    modifies w, pool, pool.buf, s`log
    ensures r != Panic
    ensures r == Err <==> |payload| >= U32_SPAN
    ensures r == Err ==> w.out == old(w.out) && s.log == old(s.log)
    ensures r.Ok? ==> w.out == old(w.out) + FrameBytes(s.cipher, nonce, payload)
    ensures r.Ok? ==> s.log == old(s.log)[nonce := payload]
    ensures pool.buf == old(pool.buf) || fresh(pool.buf)
    ensures r.Ok? ==> pool.buf.Length == Max(old(pool.buf.Length), |payload| + OVERHEAD + 4)
    ensures r == Err ==> pool.buf.Length == old(pool.buf.Length)
  {
    if |payload| > U32_SPAN - 1 {
      return Err;
    }
    var cipherLen := NONCE_LEN + |payload| + TAG_LEN;
    var total := 4 + cipherLen;
    pool.Ensure(total);
    var prefix := BigEndian(cipherLen % U32_SPAN);
    forall i | 0 <= i < 4 { pool.buf[i] := prefix[i]; }
    assert pool.buf[..4] == prefix;
    var sealed := EncryptInto(payload, pool.buf, 4, total, s, nonce);
    assert pool.buf[..total] == pool.buf[..4] + pool.buf[4..total];
    w.WriteAll(pool.buf[..total]);
    return Ok(());
  }

  function FrameBytes(c: Cipher, n: Nonce, payload: seq<byte>): seq<byte> {
    BigEndian((|payload| + OVERHEAD) % U32_SPAN) + c.Sealed(n, payload)
  }

  // ---- Round trip ------------------------------------------------------------

  /** A payload with the nonce it was sent under. */
  datatype Item = Item(nonce: Nonce, payload: seq<byte>)

  ghost predicate AllSealed(log: Log, items: seq<Item>) {
    forall i :: 0 <= i < |items| ==>
      |items[i].nonce| == NONCE_LEN && items[i].nonce in log && log[items[i].nonce] == items[i].payload
  }

  function StreamOf(c: Cipher, items: seq<Item>): seq<byte> {
    if items == [] then [] else FrameBytes(c, items[0].nonce, items[0].payload) + StreamOf(c, items[1..])
  }

  function Payloads(items: seq<Item>): seq<seq<byte>> {
    seq(|items|, i requires 0 <= i < |items| => items[i].payload)
  }

  /** k frames in a row. */
  function FramesAt(c: Cipher, log: Log, data: seq<byte>, pos: nat, k: nat): Option<seq<seq<byte>>>
    requires pos <= |data|
    decreases k
  {
    if k == 0 then Some([])
    else match FrameAt(c, log, data, pos)
         case None => None
         case Some(f) =>
           if f.next > |data| then None
           else match FramesAt(c, log, data, f.next, k - 1)
                case None => None
                case Some(rest) => Some([f.payload] + rest)
  }

  /** A frame the writer accepted is read back, with its payload, exactly when the
      payload is within the reader's limit; then the reader advances over it exactly.
      This covers the payloads near 4 GiB whose length prefix wraps around. */
  lemma FrameReadBackIff(c: Cipher, log: Log, nonce: Nonce, payload: seq<byte>, data: seq<byte>, pos: nat)
    requires c.Valid() && |nonce| == NONCE_LEN && nonce in log && log[nonce] == payload
    requires |payload| < U32_SPAN && pos <= |data|
    requires FrameBytes(c, nonce, payload) <= data[pos..]
    ensures FrameAt(c, log, data, pos)
         == if |payload| <= MAX_PAYLOAD then Some(Frame(payload, pos + 4 + OVERHEAD + |payload|)) else None
  {
    var n := (|payload| + OVERHEAD) % U32_SPAN;
    var w := c.Sealed(nonce, payload);
    assert |BigEndian(n) + w| <= |data| - pos;
    assert data[pos..pos + 4] == BigEndian(n);
    BigEndianRoundTrip(n);
    if |payload| + OVERHEAD < U32_SPAN {
      assert n == |payload| + OVERHEAD;
      assert data[pos + 4..pos + 4 + n] == w;
      assert w[..NONCE_LEN] == nonce;
      OpensExactly(c, log, nonce, payload, w);
    } else {
      assert n == |payload| + OVERHEAD - U32_SPAN < OVERHEAD;
    }
  }

  /** Any sequence of payloads within the limit, framed and concatenated, is read
      back as itself: the result depends on the stream alone, not on any pool. */
  lemma {:induction false} StreamRoundTrip(c: Cipher, log: Log, items: seq<Item>, data: seq<byte>, pos: nat)
    requires c.Valid() && AllSealed(log, items) && pos <= |data|
    requires forall i :: 0 <= i < |items| ==> |items[i].payload| <= MAX_PAYLOAD
    requires StreamOf(c, items) <= data[pos..]
    ensures FramesAt(c, log, data, pos, |items|) == Some(Payloads(items))
  {
    if items == [] {
      assert Payloads(items) == [];
    } else {
      var it := items[0];
      var f, rest := FrameBytes(c, it.nonce, it.payload), StreamOf(c, items[1..]);
      PrefixSplits(f, rest, data, pos);
      FrameReadBackIff(c, log, it.nonce, it.payload, data, pos);
      assert |f| == 4 + OVERHEAD + |it.payload|;
      StreamRoundTrip(c, log, items[1..], data, pos + |f|);
      assert Payloads(items) == [it.payload] + Payloads(items[1..]);
    }
  }

  lemma {:induction false} StreamOfAppend(c: Cipher, items: seq<Item>, last: Item)
    ensures StreamOf(c, items + [last]) == StreamOf(c, items) + FrameBytes(c, last.nonce, last.payload)
  {
    if items == [] {
      assert items + [last] == [last] && [last][1..] == [];
    } else {
      StreamOfAppend(c, items[1..], last);
      assert (items + [last])[1..] == items[1..] + [last];
    }
  }

  /** Distinct unused nonces for a batch of seals. */
  ghost predicate FreshNonces(log: Log, nonces: seq<Nonce>) {
    && (forall i :: 0 <= i < |nonces| ==> FreshNonce(log, nonces[i]))
    && (forall i, j :: 0 <= i < j < |nonces| ==> nonces[i] != nonces[j])
  }

  /** Nonces from the given place on have not been used. */
  ghost predicate Unused(log: Log, nonces: seq<Nonce>, from: nat) {
    forall j :: from <= j < |nonces| ==> FreshNonce(log, nonces[j])
  }

  lemma UnusedAfter(log: Log, nonces: seq<Nonce>, from: nat, p: seq<byte>)
    requires Unused(log, nonces, from) && from < |nonces|
    requires forall i, j :: 0 <= i < j < |nonces| ==> nonces[i] != nonces[j]
    ensures Unused(log[nonces[from] := p], nonces, from + 1)
  {}

  lemma SealedAppend(log: Log, items: seq<Item>, last: Item)
    requires AllSealed(log, items) && FreshNonce(log, last.nonce)
    ensures AllSealed(log[last.nonce := last.payload], items + [last])
  {}

  function Zip(nonces: seq<Nonce>, payloads: seq<seq<byte>>): (items: seq<Item>)
    requires |nonces| == |payloads|
    ensures |items| == |payloads| && Payloads(items) == payloads
  {
    seq(|payloads|, i requires 0 <= i < |payloads| => Item(nonces[i], payloads[i]))
  }

  /** One end sends the payloads in order. */
  method SendFrames(payloads: seq<seq<byte>>, s: Session, nonces: seq<Nonce>, pool: Pool) returns (out: seq<byte>)
    requires s.Valid() && FreshNonces(s.log, nonces) && |nonces| == |payloads|
    requires forall i :: 0 <= i < |payloads| ==> |payloads[i]| <= MAX_PAYLOAD
    modifies s`log, pool, pool.buf
    ensures AllSealed(s.log, Zip(nonces, payloads)) && out == StreamOf(s.cipher, Zip(nonces, payloads))
    ensures pool.buf.Length <= Max(old(pool.buf.Length), MAX_FRAME_LENGTH + 4)
  {
    var w := new Writer();
    ghost var items := Zip(nonces, payloads);
    for i := 0 to |payloads|
      invariant pool.buf == old(pool.buf) || fresh(pool.buf)
      invariant pool.buf.Length <= Max(old(pool.buf.Length), MAX_FRAME_LENGTH + 4)
      invariant Unused(s.log, nonces, i)
      invariant AllSealed(s.log, items[..i])
      invariant w.out == StreamOf(s.cipher, items[..i])
    {
      StreamOfAppend(s.cipher, items[..i], items[i]);
      assert items[..i + 1] == items[..i] + [items[i]];
      SealedAppend(s.log, items[..i], items[i]);
      UnusedAfter(s.log, nonces, i, payloads[i]);
      var sent := WriteEncryptFrameInto(w, payloads[i], s, nonces[i], pool);
    }
    assert items[..|payloads|] == items;
    out := w.out;
  }

  lemma FirstOfStream(c: Cipher, log: Log, items: seq<Item>, data: seq<byte>, pos: nat)
    requires c.Valid() && items != [] && AllSealed(log, items) && |items[0].payload| <= MAX_PAYLOAD
    requires pos <= |data| && data[pos..] == StreamOf(c, items)
    ensures var next := pos + 4 + OVERHEAD + |items[0].payload|;
            && FrameAt(c, log, data, pos) == Some(Frame(items[0].payload, next))
            && next <= |data| && data[next..] == StreamOf(c, items[1..])
  {
    var f := FrameBytes(c, items[0].nonce, items[0].payload);
    assert |f| == 4 + OVERHEAD + |items[0].payload|;
    assert data[pos..][..|f|] == f && data[pos..][|f|..] == StreamOf(c, items[1..]);
    FrameReadBackIff(c, log, items[0].nonce, items[0].payload, data, pos);
    assert data[pos..][|f|..] == data[pos + |f|..];
  }

  method ReadNextFrame(r: Reader, s: Session, pool: Pool, ghost items: seq<Item>) returns (payload: seq<byte>)
    requires r.Valid() && s.Valid() && items != [] && AllSealed(s.log, items) && |items[0].payload| <= MAX_PAYLOAD
    requires r.data[r.pos..] == StreamOf(s.cipher, items)
    modifies r, pool, pool.buf
    ensures r.Valid() && payload == items[0].payload && r.data[r.pos..] == StreamOf(s.cipher, items[1..])
    ensures pool.buf == old(pool.buf) || fresh(pool.buf)
    ensures pool.buf.Length <= Max(old(pool.buf.Length), 2 * MAX_FRAME_LENGTH - OVERHEAD)
  {
    FirstOfStream(s.cipher, s.log, items, r.data, r.pos);
    var region := ReadEncryptDataInto(r, s, pool);
    payload := pool.buf[region.value.0..region.value.1];
  }

  /** The other end, over its own pool with whatever it held before, gets back exactly
      the payloads, in order. */
  method ReceiveFrames(data: seq<byte>, count: nat, s: Session, pool: Pool, ghost items: seq<Item>)
    returns (received: seq<seq<byte>>)
    requires s.Valid() && AllSealed(s.log, items) && data == StreamOf(s.cipher, items) && count == |items|
    requires forall i :: 0 <= i < |items| ==> |items[i].payload| <= MAX_PAYLOAD
    modifies pool, pool.buf
    ensures received == Payloads(items)
    ensures pool.buf.Length <= Max(old(pool.buf.Length), 2 * MAX_FRAME_LENGTH - OVERHEAD)
  {
    var r := new Reader(data);
    received := [];
    assert items[0..] == items;
    for i := 0 to count
      invariant pool.buf == old(pool.buf) || fresh(pool.buf)
      invariant pool.buf.Length <= Max(old(pool.buf.Length), 2 * MAX_FRAME_LENGTH - OVERHEAD)
      invariant r.Valid() && r.data[r.pos..] == StreamOf(s.cipher, items[i..])
      invariant |received| == i && forall j :: 0 <= j < i ==> received[j] == items[j].payload
    {
      assert items[i..][0] == items[i] && items[i..][1..] == items[i + 1..];
      var payload := ReadNextFrame(r, s, pool, items[i..]);
      received := received + [payload];
    }
  }

  // ---- The pool over a whole connection --------------------------------------

  /** The pool's size after reads at the given places, whether they succeed or fail. */
  function PoolAfterReads(initial: nat, data: seq<byte>, places: seq<nat>): nat
    requires forall i :: 0 <= i < |places| ==> places[i] <= |data|
  {
    if places == [] then initial
    else
      var n := |places| - 1;
      Max(PoolAfterReads(initial, data, places[..n]), PoolNeed(data, places[n]))
  }

  /** The pool never shrinks and never passes 32 MiB - 28 bytes by reading, whatever
      the peer sends and wherever the reads happen. */
  lemma {:induction false} PoolStaysBounded(initial: nat, data: seq<byte>, places: seq<nat>, k: nat)
    requires forall i :: 0 <= i < |places| ==> places[i] <= |data|
    requires k <= |places|
    ensures initial <= PoolAfterReads(initial, data, places[..k]) <= PoolAfterReads(initial, data, places)
    ensures PoolAfterReads(initial, data, places) <= Max(initial, 2 * MAX_FRAME_LENGTH - OVERHEAD)
  {
    if places != [] {
      var n := |places| - 1;
      PoolStaysBounded(initial, data, places[..n], if k <= n then k else n);
      if k <= n {
        assert places[..n][..k] == places[..k];
      } else {
        assert places[..k] == places && places[..n][..n] == places[..n];
      }
    }
  }
}
