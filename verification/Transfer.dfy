/** The undelimited stream of sealed blocks that carries a file: the sender's loop
    (shared by client upload and server download) and the receiver's loop (shared by
    server upload and client download). */
module Transfer {
  import opened Common
  import opened Aead
  import opened Framing
  import opened Files

  // ---- What receiving means --------------------------------------------------

  /** Whether the announced size was reached, what was stored, and the stream left over. */
  datatype Receipt = Receipt(ok: bool, stored: seq<byte>, left: seq<byte>)

  /** Receives blocks from a stream until `missing` bytes are stored; the first block
      that is not there in full or does not open ends it. */
  function Receive(c: Cipher, log: Log, wire: seq<byte>, missing: nat): (r: Receipt)
    requires c.Valid()
    ensures |r.stored| <= missing
    ensures r.ok <==> |r.stored| == missing
    decreases missing
  {
    var n := Min(READ_CHUNK_SIZE, missing) + OVERHEAD;
    if missing == 0 || |wire| < n then Receipt(missing == 0, [], wire)
    else
      match Open(c, log, wire[..n])
      case None => Receipt(false, [], wire)
      case Some(p) =>
        var r := Receive(c, log, wire[n..], missing - |p|);
        r.(stored := p + r.stored)
  }

  lemma ReceiveUnfolds(c: Cipher, log: Log, data: seq<byte>, pos: nat, missing: nat)
    requires c.Valid() && pos <= |data| && missing > 0
    ensures var n := Min(READ_CHUNK_SIZE, missing) + OVERHEAD;
            var block := if |data| - pos < n then None else Open(c, log, data[pos..pos + n]);
            match block
            case None => Receive(c, log, data[pos..], missing) == Receipt(false, [], data[pos..])
            case Some(p) =>
              && |p| == Min(READ_CHUNK_SIZE, missing)
              && var r := Receive(c, log, data[pos + n..], missing - |p|);
                 Receive(c, log, data[pos..], missing) == r.(stored := p + r.stored)
  {
    var n := Min(READ_CHUNK_SIZE, missing) + OVERHEAD;
    if |data| - pos >= n {
      assert data[pos..][..n] == data[pos..pos + n] && data[pos..][n..] == data[pos + n..];
    }
  }

  /** One turn of the receiver's loop: read a sealed block into the encrypted buffer
      and decrypt it into the plain one. */
  method ReceiveBlock(r: Reader, s: Session, plainLen: nat, encBuf: array<byte>, decBuf: array<byte>)
    returns (block: Option<seq<byte>>)
    requires r.Valid() && s.Valid() && plainLen <= READ_CHUNK_SIZE
    requires encBuf.Length == READ_CHUNK_SIZE + OVERHEAD && decBuf.Length == READ_CHUNK_SIZE
    modifies r, encBuf, decBuf
    ensures r.Valid()
    ensures block == if |r.data| - old(r.pos) < plainLen + OVERHEAD then None
                     else Open(s.cipher, s.log, r.data[old(r.pos)..old(r.pos) + plainLen + OVERHEAD])
    ensures block.Some? ==> r.pos == old(r.pos) + plainLen + OVERHEAD && |block.value| == plainLen
  {
    var cipherLen := NONCE_LEN + plainLen + TAG_LEN;
    var chunk := r.ReadExact(cipherLen);
    if chunk.None? {
      return None;
    }
    forall i | 0 <= i < cipherLen { encBuf[i] := chunk.value[i]; }
    assert encBuf[..cipherLen] == chunk.value;
    var outcome := DecryptInto(encBuf[..cipherLen], decBuf, 0, decBuf.Length, s);
    if !outcome.Ok? {
      return None;
    }
    assert decBuf[0..0 + outcome.value] == decBuf[..outcome.value];
    return Some(decBuf[..outcome.value]);
  }

  /** With `stored` received from data[start..pos], what is still to be received
      completes it to what the whole stream gives. */
  ghost predicate OnTrack(c: Cipher, log: Log, data: seq<byte>, start: nat, pos: nat, size: nat, stored: seq<byte>)
    requires c.Valid()
  {
    && start <= |data| && pos <= |data| && |stored| <= size
    && var all := Receive(c, log, data[start..], size);
       var ahead := Receive(c, log, data[pos..], size - |stored|);
       all == ahead.(stored := stored + ahead.stored)
  }

  lemma ReceiptsCompose(all: Receipt, before: Receipt, after: Receipt, stored: seq<byte>, p: seq<byte>)
    requires all == before.(stored := stored + before.stored)
    requires before == after.(stored := p + after.stored)
    ensures all == after.(stored := stored + p + after.stored)
  {}

  lemma TrackGrows(c: Cipher, log: Log, data: seq<byte>, start: nat, pos: nat, size: nat, stored: seq<byte>,
                   p: seq<byte>)
    requires c.Valid() && OnTrack(c, log, data, start, pos, size, stored) && |stored| < size
    requires var n := Min(READ_CHUNK_SIZE, size - |stored|) + OVERHEAD;
             pos + n <= |data| && Open(c, log, data[pos..pos + n]) == Some(p)
    ensures OnTrack(c, log, data, start, pos + Min(READ_CHUNK_SIZE, size - |stored|) + OVERHEAD, size, stored + p)
  {
    var n := Min(READ_CHUNK_SIZE, size - |stored|) + OVERHEAD;
    ReceiveUnfolds(c, log, data, pos, size - |stored|);
    ReceiptsCompose(Receive(c, log, data[start..], size), Receive(c, log, data[pos..], size - |stored|),
                    Receive(c, log, data[pos + n..], size - |stored| - |p|), stored, p);
  }

  lemma TrackStops(c: Cipher, log: Log, data: seq<byte>, start: nat, pos: nat, size: nat, stored: seq<byte>)
    requires c.Valid() && OnTrack(c, log, data, start, pos, size, stored) && |stored| < size
    requires var n := Min(READ_CHUNK_SIZE, size - |stored|) + OVERHEAD;
             |data| - pos < n || Open(c, log, data[pos..pos + n]) == None
    ensures Receive(c, log, data[start..], size) == Receipt(false, stored, data[pos..])
  {
    ReceiveUnfolds(c, log, data, pos, size - |stored|);
    assert stored + [] == stored;
  }

  lemma TrackStarts(c: Cipher, log: Log, data: seq<byte>, start: nat, size: nat)
    requires c.Valid() && start <= |data|
    ensures OnTrack(c, log, data, start, start, size, [])
  {
    var all := Receive(c, log, data[start..], size);
    assert [] + all.stored == all.stored;
  }

  lemma TrackEnds(c: Cipher, log: Log, data: seq<byte>, start: nat, pos: nat, size: nat, stored: seq<byte>)
    requires c.Valid() && OnTrack(c, log, data, start, pos, size, stored) && |stored| == size
    ensures Receive(c, log, data[start..], size) == Receipt(true, stored, data[pos..])
  {
    assert stored + [] == stored;
  }

  /** One turn, from a reader that is on track. */
  method ReceiveNext(r: Reader, s: Session, ghost start: nat, size: nat, stored: seq<byte>,
                     encBuf: array<byte>, decBuf: array<byte>)
    returns (block: Option<seq<byte>>)
    requires r.Valid() && s.Valid() && |stored| < size
    requires encBuf.Length == READ_CHUNK_SIZE + OVERHEAD && decBuf.Length == READ_CHUNK_SIZE
    requires OnTrack(s.cipher, s.log, r.data, start, r.pos, size, stored)
    modifies r, encBuf, decBuf
    ensures r.Valid()
    ensures block.None? ==>
              && start <= |r.data|
              && Receive(s.cipher, s.log, r.data[start..], size) == Receipt(false, stored, r.data[old(r.pos)..])
    ensures block.Some? ==>
              block.value != [] && OnTrack(s.cipher, s.log, r.data, start, r.pos, size, stored + block.value)
  {
    ghost var pos := r.pos;
    block := ReceiveBlock(r, s, Min(READ_CHUNK_SIZE, size - |stored|), encBuf, decBuf);
    if block.Some? {
      TrackGrows(s.cipher, s.log, r.data, start, pos, size, stored, block.value);
    } else {
      TrackStops(s.cipher, s.log, r.data, start, pos, size, stored);
    }
  }

  /** The receiver's loop: every decrypted block goes to the hasher and to the file. */
  method ReceiveFile(r: Reader, s: Session, size: nat)
    returns (status: Outcome<()>, stored: seq<byte>, digest: Digest)
    requires r.Valid() && s.Valid()
    modifies r
    ensures r.Valid() && digest == Sha256Of(stored) && status != Panic
    ensures var all := Receive(s.cipher, s.log, r.data[old(r.pos)..], size);
            && stored == all.stored
            && (status.Ok? <==> all.ok)
            && (status.Ok? ==> r.data[r.pos..] == all.left)
  {
    var encBuf := new byte[READ_CHUNK_SIZE + NONCE_LEN + TAG_LEN](_ => 0);
    var decBuf := new byte[READ_CHUNK_SIZE](_ => 0);
    var hashed: seq<byte> := [];
    stored := [];
    ghost var start := r.pos;
    TrackStarts(s.cipher, s.log, r.data, start, size);
    while |stored| < size
      invariant r.Valid() && hashed == stored
      invariant OnTrack(s.cipher, s.log, r.data, start, r.pos, size, stored)
      decreases size - |stored|
    {
      var block := ReceiveNext(r, s, start, size, stored, encBuf, decBuf);
      if block.None? {
        return Err, stored, Sha256Of(hashed);
      }
      hashed := hashed + block.value;
      stored := stored + block.value;
    }
    TrackEnds(s.cipher, s.log, r.data, start, r.pos, size, stored);
    return Ok(()), stored, Sha256Of(hashed);
  }

  // ---- Streams of sealed blocks ----------------------------------------------

  function BlockStream(c: Cipher, items: seq<Item>): seq<byte> {
    if items == [] then []
    else c.Sealed(items[0].nonce, items[0].payload) + BlockStream(c, items[1..])
  }

  function Contents(items: seq<Item>): seq<byte> {
    if items == [] then [] else items[0].payload + Contents(items[1..])
  }

  /** The bytes a receiver still missing `missing` bytes takes: the blocks whose length
      is exactly what it expects next, up to the first other one. */
  function Taken(items: seq<Item>, missing: nat): (f: seq<byte>)
    ensures |f| <= missing
  {
    if missing == 0 || items == [] || |items[0].payload| != Min(READ_CHUNK_SIZE, missing) then []
    else items[0].payload + Taken(items[1..], missing - |items[0].payload|)
  }

  /** Two streams that agree as far as both go. */
  ghost predicate Alike(a: seq<byte>, b: seq<byte>) {
    forall i :: 0 <= i < |a| && i < |b| ==> a[i] == b[i]
  }

  /** A misaligned read starts with the next block's nonce and so cannot open. */
  lemma OpensOnlyWhole(c: Cipher, log: Log, it: Item, rest: seq<byte>, w: seq<byte>)
    requires c.Valid() && |it.nonce| == NONCE_LEN && it.nonce in log && log[it.nonce] == it.payload
    requires |w| >= OVERHEAD && Alike(w, c.Sealed(it.nonce, it.payload) + rest)
    ensures Open(c, log, w) == if |it.payload| + OVERHEAD == |w| then Some(it.payload) else None
  {
    var block := c.Sealed(it.nonce, it.payload);
    assert |block| == |it.payload| + OVERHEAD;
    forall i | 0 <= i < NONCE_LEN ensures w[i] == it.nonce[i] {
      assert w[i] == (block + rest)[i];
    }
    assert w[..NONCE_LEN] == it.nonce;
    OpensExactly(c, log, it.nonce, it.payload, w);
    if |block| == |w| {
      forall i | 0 <= i < |w| ensures w[i] == block[i] {
        assert w[i] == (block + rest)[i];
      }
      assert w == block;
    }
  }

  lemma SealedTail(log: Log, items: seq<Item>)
    requires items != [] && AllSealed(log, items)
    ensures AllSealed(log, items[1..])
  {
    forall i | 0 <= i < |items[1..]| ensures items[1..][i] == items[i + 1] {}
  }

  /** One turn on an honest stream, complete or cut short anywhere, or with something
      after it: the receiver takes the next block whole, or stops. */
  lemma HonestTurn(c: Cipher, log: Log, items: seq<Item>, wire: seq<byte>, missing: nat)
    requires c.Valid() && items != [] && AllSealed(log, items) && missing > 0
    requires Alike(wire, BlockStream(c, items))
    ensures var m := Min(READ_CHUNK_SIZE, missing);
            var p := items[0].payload;
            if |p| == m && |wire| >= m + OVERHEAD
            then var r := Receive(c, log, wire[m + OVERHEAD..], missing - m);
                 Receive(c, log, wire, missing) == r.(stored := p + r.stored)
            else Receive(c, log, wire, missing) == Receipt(false, [], wire)
  {
    var n := Min(READ_CHUNK_SIZE, missing) + OVERHEAD;
    if |wire| >= n {
      OpensOnlyWhole(c, log, items[0], BlockStream(c, items[1..]), wire[..n]);
    }
  }

  lemma BlockFirst(c: Cipher, items: seq<Item>)
    requires c.Valid() && items != [] && |items[0].nonce| == NONCE_LEN
    ensures var n := |items[0].payload| + OVERHEAD;
            && |c.Sealed(items[0].nonce, items[0].payload)| == n
            && |BlockStream(c, items)| == n + |BlockStream(c, items[1..])|
            && BlockStream(c, items)[n..] == BlockStream(c, items[1..])
  {}

  /** On a complete honest stream, whatever the block lengths, the receiver stores
      exactly the blocks of the right lengths, and reports success exactly when they
      make up the announced size. */
  lemma {:induction false} ReceivesExactly(c: Cipher, log: Log, items: seq<Item>, missing: nat)
    requires c.Valid() && AllSealed(log, items)
    ensures Receive(c, log, BlockStream(c, items), missing).stored == Taken(items, missing)
    ensures Receive(c, log, BlockStream(c, items), missing).ok <==> |Taken(items, missing)| == missing
  {
    if missing > 0 && items != [] {
      BlockFirst(c, items);
      SealedTail(log, items);
      HonestTurn(c, log, items, BlockStream(c, items), missing);
      if |items[0].payload| == Min(READ_CHUNK_SIZE, missing) {
        ReceivesExactly(c, log, items[1..], missing - |items[0].payload|);
      }
    }
  }

  /** Whatever lengths the sender's reads had, and wherever the stream breaks off, what
      the receiver has hashed and stored is a prefix of what was sent. */
  lemma {:induction false} PrefixSafety(c: Cipher, log: Log, items: seq<Item>, wire: seq<byte>, missing: nat)
    requires c.Valid() && AllSealed(log, items)
    requires wire <= BlockStream(c, items)
    ensures Receive(c, log, wire, missing).stored <= Contents(items)
    decreases |items|
  {
    if missing > 0 && items != [] {
      var m := Min(READ_CHUNK_SIZE, missing);
      BlockFirst(c, items);
      SealedTail(log, items);
      HonestTurn(c, log, items, wire, missing);
      if |items[0].payload| == m && |wire| >= m + OVERHEAD {
        var all, n := BlockStream(c, items), m + OVERHEAD;
        assert wire[n..] <= all[n..];
        PrefixSafety(c, log, items[1..], wire[n..], missing - m);
      }
    }
  }

  // ---- Canonical streams -----------------------------------------------------

  /** The number of blocks that carry n bytes. */
  function Ceil(n: nat): nat {
    if n == 0 then 0 else 1 + Ceil(n - Min(READ_CHUNK_SIZE, n))
  }

  lemma {:induction false} CeilIsRoundedUp(n: nat)
    ensures Ceil(n) == (n + READ_CHUNK_SIZE - 1) / READ_CHUNK_SIZE
  {
    if n > 0 { CeilIsRoundedUp(n - Min(READ_CHUNK_SIZE, n)); }
  }

  lemma {:induction false} CeilOfFullBlocks(k: nat)
    ensures Ceil(k * READ_CHUNK_SIZE) == k
  {
    if k > 0 { CeilOfFullBlocks(k - 1); }
  }

  /** The file cut into full blocks and the remainder. */
  function Cut(nonces: seq<Nonce>, f: seq<byte>): (items: seq<Item>)
    requires |nonces| >= Ceil(|f|)
    ensures |items| == Ceil(|f|)
    decreases |f|
  {
    if f == [] then []
    else
      var m := Min(READ_CHUNK_SIZE, |f|);
      [Item(nonces[0], f[..m])] + Cut(nonces[1..], f[m..])
  }

  lemma CutOnce(nonces: seq<Nonce>, f: seq<byte>)
    requires |nonces| >= Ceil(|f|) && f != []
    ensures var m := Min(READ_CHUNK_SIZE, |f|);
            && 1 + Ceil(|f| - m) == Ceil(|f|) == |Cut(nonces, f)|
            && Cut(nonces, f) == [Item(nonces[0], f[..m])] + Cut(nonces[1..], f[m..])
            && Cut(nonces, f)[1..] == Cut(nonces[1..], f[m..])
  {}

  lemma CanonicalTurn(c: Cipher, log: Log, items: seq<Item>, after: seq<byte>, missing: nat)
    requires c.Valid() && items != [] && AllSealed(log, items) && missing > 0
    requires |items[0].payload| == Min(READ_CHUNK_SIZE, missing)
    ensures var p := items[0].payload;
            var r := Receive(c, log, BlockStream(c, items[1..]) + after, missing - |p|);
            Receive(c, log, BlockStream(c, items) + after, missing) == r.(stored := p + r.stored)
  {
    BlockFirst(c, items);
    HonestTurn(c, log, items, BlockStream(c, items) + after, missing);
    DropsFirst(BlockStream(c, items), after, |items[0].payload| + OVERHEAD);
  }

  lemma DropsFirst(a: seq<byte>, b: seq<byte>, n: nat)
    requires n <= |a|
    ensures (a + b)[n..] == a[n..] + b
  {}

  lemma ChunkSyncTurn(c: Cipher, log: Log, items: seq<Item>, f: seq<byte>, after: seq<byte>)
    requires c.Valid() && items != [] && AllSealed(log, items) && f != []
    requires items[0].payload == f[..Min(READ_CHUNK_SIZE, |f|)]
    requires var rest := f[Min(READ_CHUNK_SIZE, |f|)..];
             Receive(c, log, BlockStream(c, items[1..]) + after, |rest|) == Receipt(true, rest, after)
    ensures Receive(c, log, BlockStream(c, items) + after, |f|) == Receipt(true, f, after)
  {
    var m := Min(READ_CHUNK_SIZE, |f|);
    CanonicalTurn(c, log, items, after, |f|);
    assert f[..m] + f[m..] == f;
  }

  /** The receiver of a canonical stream, whatever comes after it, stores exactly the
      file and leaves exactly what came after. */
  lemma {:induction false} ChunkSync(c: Cipher, log: Log, nonces: seq<Nonce>, f: seq<byte>, after: seq<byte>)
    requires c.Valid() && |nonces| >= Ceil(|f|) && AllSealed(log, Cut(nonces, f))
    ensures Receive(c, log, BlockStream(c, Cut(nonces, f)) + after, |f|) == Receipt(true, f, after)
    decreases |f|
  {
    if f == [] {
      assert BlockStream(c, Cut(nonces, f)) + after == after;
    } else {
      CutOnce(nonces, f);
      SealedTail(log, Cut(nonces, f));
      ChunkSync(c, log, nonces[1..], f[Min(READ_CHUNK_SIZE, |f|)..], after);
      ChunkSyncTurn(c, log, Cut(nonces, f), f, after);
    }
  }

  /** So it consumes exactly the file's bytes and 28 more per block. */
  lemma {:induction false} BlockStreamLength(c: Cipher, log: Log, items: seq<Item>)
    requires c.Valid() && AllSealed(log, items)
    ensures |BlockStream(c, items)| == |Contents(items)| + OVERHEAD * |items|
  {
    if items != [] {
      BlockFirst(c, items);
      SealedTail(log, items);
      BlockStreamLength(c, log, items[1..]);
    }
  }

  lemma {:induction false} CutKeepsContents(nonces: seq<Nonce>, f: seq<byte>)
    requires |nonces| >= Ceil(|f|)
    ensures Contents(Cut(nonces, f)) == f && |Cut(nonces, f)| == Ceil(|f|)
    decreases |f|
  {
    if f != [] {
      var m := Min(READ_CHUNK_SIZE, |f|);
      CutOnce(nonces, f);
      CutKeepsContents(nonces[1..], f[m..]);
      assert f[..m] + f[m..] == f;
    }
  }

  /** Full blocks are taken by a receiver of any larger file, and are the bytes cut. */
  lemma {:induction false} FullBlocksAreTaken(nonces: seq<Nonce>, f: seq<byte>, missing: nat)
    requires |nonces| >= Ceil(|f|) && |f| % READ_CHUNK_SIZE == 0 && |f| <= missing
    ensures Taken(Cut(nonces, f), missing) == f
    decreases |f|
  {
    if f != [] {
      CutOnce(nonces, f);
      FullBlocksAreTaken(nonces[1..], f[READ_CHUNK_SIZE..], missing - READ_CHUNK_SIZE);
    }
  }

  // ---- The sender ------------------------------------------------------------

  lemma {:induction false} BlockStreamAppend(c: Cipher, items: seq<Item>, last: Item)
    ensures BlockStream(c, items + [last]) == BlockStream(c, items) + c.Sealed(last.nonce, last.payload)
  {
    if items == [] {
      assert items + [last] == [last] && [last][1..] == [];
    } else {
      BlockStreamAppend(c, items[1..], last);
      assert (items + [last])[1..] == items[1..] + [last];
    }
  }

  lemma CutOneBlock(nonces: seq<Nonce>, chunk: seq<byte>)
    requires |chunk| == READ_CHUNK_SIZE && |nonces| >= 1
    ensures Ceil(|chunk|) == 1 && Cut(nonces, chunk) == [Item(nonces[0], chunk)]
  {
    CeilOfFullBlocks(1);
    CutOnce(nonces, chunk);
    assert chunk[..READ_CHUNK_SIZE] == chunk && chunk[READ_CHUNK_SIZE..] == [];
  }

  lemma CutFirst(nonces: seq<Nonce>, k: nat, f: seq<byte>)
    requires |f| == k * READ_CHUNK_SIZE && k > 0 && |nonces| >= k
    ensures Ceil(|f|) == k && |f[READ_CHUNK_SIZE..]| == (k - 1) * READ_CHUNK_SIZE
    ensures Ceil(|f[READ_CHUNK_SIZE..]|) == k - 1
    ensures Cut(nonces, f) == [Item(nonces[0], f[..READ_CHUNK_SIZE])] + Cut(nonces[1..], f[READ_CHUNK_SIZE..])
  {
    CeilOfFullBlocks(k);
    CeilOfFullBlocks(k - 1);
    CutOnce(nonces, f);
  }

  lemma {:induction false} CutAppend(nonces: seq<Nonce>, k: nat, f: seq<byte>, chunk: seq<byte>)
    requires |f| == k * READ_CHUNK_SIZE && |chunk| == READ_CHUNK_SIZE && |nonces| >= k + 1
    ensures Ceil(|f|) == k && Ceil(|f + chunk|) == k + 1
    ensures Cut(nonces, f + chunk) == Cut(nonces, f) + [Item(nonces[k], chunk)]
    decreases k
  {
    CeilOfFullBlocks(k);
    CeilOfFullBlocks(k + 1);
    if k == 0 {
      CutOneBlock(nonces, chunk);
      assert f + chunk == chunk;
    } else {
      var m := READ_CHUNK_SIZE;
      CutFirst(nonces, k + 1, f + chunk);
      assert (f + chunk)[..m] == f[..m] && (f + chunk)[m..] == f[m..] + chunk;
      CutFirst(nonces, k, f);
      CutAppend(nonces[1..], k - 1, f[m..], chunk);
      var first, rest, last := [Item(nonces[0], f[..m])], Cut(nonces[1..], f[m..]), [Item(nonces[k], chunk)];
      assert first + (rest + last) == (first + rest) + last;
    }
  }

  /** What the sender has done after `blocks` full blocks. */
  ghost predicate SentSoFar(c: Cipher, log: Log, nonces: seq<Nonce>, file: seq<byte>, blocks: nat, wire: seq<byte>) {
    var n := blocks * READ_CHUNK_SIZE;
    && n <= |file| && blocks == Ceil(n) <= |nonces|
    && AllSealed(log, Cut(nonces, file[..n]))
    && wire == BlockStream(c, Cut(nonces, file[..n]))
  }

  lemma SealedStays(log: Log, n: Nonce, p: seq<byte>, items: seq<Item>)
    requires n !in log && AllSealed(log, items)
    ensures AllSealed(log[n := p], items)
  {}

  lemma SentStays(c: Cipher, log: Log, nonces: seq<Nonce>, file: seq<byte>, blocks: nat, wire: seq<byte>,
                  n: Nonce, p: seq<byte>)
    requires SentSoFar(c, log, nonces, file, blocks, wire) && n !in log
    ensures SentSoFar(c, log[n := p], nonces, file, blocks, wire)
  {
    SealedStays(log, n, p, Cut(nonces, file[..blocks * READ_CHUNK_SIZE]));
  }

  lemma SentOneMore(c: Cipher, log: Log, nonces: seq<Nonce>, file: seq<byte>, blocks: nat, wire: seq<byte>,
                    chunk: seq<byte>)
    requires SentSoFar(c, log, nonces, file, blocks, wire)
    requires blocks < |nonces| && FreshNonce(log, nonces[blocks])
    requires (blocks + 1) * READ_CHUNK_SIZE <= |file|
    requires chunk == file[blocks * READ_CHUNK_SIZE..(blocks + 1) * READ_CHUNK_SIZE]
    ensures SentSoFar(c, log[nonces[blocks] := chunk], nonces, file, blocks + 1, wire + c.Sealed(nonces[blocks], chunk))
  {
    var item := Item(nonces[blocks], chunk);
    var items := Cut(nonces, file[..blocks * READ_CHUNK_SIZE]);
    CutAppend(nonces, blocks, file[..blocks * READ_CHUNK_SIZE], chunk);
    assert file[..blocks * READ_CHUNK_SIZE] + chunk == file[..(blocks + 1) * READ_CHUNK_SIZE];
    SealedAppend(log, items, item);
    BlockStreamAppend(c, items, item);
  }

  /** One turn of the sender's loop, with n bytes in the plain buffer. */
  method SendBlock(plainBuf: array<byte>, n: nat, encBuf: array<byte>, w: Writer, s: Session, nonce: Nonce)
    returns (r: Outcome<()>)
    requires n <= READ_CHUNK_SIZE == plainBuf.Length && encBuf.Length == READ_CHUNK_SIZE + OVERHEAD
    requires s.Valid() && FreshNonce(s.log, nonce) && plainBuf != encBuf
    modifies w, s`log, encBuf
    ensures s.log == old(s.log)[nonce := plainBuf[..n]]
    ensures if n == READ_CHUNK_SIZE
            then r.Ok? && w.out == old(w.out) + s.cipher.Sealed(nonce, plainBuf[..n])
            else r == Panic && w.out == old(w.out)
  {
    var enc := EncryptInto(plainBuf[..n], encBuf, 0, encBuf.Length, s, nonce);
    if !enc.Ok? {
      return Panic;
    }
    assert encBuf[0..encBuf.Length] == encBuf[..enc.value];
    w.WriteAll(encBuf[..enc.value]);
    return Ok(());
  }

  /** Every read before the end of the file gives a full block. */
  predicate AllFull(limits: nat -> nat, size: nat) {
    size % READ_CHUNK_SIZE == 0 && FullSoFar(limits, size / READ_CHUNK_SIZE)
  }

  predicate FullSoFar(limits: nat -> nat, blocks: nat) {
    forall k :: 0 <= k < blocks ==> limits(k) >= READ_CHUNK_SIZE
  }

  /** The reads after the given number of full blocks end well or with a short one. */
  predicate StopsAfter(limits: nat -> nat, size: nat, blocks: nat, ok: bool) {
    && blocks * READ_CHUNK_SIZE <= size && FullSoFar(limits, blocks)
    && var left := size - blocks * READ_CHUNK_SIZE;
       if ok then left == 0 else 0 < left && (left < READ_CHUNK_SIZE || limits(blocks) < READ_CHUNK_SIZE)
  }

  lemma StopsWellIff(limits: nat -> nat, size: nat, blocks: nat, ok: bool)
    requires StopsAfter(limits, size, blocks, ok)
    ensures ok <==> AllFull(limits, size)
    ensures ok <==> blocks * READ_CHUNK_SIZE == size
  {
    if !ok && size % READ_CHUNK_SIZE == 0 { assert blocks < size / READ_CHUNK_SIZE; }
  }

  lemma NonceLeft(size: nat, blocks: nat, nonces: seq<Nonce>)
    requires blocks * READ_CHUNK_SIZE < size && |nonces| >= Ceil(size)
    ensures blocks < |nonces|
  {
    CeilIsRoundedUp(size);
  }

  /** One read, and one turn with what it gave. */
  method SendRead(src: FileSource, w: Writer, s: Session, nonces: seq<Nonce>, k: nat,
                  plainBuf: array<byte>, encBuf: array<byte>)
    returns (n: nat, r: Outcome<()>)
    requires src.Valid() && s.Valid() && (src.pos < |src.data| ==> k < |nonces| && FreshNonce(s.log, nonces[k]))
    requires READ_CHUNK_SIZE == plainBuf.Length && encBuf.Length == READ_CHUNK_SIZE + OVERHEAD && plainBuf != encBuf
    modifies src, w, s`log, plainBuf, encBuf
    ensures src.Valid() && src.pos == old(src.pos) + n && n <= READ_CHUNK_SIZE
    ensures (n == 0 <==> old(src.pos) == |src.data|)
    ensures n == ReadLength(Min(READ_CHUNK_SIZE, |src.data| - old(src.pos)), src.limits(old(src.calls)))
    ensures src.calls == old(src.calls) + 1
    ensures n == 0 ==> r.Ok? && s.log == old(s.log) && w.out == old(w.out)
    ensures 0 < n ==> s.log == old(s.log)[nonces[k] := src.data[old(src.pos)..src.pos]]
    ensures 0 < n < READ_CHUNK_SIZE ==> r == Panic && w.out == old(w.out)
    ensures n == READ_CHUNK_SIZE ==>
              r.Ok? && w.out == old(w.out) + s.cipher.Sealed(nonces[k], src.data[old(src.pos)..src.pos])
  {
    n := src.Read(plainBuf, 0);
    if n == 0 {
      return n, Ok(());
    }
    assert plainBuf[0..0 + n] == plainBuf[..n];
    r := SendBlock(plainBuf, n, encBuf, w, s, nonces[k]);
  }

  /** The loop goes on after a full block only. */
  method SendNext(src: FileSource, w: Writer, s: Session, nonces: seq<Nonce>, blocks: nat,
                  plainBuf: array<byte>, encBuf: array<byte>)
    returns (end: Option<Outcome<()>>)
    requires src.Valid() && src.pos == blocks * READ_CHUNK_SIZE && s.Valid()
    requires READ_CHUNK_SIZE == plainBuf.Length && encBuf.Length == READ_CHUNK_SIZE + OVERHEAD && plainBuf != encBuf
    requires SentSoFar(s.cipher, s.log, nonces, src.data, blocks, w.out) && |nonces| >= Ceil(|src.data|)
    requires Unused(s.log, nonces, blocks) && forall i, j :: 0 <= i < j < |nonces| ==> nonces[i] != nonces[j]
    requires src.calls == blocks && FullSoFar(src.limits, blocks)
    modifies src, w, s`log, plainBuf, encBuf
    ensures src.Valid()
    ensures end.None? ==>
              && src.pos == (blocks + 1) * READ_CHUNK_SIZE && src.calls == blocks + 1
              && FullSoFar(src.limits, blocks + 1)
              && SentSoFar(s.cipher, s.log, nonces, src.data, blocks + 1, w.out)
              && Unused(s.log, nonces, blocks + 1)
    ensures end.Some? ==>
              && SentSoFar(s.cipher, s.log, nonces, src.data, blocks, w.out)
              && end.value != Err
              && StopsAfter(src.limits, |src.data|, blocks, end.value.Ok?)
  {
    ghost var log, wire, pos := s.log, w.out, src.pos;
    if pos < |src.data| { NonceLeft(|src.data|, blocks, nonces); }
    var n, r := SendRead(src, w, s, nonces, blocks, plainBuf, encBuf);
    if n == 0 {
      return Some(Ok(()));
    }
    ghost var chunk := src.data[pos..src.pos];
    if r == Panic {
      SentStays(s.cipher, log, nonces, src.data, blocks, wire, nonces[blocks], chunk);
      return Some(Panic);
    }
    SentOneMore(s.cipher, log, nonces, src.data, blocks, wire, chunk);
    UnusedAfter(log, nonces, blocks, chunk);
    return None;
  }

  /** The sender's loop. It always hands the whole block buffer to the encryption, so the
      first short read panics: it sends the full blocks before that, and it ends well
      exactly when every read before the end of the file gives a full block. */
  method SendFile(src: FileSource, w: Writer, s: Session, nonces: seq<Nonce>) returns (r: Outcome<()>, blocks: nat)
    requires src.Valid() && src.pos == 0 && src.calls == 0 && s.Valid() && w.out == []
    requires FreshNonces(s.log, nonces) && |nonces| >= Ceil(|src.data|)
    modifies src, w, s`log
    ensures r != Err && (r.Ok? <==> AllFull(src.limits, |src.data|))
    ensures SentSoFar(s.cipher, s.log, nonces, src.data, blocks, w.out)
    ensures StopsAfter(src.limits, |src.data|, blocks, r.Ok?)
  {
    var plainBuf := new byte[READ_CHUNK_SIZE](_ => 0);
    var encBuf := new byte[READ_CHUNK_SIZE + NONCE_LEN + TAG_LEN](_ => 0);
    blocks := 0;
    var end: Option<Outcome<()>> := None;
    assert src.data[..0] == [];
    while end.None?
      invariant src.Valid() && (end.None? ==> src.pos == blocks * READ_CHUNK_SIZE && Unused(s.log, nonces, blocks))
      invariant end.None? ==> src.calls == blocks && FullSoFar(src.limits, blocks)
      invariant SentSoFar(s.cipher, s.log, nonces, src.data, blocks, w.out)
      invariant end.Some? ==> end.value != Err && StopsAfter(src.limits, |src.data|, blocks, end.value.Ok?)
      decreases end.None?, |src.data| - blocks * READ_CHUNK_SIZE
    {
      end := SendNext(src, w, s, nonces, blocks, plainBuf, encBuf);
      if end.None? { blocks := blocks + 1; }
    }
    r := end.value;
    StopsWellIff(src.limits, |src.data|, blocks, r.Ok?);
  }

  /** What a receiver expecting the whole file makes of what the sender sent. */
  lemma ReceivedOfSent(c: Cipher, log: Log, nonces: seq<Nonce>, file: seq<byte>, blocks: nat, wire: seq<byte>)
    requires c.Valid() && SentSoFar(c, log, nonces, file, blocks, wire)
    ensures Receive(c, log, wire, |file|).stored == file[..blocks * READ_CHUNK_SIZE]
    ensures Receive(c, log, wire, |file|).ok <==> blocks * READ_CHUNK_SIZE == |file|
  {
    var whole := file[..blocks * READ_CHUNK_SIZE];
    FullBlocksAreTaken(nonces, whole, |file|);
    ReceivesExactly(c, log, Cut(nonces, whole), |file|);
  }

  /** However long each read was and wherever the stream breaks off: what a receiver has
      stored and hashed is the beginning of the sender's file. */
  lemma WhatArrivesIsAPrefix(c: Cipher, log: Log, nonces: seq<Nonce>, file: seq<byte>, blocks: nat, sent: seq<byte>,
                             wire: seq<byte>, missing: nat)
    requires c.Valid() && SentSoFar(c, log, nonces, file, blocks, sent) && wire <= sent
    ensures Receive(c, log, wire, missing).stored <= file[..blocks * READ_CHUNK_SIZE]
  {
    var whole := file[..blocks * READ_CHUNK_SIZE];
    PrefixSafety(c, log, Cut(nonces, whole), wire, missing);
    CutKeepsContents(nonces, whole);
  }

  /** A whole transfer of an unchanging file, read in any way. If every read gives a full
      block the receiver ends up with exactly the file. Otherwise the sender panics, and of
      what it had handed to its buffered writer only some first bytes get through: the
      receiver reports an error and has stored a beginning of the file. */
  method TransferFile(file: seq<byte>, limits: nat -> nat, delivered: nat, s: Session, nonces: seq<Nonce>)
    returns (sent: Outcome<()>, received: Outcome<()>, stored: seq<byte>, digest: Digest)
    requires s.Valid() && FreshNonces(s.log, nonces) && |nonces| >= Ceil(|file|)
    modifies s`log
    ensures digest == Sha256Of(stored)
    ensures sent != Err && (sent.Ok? <==> AllFull(limits, |file|))
    ensures received != Panic && (received.Ok? <==> AllFull(limits, |file|))
    ensures AllFull(limits, |file|) ==> stored == file
    ensures !AllFull(limits, |file|) ==> stored < file
  {
    var src := new FileSource(file, limits);
    var w := new Writer();
    var blocks;
    sent, blocks := SendFile(src, w, s, nonces);
    StopsWellIff(limits, |file|, blocks, sent.Ok?);
    var wire := if sent.Ok? then w.out else w.out[..Min(delivered, |w.out|)];
    var r := new Reader(wire);
    assert r.data[0..] == wire;
    if sent.Ok? {
      ReceivedOfSent(s.cipher, s.log, nonces, file, blocks, wire);
    } else {
      WhatArrivesIsAPrefix(s.cipher, s.log, nonces, file, blocks, w.out, wire, |file|);
    }
    received, stored, digest := ReceiveFile(r, s, |file|);
  }
}
