/** The parts joined: sealed blocks on the wire feed an upload in the store, and are the
    blocks that the conversations know by their lengths. */
module EndToEnd {
  import opened Common
  import opened Aead
  import opened Transfer
  import opened FileStore
  import C = Completion
  import A = AtRest
  import F = Framing
  import Channels
  import UC = UploadConversation
  import DC = DownloadConversation

  // ---- From the wire into the store --------------------------------------------------

  /** The state once upload u has received x more. */
  function Fed(s: State, u: OpId, x: seq<byte>): State
    requires u in s.ops
  {
    s.(ops := s.ops[u := s.ops[u].(received := s.ops[u].received + x)])
  }

  lemma FedNothing(s: State, u: OpId)
    requires u in s.ops
    ensures Fed(s, u, []) == s
  {
    assert s.ops[u].received + [] == s.ops[u].received;
    assert s.ops[u := s.ops[u]] == s.ops;
  }

  lemma FedTwice(s: State, u: OpId, x: seq<byte>, y: seq<byte>)
    requires u in s.ops
    ensures Fed(Fed(s, u, x), u, y) == Fed(s, u, x + y)
  {
    assert s.ops[u].received + x + y == s.ops[u].received + (x + y);
    assert Fed(Fed(s, u, x), u, y).ops == Fed(s, u, x + y).ops;
  }

  predicate TakingIn(s: State, u: OpId) {
    && u in s.ops && s.ops[u].req.Upload? && s.ops[u].pc.Receiving? && !s.ops[u].detached
    && |s.ops[u].received| <= s.ops[u].req.size
  }

  lemma ChunkFeeds(s: State, u: OpId, p: seq<byte>)
    requires TakingIn(s, u) && |s.ops[u].received| < s.ops[u].req.size
    requires |p| == Min(READ_CHUNK_SIZE, s.ops[u].req.size - |s.ops[u].received|)
    ensures Enabled(s, Chunk(u, p)) && Effect(s, Chunk(u, p)) == Fed(s, u, p) && TakingIn(Fed(s, u, p), u)
  {}

  /** The receiver's next block, or the end of what it takes. */
  lemma NextBlock(c: Cipher, log: Log, wire: seq<byte>, missing: nat)
    returns (block: Option<seq<byte>>, rest: seq<byte>)
    requires c.Valid()
    ensures match block
            case None => Receive(c, log, wire, missing).stored == []
            case Some(p) =>
              && missing > 0 && |p| == Min(READ_CHUNK_SIZE, missing)
              && Receive(c, log, wire, missing).stored == p + Receive(c, log, rest, missing - |p|).stored
  {
    var n := Min(READ_CHUNK_SIZE, missing) + OVERHEAD;
    block, rest := None, [];
    if missing > 0 && |wire| >= n {
      OpenedLength(c, log, wire[..n]);
      block, rest := Open(c, log, wire[..n]), wire[n..];
    }
  }

  lemma FeedsOne(mid: Run, cur: Run, u: OpId, p: seq<byte>) returns (end: Run)
    requires C.Solo(mid, cur, u) && TakingIn(After(cur), u)
    requires var op := After(cur).ops[u];
             |op.received| < op.req.size && |p| == Min(READ_CHUNK_SIZE, op.req.size - |op.received|)
    ensures C.Solo(mid, end, u) && After(end) == Fed(After(cur), u, p) && TakingIn(After(end), u)
  {
    ChunkFeeds(After(cur), u, p);
    end := C.SoloStep(mid, cur, u, Chunk(u, p));
  }

  /** What the receiver's loop takes from any wire is what the upload can take in, block by
      block and no further. */
  lemma {:induction false} WireFeeds(mid: Run, cur: Run, u: OpId, c: Cipher, log: Log, wire: seq<byte>, missing: nat)
    returns (end: Run)
    requires c.Valid() && C.Solo(mid, cur, u) && TakingIn(After(cur), u)
    requires missing == After(cur).ops[u].req.size - |After(cur).ops[u].received|
    ensures C.Solo(mid, end, u) && After(end) == Fed(After(cur), u, Receive(c, log, wire, missing).stored)
    decreases missing
  {
    var block, rest := NextBlock(c, log, wire, missing);
    if block.None? {
      FedNothing(After(cur), u);
      end := cur;
    } else {
      var p := block.value;
      var cur1 := FeedsOne(mid, cur, u, p);
      end := WireFeeds(mid, cur1, u, c, log, rest, missing - |p|);
      FedTwice(After(cur), u, p, Receive(c, log, rest, missing - |p|).stored);
    }
  }

  /** An upload of f that has truncated its file. */
  predicate UploadOf(op: Op, f: seq<byte>) {
    && op.req.Upload? && op.req.size == |f| && op.req.hash == Sha256Of(f)
    && op.pc.Receiving? && !op.detached && !op.committed && op.received == [] && op.written == 0
  }

  /** Fed by whatever is on the wire, it can still commit exactly if what has come is the
      beginning of f, and has all it needs exactly if that is f. */
  lemma WireDecides(mid: Run, u: OpId, f: seq<byte>, c: Cipher, log: Log, wire: seq<byte>) returns (end: Run)
    requires c.Valid() && Legal(mid) && u in After(mid).ops && UploadOf(After(mid).ops[u], f)
    ensures C.Solo(mid, end, u) && After(end) == Fed(After(mid), u, Receive(c, log, wire, |f|).stored)
    ensures A.CanCommit(After(end).ops[u]) <==> Receive(c, log, wire, |f|).stored <= f
    ensures A.CanCommit(After(end).ops[u]) && Receive(c, log, wire, |f|).ok <==> Receive(c, log, wire, |f|).stored == f
  {
    C.StartsSolo(mid, u);
    end := WireFeeds(mid, mid, u, c, log, wire, |f|);
    assert [] + Receive(c, log, wire, |f|).stored == Receive(c, log, wire, |f|).stored;
  }

  /** With all of f received it goes on to commit. */
  lemma FedCommits(mid: Run, fed: Run, u: OpId, f: seq<byte>) returns (end: Run)
    requires Legal(mid) && u in After(mid).ops && UploadOf(After(mid).ops[u], f)
    requires C.Solo(mid, fed, u) && After(fed) == Fed(After(mid), u, f)
    ensures C.Solo(mid, end, u) && fed <= end
    ensures After(end).ops[u].committed && After(end).ops[u].received == f
    ensures After(end).ops[u].req == After(mid).ops[u].req
  {
    assert [] + f == f;
    var saving := C.ToSaving(fed, u);
    end := C.ToCommit(saving, u);
    C.SoloThenSolo(fed, saving, end, u);
    C.SoloThenSolo(mid, fed, end, u);
  }

  /** So an honest client's stream of f, whatever comes after it, ends in the commit of f:
      the file holds f and the record says so. */
  lemma HonestStreamCommits(mid: Run, u: OpId, f: seq<byte>, c: Cipher, log: Log, nonces: seq<Nonce>, after: seq<byte>)
    returns (fed: Run, end: Run)
    requires c.Valid() && |nonces| >= Ceil(|f|) && F.AllSealed(log, Cut(nonces, f))
    requires Legal(mid) && u in After(mid).ops && UploadOf(After(mid).ops[u], f)
    requires A.LastCreate(mid, After(mid).ops[u].req.path) == Some(u)
    requires A.HarmlessFrom(mid, 0, After(mid).ops[u].req.path)
    ensures C.Solo(mid, fed, u)
    ensures After(fed) == Fed(After(mid), u, Receive(c, log, BlockStream(c, Cut(nonces, f)) + after, |f|).stored)
    ensures C.Solo(mid, end, u) && fed <= end
    ensures var req, s := After(mid).ops[u].req, After(end);
            && s.ops[u].committed && A.FileHolds(s, req.path, f)
            && req.path in s.metas && s.metas[req.path] == Whole(Record(req.name, |f|, Sha256Of(f)))
  {
    var p := After(mid).ops[u].req.path;
    ChunkSync(c, log, nonces, f, after);
    C.StartsSolo(mid, u);
    fed := WireFeeds(mid, mid, u, c, log, BlockStream(c, Cut(nonces, f)) + after, |f|);
    end := FedCommits(mid, fed, u, f);
    C.HarmlessJoins(mid, end, 0, p);
    A.HarmlessRunsAgree(end, p);
  }

  // ---- The blocks of the conversations -------------------------------------------------

  /** A sealed stream as the conversations see it. */
  function Lengths(items: seq<F.Item>): seq<Channels.Item> {
    seq(|items|, i requires 0 <= i < |items| => Channels.Block(|items[i].payload|))
  }

  /** What a sender has put on the wire are full blocks, as many as it counts. */
  lemma SenderPutsFullBlocks(c: Cipher, log: Log, nonces: seq<Nonce>, file: seq<byte>, blocks: nat, wire: seq<byte>)
    requires SentSoFar(c, log, nonces, file, blocks, wire)
    ensures var items := Lengths(Cut(nonces, file[..blocks * READ_CHUNK_SIZE]));
            |items| == blocks && Channels.AllFullBlocks(items)
  {
    CutIsFull(nonces, file[..blocks * READ_CHUNK_SIZE]);
  }

  predicate FullPayloads(items: seq<F.Item>) {
    forall i :: 0 <= i < |items| ==> |items[i].payload| == READ_CHUNK_SIZE
  }

  lemma FullFirst(first: F.Item, rest: seq<F.Item>)
    requires |first.payload| == READ_CHUNK_SIZE && FullPayloads(rest)
    ensures FullPayloads([first] + rest)
  {}

  lemma {:induction false} CutIsFull(nonces: seq<Nonce>, f: seq<byte>)
    requires |nonces| >= Ceil(|f|) && |f| % READ_CHUNK_SIZE == 0
    ensures FullPayloads(Cut(nonces, f))
    decreases |f|
  {
    if f != [] {
      CutOnce(nonces, f);
      CutIsFull(nonces[1..], f[READ_CHUNK_SIZE..]);
      FullFirst(F.Item(nonces[0], f[..READ_CHUNK_SIZE]), Cut(nonces[1..], f[READ_CHUNK_SIZE..]));
    }
  }

  /** The server of an upload, run on what is in its inbox as long as blocks fit. */
  function ServerDrains(s: UC.State): UC.State
    decreases |s.up.items|
  {
    if UC.Enabled(s, UC.ServerStep) && s.server.Receiving? && s.up.items != [] && UC.ServerNext(s).server.Receiving?
    then ServerDrains(UC.ServerNext(s)) else s
  }

  /** The client of a download, likewise. */
  function ClientDrains(s: DC.State): DC.State
    decreases |s.down.items|
  {
    if DC.Enabled(s, DC.ClientStep) && s.client.Receiving? && s.down.items != [] && DC.ClientNext(s).client.Receiving?
    then ClientDrains(DC.ClientNext(s)) else s
  }

  lemma LengthsTail(items: seq<F.Item>)
    requires items != []
    ensures Lengths(items)[0] == Channels.Block(|items[0].payload|) && Lengths(items)[1..] == Lengths(items[1..])
  {}

  /** One turn of either end on a block of the length it expects. */
  lemma ServerTakesOne(s: UC.State, items: seq<F.Item>)
    requires s.server.Receiving? && s.server.got < s.size && items != [] && s.up.items == Lengths(items)
    ensures var p := items[0].payload;
            if |p| == Min(READ_CHUNK_SIZE, s.size - s.server.got)
            then ServerDrains(s) == ServerDrains(s.(server := UC.Receiving(s.server.got + |p|),
                                                    up := Channels.Channel(Lengths(items[1..]), s.up.closed)))
            else ServerDrains(s) == s
  {
    LengthsTail(items);
  }

  lemma ClientTakesOne(s: DC.State, items: seq<F.Item>)
    requires s.client.Receiving? && s.client.got < s.size && items != [] && s.down.items == Lengths(items)
    ensures var p := items[0].payload;
            if |p| == Min(READ_CHUNK_SIZE, s.size - s.client.got)
            then ClientDrains(s) == ClientDrains(s.(client := DC.Receiving(s.client.got + |p|),
                                                    down := Channels.Channel(Lengths(items[1..]), s.down.closed)))
            else ClientDrains(s) == s
  {
    LengthsTail(items);
  }

  lemma {:induction false} ServerTakes(s: UC.State, items: seq<F.Item>)
    requires s.server.Receiving? && s.server.got <= s.size && s.up.items == Lengths(items)
    ensures ServerDrains(s).server == UC.Receiving(s.server.got + |Taken(items, s.size - s.server.got)|)
    decreases |items|
  {
    if items != [] && s.server.got < s.size {
      ServerTakesOne(s, items);
      var n := |items[0].payload|;
      if n == Min(READ_CHUNK_SIZE, s.size - s.server.got) {
        var up := Channels.Channel(Lengths(items[1..]), s.up.closed);
        ServerTakes(s.(server := UC.Receiving(s.server.got + n), up := up), items[1..]);
      }
    }
  }

  lemma {:induction false} ClientTakes(s: DC.State, items: seq<F.Item>)
    requires s.client.Receiving? && s.client.got <= s.size && s.down.items == Lengths(items)
    ensures ClientDrains(s).client == DC.Receiving(s.client.got + |Taken(items, s.size - s.client.got)|)
    decreases |items|
  {
    if items != [] && s.client.got < s.size {
      ClientTakesOne(s, items);
      var n := |items[0].payload|;
      if n == Min(READ_CHUNK_SIZE, s.size - s.client.got) {
        var down := Channels.Channel(Lengths(items[1..]), s.down.closed);
        ClientTakes(s.(client := DC.Receiving(s.client.got + n), down := down), items[1..]);
      }
    }
  }

  /** The server of an upload with a sealed stream in its inbox takes as many bytes as the
      receiver's loop takes from that stream. */
  lemma ServerTakesTheStream(s: UC.State, c: Cipher, log: Log, items: seq<F.Item>)
    requires c.Valid() && F.AllSealed(log, items)
    requires s.server.Receiving? && s.server.got <= s.size && s.up.items == Lengths(items)
    ensures ServerDrains(s).server
         == UC.Receiving(s.server.got + |Receive(c, log, BlockStream(c, items), s.size - s.server.got).stored|)
  {
    ServerTakes(s, items);
    ReceivesExactly(c, log, items, s.size - s.server.got);
  }

  /** And so does the client of a download. */
  lemma ClientTakesTheStream(s: DC.State, c: Cipher, log: Log, items: seq<F.Item>)
    requires c.Valid() && F.AllSealed(log, items)
    requires s.client.Receiving? && s.client.got <= s.size && s.down.items == Lengths(items)
    ensures ClientDrains(s).client
         == DC.Receiving(s.client.got + |Receive(c, log, BlockStream(c, items), s.size - s.client.got).stored|)
  {
    ClientTakes(s, items);
    ReceivesExactly(c, log, items, s.size - s.client.got);
  }
}
