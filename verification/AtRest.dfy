/** The stored file and its metadata agree once an upload has committed: which effects of
    other operations stand in the way of that, and where they come from. */
module AtRest {
  import opened Common
  import opened FileStore
  import opened Exclusion
  import L = Linearizability

  /** The operation that truncated the path's file last. */
  function LastCreate(run: Run, p: Path): Option<OpId> {
    if run == [] then None
    else
      var init, a := run[..|run| - 1], run[|run| - 1];
      if a.Create? && a.o in After(init).ops && After(init).ops[a.o].req.path == p then Some(a.o)
      else LastCreate(init, p)
  }

  // ---- File nodes --------------------------------------------------------------

  /** Every path has a node of its own, and an upload writes to its own path's node or
      to one no path names any more. */
  ghost predicate NodesOwned(s: State) {
    && (forall p :: p in s.files ==> s.files[p] in s.nodes)
    && (forall p, q :: p in s.files && q in s.files && s.files[p] == s.files[q] ==> p == q)
    && (forall o :: o in s.ops && s.ops[o].req.Upload? && s.ops[o].pc.Receiving? ==> OwnsNode(s, s.ops[o]))
  }

  ghost predicate OwnsNode(s: State, op: Op) {
    op.node in s.nodes && forall p :: p in s.files && s.files[p] == op.node ==> p == op.req.path
  }

  /** Only three actions touch nodes and links. */
  lemma NodeFrame(s: State, a: Action)
    requires !a.Create? && !a.WriteOut? && !a.Remove?
    ensures Next(s, a).files == s.files && Next(s, a).nodes == s.nodes
  {}

  /** And only the first of them starts receiving. */
  lemma ReceiverFrame(s: State, a: Action, o: OpId)
    requires !a.Create? && !a.WriteOut? && !a.Remove?
    requires o in Next(s, a).ops && Next(s, a).ops[o].req.Upload? && Next(s, a).ops[o].pc.Receiving?
    ensures o in s.ops && s.ops[o].pc.Receiving? && s.ops[o].req == Next(s, a).ops[o].req
    ensures s.ops[o].node == Next(s, a).ops[o].node
  {}

  lemma CreateKeepsNodes(s: State, a: Action)
    requires NodesOwned(s) && a.Create? && Enabled(s, a)
    ensures NodesOwned(Effect(s, a))
  {
    var s', path := Effect(s, a), s.ops[a.o].req.path;
    var n := if path in s.files then s.files[path] else a.node;
    assert s'.files == s.files[path := n] && s'.nodes == s.nodes[n := []];
    forall o | o in s'.ops && s'.ops[o].req.Upload? && s'.ops[o].pc.Receiving? ensures OwnsNode(s', s'.ops[o]) {
      if o != a.o { assert OwnsNode(s, s.ops[o]); }
    }
  }

  lemma WriteKeepsNodes(s: State, a: Action)
    requires NodesOwned(s) && a.WriteOut? && Enabled(s, a)
    ensures NodesOwned(Effect(s, a))
  {
    var s' := Effect(s, a);
    forall o | o in s'.ops && s'.ops[o].req.Upload? && s'.ops[o].pc.Receiving? ensures OwnsNode(s', s'.ops[o]) {
      assert OwnsNode(s, s.ops[o]);
    }
  }

  lemma RemoveKeepsNodes(s: State, a: Action)
    requires NodesOwned(s) && a.Remove? && Enabled(s, a)
    ensures NodesOwned(Effect(s, a))
  {
    var s' := Effect(s, a);
    forall o | o in s'.ops && s'.ops[o].req.Upload? && s'.ops[o].pc.Receiving? ensures OwnsNode(s', s'.ops[o]) {
      assert OwnsNode(s, s.ops[o]);
    }
  }

  lemma StepKeepsNodes(s: State, a: Action)
    requires NodesOwned(s)
    ensures NodesOwned(Next(s, a))
  {
    if !Enabled(s, a) {
    } else if a.Create? {
      CreateKeepsNodes(s, a);
    } else if a.WriteOut? {
      WriteKeepsNodes(s, a);
    } else if a.Remove? {
      RemoveKeepsNodes(s, a);
    } else {
      NodeFrame(s, a);
      forall o | o in Next(s, a).ops && Next(s, a).ops[o].req.Upload? && Next(s, a).ops[o].pc.Receiving?
        ensures OwnsNode(Next(s, a), Next(s, a).ops[o])
      {
        ReceiverFrame(s, a, o);
        assert OwnsNode(s, s.ops[o]);
      }
    }
  }

  lemma {:induction false} NodesStayOwned(run: Run)
    ensures NodesOwned(After(run))
  {
    if run != [] {
      NodesStayOwned(run[..|run| - 1]);
      StepKeepsNodes(After(run[..|run| - 1]), run[|run| - 1]);
    }
  }

  // ---- Effects that do harm ------------------------------------------------------

  /** An upload whose announced hash and size can still be met, with somebody left to
      carry it on. */
  predicate CanCommit(op: Op) {
    && op.req.Upload? && !op.committed
    && op.req.hash.Sha256Of? && |op.req.hash.content| == op.req.size && op.received <= op.req.hash.content
    && ((op.pc.Receiving? && !op.detached) || op.pc.Saving? || op.pc.HalfSaved?)
  }

  predicate Alive(op: Op) {
    op.committed || CanCommit(op)
  }

  /** Bytes that an upload has not written and will not write over: beyond its size, or
      different from what it has written there. */
  predicate Spoils(u: Op, at: nat, data: seq<byte>)
    requires u.req.Upload?
  {
    || at + |data| > u.req.size
    || exists i :: 0 <= i < |data| && at + i < u.written && at + i < |u.received| && data[i] != u.received[at + i]
  }

  /** The action is another upload's than the one that truncated the file last, which has
      committed or still can, and it spoils the file, removes it, opens the record of a
      committed upload for writing or puts a different one there. */
  predicate Harmful(s: State, a: Action, p: Path, last: Option<OpId>) {
    && a.o in s.ops && last.Some? && last.value in s.ops && last.value != a.o
    && s.ops[a.o].req.Upload? && s.ops[a.o].req.path == p
    && s.ops[last.value].req.Upload? && Alive(s.ops[last.value])
    && var w, u := s.ops[a.o], s.ops[last.value];
       match a
       case WriteOut(_, upTo) =>
         && w.written <= upTo <= |w.received|
         && p in s.files && s.files[p] == w.node && Spoils(u, w.written, w.received[w.written..upTo])
       case Remove(_) => true
       case SaveBegin(_) => u.committed
       case SaveEnd(_) => u.committed && RecordOf(w.req) != RecordOf(u.req)
       case _ => false
  }

  /** No action from the k-th on did harm. */
  predicate HarmlessFrom(run: Run, k: nat, p: Path) {
    |run| <= k ||
    (HarmlessFrom(run[..|run| - 1], k, p)
     && !Harmful(After(run[..|run| - 1]), run[|run| - 1], p, LastCreate(run[..|run| - 1], p)))
  }

  ghost predicate FileHolds(s: State, p: Path, data: seq<byte>) {
    p in s.files && s.files[p] in s.nodes && s.nodes[s.files[p]] == data
  }

  /** If the upload that truncated the file last has committed, the file holds what it
      received, and the record is its own, with that length and that hash. */
  ghost predicate Agreed(run: Run, p: Path) {
    var s, last := After(run), LastCreate(run, p);
    last.Some? && last.value in s.ops && s.ops[last.value].committed ==>
      var u := s.ops[last.value];
      && u.req.Upload? && FileHolds(s, p, u.received)
      && p in s.metas && s.metas[p] == Whole(Record(u.req.name, |u.received|, Sha256Of(u.received)))
  }

  // ---- Without harm they agree -----------------------------------------------------

  /** What the file may hold while the upload goes on: what it has written, and after that
      what it is going to write over. */
  ghost predicate Kept(s: State, op: Op, p: Path)
    requires op.req.Upload?
  {
    && p in s.files && s.files[p] in s.nodes && (op.pc.Receiving? ==> s.files[p] == op.node)
    && op.written <= |op.received| && (!op.pc.Receiving? ==> op.written == |op.received| == op.req.size)
    && HoldsSoFar(s.nodes[s.files[p]], op)
  }

  ghost predicate HoldsSoFar(content: seq<byte>, op: Op)
    requires op.req.Upload? && op.written <= |op.received|
  {
    op.written <= |content| <= op.req.size && content[..op.written] == op.received[..op.written]
  }

  ghost predicate Tracks(s: State, op: Op, p: Path) {
    && op.req.Upload? && op.req.path == p
    && (Alive(op) ==> Kept(s, op, p))
    && (op.committed ==> p in s.metas && s.metas[p] == Whole(RecordOf(op.req)))
  }

  predicate TouchesDisk(a: Action) {
    a.Create? || a.WriteOut? || a.Remove? || a.SaveBegin? || a.SaveEnd?
  }

  lemma DiskFrame(s: State, a: Action)
    requires !TouchesDisk(a)
    ensures Next(s, a).files == s.files && Next(s, a).nodes == s.nodes && Next(s, a).metas == s.metas
  {}

  lemma OthersStand(s: State, a: Action)
    requires Enabled(s, a) && !a.Begin?
    ensures Effect(s, a).ops.Keys == s.ops.Keys
    ensures forall p :: p in s.ops && p != a.o ==> Effect(s, a).ops[p] == s.ops[p]
    ensures !(a.Exit? && a.detach) ==> Effect(s, a).ops[a.o].detached == s.ops[a.o].detached
  {
    ActorStands(s, a);
    forall p | p in s.ops && p != a.o ensures p in Effect(s, a).ops && Effect(s, a).ops[p] == s.ops[p] {
      OthersKeepTheirs(s, a, p);
    }
  }

  lemma ActorStands(s: State, a: Action)
    requires Enabled(s, a) && !a.Begin?
    ensures Effect(s, a).ops.Keys == s.ops.Keys
    ensures !(a.Exit? && a.detach) ==> Effect(s, a).ops[a.o].detached == s.ops[a.o].detached
  {}

  /** Operations on other paths leave this path's file and record alone. */
  lemma OtherPathFrame(s: State, a: Action, p: Path)
    requires NodesOwned(s) && Enabled(s, a) && (a.Begin? || s.ops[a.o].req.path != p)
    ensures p in s.files <==> p in Effect(s, a).files
    ensures p in s.files ==>
              && Effect(s, a).files[p] == s.files[p] && s.files[p] in Effect(s, a).nodes
              && Effect(s, a).nodes[s.files[p]] == s.nodes[s.files[p]]
    ensures p in s.metas ==> p in Effect(s, a).metas && Effect(s, a).metas[p] == s.metas[p]
  {
    if a.WriteOut? { assert OwnsNode(s, s.ops[a.o]); }
  }

  lemma WriteAtFacts(content: seq<byte>, at: nat, data: seq<byte>)
    ensures var r := WriteAt(content, at, data);
            && |r| == Max(|content|, at + |data|)
            && (forall j :: 0 <= j < at && j < |content| ==> r[j] == content[j])
            && (forall j :: 0 <= j < |data| ==> r[at + j] == data[j])
  {}

  lemma WriteAtBehind(content: seq<byte>, at: nat, data: seq<byte>, j: nat)
    requires at + |data| <= j < |content|
    ensures j < |WriteAt(content, at, data)| && WriteAt(content, at, data)[j] == content[j]
  {}

  lemma HarmlessWrite(content: seq<byte>, u: Op, at: nat, data: seq<byte>)
    requires u.req.Upload? && u.written <= |u.received| && HoldsSoFar(content, u) && !Spoils(u, at, data)
    ensures HoldsSoFar(WriteAt(content, at, data), u)
  {
    WriteAtFacts(content, at, data);
    var r := WriteAt(content, at, data);
    forall j | 0 <= j < u.written ensures r[j] == u.received[j] {
      assert content[j] == content[..u.written][j] == u.received[..u.written][j];
      if at <= j < at + |data| {
        assert r[at + (j - at)] == data[j - at];
      } else if j >= at + |data| {
        WriteAtBehind(content, at, data, j);
      }
    }
    assert r[..u.written] == u.received[..u.written];
  }

  lemma WriteEffect(s: State, a: Action)
    requires Enabled(s, a) && a.WriteOut?
    ensures var s', w := Effect(s, a), s.ops[a.o];
            && s'.files == s.files && s'.metas == s.metas
            && s'.nodes == s.nodes[w.node := WriteAt(ContentOf(s, w.node), w.written, w.received[w.written..a.upTo])]
            && s'.ops == s.ops[a.o := Onward(w, Receiving).(written := a.upTo)]
  {}

  lemma OtherWriteKeeps(s: State, a: Action, p: Path, u: OpId)
    requires Enabled(s, a) && a.WriteOut? && a.o != u && s.ops[a.o].req.path == p
    requires u in s.ops && Tracks(s, s.ops[u], p) && !Harmful(s, a, p, Some(u))
    ensures Tracks(Effect(s, a), Effect(s, a).ops[u], p)
  {
    var w, op := s.ops[a.o], s.ops[u];
    WriteEffect(s, a);
    if Alive(op) && s.files[p] == w.node {
      HarmlessWrite(s.nodes[w.node], op, w.written, w.received[w.written..a.upTo]);
    }
  }

  lemma OtherSaveKeeps(s: State, a: Action, p: Path, u: OpId)
    requires Enabled(s, a) && (a.Remove? || a.SaveBegin? || a.SaveEnd?) && a.o != u && s.ops[a.o].req.path == p
    requires u in s.ops && Tracks(s, s.ops[u], p) && !Harmful(s, a, p, Some(u))
    ensures Tracks(Effect(s, a), Effect(s, a).ops[u], p)
  {
    OthersStand(s, a);
  }

  /** What others do. */
  lemma OthersKeep(s: State, a: Action, p: Path, u: OpId)
    requires NodesOwned(s) && Enabled(s, a) && a.o != u && !(a.Create? && s.ops[a.o].req.path == p)
    requires u in s.ops && Tracks(s, s.ops[u], p) && !Harmful(s, a, p, Some(u))
    ensures u in Effect(s, a).ops && Tracks(Effect(s, a), Effect(s, a).ops[u], p)
  {
    if a.Begin? || s.ops[a.o].req.path != p {
      OtherPathFrame(s, a, p);
      if !a.Begin? { OthersStand(s, a); }
    } else if a.WriteOut? {
      OthersStand(s, a);
      OtherWriteKeeps(s, a, p, u);
    } else if a.Remove? || a.SaveBegin? || a.SaveEnd? {
      OthersStand(s, a);
      OtherSaveKeeps(s, a, p, u);
    } else {
      DiskFrame(s, a);
      OthersStand(s, a);
    }
  }

  /** Writing on from what is written, over whatever lies behind it. */
  lemma WriteGrows(content: seq<byte>, received: seq<byte>, written: nat, upTo: nat)
    requires written <= upTo <= |received| && written <= |content| && content[..written] == received[..written]
    ensures var r := WriteAt(content, written, received[written..upTo]);
            |r| == Max(|content|, upTo) && r[..upTo] == received[..upTo]
  {
    var data := received[written..upTo];
    WriteAtFacts(content, written, data);
    var r := WriteAt(content, written, data);
    forall j | 0 <= j < upTo ensures r[j] == received[j] {
      if j < written {
        assert content[j] == content[..written][j] == received[..written][j];
      } else {
        assert r[written + (j - written)] == data[j - written];
      }
    }
  }

  lemma OwnWriteKeeps(s: State, a: Action, p: Path)
    requires Enabled(s, a) && a.WriteOut? && Tracks(s, s.ops[a.o], p) && L.UploadSound(s.ops[a.o])
    ensures Tracks(Effect(s, a), Effect(s, a).ops[a.o], p)
  {
    var op := s.ops[a.o];
    WriteEffect(s, a);
    if CanCommit(op) {
      WriteGrows(s.nodes[op.node], op.received, op.written, a.upTo);
      assert |op.received| <= |op.req.hash.content|;
    }
  }

  lemma OwnSaveKeeps(s: State, a: Action, p: Path)
    requires Enabled(s, a) && (a.Remove? || a.SaveBegin? || a.SaveEnd?)
    requires Tracks(s, s.ops[a.o], p) && L.UploadSound(s.ops[a.o])
    ensures Tracks(Effect(s, a), Effect(s, a).ops[a.o], p)
  {}

  lemma OwnQuietKeeps(s: State, a: Action, p: Path)
    requires Enabled(s, a) && !a.Begin? && !TouchesDisk(a)
    requires Tracks(s, s.ops[a.o], p) && L.UploadSound(s.ops[a.o])
    ensures Tracks(Effect(s, a), Effect(s, a).ops[a.o], p)
  {
    DiskFrame(s, a);
    var op := s.ops[a.o];
    if a.Chunk? && CanCommit(Effect(s, a).ops[a.o]) {
      assert CanCommit(op);
      assert (op.received + a.data)[..op.written] == op.received[..op.written];
    }
  }

  lemma CreateTracks(s: State, a: Action)
    requires NodesOwned(s) && Enabled(s, a) && a.Create? && L.UploadSound(s.ops[a.o])
    ensures Tracks(Effect(s, a), Effect(s, a).ops[a.o], s.ops[a.o].req.path)
  {}

  lemma StepTracks(s: State, a: Action, p: Path, u: OpId)
    requires NodesOwned(s) && L.UploadsSound(s) && Enabled(s, a) && !(a.Create? && s.ops[a.o].req.path == p)
    requires u in s.ops && Tracks(s, s.ops[u], p) && !Harmful(s, a, p, Some(u))
    ensures u in Effect(s, a).ops && Tracks(Effect(s, a), Effect(s, a).ops[u], p)
  {
    if a.o != u {
      OthersKeep(s, a, p, u);
    } else {
      assert L.UploadSound(s.ops[u]);
      if a.WriteOut? {
        OwnWriteKeeps(s, a, p);
      } else if TouchesDisk(a) {
        OwnSaveKeeps(s, a, p);
      } else {
        OwnQuietKeeps(s, a, p);
      }
    }
  }

  lemma {:induction false} LastIsTracked(run: Run, p: Path)
    requires Legal(run) && HarmlessFrom(run, 0, p) && LastCreate(run, p).Some?
    ensures LastCreate(run, p).value in After(run).ops
    ensures Tracks(After(run), After(run).ops[LastCreate(run, p).value], p)
  {
    var init, a := run[..|run| - 1], run[|run| - 1];
    NodesStayOwned(init);
    L.RunIsSound(init);
    if a.Create? && After(init).ops[a.o].req.path == p {
      assert L.UploadSound(After(init).ops[a.o]);
      CreateTracks(After(init), a);
    } else {
      LastIsTracked(init, p);
      StepTracks(After(init), a, p, LastCreate(init, p).value);
    }
  }

  /** In every run, whatever the interleaving and whatever releases, aborts and late file
      calls there are: as long as nothing harmful has happened on the path, file and record
      agree with the upload that truncated last, if that has committed. */
  lemma HarmlessRunsAgree(run: Run, p: Path)
    requires Legal(run) && HarmlessFrom(run, 0, p)
    ensures Agreed(run, p)
  {
    if LastCreate(run, p).Some? {
      LastIsTracked(run, p);
      L.RunIsSound(run);
      var u := After(run).ops[LastCreate(run, p).value];
      assert L.UploadSound(u);
      if u.committed {
        var c := After(run).nodes[After(run).files[p]];
        assert c[..|c|] == c && u.received[..|u.received|] == u.received;
      }
    }
  }

  // ---- Where harm comes from -------------------------------------------------------

  /** A blocking file call that takes effect after its operation's guard is gone. */
  predicate LateEffect(s: State, a: Action, p: Path) {
    TouchesDisk(a) && a.o in s.ops && s.ops[a.o].detached && s.ops[a.o].req.path == p
  }

  predicate NoLateEffects(run: Run, p: Path) {
    run == [] ||
    (NoLateEffects(run[..|run| - 1], p) && !LateEffect(After(run[..|run| - 1]), run[|run| - 1], p))
  }

  /** Between truncating the file and the end of the metadata save, with a guard. */
  predicate Writing(op: Op, p: Path) {
    op.req.Upload? && op.req.path == p && !op.detached
    && (op.pc.Receiving? || op.pc.Mismatched? || op.pc.Saving? || op.pc.HalfSaved?)
  }

  /** Only the upload that truncated last is writing, unless that one is dead. */
  ghost predicate OneWriter(s: State, p: Path, last: Option<OpId>) {
    forall v :: v in s.ops && Writing(s.ops[v], p) ==>
      last.Some? && (last.value == v || (last.value in s.ops && !Alive(s.ops[last.value])))
  }

  ghost predicate Guarded(s: State) {
    HandlesInOrder(s) && Exclusive(s)
  }

  lemma WriterHasGuard(s: State, o: OpId, p: Path)
    requires Guarded(s) && o in s.ops && !s.ops[o].detached && s.ops[o].req.Upload?
    requires s.ops[o].pc.Locked? || Writing(s.ops[o], p)
    ensures s.ops[o].guard == WriteGuard
  {
    assert InOrder(s.ops[o]);
  }

  lemma OwnLife(s: State, a: Action)
    requires Enabled(s, a) && !a.Begin? && !a.Create? && L.UploadSound(s.ops[a.o])
    ensures Alive(Effect(s, a).ops[a.o]) ==> Alive(s.ops[a.o])
  {}

  /** Without a truncation nobody starts writing and nobody comes to life. */
  lemma LifeFrame(s: State, a: Action, o: OpId, p: Path)
    requires Enabled(s, a) && o in s.ops && !(a.Create? && a.o == o) && L.UploadSound(s.ops[o])
    ensures Writing(Effect(s, a).ops[o], p) ==> Writing(s.ops[o], p)
    ensures Alive(Effect(s, a).ops[o]) ==> Alive(s.ops[o])
  {
    if a.o == o {
      OwnLife(s, a);
      if a.Chunk? { assert s.ops[o].received <= s.ops[o].received + a.data; }
    } else {
      OpFrame(s, a, o);
    }
  }

  lemma CreateKeepsOneWriter(s: State, a: Action, p: Path)
    requires Guarded(s) && Enabled(s, a) && a.Create? && s.ops[a.o].req.path == p && L.UploadSound(s.ops[a.o])
    ensures OneWriter(Effect(s, a), p, Some(a.o))
  {
    var s' := Effect(s, a);
    OthersStand(s, a);
    if !s.ops[a.o].detached {
      WriterHasGuard(s, a.o, p);
      forall v | v in s'.ops && Writing(s'.ops[v], p) ensures v == a.o {
        if v != a.o { WriterHasGuard(s, v, p); }
      }
    }
  }

  lemma StepKeepsOneWriter(s: State, a: Action, p: Path, last: Option<OpId>)
    requires L.UploadsSound(s) && Enabled(s, a) && !(a.Create? && s.ops[a.o].req.path == p)
    requires OneWriter(s, p, last) && (last.Some? ==> last.value in s.ops && s.ops[last.value].req.path == p)
    ensures OneWriter(Effect(s, a), p, last)
  {
    var s' := Effect(s, a);
    if last.Some? { LifeFrame(s, a, last.value, p); }
    forall v | v in s'.ops && Writing(s'.ops[v], p)
      ensures last.Some? && (last.value == v || !Alive(s'.ops[last.value]))
    {
      if v !in s.ops { OnlyBeginAdds(s, a, v); } else { OpFrame(s, a, v); LifeFrame(s, a, v, p); }
    }
  }

  lemma {:induction false} CleanRunsHaveOneWriter(run: Run, p: Path)
    requires Legal(run) && CleanRun(run)
    ensures OneWriter(After(run), p, LastCreate(run, p))
    ensures LastCreate(run, p).Some? ==>
              LastCreate(run, p).value in After(run).ops && After(run).ops[LastCreate(run, p).value].req.path == p
  {
    if run != [] {
      var init, a := run[..|run| - 1], run[|run| - 1];
      CleanRunsHaveOneWriter(init, p);
      ReadersAndWritersExclude(init);
      CleanRunsKeepLocks(init);
      L.RunIsSound(init);
      if a.o in After(init).ops {
        OpFrame(After(init), a, a.o);
        assert L.UploadSound(After(init).ops[a.o]);
      }
      if LastCreate(init, p).Some? { OpFrame(After(init), a, LastCreate(init, p).value); }
      if a.Create? && After(init).ops[a.o].req.path == p {
        CreateKeepsOneWriter(After(init), a, p);
      } else {
        StepKeepsOneWriter(After(init), a, p, LastCreate(init, p));
      }
    }
  }

  /** When releases are clean, only file calls that outlive their operations do harm. */
  lemma CleanHarmIsLate(run: Run, a: Action, p: Path)
    requires Legal(run) && CleanRun(run) && Enabled(After(run), a)
    requires Harmful(After(run), a, p, LastCreate(run, p))
    ensures LateEffect(After(run), a, p)
  {
    CleanRunsHaveOneWriter(run, p);
    if Writing(After(run).ops[a.o], p) { assert false; }
  }

  lemma {:induction false} PunctualRunsAreHarmless(run: Run, p: Path)
    requires Legal(run) && CleanRun(run) && NoLateEffects(run, p)
    ensures HarmlessFrom(run, 0, p)
  {
    if run != [] {
      var init, a := run[..|run| - 1], run[|run| - 1];
      PunctualRunsAreHarmless(init, p);
      if Harmful(After(init), a, p, LastCreate(init, p)) { CleanHarmIsLate(init, a, p); }
    }
  }

  /** So with clean releases and no late file calls on the path, they agree. */
  lemma FileAndMetadataAgree(run: Run, p: Path)
    requires Legal(run) && CleanRun(run) && NoLateEffects(run, p)
    ensures Agreed(run, p)
  {
    PunctualRunsAreHarmless(run, p);
    HarmlessRunsAgree(run, p);
  }

  // ---- How long committed bytes survive ----------------------------------------------

  /** The upload that truncated last has committed. */
  predicate Stored(run: Run, p: Path) {
    var last := LastCreate(run, p);
    last.Some? && last.value in After(run).ops && After(run).ops[last.value].committed
  }

  /** The file's bytes and the record, as far as they are there. */
  function OnDisk(s: State, p: Path): (Option<seq<byte>>, Option<MetaFile>) {
    (if p in s.files then Some(ContentOf(s, s.files[p])) else None, L.RecordAt(s, p))
  }

  lemma StoredIsOnDisk(run: Run, p: Path)
    requires Legal(run) && HarmlessFrom(run, 0, p) && Stored(run, p)
    ensures var u := After(run).ops[LastCreate(run, p).value];
            && u.req.Upload?
            && OnDisk(After(run), p)
               == (Some(u.received), Some(Whole(Record(u.req.name, |u.received|, Sha256Of(u.received)))))
  {
    HarmlessRunsAgree(run, p);
  }

  /** Truncating the file, which every overwrite does before it has received anything. */
  predicate Truncates(s: State, a: Action, p: Path) {
    a.Create? && a.o in s.ops && s.ops[a.o].req.path == p
  }

  lemma CreateEmpties(s: State, a: Action, p: Path)
    requires Enabled(s, a) && Truncates(s, a, p)
    ensures OnDisk(Effect(s, a), p) == (Some([]), L.RecordAt(s, p))
    ensures Effect(s, a).ops[a.o].committed == s.ops[a.o].committed
  {}

  /** The truncated file is the one that was there: whoever has it open reads from it. */
  lemma OpenReadersSeeTruncation(s: State, a: Action, p: Path)
    requires Enabled(s, a) && Truncates(s, a, p) && p in s.files
    ensures Effect(s, a).files[p] == s.files[p] && ContentOf(Effect(s, a), s.files[p]) == []
  {}

  /** Of all actions that do no harm, exactly a truncation ends the time of a committed
      upload; and unless that upload was empty, its bytes are lost there and then, while the
      record stays. Whether the overwrite later fails its check, is dropped or goes on makes
      no difference to that. */
  lemma CommittedBytesEndIff(run: Run, a: Action, p: Path)
    requires Legal(run) && HarmlessFrom(run, 0, p) && Stored(run, p) && Enabled(After(run), a)
    requires !Harmful(After(run), a, p, LastCreate(run, p))
    ensures Stored(run + [a], p) <==> !Truncates(After(run), a, p)
    ensures OnDisk(After(run + [a]), p) == OnDisk(After(run), p)
       <==> !(Truncates(After(run), a, p) && After(run).ops[LastCreate(run, p).value].received != [])
    ensures Truncates(After(run), a, p) ==> OnDisk(After(run + [a]), p) == (Some([]), OnDisk(After(run), p).1)
  {
    var s, u, end := After(run), LastCreate(run, p).value, run + [a];
    assert end[..|run|] == run;
    StoredIsOnDisk(run, p);
    if Truncates(s, a, p) {
      CreateEmpties(s, a, p);
      L.RunIsSound(run);
      assert L.UploadSound(s.ops[a.o]);
    } else {
      OpFrame(s, a, u);
      L.RunIsSound(run);
      CommittedKeeps(s, a, u);
      StoredIsOnDisk(end, p);
    }
  }

  lemma CommittedKeeps(s: State, a: Action, u: OpId)
    requires Enabled(s, a) && u in s.ops && s.ops[u].committed && L.UploadSound(s.ops[u])
    ensures u in Effect(s, a).ops && Effect(s, a).ops[u].received == s.ops[u].received
  {
    OpFrame(s, a, u);
  }

  lemma SurvivesOne(run: Run, a: Action, p: Path)
    requires Legal(run) && HarmlessFrom(run, 0, p) && Stored(run, p) && Enabled(After(run), a)
    requires !Harmful(After(run), a, p, LastCreate(run, p)) && !Truncates(After(run), a, p)
    ensures Stored(run + [a], p) && OnDisk(After(run + [a]), p) == OnDisk(After(run), p)
  {
    CommittedBytesEndIff(run, a, p);
  }

  predicate UntouchedFrom(run: Run, k: nat, p: Path) {
    |run| <= k ||
    (UntouchedFrom(run[..|run| - 1], k, p) && !Truncates(After(run[..|run| - 1]), run[|run| - 1], p))
  }

  /** So they survive any harmless stretch of a run in which nobody truncates the file. */
  lemma {:induction false} CommittedBytesSurvive(run: Run, later: Run, p: Path)
    requires run <= later && Legal(later) && HarmlessFrom(later, 0, p) && Stored(run, p)
    requires UntouchedFrom(later, |run|, p)
    ensures Stored(later, p) && OnDisk(After(later), p) == OnDisk(After(run), p)
    decreases |later|
  {
    if |run| < |later| {
      var init := later[..|later| - 1];
      CommittedBytesSurvive(run, init, p);
      SurvivesOne(init, later[|later| - 1], p);
      assert init + [later[|later| - 1]] == later;
    } else {
      assert run == later;
    }
  }

  /** And in every run, once they are lost only a commit of the upload that truncated last
      makes a committed upload of the path's file again. */
  lemma OnlyACommitStores(run: Run, a: Action, p: Path)
    requires Legal(run) && Enabled(After(run), a) && !Stored(run, p)
    ensures Stored(run + [a], p) <==> LastCreate(run, p).Some? && a == SaveEnd(LastCreate(run, p).value)
  {
    var s, end := After(run), run + [a];
    assert end[..|run|] == run;
    L.RunIsSound(run);
    if LastCreate(run, p).Some? { LastCreateIsOnPath(run, p); }
    if Truncates(s, a, p) {
      assert L.UploadSound(s.ops[a.o]);
      CreateEmpties(s, a, p);
    } else if LastCreate(run, p).Some? {
      CommitFrame(s, a, LastCreate(run, p).value);
    }
  }

  lemma CommitFrame(s: State, a: Action, u: OpId)
    requires Enabled(s, a) && u in s.ops && !s.ops[u].committed
    ensures u in Effect(s, a).ops && (Effect(s, a).ops[u].committed <==> a == SaveEnd(u))
  {}

  // ---- Whether there is a file at all ------------------------------------------------

  /** Somebody removed the path's file after it was truncated last. */
  predicate RemovedSince(run: Run, p: Path) {
    run != [] &&
    var init, a := run[..|run| - 1], run[|run| - 1];
    if (a.Create? || a.Remove?) && a.o in After(init).ops && After(init).ops[a.o].req.path == p then a.Remove?
    else RemovedSince(init, p)
  }

  /** In every run: there is a file exactly if it was created and not removed since. */
  lemma {:induction false} FileIsThereIff(run: Run, p: Path)
    requires Legal(run)
    ensures p in After(run).files <==> LastCreate(run, p).Some? && !RemovedSince(run, p)
  {
    if run != [] {
      FileIsThereIff(run[..|run| - 1], p);
      LinkFrame(After(run[..|run| - 1]), run[|run| - 1], p);
    }
  }

  lemma LinkFrame(s: State, a: Action, p: Path)
    requires Enabled(s, a)
    ensures p in Effect(s, a).files <==>
              if a.Create? && s.ops[a.o].req.path == p then true
              else if a.Remove? && s.ops[a.o].req.path == p then false
              else p in s.files
  {}

  lemma {:induction false} RemovedIsOver(run: Run, o: OpId)
    requires Legal(run) && Remove(o) in run
    ensures o in After(run).ops && After(run).ops[o].req.Upload?
    ensures After(run).ops[o].pc.Refused? || After(run).ops[o].pc.Ended?
  {
    var init, a := run[..|run| - 1], run[|run| - 1];
    if a != Remove(o) {
      assert Remove(o) in init;
      RemovedIsOver(init, o);
      OpFrame(After(init), a, o);
    }
  }

  lemma {:induction false} RemovalIsRemembered(run: Run, p: Path, o: OpId)
    requires Legal(run) && LastCreate(run, p) == Some(o) && Remove(o) in run
    ensures RemovedSince(run, p)
    ensures o in After(run).ops && After(run).ops[o].req.path == p
  {
    var init, a := run[..|run| - 1], run[|run| - 1];
    RemovedIsOver(run, o);
    if a.Create? && a.o == o {
      assert Remove(o) in init;
      RemovedIsOver(init, o);
      assert false;
    } else if a == Remove(o) {
      LastCreateIsOnPath(init, p);
      OpFrame(After(init), a, o);
    } else {
      assert Remove(o) in init;
      RemovalIsRemembered(init, p, o);
      OpFrame(After(init), a, o);
    }
  }

  lemma {:induction false} LastCreateIsOnPath(run: Run, p: Path)
    requires LastCreate(run, p).Some?
    ensures LastCreate(run, p).value in After(run).ops && After(run).ops[LastCreate(run, p).value].req.path == p
  {
    var init, a := run[..|run| - 1], run[|run| - 1];
    if !(a.Create? && a.o in After(init).ops && After(init).ops[a.o].req.path == p) { LastCreateIsOnPath(init, p); }
    OpFrame(After(init), a, LastCreate(run, p).value);
  }

  /** In every run: when the upload that truncated a file last has failed its hash check
      and removed it, then until somebody truncates it anew, long after that upload has
      returned, there is no file and no download can open one; while a whole record left
      behind is still that of the last upload to have committed. */
  lemma FailedOverwriteDeletesTheFile(run: Run, p: Path, o: OpId)
    requires Legal(run) && LastCreate(run, p) == Some(o) && Remove(o) in run
    ensures p !in After(run).files
    ensures forall d :: d in After(run).ops && After(run).ops[d].req.path == p ==> !Enabled(After(run), OpenFile(d))
    ensures p in After(run).metas && After(run).metas[p].Whole? ==>
              var u := L.LastCommit(run, p);
              u.Some? && L.Committed(After(run), u.value, p, After(run).metas[p].rec)
  {
    RemovalIsRemembered(run, p, o);
    FileIsThereIff(run, p);
    L.RunIsSound(run);
  }
}
