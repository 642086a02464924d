/** What uploads take in and downloads give out, over whole runs. */
module Delivery {
  import opened Common
  import opened FileStore
  import opened Exclusion
  import A = AtRest
  import L = Linearizability

  // ---- Blocks ------------------------------------------------------------------------

  /** Full blocks, and at the end of an upload the remainder. */
  ghost predicate InBlocks(op: Op) {
    && |op.sent| % READ_CHUNK_SIZE == 0
    && (op.req.Upload? ==>
          |op.received| <= op.req.size && (|op.received| % READ_CHUNK_SIZE == 0 || |op.received| == op.req.size))
  }

  lemma StepKeepsBlocks(s: State, a: Action, o: OpId)
    requires o in s.ops && InBlocks(s.ops[o])
    ensures o in Next(s, a).ops && InBlocks(Next(s, a).ops[o])
  {
    if Enabled(s, a) && a.o == o { OwnStepKeepsBlocks(s, a); } else { OthersKeepTheirs(s, a, o); }
  }

  lemma OwnStepKeepsBlocks(s: State, a: Action)
    requires Enabled(s, a) && !a.Begin? && InBlocks(s.ops[a.o])
    ensures InBlocks(Effect(s, a).ops[a.o])
  {}

  lemma {:induction false} TransfersAreInBlocks(run: Run, o: OpId)
    requires o in After(run).ops
    ensures InBlocks(After(run).ops[o])
  {
    if run != [] {
      var init, a := run[..|run| - 1], run[|run| - 1];
      if o in After(init).ops {
        TransfersAreInBlocks(init, o);
        StepKeepsBlocks(After(init), a, o);
      } else {
        OnlyBeginAdds(After(init), a, o);
      }
    }
  }

  // ---- Downloads -----------------------------------------------------------------------

  predicate Reading(op: Op, p: Path) {
    op.req == Download(p) && (op.pc.Told? || op.pc.Streaming?)
  }

  /** A download that has read the record under a committed upload goes through its bytes. */
  ghost predicate OnTrack(s: State, p: Path, x: seq<byte>, rec: Record, op: Op) {
    && op.meta == Some(rec) && (op.pc.Told? ==> op.sent == [])
    && (op.pc.Streaming? ==> p in s.files && op.node == s.files[p] && op.sent <= x)
  }

  ghost predicate AllOnTrack(run: Run, p: Path) {
    A.Stored(run, p) ==>
      var s := After(run);
      var u := s.ops[A.LastCreate(run, p).value];
      u.req.Upload? &&
      forall d :: d in s.ops && Reading(s.ops[d], p) ==> OnTrack(s, p, u.received, RecordOf(u.req), s.ops[d])
  }

  ghost predicate SendsLater(op: Op) {
    op.pc.Arrived? || op.pc.Held? || op.pc.Locked? ==> op.sent == []
  }

  lemma {:induction false} SendingComesLater(run: Run, o: OpId)
    requires o in After(run).ops
    ensures SendsLater(After(run).ops[o])
  {
    if run != [] {
      var init, a := run[..|run| - 1], run[|run| - 1];
      if o in After(init).ops {
        SendingComesLater(init, o);
        if Enabled(After(init), a) && a.o == o {
          OwnSendsLater(After(init), a);
        } else {
          OthersKeepTheirs(After(init), a, o);
        }
      } else {
        OnlyBeginAdds(After(init), a, o);
      }
    }
  }

  lemma OwnSendsLater(s: State, a: Action)
    requires Enabled(s, a) && !a.Begin? && SendsLater(s.ops[a.o])
    ensures SendsLater(Effect(s, a).ops[a.o])
  {}

  lemma WritersHoldTheirGuard(s: State, a: Action)
    requires Enabled(s, a) && A.TouchesDisk(a) && !s.ops[a.o].detached && InOrder(s.ops[a.o])
    ensures s.ops[a.o].guard == WriteGuard
  {}

  /** While somebody reads, nobody touches the path's file or record. */
  lemma ReadersKeepWritersOut(run: Run, a: Action, p: Path, d: OpId)
    requires CleanRun(run) && Enabled(After(run), a) && !A.LateEffect(After(run), a, p)
    requires d in After(run).ops && After(run).ops[d].req == Download(p)
    requires Reading(After(run).ops[d], p) || After(run).ops[d].pc.Locked?
    ensures !(A.TouchesDisk(a) && After(run).ops[a.o].req.path == p)
  {
    CleanRunsKeepLocks(run);
    ReadersAndWritersExclude(run);
    var s := After(run);
    assert InOrder(s.ops[d]);
    if A.TouchesDisk(a) && !s.ops[a.o].detached { WritersHoldTheirGuard(s, a); }
  }

  /** A download's own step, on a file x with its record. */
  lemma OwnStepStaysOnTrack(s: State, a: Action, p: Path, x: seq<byte>, rec: Record)
    requires Enabled(s, a) && !a.Begin? && s.ops[a.o].req == Download(p) && SendsLater(s.ops[a.o])
    requires A.OnDisk(s, p) == (Some(x), Some(Whole(rec)))
    requires Reading(s.ops[a.o], p) ==> OnTrack(s, p, x, rec, s.ops[a.o])
    ensures Reading(Effect(s, a).ops[a.o], p) ==> OnTrack(Effect(s, a), p, x, rec, Effect(s, a).ops[a.o])
  {
    var op := s.ops[a.o];
    if a.SendChunk? {
      var at := |op.sent|;
      assert op.sent + x[at..at + READ_CHUNK_SIZE] == x[..at + READ_CHUNK_SIZE];
    }
  }

  ghost predicate ReadersOnTrack(s: State, p: Path, x: seq<byte>, rec: Record) {
    forall d :: d in s.ops && Reading(s.ops[d], p) ==> OnTrack(s, p, x, rec, s.ops[d])
  }

  lemma QuietReaders(s: State, a: Action, p: Path, x: seq<byte>, rec: Record)
    requires Enabled(s, a) && A.OnDisk(s, p) == (Some(x), Some(Whole(rec))) && ReadersOnTrack(s, p, x, rec)
    requires p in Effect(s, a).files && Effect(s, a).files[p] == s.files[p]
    requires !a.Begin? ==> SendsLater(s.ops[a.o])
    ensures ReadersOnTrack(Effect(s, a), p, x, rec)
  {
    var s' := Effect(s, a);
    forall d | d in s'.ops && Reading(s'.ops[d], p) ensures OnTrack(s', p, x, rec, s'.ops[d]) {
      if d !in s.ops {
        OnlyBeginAdds(s, a, d);
      } else if a.o == d {
        OpFrame(s, a, d);
        OwnStepStaysOnTrack(s, a, p, x, rec);
      } else {
        OthersKeepTheirs(s, a, d);
      }
    }
  }

  lemma QuietDisk(run: Run, a: Action, p: Path)
    requires Legal(run) && Enabled(After(run), a)
    requires a.Begin? || !A.TouchesDisk(a) || After(run).ops[a.o].req.path != p
    ensures p in After(run).files ==>
              p in Effect(After(run), a).files && Effect(After(run), a).files[p] == After(run).files[p]
  {
    A.NodesStayOwned(run);
    if a.Begin? || After(run).ops[a.o].req.path != p {
      A.OtherPathFrame(After(run), a, p);
    } else {
      A.DiskFrame(After(run), a);
    }
  }

  lemma QuietStepStaysOnTrack(run: Run, a: Action, p: Path)
    requires Legal(run) && CleanRun(run) && A.NoLateEffects(run, p) && AllOnTrack(run, p) && Enabled(After(run), a)
    requires A.Stored(run, p) && (a.Begin? || !A.TouchesDisk(a) || After(run).ops[a.o].req.path != p)
    ensures AllOnTrack(run + [a], p)
  {
    var s, u := After(run), A.LastCreate(run, p).value;
    assert (run + [a])[..|run|] == run;
    A.PunctualRunsAreHarmless(run, p);
    A.StoredIsOnDisk(run, p);
    L.RunIsSound(run);
    assert L.UploadSound(s.ops[u]);
    if !a.Begin? { SendingComesLater(run, a.o); }
    QuietDisk(run, a, p);
    QuietReaders(s, a, p, s.ops[u].received, RecordOf(s.ops[u].req));
    A.CommittedKeeps(s, a, u);
    OpFrame(s, a, u);
  }

  lemma {:induction false} ReadersStayOnTrack(run: Run, p: Path)
    requires Legal(run) && CleanRun(run) && A.NoLateEffects(run, p)
    ensures AllOnTrack(run, p)
  {
    if run != [] {
      var init, a := run[..|run| - 1], run[|run| - 1];
      var s := After(init);
      ReadersStayOnTrack(init, p);
      assert init + [a] == run;
      if !a.Begin? && A.TouchesDisk(a) && s.ops[a.o].req.path == p {
        NobodyReads(init, a, p);
      } else if A.Stored(init, p) {
        QuietStepStaysOnTrack(init, a, p);
      } else {
        A.OnlyACommitStores(init, a, p);
        if A.Stored(run, p) { A.LastCreateIsOnPath(init, p); }
      }
    }
  }

  lemma NobodyReads(run: Run, a: Action, p: Path)
    requires Legal(run) && CleanRun(run) && A.NoLateEffects(run, p) && Enabled(After(run), a)
    requires !A.LateEffect(After(run), a, p) && A.TouchesDisk(a) && After(run).ops[a.o].req.path == p
    ensures AllOnTrack(run + [a], p)
  {
    var s, end := After(run), run + [a];
    assert end[..|run|] == run;
    A.OthersStand(s, a);
    forall d | d in After(end).ops && After(end).ops[d].req == Download(p) ensures !Reading(After(end).ops[d], p) {
      if Reading(s.ops[d], p) { ReadersKeepWritersOut(run, a, p, d); }
      if d == a.o { OpFrame(s, a, d); }
    }
    if A.Stored(end, p) {
      A.LastCreateIsOnPath(end, p);
      L.RunIsSound(end);
      assert L.UploadSound(After(end).ops[A.LastCreate(end, p).value]);
    }
  }

  lemma CanGoOnOrEnd(s: State, p: Path, d: OpId, x: seq<byte>, rec: Record)
    requires d in s.ops && s.ops[d].req == Download(p) && s.ops[d].pc.Streaming? && !s.ops[d].detached
    requires OnTrack(s, p, x, rec, s.ops[d]) && A.OnDisk(s, p) == (Some(x), Some(Whole(rec)))
    requires rec.size == |x| && rec.hash == Sha256Of(x)
    ensures Enabled(s, SendChunk(d)) <==> |s.ops[d].sent| + READ_CHUNK_SIZE <= |x|
    ensures Enabled(s, DropGuard(d)) <==> s.ops[d].sent == x
    ensures Enabled(s, Accept(d)) <==> s.ops[d].sent == x && s.ops[d].accepted == None
  {
    if |s.ops[d].sent| >= |x| { assert s.ops[d].sent[..|x|] == x; }
  }

  /** With clean releases and no late file calls: a download that is under way while the
      upload that truncated last has committed has that upload's record, and has sent the
      beginning of its bytes. It goes on as long as a full block is left, it comes to its end
      exactly with all of them, and exactly then the client can accept it. */
  lemma DownloadsDeliver(run: Run, p: Path, d: OpId)
    requires Legal(run) && CleanRun(run) && A.NoLateEffects(run, p) && A.Stored(run, p)
    requires d in After(run).ops && After(run).ops[d].req == Download(p) && After(run).ops[d].pc.Streaming?
    ensures var s, u := After(run), After(run).ops[A.LastCreate(run, p).value];
            && u.req.Upload? && s.ops[d].meta == Some(RecordOf(u.req)) && s.ops[d].sent <= u.received
            && (Enabled(s, SendChunk(d)) <==> |s.ops[d].sent| + READ_CHUNK_SIZE <= |u.received|)
            && (Enabled(s, DropGuard(d)) <==> s.ops[d].sent == u.received)
            && (Enabled(s, Accept(d)) <==> s.ops[d].sent == u.received && s.ops[d].accepted == None)
  {
    ReadersStayOnTrack(run, p);
    A.PunctualRunsAreHarmless(run, p);
    A.StoredIsOnDisk(run, p);
    L.RunIsSound(run);
    CleanRunsKeepLocks(run);
    var s, u := After(run), After(run).ops[A.LastCreate(run, p).value];
    assert InOrder(s.ops[d]) && L.UploadSound(u) && OnTrack(s, p, u.received, RecordOf(u.req), s.ops[d]);
    CanGoOnOrEnd(s, p, d, u.received, RecordOf(u.req));
  }

  // ---- Leaving early -------------------------------------------------------------------

  /** An operation can end at any point, and then takes nothing with it but its own guard and
      handle: the lock table, the disk and everybody else stay as they are. */
  lemma AnybodyCanLeave(s: State, o: OpId)
    requires o in s.ops && !s.ops[o].pc.Ended? && !s.ops[o].detached
    ensures Enabled(s, Exit(o, false))
    ensures var s' := Effect(s, Exit(o, false));
            && s' == s.(ops := s'.ops) && s'.ops.Keys == s.ops.Keys
            && (forall p :: p in s.ops && p != o ==> s'.ops[p] == s.ops[p])
            && s'.ops[o] == s.ops[o].(pc := Ended, handle := None, guard := NoGuard)
  {}

  /** A file call that an upload is about to make still happens if its handler is dropped. */
  lemma DroppedCallsStillHappen(s: State, a: Action)
    requires Enabled(s, a) && A.TouchesDisk(a) && !s.ops[a.o].detached
    ensures Enabled(s, Exit(a.o, true))
    ensures var s' := Effect(s, Exit(a.o, true));
            && s'.table == s.table && s'.ops[a.o].handle == None && s'.ops[a.o].guard == NoGuard
            && Enabled(s', a) && A.LateEffect(s', a, s.ops[a.o].req.path)
  {}

  /** But it is the last thing that happens in that upload's name; a metadata save, which has
      two halves, goes on to its second. */
  lemma LateCallsAreTheLast(s: State, a: Action, b: Action)
    requires Enabled(s, a) && A.TouchesDisk(a) && s.ops[a.o].detached && b.o == a.o
    ensures Enabled(Effect(s, a), b) <==> a.SaveBegin? && b == SaveEnd(a.o)
  {}

  /** The client takes as many bytes as it was told, if their hash is right, and no more. */
  lemma ClientsTakeWhatTheyWereTold(s: State, d: OpId, rec: Record, x: seq<byte>)
    requires d in s.ops && s.ops[d].req.Download? && s.ops[d].meta == Some(rec) && s.ops[d].accepted == None
    requires x <= s.ops[d].sent && |x| == rec.size
    ensures Enabled(s, Accept(d)) <==> Sha256Of(x) == rec.hash
    ensures Sha256Of(x) == rec.hash ==> Effect(s, Accept(d)).ops[d].accepted == Some((rec.name, x))
  {
    assert s.ops[d].sent[..rec.size] == x;
  }
}
