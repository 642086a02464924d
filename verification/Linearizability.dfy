/** Accepted downloads read an atomic register per path. */
module Linearizability {
  import opened Common
  import opened FileStore

  /** The upload whose metadata save on this path completed last. */
  function LastCommit(run: Run, p: Path): Option<OpId> {
    if run == [] then None
    else
      var init, a := run[..|run| - 1], run[|run| - 1];
      if a.SaveEnd? && a.o in After(init).ops && After(init).ops[a.o].req.path == p then Some(a.o)
      else LastCommit(init, p)
  }

  /** When a download read the metadata. */
  function ReadPoint(run: Run, o: OpId): Option<nat> {
    if run == [] then None
    else if run[|run| - 1] == ReadMeta(o) then Some(|run| - 1)
    else ReadPoint(run[..|run| - 1], o)
  }

  /** u is an upload to p that committed the record, and received what it says. */
  ghost predicate Committed(s: State, u: OpId, p: Path, rec: Record) {
    && u in s.ops && s.ops[u].committed && s.ops[u].req.Upload?
    && s.ops[u].req.path == p && RecordOf(s.ops[u].req) == rec
    && Sha256Of(s.ops[u].received) == rec.hash && |s.ops[u].received| == rec.size
  }

  ghost predicate UploadSound(op: Op) {
    && (op.req.Upload? && (op.pc.Arrived? || op.pc.Held? || op.pc.Locked?) ==> op.received == [])
    && (op.req.Upload? && op.pc.Receiving? ==> |op.received| <= op.req.size)
    && (op.committed ==> op.pc.Saved? || op.pc.Unlocked? || op.pc.Ended?)
    && (op.committed || op.pc.Saving? || op.pc.HalfSaved? ==>
          op.req.Upload? && Sha256Of(op.received) == op.req.hash && |op.received| == op.req.size)
  }

  ghost predicate UploadsSound(s: State) {
    forall u :: u in s.ops ==> UploadSound(s.ops[u])
  }

  ghost predicate MetasSound(run: Run) {
    var s := After(run);
    forall p :: p in s.metas && s.metas[p].Whole? ==>
      var u := LastCommit(run, p);
      u.Some? && Committed(s, u.value, p, s.metas[p].rec)
  }

  /** What the download was told is what the last commit before its read wrote. */
  ghost predicate ToldTheLast(run: Run, o: OpId)
    requires o in After(run).ops && After(run).ops[o].meta.Some?
  {
    var s := After(run);
    var k := ReadPoint(run, o);
    && k.Some? && k.value < |run|
    && var u := LastCommit(run[..k.value], s.ops[o].req.path);
       u.Some? && Committed(s, u.value, s.ops[o].req.path, s.ops[o].meta.value)
  }

  ghost predicate AcceptedMatches(op: Op) {
    op.accepted.Some? ==>
      && op.meta.Some? && !op.pc.Locked? && !op.pc.Held? && !op.pc.Arrived?
      && op.accepted.value.0 == op.meta.value.name
      && Sha256Of(op.accepted.value.1) == op.meta.value.hash
  }

  ghost predicate TellsOnce(op: Op) {
    op.meta.Some? ==> !op.pc.Locked? && !op.pc.Held? && !op.pc.Arrived?
  }

  lemma UploadStaysSound(s: State, a: Action, u: OpId)
    requires u in s.ops && UploadSound(s.ops[u])
    ensures u in Next(s, a).ops && UploadSound(Next(s, a).ops[u])
  {
    if Enabled(s, a) && a.o == u { OwnStepStaysSound(s, a); } else { OpFrame(s, a, u); }
  }

  lemma OwnStepStaysSound(s: State, a: Action)
    requires Enabled(s, a) && !a.Begin? && UploadSound(s.ops[a.o])
    ensures UploadSound(Effect(s, a).ops[a.o])
  {}

  lemma UploadsStaySound(s: State, a: Action)
    requires UploadsSound(s)
    ensures UploadsSound(Next(s, a))
  {
    forall u | u in Next(s, a).ops ensures UploadSound(Next(s, a).ops[u]) {
      if u in s.ops { UploadStaysSound(s, a, u); } else { OnlyBeginAdds(s, a, u); }
    }
  }

  lemma CommittedPersists(s: State, a: Action, u: OpId, p: Path, rec: Record)
    requires UploadsSound(s) && Committed(s, u, p, rec)
    ensures Committed(Next(s, a), u, p, rec)
  {
    OpFrame(s, a, u);
  }

  lemma {:induction false} RunIsSound(run: Run)
    requires Legal(run)
    ensures UploadsSound(After(run)) && MetasSound(run)
  {
    if run != [] {
      var init, a := run[..|run| - 1], run[|run| - 1];
      var s, s' := After(init), After(run);
      RunIsSound(init);
      UploadsStaySound(s, a);
      forall p | p in s'.metas && s'.metas[p].Whole?
        ensures LastCommit(run, p).Some? && Committed(s', LastCommit(run, p).value, p, s'.metas[p].rec)
      {
        if a.SaveEnd? && s.ops[a.o].req.path == p {
        } else {
          assert p in s.metas && s.metas[p] == s'.metas[p];
          CommittedPersists(s, a, LastCommit(init, p).value, p, s.metas[p].rec);
        }
      }
    }
  }

  lemma AcceptStep(s: State, a: Action, o: OpId)
    requires o in s.ops && AcceptedMatches(s.ops[o]) && TellsOnce(s.ops[o])
    ensures o in Next(s, a).ops && AcceptedMatches(Next(s, a).ops[o]) && TellsOnce(Next(s, a).ops[o])
  {
    if Enabled(s, a) && a.o == o { OwnAcceptStep(s, a); } else { OpFrame(s, a, o); }
  }

  lemma OwnAcceptStep(s: State, a: Action)
    requires Enabled(s, a) && !a.Begin? && AcceptedMatches(s.ops[a.o]) && TellsOnce(s.ops[a.o])
    ensures AcceptedMatches(Effect(s, a).ops[a.o]) && TellsOnce(Effect(s, a).ops[a.o])
  {}

  lemma {:induction false} AcceptedMatchesTold(run: Run, o: OpId)
    ensures o in After(run).ops ==> AcceptedMatches(After(run).ops[o]) && TellsOnce(After(run).ops[o])
  {
    if run != [] {
      var init, a := run[..|run| - 1], run[|run| - 1];
      AcceptedMatchesTold(init, o);
      if o in After(init).ops {
        AcceptStep(After(init), a, o);
      } else if o in After(run).ops {
        OnlyBeginAdds(After(init), a, o);
      }
    }
  }

  lemma {:induction false} DownloadIsToldTheLast(run: Run, o: OpId)
    requires Legal(run) && o in After(run).ops && After(run).ops[o].meta.Some?
    ensures ToldTheLast(run, o)
  {
    var init, a := run[..|run| - 1], run[|run| - 1];
    var s := After(init);
    RunIsSound(init);
    if a == ReadMeta(o) {
      var p := s.ops[o].req.path;
      CommittedPersists(s, a, LastCommit(init, p).value, p, s.metas[p].rec);
    } else {
      if o !in s.ops { OnlyBeginAdds(s, a, o); }
      OpFrame(s, a, o);
      DownloadIsToldTheLast(init, o);
      var k := ReadPoint(init, o).value;
      assert run[..k] == init[..k];
      var p := s.ops[o].req.path;
      CommittedPersists(s, a, LastCommit(init[..k], p).value, p, s.ops[o].meta.value);
    }
  }

  /** In every run, whatever the interleaving and whatever fails, a download that the
      client accepts returns exactly the name and the bytes of the upload whose metadata
      save on that path was the last one before the download read the metadata. No
      exclusion between operations is needed for this. */
  lemma AcceptedDownloadIsLinearizable(run: Run, o: OpId) returns (k: nat, u: OpId)
    requires Legal(run) && o in After(run).ops && After(run).ops[o].accepted.Some?
    ensures k < |run| && run[k] == ReadMeta(o)
    ensures LastCommit(run[..k], After(run).ops[o].req.path) == Some(u)
    ensures u in After(run).ops && After(run).ops[u].req.Upload?
    ensures After(run).ops[o].accepted == Some((After(run).ops[u].req.name, After(run).ops[u].received))
  {
    AcceptedMatchesTold(run, o);
    DownloadIsToldTheLast(run, o);
    k := ReadPoint(run, o).value;
    ReadPointIsARead(run, o);
    u := LastCommit(run[..k], After(run).ops[o].req.path).value;
    assert Sha256Of(After(run).ops[o].accepted.value.1) == Sha256Of(After(run).ops[u].received);
  }

  lemma {:induction false} ReadPointIsARead(run: Run, o: OpId)
    ensures ReadPoint(run, o).Some? ==> ReadPoint(run, o).value < |run| && run[ReadPoint(run, o).value] == ReadMeta(o)
  {
    if run != [] && run[|run| - 1] != ReadMeta(o) { ReadPointIsARead(run[..|run| - 1], o); }
  }

  /** LastCommit is what its name says: a save on the path with none after it. */
  lemma {:induction false} LastCommitIsTheLast(run: Run, p: Path) returns (c: nat)
    requires LastCommit(run, p).Some?
    ensures c < |run| && run[c] == SaveEnd(LastCommit(run, p).value)
    ensures run[c].o in After(run[..c]).ops && After(run[..c]).ops[run[c].o].req.path == p
    ensures forall j :: c < j < |run| && run[j].SaveEnd? && run[j].o in After(run[..j]).ops ==>
              After(run[..j]).ops[run[j].o].req.path != p
  {
    var init, a := run[..|run| - 1], run[|run| - 1];
    if a.SaveEnd? && a.o in After(init).ops && After(init).ops[a.o].req.path == p {
      c := |run| - 1;
    } else {
      c := LastCommitIsTheLast(init, p);
      assert forall j :: 0 <= j < |run| ==> run[..j] == init[..j];
    }
  }

  predicate SavesTo(s: State, a: Action, p: Path) {
    (a.SaveBegin? || a.SaveEnd?) && a.o in s.ops && s.ops[a.o].req.path == p
  }

  function RecordAt(s: State, p: Path): Option<MetaFile> {
    if p in s.metas then Some(s.metas[p]) else None
  }

  predicate NoSaveFrom(run: Run, k: nat, p: Path) {
    |run| <= k ||
    (NoSaveFrom(run[..|run| - 1], k, p) && !SavesTo(After(run[..|run| - 1]), run[|run| - 1], p))
  }

  /** What downloads of a path will read, a half-written record included, stays as it is
      however long the run goes on without a metadata save on that path. */
  lemma {:induction false} OnlySavesTouchRecords(run: Run, later: Run, p: Path)
    requires run <= later && NoSaveFrom(later, |run|, p)
    ensures RecordAt(After(later), p) == RecordAt(After(run), p)
    ensures LastCommit(later, p) == LastCommit(run, p)
    decreases |later|
  {
    if |run| < |later| {
      var init, a := later[..|later| - 1], later[|later| - 1];
      OnlySavesTouchRecords(run, init, p);
      RecordFrame(After(init), a, p);
    } else {
      assert run == later;
    }
  }

  lemma RecordFrame(s: State, a: Action, p: Path)
    requires !SavesTo(s, a, p)
    ensures RecordAt(Next(s, a), p) == RecordAt(s, p)
  {}

  /** And an upload whose bytes do not have the announced size and hash never saves. */
  lemma {:induction false} OnlyMatchesAreSaved(run: Run, o: OpId)
    requires Legal(run) && (SaveBegin(o) in run || SaveEnd(o) in run)
    ensures o in After(run).ops && After(run).ops[o].req.Upload?
    ensures !After(run).ops[o].pc.Receiving? && !After(run).ops[o].pc.Arrived? && !After(run).ops[o].pc.Held?
    ensures !After(run).ops[o].pc.Locked?
    ensures Sha256Of(After(run).ops[o].received) == After(run).ops[o].req.hash
    ensures |After(run).ops[o].received| == After(run).ops[o].req.size
  {
    var init, a := run[..|run| - 1], run[|run| - 1];
    RunIsSound(init);
    if a == SaveBegin(o) || a == SaveEnd(o) {
      assert UploadSound(After(init).ops[o]);
    } else {
      assert SaveBegin(o) in init || SaveEnd(o) in init;
      OnlyMatchesAreSaved(init, o);
    }
    OpFrame(After(init), a, o);
    PastReceiving(After(init), a, o);
  }

  lemma PastReceiving(s: State, a: Action, o: OpId)
    requires o in s.ops && s.ops[o].req.Upload?
    requires !s.ops[o].pc.Receiving? && !s.ops[o].pc.Arrived? && !s.ops[o].pc.Held? && !s.ops[o].pc.Locked?
    ensures var pc := Next(s, a).ops[o].pc; !pc.Receiving? && !pc.Arrived? && !pc.Held? && !pc.Locked?
  {}
}
