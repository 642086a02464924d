/** Runs that exist: what the theorems about all runs are not empty of, and a run that
    shows what late effects do. */
module Scenarios {
  import opened Common
  import opened FileStore
  import opened Exclusion
  import A = AtRest
  import L = Linearizability
  import C = Completion

  lemma LegalStep(run: Run, a: Action) returns (end: Run)
    requires Legal(run) && Enabled(After(run), a)
    ensures end == run + [a] && run <= end && Legal(end) && After(end) == Effect(After(run), a)
    ensures CleanRun(run) && (a.Release? ==> CleanRelease(After(run), a.o)) ==> CleanRun(end)
  {
    Snoc(run, a);
    end := run + [a];
    assert end[..|run|] == run;
  }

  /** Nobody has a handle on the id. */
  ghost predicate Idle(run: Run, id: FileId) {
    Legal(run) && forall p :: p in After(run).ops && After(run).ops[p].req.path.id == id ==>
      After(run).ops[p].handle == None
  }

  lemma IdleLockIsFree(run: Run, id: FileId)
    requires Idle(run, id) && id in After(run).table
    ensures forall p :: p in After(run).ops ==> After(run).ops[p].handle != Some(After(run).table[id])
  {
    LocksBelongToOneId(run);
  }

  /** How far an operation has come since `run`, alone: everybody else stands still and
      only this operation has a handle on its id. Its release is then clean. */
  ghost predicate AloneSince(run: Run, end: Run, o: OpId) {
    && Legal(end) && run <= end && (CleanRun(run) ==> CleanRun(end))
    && o !in After(run).ops && o in After(end).ops && !After(end).ops[o].detached
    && (forall p :: p in After(end).ops && p != o ==>
          p in After(run).ops && After(end).ops[p] == After(run).ops[p]
          && (After(end).ops[p].req.path.id == After(end).ops[o].req.path.id ==> After(end).ops[p].handle == None))
    && (forall p :: p in After(run).ops ==> p in After(end).ops)
  }

  lemma AloneStep(run: Run, mid: Run, o: OpId, a: Action) returns (end: Run)
    requires AloneSince(run, mid, o) && Enabled(After(mid), a) && a.o == o && !a.Begin?
    requires !(a.Exit? && a.detach)
    ensures end == mid + [a] && AloneSince(run, end, o) && After(end) == Effect(After(mid), a)
    ensures After(end).ops[o].req == After(mid).ops[o].req
    ensures forall p :: !a.Create? ==> A.LastCreate(end, p) == A.LastCreate(mid, p)
    ensures forall p :: !a.SaveEnd? ==> L.LastCommit(end, p) == L.LastCommit(mid, p)
  {
    end := LegalStep(mid, a);
    assert end[..|mid|] == mid;
    OpFrame(After(mid), a, o);
    A.OthersStand(After(mid), a);
  }

  /** A newcomer to an id whose lock, if there is one, nobody has a handle on. */
  lemma HoldsStates(s: State, o: OpId, req: Request, lock: LockId)
    requires o !in s.ops && UnusedLock(s, lock)
    requires req.path.id in s.table ==> forall p :: p in s.ops ==> s.ops[p].handle != Some(s.table[req.path.id])
    ensures Enabled(s, Begin(o, req)) && Enabled(Effect(s, Begin(o, req)), Hold(o, lock))
    ensures var s' := Effect(Effect(s, Begin(o, req)), Hold(o, lock));
            && o in s'.ops && s'.ops[o] == NewOp(req).(pc := Held, handle := s'.ops[o].handle)
            && s'.files == s.files && s'.nodes == s.nodes && s'.metas == s.metas
            && Enabled(s', TryLock(o))
  {
    Arrives(s, o, req, lock);
    var s1 := Effect(s, Begin(o, req));
    HoldsSome(s1, o, lock);
    var s' := Effect(s1, Hold(o, lock));
    NewcomerLocks(s', o, s'.ops[o].handle.value);
  }

  lemma HoldsLock(run: Run, req: Request) returns (end: Run, o: OpId)
    requires Idle(run, req.path.id)
    ensures AloneSince(run, end, o) && Enabled(After(end), TryLock(o))
    ensures After(end).ops[o] == NewOp(req).(pc := Held, handle := After(end).ops[o].handle)
    ensures After(end).files == After(run).files && After(end).nodes == After(run).nodes
    ensures After(end).metas == After(run).metas
  {
    var lock;
    o, lock := FreshNumbers(After(run));
    if req.path.id in After(run).table { IdleLockIsFree(run, req.path.id); }
    HoldsStates(After(run), o, req, lock);
    var run1 := LegalStep(run, Begin(o, req));
    Arrives(After(run), o, req, lock);
    end := AloneStep(run, run1, o, Hold(o, lock));
  }

  /** An operation on an idle id gets its lock. */
  lemma GetsLock(run: Run, req: Request) returns (end: Run, o: OpId)
    requires Idle(run, req.path.id)
    ensures AloneSince(run, end, o)
    ensures var op := After(end).ops[o]; op == NewOp(req).(pc := Locked, handle := op.handle, guard := op.guard)
    ensures After(end).ops[o].handle.Some?
    ensures After(end).files == After(run).files && After(end).nodes == After(run).nodes
    ensures After(end).metas == After(run).metas
  {
    var run2;
    run2, o := HoldsLock(run, req);
    end := AloneStep(run, run2, o, TryLock(o));
  }

  lemma HoldsSome(s: State, o: OpId, lock: LockId)
    requires Enabled(s, Hold(o, lock))
    ensures var id := s.ops[o].req.path.id;
            var handle := if id in s.table then s.table[id] else lock;
            Effect(s, Hold(o, lock)).ops == s.ops[o := s.ops[o].(pc := Held, handle := Some(handle))]
  {}

  lemma ReceivesOne(run: Run, mid: Run, o: OpId, data: seq<byte>, at: nat, next: nat) returns (end: Run)
    requires AloneSince(run, mid, o) && at < |data| && next == at + Min(READ_CHUNK_SIZE, |data| - at)
    requires var op := After(mid).ops[o];
             op.req.Upload? && op.pc.Receiving? && op.req.size == |data| && op.received == data[..at]
    ensures AloneSince(run, end, o)
    ensures After(end).ops[o] == After(mid).ops[o].(received := data[..next])
    ensures After(end).files == After(mid).files && After(end).nodes == After(mid).nodes
    ensures After(end).metas == After(mid).metas
    ensures forall p :: A.LastCreate(end, p) == A.LastCreate(mid, p)
  {
    end := AloneStep(run, mid, o, Chunk(o, data[at..next]));
    assert data[..at] + data[at..next] == data[..next];
  }

  /** The upload's bytes come in, chunk by chunk. */
  lemma {:induction false} ReceivesAll(run: Run, mid: Run, o: OpId, data: seq<byte>) returns (end: Run)
    requires AloneSince(run, mid, o)
    requires var op := After(mid).ops[o];
             op.req.Upload? && op.pc.Receiving? && op.req.size == |data| && op.received <= data
    ensures AloneSince(run, end, o)
    ensures After(end).ops[o] == After(mid).ops[o].(received := data)
    ensures After(end).files == After(mid).files && After(end).nodes == After(mid).nodes
    ensures After(end).metas == After(mid).metas
    ensures forall p :: A.LastCreate(end, p) == A.LastCreate(mid, p)
    decreases |data| - |After(mid).ops[o].received|
  {
    var op := After(mid).ops[o];
    var at := |op.received|;
    if at == |data| {
      end := mid;
    } else {
      var next := at + Min(READ_CHUNK_SIZE, |data| - at);
      var mid1 := ReceivesOne(run, mid, o, data, at, next);
      end := ReceivesAll(run, mid1, o, data);
    }
  }

  lemma Truncates(run: Run, mid: Run, o: OpId, node: Node) returns (end: Run)
    requires AloneSince(run, mid, o) && Enabled(After(mid), Create(o, node))
    ensures end == mid + [Create(o, node)] && AloneSince(run, end, o)
    ensures After(end) == Effect(After(mid), Create(o, node))
    ensures After(end).ops[o].req == After(mid).ops[o].req
    ensures A.LastCreate(end, After(mid).ops[o].req.path) == Some(o)
  {
    end := AloneStep(run, mid, o, Create(o, node));
    assert end[..|mid|] == mid;
  }

  /** From the lock to the hash comparison. */
  lemma ReachesVerify(run: Run, path: Path, name: string, data: seq<byte>, hash: Digest) returns (end: Run, o: OpId)
    requires Idle(run, path.id)
    ensures AloneSince(run, end, o) && Enabled(After(end), Verify(o))
    ensures var op := After(end).ops[o];
            && op.req == Upload(path, name, |data|, hash) && op.received == data && op.handle.Some?
    ensures A.FileHolds(After(end), path, data) && After(end).metas == After(run).metas
    ensures A.LastCreate(end, path) == Some(o)
  {
    var mid;
    mid, o := GetsLock(run, Upload(path, name, |data|, hash));
    var node := SomeNumberIsFree(After(mid).nodes.Keys);
    mid := Truncates(run, mid, o, node);
    end := ReceivesAll(run, mid, o, data);
    if data != [] {
      A.WriteGrows([], data, 0, |data|);
      var content := WriteAt([], 0, data[0..|data|]);
      assert content == content[..|data|] == data[..|data|] == data;
      end := AloneStep(run, end, o, WriteOut(o, |data|));
    }
  }

  lemma ReachesSaving(run: Run, path: Path, name: string, data: seq<byte>) returns (end: Run, o: OpId)
    requires Idle(run, path.id)
    ensures AloneSince(run, end, o)
    ensures var op := After(end).ops[o];
            && op.req == Upload(path, name, |data|, Sha256Of(data)) && op.pc.Saving? && op.received == data
            && op.handle.Some?
    ensures A.FileHolds(After(end), path, data) && After(end).metas == After(run).metas
    ensures A.LastCreate(end, path) == Some(o)
  {
    var mid;
    mid, o := ReachesVerify(run, path, name, data, Sha256Of(data));
    end := AloneStep(run, mid, o, Verify(o));
  }

  /** And one can be dropped right after it has truncated the file: that is empty, the
      records are as they were, and the id is idle again. */
  lemma AbortedOverwriteExists(run: Run, path: Path, name: string, size: nat, hash: Digest) returns (end: Run, o: OpId)
    requires Idle(run, path.id)
    ensures AloneSince(run, end, o) && Idle(end, path.id)
    ensures A.LastCreate(end, path) == Some(o) && !After(end).ops[o].committed && After(end).ops[o].pc.Ended?
    ensures A.FileHolds(After(end), path, []) && After(end).metas == After(run).metas
  {
    var mid;
    mid, o := GetsLock(run, Upload(path, name, size, hash));
    var node := SomeNumberIsFree(After(mid).nodes.Keys);
    mid := Truncates(run, mid, o, node);
    end := AloneStep(run, mid, o, Exit(o, false));
  }

  /** From every idle state an overwrite can fail its hash check and return: the file is
      gone, the records are as they were, and the id is idle again. */
  lemma FailedOverwriteExists(run: Run, path: Path, name: string, data: seq<byte>, hash: Digest)
    returns (end: Run, o: OpId)
    requires Idle(run, path.id) && hash != Sha256Of(data)
    ensures AloneSince(run, end, o) && Idle(end, path.id)
    ensures A.LastCreate(end, path) == Some(o) && Remove(o) in end && After(end).ops[o].pc.Ended?
    ensures path !in After(end).files && After(end).metas == After(run).metas
  {
    var mid;
    mid, o := ReachesVerify(run, path, name, data, hash);
    mid := AloneStep(run, mid, o, Verify(o));
    mid := AloneStep(run, mid, o, Remove(o));
    assert Remove(o) in mid;
    end := AloneStep(run, mid, o, Exit(o, false));
  }

  lemma IsTold(run: Run, mid: Run, d: OpId, rec: Record) returns (end: Run)
    requires AloneSince(run, mid, d) && After(mid).ops[d].req.Download? && After(mid).ops[d].pc.Locked?
    requires var path := After(mid).ops[d].req.path; path in After(mid).metas && After(mid).metas[path] == Whole(rec)
    ensures AloneSince(run, end, d)
    ensures After(end).files == After(mid).files && After(end).nodes == After(mid).nodes
    ensures After(end).ops[d] == After(mid).ops[d].(pc := Told, meta := Some(rec))
  {
    end := AloneStep(run, mid, d, ReadMeta(d));
  }

  /** A download that comes after it is told the old record and then finds no file. */
  lemma DownloadAfterFailedOverwrite(run: Run, path: Path, name: string, data: seq<byte>, hash: Digest, rec: Record)
    returns (end: Run, d: OpId)
    requires Idle(run, path.id) && hash != Sha256Of(data)
    requires path in After(run).metas && After(run).metas[path] == Whole(rec)
    ensures Legal(end) && d in After(end).ops && After(end).ops[d].req == Download(path)
    ensures After(end).ops[d].pc.Told? && After(end).ops[d].meta == Some(rec) && !Enabled(After(end), OpenFile(d))
  {
    var mid, o := FailedOverwriteExists(run, path, name, data, hash);
    end, d := GetsLock(mid, Download(path));
    end := IsTold(mid, end, d, rec);
  }

  lemma BeginsSave(run: Run, mid: Run, o: OpId) returns (end: Run)
    requires AloneSince(run, mid, o)
    requires After(mid).ops[o].req.Upload? && After(mid).ops[o].pc.Saving?
    ensures AloneSince(run, end, o) && end == mid + [SaveBegin(o)]
    ensures After(end).ops[o] == After(mid).ops[o].(pc := HalfSaved)
    ensures After(end).metas == After(mid).metas[After(mid).ops[o].req.path := Torn]
    ensures After(end).files == After(mid).files && After(end).nodes == After(mid).nodes
    ensures forall p :: A.LastCreate(end, p) == A.LastCreate(mid, p)
  {
    end := AloneStep(run, mid, o, SaveBegin(o));
  }

  lemma EndsSave(run: Run, mid: Run, o: OpId) returns (end: Run)
    requires AloneSince(run, mid, o)
    requires After(mid).ops[o].req.Upload? && After(mid).ops[o].pc.HalfSaved?
    ensures AloneSince(run, end, o) && end == mid + [SaveEnd(o)]
    ensures After(end).ops[o] == After(mid).ops[o].(pc := Saved, committed := true)
    ensures After(end).metas == After(mid).metas[After(mid).ops[o].req.path := Whole(RecordOf(After(mid).ops[o].req))]
    ensures After(end).files == After(mid).files && After(end).nodes == After(mid).nodes
    ensures forall p :: A.LastCreate(end, p) == A.LastCreate(mid, p)
    ensures L.LastCommit(end, After(mid).ops[o].req.path) == Some(o)
  {
    end := AloneStep(run, mid, o, SaveEnd(o));
    assert end[..|mid|] == mid;
  }

  lemma Saves(run: Run, mid: Run, o: OpId) returns (end: Run)
    requires AloneSince(run, mid, o)
    requires After(mid).ops[o].req.Upload? && After(mid).ops[o].pc.Saving? && After(mid).ops[o].handle.Some?
    ensures AloneSince(run, end, o)
    ensures var op, op' := After(mid).ops[o], After(end).ops[o];
            && op' == op.(pc := Saved, committed := true)
            && L.LastCommit(end, op.req.path) == Some(o)
            && After(end).metas == After(mid).metas[op.req.path := Whole(RecordOf(op.req))]
            && A.LastCreate(end, op.req.path) == A.LastCreate(mid, op.req.path)
    ensures After(end).files == After(mid).files && After(end).nodes == After(mid).nodes
  {
    var mid1 := BeginsSave(run, mid, o);
    end := EndsSave(run, mid1, o);
  }

  lemma LeavesIdle(run: Run, mid: Run, o: OpId) returns (end: Run)
    requires AloneSince(run, mid, o) && After(mid).ops[o].pc.Saved?
    ensures AloneSince(run, end, o) && Idle(end, After(mid).ops[o].req.path.id)
    ensures After(end).ops[o].committed == After(mid).ops[o].committed
    ensures After(end).ops[o].received == After(mid).ops[o].received
    ensures forall p :: A.LastCreate(end, p) == A.LastCreate(mid, p) && L.LastCommit(end, p) == L.LastCommit(mid, p)
    ensures After(end).files == After(mid).files && After(end).nodes == After(mid).nodes
    ensures After(end).metas == After(mid).metas
  {
    var mid1 := AloneStep(run, mid, o, DropGuard(o));
    end := AloneStep(run, mid1, o, Release(o));
  }

  /** An upload to an idle id can go all the way, and leaves the id idle. */
  lemma UploadCanCommit(run: Run, path: Path, name: string, data: seq<byte>) returns (end: Run, o: OpId)
    requires Idle(run, path.id)
    ensures AloneSince(run, end, o) && Idle(end, path.id)
    ensures L.LastCommit(end, path) == Some(o) && A.LastCreate(end, path) == Some(o)
    ensures After(end).ops[o].committed && After(end).ops[o].received == data
    ensures A.FileHolds(After(end), path, data)
    ensures After(end).metas == After(run).metas[path := Whole(Record(name, |data|, Sha256Of(data)))]
  {
    var mid;
    mid, o := ReachesSaving(run, path, name, data);
    mid := Saves(run, mid, o);
    end := LeavesIdle(run, mid, o);
  }

  // ---- A download of it --------------------------------------------------------

  lemma StreamsOne(run: Run, mid: Run, o: OpId, data: seq<byte>, at: nat) returns (end: Run)
    requires AloneSince(run, mid, o) && at + READ_CHUNK_SIZE <= |data|
    requires var op := After(mid).ops[o];
             op.req.Download? && op.pc.Streaming? && ContentOf(After(mid), op.node) == data && op.sent == data[..at]
    ensures AloneSince(run, end, o)
    ensures After(end).ops[o] == After(mid).ops[o].(sent := data[..at + READ_CHUNK_SIZE])
    ensures After(end).nodes == After(mid).nodes
  {
    end := AloneStep(run, mid, o, SendChunk(o));
    assert data[..at] + data[at..at + READ_CHUNK_SIZE] == data[..at + READ_CHUNK_SIZE];
  }

  lemma {:induction false} StreamsAll(run: Run, mid: Run, o: OpId, data: seq<byte>, at: nat) returns (end: Run)
    requires AloneSince(run, mid, o) && |data| % READ_CHUNK_SIZE == 0 && at % READ_CHUNK_SIZE == 0 && at <= |data|
    requires var op := After(mid).ops[o];
             op.req.Download? && op.pc.Streaming? && ContentOf(After(mid), op.node) == data && op.sent == data[..at]
    ensures AloneSince(run, end, o)
    ensures After(end).ops[o] == After(mid).ops[o].(sent := data)
    decreases |data| - at
  {
    if at == |data| {
      end := mid;
      assert data[..at] == data;
    } else {
      assert at + READ_CHUNK_SIZE <= |data| && (at + READ_CHUNK_SIZE) % READ_CHUNK_SIZE == 0;
      var mid1 := StreamsOne(run, mid, o, data, at);
      end := StreamsAll(run, mid1, o, data, at + READ_CHUNK_SIZE);
    }
  }

  /** A stored file of a canonical size, with its record, can be downloaded and is then
      accepted as what it is. */
  lemma DownloadCanBeAccepted(run: Run, path: Path, name: string, data: seq<byte>) returns (end: Run, o: OpId)
    requires Idle(run, path.id) && |data| % READ_CHUNK_SIZE == 0
    requires A.FileHolds(After(run), path, data)
    requires path in After(run).metas && After(run).metas[path] == Whole(Record(name, |data|, Sha256Of(data)))
    ensures AloneSince(run, end, o) && After(end).ops[o].accepted == Some((name, data))
  {
    var mid;
    mid, o := GetsLock(run, Download(path));
    mid := IsTold(run, mid, o, Record(name, |data|, Sha256Of(data)));
    mid := Opens(run, mid, o, data);
    mid := StreamsAll(run, mid, o, data, 0);
    assert data[..|data|] == data;
    end := AloneStep(run, mid, o, Accept(o));
  }

  lemma Opens(run: Run, mid: Run, o: OpId, data: seq<byte>) returns (end: Run)
    requires AloneSince(run, mid, o) && After(mid).ops[o].req.Download? && After(mid).ops[o].pc.Told?
    requires A.FileHolds(After(mid), After(mid).ops[o].req.path, data)
    ensures AloneSince(run, end, o)
    ensures After(end).ops[o] == After(mid).ops[o].(pc := Streaming, node := After(end).ops[o].node)
    ensures ContentOf(After(end), After(end).ops[o].node) == data
  {
    end := AloneStep(run, mid, o, OpenFile(o));
  }

  /** From every idle state, any name and any bytes of canonical size can be uploaded and
      then be accepted by a download. */
  lemma RoundTripExists(run: Run, path: Path, name: string, data: seq<byte>) returns (end: Run, o: OpId)
    requires Idle(run, path.id) && |data| % READ_CHUNK_SIZE == 0
    ensures run <= end && Legal(end) && o !in After(run).ops
    ensures o in After(end).ops && After(end).ops[o].accepted == Some((name, data))
  {
    var mid, u := UploadCanCommit(run, path, name, data);
    end, o := DownloadCanBeAccepted(mid, path, name, data);
    assert forall p :: p in After(run).ops ==> p in After(mid).ops;
  }

  /** Exclusion does fail without the side condition: an upload finishes while a download
      has its handle already, and releases. */
  lemma ExclusionCanFail(path: Path, name: string, data: seq<byte>) returns (end: Run)
    ensures Legal(end) && !Exclusive(After(end))
  {
    var mid, o := ReachesSaving([], path, name, data);
    mid := Saves([], mid, o);
    mid := AloneStep([], mid, o, DropGuard(o));
    end := JoinedBeforeRelease(mid, o);
  }

  lemma JoinedBeforeRelease(mid: Run, o: OpId) returns (end: Run)
    requires Legal(mid) && CleanRun(mid) && o in After(mid).ops && After(mid).ops[o].pc.Unlocked?
    ensures Legal(end) && !Exclusive(After(end))
  {
    CleanRunsKeepLocks(mid);
    assert InOrder(After(mid).ops[o]) && NamesTableLock(After(mid), After(mid).ops[o]);
    var q, lock := FreshNumbers(After(mid));
    var req := Download(After(mid).ops[o].req.path);
    var mid1 := LegalStep(mid, Begin(q, req));
    Arrives(After(mid), q, req, lock);
    var mid2 := LegalStep(mid1, Hold(q, lock));
    HoldsSome(After(mid1), q, lock);
    assert After(mid2).ops[o] == After(mid).ops[o];
    assert After(mid2).ops[q].handle.Some?;
    end := DirtyReleaseBreaksExclusion(mid2, o);
  }

  // ---- Late effects ------------------------------------------------------------

  /** A task dropped during its metadata save lets the save happen after a second upload
      has come and gone: releases are clean, the second upload truncated the file last and
      committed, and yet the metadata is the first one's. */
  lemma LateSaveBreaksAgreement(path: Path, name: string, first: seq<byte>, second: seq<byte>)
    returns (end: Run, u: OpId)
    requires first != second
    ensures Legal(end) && CleanRun(end)
    ensures A.LastCreate(end, path) == Some(u) && u in After(end).ops && After(end).ops[u].committed
    ensures A.FileHolds(After(end), path, second) && After(end).ops[u].received == second
    ensures path in After(end).metas && After(end).metas[path] == Whole(Record(name, |first|, Sha256Of(first)))
  {
    var mid, o := ReachesSaving([], path, name, first);
    var mid1 := LegalStep(mid, Exit(o, true));
    A.OthersStand(After(mid), Exit(o, true));
    var mid2;
    mid2, u := UploadCanCommit(mid1, path, name, second);
    var mid3 := LateStep(mid2, SaveBegin(o), path, u);
    end := LateStep(mid3, SaveEnd(o), path, u);
  }

  lemma LateStep(mid: Run, a: Action, path: Path, u: OpId) returns (end: Run)
    requires Legal(mid) && CleanRun(mid) && (a.SaveBegin? || a.SaveEnd?) && Enabled(After(mid), a)
    requires u in After(mid).ops && u != a.o && After(mid).ops[a.o].req.path == path
    ensures Legal(end) && CleanRun(end) && A.LastCreate(end, path) == A.LastCreate(mid, path)
    ensures After(end) == Effect(After(mid), a)
    ensures After(end).files == After(mid).files && After(end).nodes == After(mid).nodes
    ensures u in After(end).ops && After(end).ops[u] == After(mid).ops[u]
  {
    end := LegalStep(mid, a);
    assert end[..|mid|] == mid;
    A.OthersStand(After(mid), a);
  }

  // ---- Dirty releases ------------------------------------------------------------

  lemma Acts(run: Run, a: Action) returns (end: Run)
    requires Legal(run) && Enabled(After(run), a) && !(a.Exit? && a.detach)
    ensures end == run + [a] && Legal(end) && After(end) == Effect(After(run), a)
    ensures C.NoDrops(run) ==> C.NoDrops(end)
    ensures !a.Create? ==> forall p :: A.LastCreate(end, p) == A.LastCreate(run, p)
    ensures a.Create? ==> A.LastCreate(end, After(run).ops[a.o].req.path) == Some(a.o)
  {
    end := OneMore(run, a);
    assert end[..|run|] == run;
  }

  function Entered(req: Request, lock: LockId): Op {
    NewOp(req).(pc := Locked, handle := Some(lock), guard := if req.Upload? then WriteGuard else ReadGuard)
  }

  lemma HoldEffect(s: State, o: OpId, lock: LockId)
    requires Enabled(s, Hold(o, lock)) && s.ops[o].req.path.id !in s.table
    ensures Effect(s, Hold(o, lock)) == s.(ops := s.ops[o := s.ops[o].(pc := Held, handle := Some(lock))],
                                           table := s.table[s.ops[o].req.path.id := lock])
  {}

  lemma TryLockEffect(s: State, o: OpId)
    requires Enabled(s, TryLock(o))
    ensures Effect(s, TryLock(o)) == s.(ops := s.ops[o := s.ops[o].(pc := Locked,
                                          guard := if s.ops[o].req.Upload? then WriteGuard else ReadGuard)])
  {}

  /** The three states in which a newcomer arrives, holds and locks. */
  lemma NewcomerStates(s: State, o: OpId, req: Request, lock: LockId)
    requires o !in s.ops && UnusedLock(s, lock) && req.path.id !in s.table
    ensures Enabled(s, Begin(o, req))
    ensures var s1 := Effect(s, Begin(o, req));
            && Enabled(s1, Hold(o, lock))
            && var s2 := Effect(s1, Hold(o, lock));
               && Enabled(s2, TryLock(o))
               && Effect(s2, TryLock(o)) == s.(ops := s.ops[o := Entered(req, lock)],
                                               table := s.table[req.path.id := lock])
  {
    Arrives(s, o, req, lock);
    var s1 := Effect(s, Begin(o, req));
    HoldEffect(s1, o, lock);
    var s2 := Effect(s1, Hold(o, lock));
    NewcomerLocks(s2, o, lock);
    TryLockEffect(s2, o);
  }

  /** A new operation whose id is not in the table gets a lock of its own. */
  lemma Enters(run: Run, req: Request) returns (end: Run, o: OpId, lock: LockId)
    requires Legal(run) && C.NoDrops(run) && req.path.id !in After(run).table
    ensures Legal(end) && C.NoDrops(end) && o !in After(run).ops
    ensures After(end) == After(run).(ops := After(run).ops[o := Entered(req, lock)],
                                      table := After(run).table[req.path.id := lock])
  {
    o, lock := FreshNumbers(After(run));
    NewcomerStates(After(run), o, req, lock);
    end := Acts(run, Begin(o, req));
    end := Acts(end, Hold(o, lock));
    end := Acts(end, TryLock(o));
  }

  /** A locked upload of x truncates the file and receives x up to its metadata save. */
  lemma Uploads(run: Run, u: OpId, x: seq<byte>) returns (end: Run)
    requires Legal(run) && C.NoDrops(run) && u in After(run).ops
    requires var op := After(run).ops[u];
             op.req.Upload? && op.pc.Locked? && !op.detached && !op.committed && op.received == []
             && op.req.size == |x| && op.req.hash == Sha256Of(x)
    ensures Legal(end) && C.NoDrops(end) && After(end).ops.Keys == After(run).ops.Keys
    ensures forall o :: o in After(run).ops && o != u ==> After(end).ops[o] == After(run).ops[o]
    ensures var op, op' := After(run).ops[u], After(end).ops[u];
            && op' == op.(pc := Saving, received := x, written := |x|, node := op'.node)
            && A.LastCreate(end, op.req.path) == Some(u)
    ensures After(end).table == After(run).table
  {
    var node := SomeNumberIsFree(After(run).nodes.Keys);
    CreateEffect(After(run), u, node);
    var mid := Acts(run, Create(u, node));
    end := C.ToSaving(mid, u);
  }

  lemma CreateEffect(s: State, u: OpId, node: Node)
    requires Enabled(s, Create(u, node)) && !s.ops[u].detached
    ensures var s', op := Effect(s, Create(u, node)), s.ops[u];
            && s'.table == s.table && u in s'.ops
            && s'.ops == s.ops[u := op.(pc := Receiving, node := s'.ops[u].node, written := 0)]
  {}

  lemma JoinsHeld(run: Run, o: OpId, req: Request) returns (end: Run, q: OpId)
    requires Legal(run) && C.NoDrops(run) && req.Upload? && After(run).ops.Keys == {o}
    requires req.path.id in After(run).table
    ensures Legal(end) && C.NoDrops(end) && q != o && After(end).ops.Keys == {o, q}
    ensures After(end).ops[o] == After(run).ops[o] && After(end).table == After(run).table
    ensures After(end).ops[q] == NewOp(req).(pc := Held, handle := Some(After(run).table[req.path.id]))
  {
    var fresh_;
    q, fresh_ := FreshNumbers(After(run));
    var begun := Acts(run, Begin(q, req));
    Arrives(After(run), q, req, fresh_);
    end := Acts(begun, Hold(q, fresh_));
    HoldsSome(After(begun), q, fresh_);
  }

  lemma ReleaseEffect(s: State, o: OpId)
    requires Enabled(s, Release(o))
    ensures Effect(s, Release(o)) == s.(table := s.table - {s.ops[o].req.path.id}, ops := s.ops[o := Ending(s.ops[o])])
  {}

  /** Somebody with a handle on the lock waits while the upload holding it releases. */
  lemma JoinsBeforeRelease(run: Run, o: OpId, req: Request) returns (end: Run, q: OpId)
    requires Legal(run) && C.NoDrops(run) && req.Upload? && After(run).ops.Keys == {o}
    requires After(run).ops[o].pc.Unlocked? && After(run).ops[o].req.path.id == req.path.id
    requires req.path.id in After(run).table
    ensures Legal(end) && C.NoDrops(end) && q != o && After(end).ops.Keys == {o, q}
    ensures After(end).ops[o].handle == None && req.path.id !in After(end).table
    ensures After(end).ops[q] == Entered(req, After(run).table[req.path.id])
  {
    var held;
    held, q := JoinsHeld(run, o, req);
    ReleaseEffect(After(held), o);
    var released := Acts(held, Release(o));
    assert LockFree(After(released), After(run).table[req.path.id], true);
    TryLockEffect(After(released), q);
    end := Acts(released, TryLock(q));
  }

  /** An upload about to release. */
  lemma FirstIsDone(req: Request, x: seq<byte>) returns (end: Run, o: OpId)
    requires req.Upload? && req.size == |x| && req.hash == Sha256Of(x)
    ensures Legal(end) && C.NoDrops(end) && After(end).ops.Keys == {o}
    ensures After(end).ops[o].pc.Unlocked? && After(end).ops[o].req == req && req.path.id in After(end).table
  {
    var lock;
    end, o, lock := Enters([], req);
    end := Uploads(end, o, x);
    end := C.ToCommit(end, o);
    end := Acts(end, DropGuard(o));
  }

  /** With an upload at its metadata save and the id gone from the table, another one
      overtakes it and commits; then the first opens the record. */
  lemma LastOvertakes(run: Run, q: OpId, x: seq<byte>) returns (end: Run)
    requires Legal(run) && C.NoDrops(run) && q in After(run).ops
    requires var op := After(run).ops[q];
             op.req.Upload? && op.pc.Saving? && op.req.size == |x| && op.req.hash == Sha256Of(x)
             && op.req.path.id !in After(run).table
    ensures Legal(end) && C.NoDrops(end) && !A.Agreed(end, After(run).ops[q].req.path)
  {
    var op := After(run).ops[q];
    var w, lock;
    end, w, lock := Enters(run, op.req);
    end := Uploads(end, w, x);
    end := C.ToCommit(end, w);
    assert After(end).ops[q] == op;
    end := Acts(end, SaveBegin(q));
    assert After(end).metas[op.req.path] == Torn && A.LastCreate(end, op.req.path) == Some(w);
  }

  /** No file call took effect late, and yet file and record disagree: one release
      while another upload waits for the lock lets two uploads of the path in, and the one
      that truncated first opens the record after the other has committed. */
  lemma DirtyReleaseBreaksAgreement(path: Path, name: string, x: seq<byte>) returns (end: Run)
    ensures Legal(end) && A.NoLateEffects(end, path) && !A.Agreed(end, path)
  {
    var req := Upload(path, name, |x|, Sha256Of(x));
    var mid, o := FirstIsDone(req, x);
    var q;
    mid, q := JoinsBeforeRelease(mid, o, req);
    mid := Uploads(mid, q, x);
    end := LastOvertakes(mid, q, x);
    C.NoDropsNothingLate(end, path);
  }
}
