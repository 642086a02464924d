/** Per-id mutual exclusion: when it holds, and that the condition cannot be dropped. */
module Exclusion {
  import opened Common
  import opened FileStore

  /** No other operation holds a handle on the id when `o` removes the table entry. */
  ghost predicate CleanRelease(s: State, o: OpId) {
    o in s.ops ==>
      forall p :: p in s.ops && p != o && s.ops[p].req.path.id == s.ops[o].req.path.id ==> s.ops[p].handle == None
  }

  ghost predicate CleanRun(run: Run) {
    run == [] ||
    (CleanRun(run[..|run| - 1])
     && (run[|run| - 1].Release? ==> CleanRelease(After(run[..|run| - 1]), run[|run| - 1].o)))
  }

  ghost predicate NamesTableLock(s: State, op: Op) {
    && (op.handle.Some? ==> op.req.path.id in s.table && op.handle == Some(s.table[op.req.path.id]))
    && (op.guard != NoGuard ==> op.handle.Some?)
  }

  /** All live handles of an id name the table's lock object, and guards come with handles. */
  ghost predicate OneLockPerId(s: State) {
    forall p :: p in s.ops ==> NamesTableLock(s, s.ops[p])
  }

  /** Different ids have different lock objects. */
  ghost predicate LocksDistinct(s: State) {
    forall id, jd :: id in s.table && jd in s.table && s.table[id] == s.table[jd] ==> id == jd
  }

  /** A lock object is one id's, in every run: in the table and in all handles. */
  ghost predicate OneIdPerLock(s: State) {
    && LocksDistinct(s)
    && (forall p, q :: p in s.ops && q in s.ops && s.ops[p].handle.Some? && s.ops[p].handle == s.ops[q].handle ==>
          s.ops[p].req.path.id == s.ops[q].req.path.id)
    && (forall p, id :: p in s.ops && id in s.table && s.ops[p].handle == Some(s.table[id]) ==>
          s.ops[p].req.path.id == id)
  }

  /** Two guards on one lock are both read guards. */
  ghost predicate GuardsCompatible(s: State) {
    forall p, q ::
      (p in s.ops && q in s.ops && p != q && s.ops[p].guard == WriteGuard
       && s.ops[p].handle.Some? && s.ops[p].handle == s.ops[q].handle)
      ==> s.ops[q].guard == NoGuard
  }

  /** A writer of an id never coexists with another reader or writer of it. */
  ghost predicate Exclusive(s: State) {
    forall p, q ::
      (p in s.ops && q in s.ops && p != q && s.ops[p].guard == WriteGuard
       && s.ops[p].req.path.id == s.ops[q].req.path.id)
      ==> s.ops[q].guard == NoGuard
  }

  /** A handle is held from `hold_file_lock` to the end, a guard after `try_read` or
      `try_write`. */
  ghost predicate InOrder(op: Op) {
    && (op.pc.Arrived? || op.pc.Ended? || op.detached ==> op.handle == None)
    && (!op.detached && !op.pc.Arrived? && !op.pc.Ended? ==> op.handle.Some?)
    && (op.handle == None || op.pc.Held? || op.pc.Unlocked? ==> op.guard == NoGuard)
    && (op.handle.Some? && !op.pc.Held? && !op.pc.Unlocked? ==>
          op.guard == if op.req.Upload? then WriteGuard else ReadGuard)
    && (op.pc.Held? || op.pc.Unlocked? ==> !op.detached)
    && (op.detached ==> op.req.Upload?)
  }

  ghost predicate HandlesInOrder(s: State) {
    forall p :: p in s.ops ==> InOrder(s.ops[p])
  }

  lemma OpStaysInOrder(s: State, a: Action, p: OpId)
    requires p in s.ops && InOrder(s.ops[p])
    ensures p in Next(s, a).ops && InOrder(Next(s, a).ops[p])
  {
    if Enabled(s, a) && a.o == p { OwnStepStaysInOrder(s, a); } else { OpFrame(s, a, p); }
  }

  lemma OwnStepStaysInOrder(s: State, a: Action)
    requires Enabled(s, a) && !a.Begin? && InOrder(s.ops[a.o])
    ensures InOrder(Effect(s, a).ops[a.o])
  {}

  lemma StepKeepsHandlesInOrder(s: State, a: Action)
    requires HandlesInOrder(s)
    ensures HandlesInOrder(Next(s, a))
  {
    forall p | p in Next(s, a).ops ensures InOrder(Next(s, a).ops[p]) {
      if p in s.ops { OpStaysInOrder(s, a, p); } else { OnlyBeginAdds(s, a, p); }
    }
  }

  lemma OpKeepsItsLock(s: State, a: Action, p: OpId)
    requires p in s.ops && InOrder(s.ops[p]) && OneLockPerId(s)
    requires a.Release? ==> CleanRelease(s, a.o)
    ensures p in Next(s, a).ops && NamesTableLock(Next(s, a), Next(s, a).ops[p])
  {
    assert NamesTableLock(s, s.ops[p]);
    TableFrame(s, a);
    LockFrame(s, a, p);
    OpFrame(s, a, p);
    OpStaysInOrder(s, a, p);
    if a.o == p {
      OwnLock(s, a);
    }
  }

  lemma OwnLock(s: State, a: Action)
    requires a.o in s.ops && InOrder(s.ops[a.o]) && NamesTableLock(s, s.ops[a.o])
    ensures NamesTableLock(Next(s, a), Next(s, a).ops[a.o])
  {}

  /** Table entries stay except for a release of their id. */
  lemma TableFrame(s: State, a: Action)
    ensures forall id :: id in s.table && !(a.Release? && a.o in s.ops && s.ops[a.o].req.path.id == id) ==>
              id in Next(s, a).table && Next(s, a).table[id] == s.table[id]
  {
    if !a.Hold? && !a.Release? { TableStands(s, a); }
  }

  lemma StepKeepsOneLock(s: State, a: Action)
    requires HandlesInOrder(s) && OneLockPerId(s)
    requires a.Release? ==> CleanRelease(s, a.o)
    ensures OneLockPerId(Next(s, a))
  {
    forall p | p in Next(s, a).ops ensures NamesTableLock(Next(s, a), Next(s, a).ops[p]) {
      if p in s.ops { OpKeepsItsLock(s, a, p); } else { OnlyBeginAdds(s, a, p); }
    }
  }

  lemma StepKeepsDistinct(s: State, a: Action)
    requires LocksDistinct(s)
    ensures LocksDistinct(Next(s, a))
  {}

  lemma HoldKeepsOneId(s: State, o: OpId, lock: LockId)
    requires OneIdPerLock(s) && Enabled(s, Hold(o, lock))
    ensures OneIdPerLock(Effect(s, Hold(o, lock)))
  {
    StepKeepsDistinct(s, Hold(o, lock));
  }

  lemma StepKeepsOneId(s: State, a: Action)
    requires OneIdPerLock(s) && Enabled(s, a)
    ensures OneIdPerLock(Effect(s, a))
  {
    if a.Hold? {
      HoldKeepsOneId(s, a.o, a.lock);
    } else {
      var s' := Effect(s, a);
      StepKeepsDistinct(s, a);
      forall p | p in s'.ops ensures s'.ops[p].handle.Some? ==>
        p in s.ops && s'.ops[p].handle == s.ops[p].handle && s'.ops[p].req == s.ops[p].req
      {
        if p in s.ops { LockFrame(s, a, p); OpFrame(s, a, p); } else { OnlyBeginAdds(s, a, p); }
      }
      TableShrinks(s, a);
    }
  }

  lemma TableShrinks(s: State, a: Action)
    requires Enabled(s, a) && !a.Hold?
    ensures forall id :: id in Effect(s, a).table ==> id in s.table && Effect(s, a).table[id] == s.table[id]
  {}

  lemma {:induction false} LocksBelongToOneId(run: Run)
    ensures OneIdPerLock(After(run))
  {
    if run != [] {
      LocksBelongToOneId(run[..|run| - 1]);
      if Enabled(After(run[..|run| - 1]), run[|run| - 1]) { StepKeepsOneId(After(run[..|run| - 1]), run[|run| - 1]); }
    }
  }

  lemma PairStaysCompatible(s: State, a: Action, p: OpId, q: OpId)
    requires p in s.ops && q in s.ops && p != q
    requires InOrder(s.ops[p]) && InOrder(s.ops[q]) && GuardsCompatible(s)
    requires p in Next(s, a).ops && q in Next(s, a).ops
    requires var op, oq := Next(s, a).ops[p], Next(s, a).ops[q];
             op.guard == WriteGuard && op.handle.Some? && op.handle == oq.handle
    ensures Next(s, a).ops[q].guard == NoGuard
  {
    OpFrame(s, a, p);
    OpFrame(s, a, q);
    LockFrame(s, a, p);
    LockFrame(s, a, q);
    OpStaysInOrder(s, a, p);
    OpStaysInOrder(s, a, q);
    if a.TryLock? && a.o == p {
    } else if a.TryLock? && a.o == q {
    } else if a.Hold? && a.o == q {
    } else if a.Hold? && a.o == p {
    } else {
      assert s.ops[p].handle == s.ops[q].handle;
    }
  }

  lemma StepKeepsGuards(s: State, a: Action)
    requires HandlesInOrder(s) && OneLockPerId(s) && GuardsCompatible(s)
    ensures GuardsCompatible(Next(s, a))
  {
    var s' := Next(s, a);
    forall p, q | p in s'.ops && q in s'.ops && p != q && s'.ops[p].guard == WriteGuard
      && s'.ops[p].handle.Some? && s'.ops[p].handle == s'.ops[q].handle
      ensures s'.ops[q].guard == NoGuard
    {
      if p !in s.ops { OnlyBeginAdds(s, a, p); }
      if q !in s.ops { OnlyBeginAdds(s, a, q); }
      PairStaysCompatible(s, a, p, q);
    }
  }

  lemma {:induction false} CleanRunsKeepLocks(run: Run)
    requires CleanRun(run)
    ensures HandlesInOrder(After(run)) && OneLockPerId(After(run)) && GuardsCompatible(After(run))
    ensures LocksDistinct(After(run))
  {
    if run != [] {
      var init, a := run[..|run| - 1], run[|run| - 1];
      CleanRunsKeepLocks(init);
      StepKeepsHandlesInOrder(After(init), a);
      StepKeepsOneLock(After(init), a);
      StepKeepsDistinct(After(init), a);
      StepKeepsGuards(After(init), a);
    }
  }

  /** In every run whose releases are clean, whichever early exits are taken, writers
      exclude everybody else of their id; and the reason is that all live handles of an
      id name one lock object. */
  lemma ReadersAndWritersExclude(run: Run)
    requires CleanRun(run)
    ensures Exclusive(After(run)) && OneLockPerId(After(run))
  {
    CleanRunsKeepLocks(run);
  }

  /** Who can lock, in terms of ids and guards: a download unless somebody writes, whoever
      else reads; an upload unless anybody else does either. */
  lemma LocksAreSharedByReaders(run: Run, o: OpId)
    requires CleanRun(run) && o in After(run).ops && After(run).ops[o].pc.Held?
    ensures var s, op := After(run), After(run).ops[o];
            Enabled(s, TryLock(o)) <==>
            forall p :: p in s.ops && p != o && s.ops[p].req.path.id == op.req.path.id ==>
              if op.req.Upload? then s.ops[p].guard == NoGuard else s.ops[p].guard != WriteGuard
  {
    CleanRunsKeepLocks(run);
    var s, op := After(run), After(run).ops[o];
    assert InOrder(op) && NamesTableLock(s, op);
    forall p | p in s.ops && p != o
      ensures s.ops[p].guard != NoGuard ==>
        (s.ops[p].handle == op.handle <==> s.ops[p].req.path.id == op.req.path.id)
    {
      assert NamesTableLock(s, s.ops[p]);
    }
  }

  // ---- The condition is needed -------------------------------------------------

  ghost predicate JoinedBy(s: State, s': State, req: Request, o: OpId) {
    && o in s'.ops && s'.ops[o].req == req
    && s'.ops[o].guard == (if req.Upload? then WriteGuard else ReadGuard)
    && forall p :: p in s.ops ==> p in s'.ops && s'.ops[p] == s.ops[p]
  }

  lemma OneMore(run: Run, a: Action) returns (end: Run)
    requires Legal(run) && Enabled(After(run), a)
    ensures end == run + [a] && run <= end && Legal(end) && After(end) == Effect(After(run), a)
  {
    Snoc(run, a);
    end := run + [a];
  }

  lemma NewcomerLocks(s: State, o: OpId, lock: LockId)
    requires o in s.ops && s.ops[o].pc.Held? && s.ops[o].handle == Some(lock) && s.ops[o].guard == NoGuard
    requires forall p :: p in s.ops && p != o ==> s.ops[p].handle != Some(lock)
    ensures Enabled(s, TryLock(o))
  {}

  ghost predicate KeepsOthers(s: State, s': State) {
    forall p :: p in s.ops ==> p in s'.ops && s'.ops[p] == s.ops[p]
  }

  /** A new operation takes a new lock object from a table without its id. */
  lemma NewcomerHolds(run: Run, req: Request) returns (end: Run, o: OpId, lock: LockId)
    requires Legal(run) && req.path.id !in After(run).table
    ensures run <= end && Legal(end) && o !in After(run).ops && KeepsOthers(After(run), After(end))
    ensures After(end).ops == After(run).ops[o := NewOp(req).(pc := Held, handle := Some(lock))]
    ensures forall p :: p in After(run).ops ==> After(run).ops[p].handle != Some(lock)
  {
    o, lock := FreshNumbers(After(run));
    var run1 := OneMore(run, Begin(o, req));
    Arrives(After(run), o, req, lock);
    end := OneMore(run1, Hold(o, lock));
    HoldsNew(After(run1), o, lock);
  }

  lemma Arrives(s: State, o: OpId, req: Request, lock: LockId)
    requires o !in s.ops && UnusedLock(s, lock)
    ensures Effect(s, Begin(o, req)) == s.(ops := s.ops[o := NewOp(req)])
    ensures Enabled(Effect(s, Begin(o, req)), Hold(o, lock))
  {}

  lemma HoldsNew(s: State, o: OpId, lock: LockId)
    requires Enabled(s, Hold(o, lock)) && s.ops[o].req.path.id !in s.table
    ensures Effect(s, Hold(o, lock)).ops == s.ops[o := s.ops[o].(pc := Held, handle := Some(lock))]
  {}

  /** A new operation gets in from any state in which its id is not in the table. */
  lemma NewcomerGetsIn(run: Run, req: Request) returns (end: Run, o: OpId)
    requires Legal(run) && req.path.id !in After(run).table
    ensures o !in After(run).ops
    ensures run <= end && Legal(end) && JoinedBy(After(run), After(end), req, o)
  {
    var run2, lock;
    run2, o, lock := NewcomerHolds(run, req);
    NewcomerLocks(After(run2), o, lock);
    end := OneMore(run2, TryLock(o));
    LockTaken(After(run2), o);
  }

  lemma LockTaken(s: State, o: OpId)
    requires Enabled(s, TryLock(o))
    ensures var s' := Effect(s, TryLock(o));
            JoinedBy(s.(ops := s.ops - {o}), s', s.ops[o].req, o)
  {}

  lemma FreshNumbers(s: State) returns (o: OpId, lock: LockId)
    ensures o !in s.ops && UnusedLock(s, lock)
  {
    o := SomeNumberIsFree(s.ops.Keys);
    var locks := (set id | id in s.table :: s.table[id])
               + (set p | p in s.ops && s.ops[p].handle.Some? :: s.ops[p].handle.value);
    lock := SomeNumberIsFree(locks);
    forall p | p in s.ops ensures s.ops[p].handle != Some(lock) {
      if s.ops[p].handle.Some? { assert s.ops[p].handle.value in locks; }
    }
    forall id | id in s.table ensures s.table[id] != lock {
      assert s.table[id] in locks;
    }
  }

  /** With somebody's guard standing and the id gone from the table, a new upload
      breaks exclusion. */
  lemma GuardLeftBehind(run: Run, q: OpId) returns (end: Run)
    requires Legal(run) && q in After(run).ops && After(run).ops[q].guard != NoGuard
    requires After(run).ops[q].req.path.id !in After(run).table
    ensures run <= end && Legal(end) && !Exclusive(After(end))
  {
    var o;
    end, o := NewcomerGetsIn(run, Upload(After(run).ops[q].req.path, "", 0, Sha256Of([])));
    assert After(end).ops[o].guard == WriteGuard && After(end).ops[q].guard != NoGuard;
  }

  /** Somebody holds the old lock's handle and only now locks it. */
  lemma LateLocker(run: Run, q: OpId) returns (end: Run)
    requires Legal(run) && q in After(run).ops && After(run).ops[q].req.path.id !in After(run).table
    requires After(run).ops[q].pc.Held? && After(run).ops[q].handle.Some?
    requires forall p :: p in After(run).ops && After(run).ops[p].handle == After(run).ops[q].handle
               ==> After(run).ops[p].guard == NoGuard
    ensures run <= end && Legal(end) && !Exclusive(After(end))
  {
    var run1 := OneMore(run, TryLock(q));
    end := GuardLeftBehind(run1, q);
  }

  /** A release takes away the entry under somebody's guard. */
  lemma ReleaseExposes(run: Run, q: OpId, o: OpId) returns (end: Run)
    requires Legal(run) && q in After(run).ops && o in After(run).ops && q != o
    requires After(run).ops[q].pc.Unlocked? && After(run).ops[o].guard != NoGuard
    requires After(run).ops[q].req.path.id == After(run).ops[o].req.path.id
    ensures run <= end && Legal(end) && !Exclusive(After(end))
  {
    var run1 := OneMore(run, Release(q));
    end := GuardLeftBehind(run1, o);
  }

  /** Somebody is about to release a second time, and takes a third party's entry. */
  lemma LateReleaser(run: Run, q: OpId) returns (end: Run)
    requires Legal(run) && q in After(run).ops && After(run).ops[q].req.path.id !in After(run).table
    requires After(run).ops[q].pc.Unlocked?
    ensures run <= end && Legal(end) && !Exclusive(After(end))
  {
    var run1, o := NewcomerGetsIn(run, Download(After(run).ops[q].req.path));
    end := ReleaseExposes(run1, q, o);
  }

  /** Every release made while another operation holds a handle on the id can be followed
      by a few steps that end with a writer next to another reader or writer. */
  lemma DirtyReleaseBreaksExclusion(run: Run, o: OpId) returns (end: Run)
    requires Legal(run) && CleanRun(run) && Enabled(After(run), Release(o)) && !CleanRelease(After(run), o)
    ensures run + [Release(o)] <= end && Legal(end) && !Exclusive(After(end))
  {
    CleanRunsKeepLocks(run);
    var s := After(run);
    var run1 := OneMore(run, Release(o));
    var s1 := After(run1);
    var id := s.ops[o].req.path.id;
    var q :| q in s.ops && q != o && s.ops[q].req.path.id == id && s.ops[q].handle.Some?;
    assert NamesTableLock(s, s.ops[q]) && InOrder(s.ops[q]);
    if r :| r in s.ops && r != o && s.ops[r].handle == s.ops[q].handle && s.ops[r].guard != NoGuard {
      assert NamesTableLock(s, s.ops[r]);
      end := GuardLeftBehind(run1, r);
    } else if s.ops[q].pc.Held? {
      end := LateLocker(run1, q);
    } else {
      end := LateReleaser(run1, q);
    }
  }
}
