/** An upload that can still commit, carried to its end by its own steps alone. */
module Completion {
  import opened Common
  import opened FileStore
  import opened Exclusion
  import A = AtRest

  /** No operation was dropped with a blocking file call outstanding. */
  ghost predicate NoDrops(run: Run) {
    forall a :: a in run ==> !(a.Exit? && a.detach)
  }

  /** Then nothing takes effect late. */
  lemma {:induction false} NoDropsNothingLate(run: Run, p: Path)
    requires NoDrops(run)
    ensures A.NoLateEffects(run, p)
    ensures forall o :: o in After(run).ops ==> !After(run).ops[o].detached
  {
    if run != [] {
      var init, a := run[..|run| - 1], run[|run| - 1];
      NoDropsNothingLate(init, p);
      assert a in run;
      forall o | o in After(run).ops ensures !After(run).ops[o].detached {
        if o in After(init).ops { StaysAttached(After(init), a, o); } else { OnlyBeginAdds(After(init), a, o); }
      }
    }
  }

  lemma StaysAttached(s: State, a: Action, o: OpId)
    requires o in s.ops && !s.ops[o].detached && !(a.Exit? && a.detach)
    ensures o in Next(s, a).ops && !Next(s, a).ops[o].detached
  {}

  /** From mid to end only u acted, and it did not truncate, remove, release or exit. */
  ghost predicate Solo(mid: Run, end: Run, u: OpId) {
    && mid <= end && Legal(end) && u in After(mid).ops && OnlyChanged(After(mid), After(end), u)
    && (forall p :: A.LastCreate(end, p) == A.LastCreate(mid, p))
    && (forall p :: A.LastCreate(mid, p) == Some(u) ==> A.HarmlessFrom(end, |mid|, p))
    && (NoDrops(mid) ==> NoDrops(end))
  }

  ghost predicate OnlyChanged(s: State, s': State, u: OpId) {
    && s'.ops.Keys == s.ops.Keys && s'.table == s.table && s'.files == s.files
    && forall o :: o in s.ops && o != u ==> s'.ops[o] == s.ops[o]
  }

  predicate Plain(a: Action) {
    a.Chunk? || a.WriteOut? || a.Verify? || a.SaveBegin? || a.SaveEnd? || a.DropGuard?
  }

  lemma PlainFrame(s: State, a: Action)
    requires Enabled(s, a) && Plain(a)
    ensures OnlyChanged(s, Effect(s, a), a.o)
  {}

  lemma StartsSolo(mid: Run, u: OpId)
    requires Legal(mid) && u in After(mid).ops
    ensures Solo(mid, mid, u)
  {}

  lemma SoloStep(mid: Run, cur: Run, u: OpId, a: Action) returns (end: Run)
    requires Solo(mid, cur, u) && Enabled(After(cur), a) && Plain(a) && a.o == u
    ensures end == cur + [a] && Solo(mid, end, u) && After(end) == Effect(After(cur), a)
  {
    end := OneMore(cur, a);
    assert end[..|cur|] == cur && end[|cur|] == a;
    PlainFrame(After(cur), a);
    forall p | A.LastCreate(mid, p) == Some(u) ensures A.HarmlessFrom(end, |mid|, p) {
      assert A.HarmlessFrom(cur, |mid|, p) && A.LastCreate(cur, p) == Some(u);
      assert !A.Harmful(After(cur), a, p, Some(u));
    }
  }

  // ---- Receiving the rest ------------------------------------------------------------

  predicate TakingIn(op: Op, x: seq<byte>) {
    op.req.Upload? && op.pc.Receiving? && !op.detached && op.req.size == |x| && op.received <= x
  }

  /** The state once upload u has received the first n bytes of x. */
  function WithReceived(s: State, u: OpId, x: seq<byte>, n: nat): State
    requires u in s.ops && n <= |x|
  {
    s.(ops := s.ops[u := s.ops[u].(received := x[..n])])
  }

  lemma ReceivedTwice(s: State, u: OpId, x: seq<byte>, n: nat)
    requires u in s.ops && n <= |x|
    ensures WithReceived(WithReceived(s, u, x, n), u, x, |x|) == WithReceived(s, u, x, |x|)
    ensures s.ops[u].received == x ==> WithReceived(s, u, x, |x|) == s
  {
    assert WithReceived(WithReceived(s, u, x, n), u, x, |x|).ops == WithReceived(s, u, x, |x|).ops;
    assert x[..|x|] == x;
    if s.ops[u].received == x { assert WithReceived(s, u, x, |x|).ops == s.ops; }
  }

  lemma ChunkEffect(s: State, u: OpId, x: seq<byte>, at: nat, next: nat)
    requires u in s.ops && at < |x| && TakingIn(s.ops[u], x) && s.ops[u].received == x[..at]
    requires next == at + Min(READ_CHUNK_SIZE, |x| - at)
    ensures Enabled(s, Chunk(u, x[at..next])) && Effect(s, Chunk(u, x[at..next])) == WithReceived(s, u, x, next)
  {
    assert x[..at] + x[at..next] == x[..next];
  }

  lemma ReceivesOne(mid: Run, cur: Run, u: OpId, x: seq<byte>, at: nat, next: nat) returns (end: Run)
    requires Solo(mid, cur, u) && at < |x|
    requires TakingIn(After(cur).ops[u], x) && After(cur).ops[u].received == x[..at]
    requires next == at + Min(READ_CHUNK_SIZE, |x| - at)
    ensures Solo(mid, end, u) && After(end) == WithReceived(After(cur), u, x, next)
    ensures TakingIn(After(end).ops[u], x) && After(end).ops[u].received == x[..next]
  {
    ChunkEffect(After(cur), u, x, at, next);
    end := SoloStep(mid, cur, u, Chunk(u, x[at..next]));
  }

  lemma {:induction false} ReceivesRest(mid: Run, cur: Run, u: OpId, x: seq<byte>, at: nat) returns (end: Run)
    requires Solo(mid, cur, u) && at <= |x|
    requires TakingIn(After(cur).ops[u], x) && After(cur).ops[u].received == x[..at]
    ensures Solo(mid, end, u) && After(end) == WithReceived(After(cur), u, x, |x|)
    decreases |x| - at
  {
    if at == |x| {
      ReceivedTwice(After(cur), u, x, at);
      end := cur;
    } else {
      var next := at + Min(READ_CHUNK_SIZE, |x| - at);
      var cur1 := ReceivesOne(mid, cur, u, x, at, next);
      end := ReceivesRest(mid, cur1, u, x, next);
      ReceivedTwice(After(cur), u, x, next);
    }
  }

  /** What is on the disk once the upload has written the rest of x. */
  function Flushed(s: State, op: Op, x: seq<byte>): map<Node, seq<byte>>
    requires op.written <= |x|
  {
    if op.written < |x| then s.nodes[op.node := WriteAt(ContentOf(s, op.node), op.written, x[op.written..])]
    else s.nodes
  }

  lemma WritesRest(mid: Run, cur: Run, u: OpId, x: seq<byte>) returns (end: Run)
    requires Solo(mid, cur, u)
    requires var op := After(cur).ops[u];
             op.req.Upload? && op.pc.Receiving? && !op.detached && op.received == x && op.written <= |x|
    ensures Solo(mid, end, u)
    ensures After(end).ops[u] == After(cur).ops[u].(written := |x|)
    ensures After(end).nodes == Flushed(After(cur), After(cur).ops[u], x) && After(end).metas == After(cur).metas
  {
    var op := After(cur).ops[u];
    if op.written < |x| {
      end := SoloStep(mid, cur, u, WriteOut(u, |x|));
      A.WriteEffect(After(cur), WriteOut(u, |x|));
      assert x[op.written..|x|] == x[op.written..];
    } else {
      end := cur;
    }
  }

  /** A receiving upload receives x, of the announced size, and writes it out. */
  lemma ToVerify(mid: Run, u: OpId, x: seq<byte>) returns (end: Run)
    requires Legal(mid) && u in After(mid).ops
    requires var op := After(mid).ops[u];
             op.req.Upload? && op.pc.Receiving? && !op.detached && op.req.size == |x|
             && op.received <= x && op.written <= |op.received|
    ensures Solo(mid, end, u) && Enabled(After(end), Verify(u))
    ensures After(end).ops[u] == After(mid).ops[u].(received := x, written := |x|)
    ensures After(end).nodes == Flushed(After(mid), After(mid).ops[u], x) && After(end).metas == After(mid).metas
  {
    StartsSolo(mid, u);
    var cur := ReceivesRest(mid, mid, u, x, |After(mid).ops[u].received|);
    assert x[..|x|] == x;
    end := WritesRest(mid, cur, u, x);
  }

  /** If x is what was announced, the upload comes to its metadata save. */
  lemma ToSaving(mid: Run, u: OpId) returns (end: Run)
    requires Legal(mid) && u in After(mid).ops && A.CanCommit(After(mid).ops[u])
    requires After(mid).ops[u].pc.Receiving? && After(mid).ops[u].written <= |After(mid).ops[u].received|
    ensures Solo(mid, end, u)
    ensures var x := After(mid).ops[u].req.hash.content;
            && After(end).ops[u] == After(mid).ops[u].(pc := Saving, received := x, written := |x|)
            && After(mid).ops[u].written <= |x|
            && After(end).nodes == Flushed(After(mid), After(mid).ops[u], x) && After(end).metas == After(mid).metas
  {
    var cur := ToVerify(mid, u, After(mid).ops[u].req.hash.content);
    end := SoloStep(mid, cur, u, Verify(u));
  }

  lemma SaveEffect(s: State, a: Action)
    requires Enabled(s, a) && (a.SaveBegin? || a.SaveEnd?)
    ensures var s', op := Effect(s, a), s.ops[a.o];
            && s'.nodes == s.nodes
            && s'.metas == s.metas[op.req.path := if a.SaveBegin? then Torn else Whole(RecordOf(op.req))]
            && s'.ops[a.o] == if a.SaveBegin? then op.(pc := HalfSaved) else Onward(op, Saved).(committed := true)
  {}

  lemma BeginsSave(mid: Run, u: OpId) returns (end: Run)
    requires Legal(mid) && u in After(mid).ops && After(mid).ops[u].req.Upload? && After(mid).ops[u].pc.Saving?
    ensures Solo(mid, end, u)
    ensures After(end).ops[u] == After(mid).ops[u].(pc := HalfSaved)
    ensures After(end).nodes == After(mid).nodes
    ensures After(end).metas == After(mid).metas[After(mid).ops[u].req.path := Torn]
  {
    StartsSolo(mid, u);
    SaveEffect(After(mid), SaveBegin(u));
    end := SoloStep(mid, mid, u, SaveBegin(u));
  }

  lemma EndsSave(mid: Run, cur: Run, u: OpId) returns (end: Run)
    requires Solo(mid, cur, u) && After(cur).ops[u].req.Upload? && After(cur).ops[u].pc.HalfSaved?
    ensures Solo(mid, end, u)
    ensures After(end).ops[u] == Onward(After(cur).ops[u], Saved).(committed := true)
    ensures After(end).nodes == After(cur).nodes
    ensures var op := After(cur).ops[u]; After(end).metas == After(cur).metas[op.req.path := Whole(RecordOf(op.req))]
  {
    SaveEffect(After(cur), SaveEnd(u));
    end := SoloStep(mid, cur, u, SaveEnd(u));
  }

  /** And commits. */
  lemma ToCommit(mid: Run, u: OpId) returns (end: Run)
    requires Legal(mid) && u in After(mid).ops && After(mid).ops[u].req.Upload?
    requires After(mid).ops[u].pc.Saving? || After(mid).ops[u].pc.HalfSaved?
    ensures Solo(mid, end, u)
    ensures After(end).ops[u] == Onward(After(mid).ops[u], Saved).(committed := true)
    ensures After(end).nodes == After(mid).nodes
    ensures var op := After(mid).ops[u]; After(end).metas == After(mid).metas[op.req.path := Whole(RecordOf(op.req))]
  {
    if After(mid).ops[u].pc.Saving? {
      var cur := BeginsSave(mid, u);
      end := EndsSave(mid, cur, u);
    } else {
      StartsSolo(mid, u);
      end := EndsSave(mid, mid, u);
    }
  }

  lemma SoloThenSolo(mid: Run, cur: Run, end: Run, u: OpId)
    requires Solo(mid, cur, u) && Solo(cur, end, u)
    ensures Solo(mid, end, u)
  {
    forall p | A.LastCreate(mid, p) == Some(u) ensures A.HarmlessFrom(end, |mid|, p) {
      HarmlessJoins(cur, end, |mid|, p);
    }
  }

  lemma {:induction false} HarmlessJoins(cur: Run, end: Run, k: nat, p: Path)
    requires cur <= end && A.HarmlessFrom(cur, k, p) && A.HarmlessFrom(end, |cur|, p)
    ensures A.HarmlessFrom(end, k, p)
    decreases |end|
  {
    if cur == end {
    } else {
      HarmlessJoins(cur, end[..|end| - 1], k, p);
    }
  }
}

/** The other half: everything called harmful can do harm. */
module Harm {
  import opened Common
  import opened FileStore
  import opened Exclusion
  import opened Completion
  import A = AtRest
  import L = Linearizability

  /** The run can go on, without any more harm, to where file and record disagree with the
      upload that truncated last and has committed. */
  ghost predicate CanBreak(run: Run, p: Path) {
    exists end :: Disagrees(run, end, p)
  }

  ghost predicate Disagrees(run: Run, end: Run, p: Path) {
    run <= end && Legal(end) && A.HarmlessFrom(end, |run|, p) && !A.Agreed(end, p)
  }

  /** The bytes in the path's file can no longer become what the upload commits. */
  ghost predicate Ruined(s: State, op: Op, p: Path)
    requires op.req.Upload? && op.written <= |op.received|
  {
    p in s.files ==>
      && s.files[p] in s.nodes && (op.pc.Receiving? ==> s.files[p] == op.node)
      && var c := s.nodes[s.files[p]];
         |c| > op.req.size || exists j :: 0 <= j < |c| && j < op.written && c[j] != op.received[j]
  }

  lemma SpoiledIsRuined(content: seq<byte>, u: Op, at: nat, data: seq<byte>)
    requires u.req.Upload? && u.written <= |u.received| && A.HoldsSoFar(content, u) && A.Spoils(u, at, data)
    ensures var c := WriteAt(content, at, data);
            |c| > u.req.size || exists j :: 0 <= j < |c| && j < u.written && c[j] != u.received[j]
  {
    A.WriteAtFacts(content, at, data);
    var c := WriteAt(content, at, data);
    if at + |data| <= u.req.size {
      var i :| 0 <= i < |data| && at + i < u.written && at + i < |u.received| && data[i] != u.received[at + i];
      assert c[at + i] == data[i];
    }
  }

  lemma RuinedStays(content: seq<byte>, op: Op, x: seq<byte>)
    requires op.req.Upload? && op.written <= |op.received| && op.received <= x && |x| == op.req.size && op.written < |x|
    requires |content| > op.req.size || exists j :: 0 <= j < |content| && j < op.written && content[j] != op.received[j]
    ensures WriteAt(content, op.written, x[op.written..]) != x
  {
    A.WriteAtFacts(content, op.written, x[op.written..]);
    var c := WriteAt(content, op.written, x[op.written..]);
    if |content| <= op.req.size {
      var j :| 0 <= j < |content| && j < op.written && content[j] != op.received[j];
      assert c[j] == content[j] && x[j] == op.received[j];
    }
  }

  /** Once ruined, the upload goes on and commits all the same. */
  lemma RuinedCommits(mid: Run, p: Path, u: OpId) returns (end: Run)
    requires Legal(mid) && A.LastCreate(mid, p) == Some(u) && u in After(mid).ops
    requires A.CanCommit(After(mid).ops[u]) && After(mid).ops[u].req.path == p && L.UploadSound(After(mid).ops[u])
    requires var op := After(mid).ops[u];
             op.written <= |op.received| && (!op.pc.Receiving? ==> op.written == |op.received|)
             && Ruined(After(mid), op, p)
    ensures Disagrees(mid, end, p) && Solo(mid, end, u)
  {
    var op := After(mid).ops[u];
    var x := op.req.hash.content;
    var cur := mid;
    StartsSolo(mid, u);
    if op.pc.Receiving? {
      cur := ToSaving(mid, u);
      if p in After(mid).files && op.written < |x| { RuinedStays(After(mid).nodes[op.node], op, x); }
    }
    end := ToCommit(cur, u);
    SoloThenSolo(mid, cur, end, u);
    assert After(end).ops[u].received == x && !A.FileHolds(After(end), p, x);
  }

  lemma HarmRuins(s: State, a: Action, p: Path, u: OpId)
    requires Enabled(s, a) && A.Harmful(s, a, p, Some(u)) && A.Tracks(s, s.ops[u], p) && !s.ops[u].committed
    ensures u in Effect(s, a).ops && Effect(s, a).ops[u] == s.ops[u] && Ruined(Effect(s, a), s.ops[u], p)
  {
    A.OthersStand(s, a);
    var op, w := s.ops[u], s.ops[a.o];
    if a.WriteOut? {
      A.WriteEffect(s, a);
      SpoiledIsRuined(s.nodes[w.node], op, w.written, w.received[w.written..a.upTo]);
    }
  }

  /** Harm to an upload that has committed breaks agreement there and then. */
  lemma HarmBreaksCommitted(s: State, a: Action, p: Path, u: OpId)
    requires Enabled(s, a) && A.Harmful(s, a, p, Some(u)) && A.Tracks(s, s.ops[u], p) && s.ops[u].committed
    requires L.UploadSound(s.ops[u])
    ensures u in Effect(s, a).ops && Effect(s, a).ops[u] == s.ops[u]
    ensures var s' := Effect(s, a);
            !A.FileHolds(s', p, s.ops[u].received) || p !in s'.metas || s'.metas[p] != Whole(RecordOf(s.ops[u].req))
  {
    A.OthersStand(s, a);
    var op, w := s.ops[u], s.ops[a.o];
    if a.WriteOut? {
      A.WriteEffect(s, a);
      SpoiledIsRuined(s.nodes[w.node], op, w.written, w.received[w.written..a.upTo]);
    }
  }

  /** After a harmless run, a harmful action is a disagreement at once if the upload that
      truncated last has committed; if not, that upload's own steps lead to one. */
  lemma HarmBreaks(run: Run, a: Action, p: Path) returns (end: Run)
    requires Legal(run) && A.HarmlessFrom(run, 0, p) && Enabled(After(run), a)
    requires A.Harmful(After(run), a, p, A.LastCreate(run, p))
    ensures Disagrees(run + [a], end, p)
    ensures var u := A.LastCreate(run, p).value;
            if After(run).ops[u].committed then end == run + [a] else Solo(run + [a], end, u)
  {
    var s, u := After(run), A.LastCreate(run, p).value;
    A.LastIsTracked(run, p);
    L.RunIsSound(run);
    assert L.UploadSound(s.ops[u]);
    var run1 := OneMore(run, a);
    assert run1[..|run|] == run && A.LastCreate(run1, p) == Some(u);
    if s.ops[u].committed {
      HarmBreaksCommitted(s, a, p, u);
      end := run1;
    } else {
      HarmRuins(s, a, p, u);
      end := RuinedCommits(run1, p, u);
    }
  }

  /** After a harmless run: an action is harmful exactly if disagreement can follow from it
      without any more harm. */
  lemma HarmIsWhatBreaks(run: Run, a: Action, p: Path)
    requires Legal(run) && A.HarmlessFrom(run, 0, p) && Enabled(After(run), a)
    ensures A.Harmful(After(run), a, p, A.LastCreate(run, p)) <==> CanBreak(run + [a], p)
  {
    if A.Harmful(After(run), a, p, A.LastCreate(run, p)) {
      var end := HarmBreaks(run, a, p);
    } else if CanBreak(run + [a], p) {
      var end :| Disagrees(run + [a], end, p);
      assert (run + [a])[..|run|] == run;
      HarmlessJoins(run + [a], end, 0, p);
      A.HarmlessRunsAgree(end, p);
    }
  }
}
