/** Connection admission: accept loops share one atomic counter with the handlers they
    start. A loop adds one and looks at the value before; if the limit had been reached
    it takes the one back, in a second step, and sleeps. A handler takes its one back
    when it ends, unless it panics: then its task unwinds past the subtraction. */
module Admission {

  /** The counter is 64 bits wide and wraps. */
  const WRAP := 0x1_0000_0000_0000_0000

  function FetchAdd(c: nat): nat { (c + 1) % WRAP }

  function FetchSub(c: nat): nat { (c + WRAP - 1) % WRAP }

  type LoopId = nat
  type ConnId = nat

  datatype LoopPc = Accepting | Rejecting | Sleeping

  datatype State = State(counter: nat, loops: map<LoopId, LoopPc>, live: set<ConnId>, leaked: nat)

  datatype Action =
    | Arrive(l: LoopId, conn: ConnId)
    | TakeBack(l: LoopId)
    | Wake(l: LoopId)
    | Finish(conn: ConnId)   // the handler returns, with or without an error, or runs out of time
    | Crash(conn: ConnId)    // the handler panics in a build that unwinds

  function Initial(loops: set<LoopId>): State {
    State(0, map l | l in loops :: Accepting, {}, 0)
  }

  predicate Enabled(s: State, a: Action) {
    match a
    case Arrive(l, conn) => l in s.loops && s.loops[l].Accepting? && conn !in s.live
    case TakeBack(l) => l in s.loops && s.loops[l].Rejecting?
    case Wake(l) => l in s.loops && s.loops[l].Sleeping?
    case Finish(conn) => conn in s.live
    case Crash(conn) => conn in s.live
  }

  predicate Full(s: State, limit: nat) {
    s.counter >= limit
  }

  function Next(s: State, a: Action, limit: nat): State {
    if !Enabled(s, a) then s
    else
      match a
      case Arrive(l, conn) =>
        if Full(s, limit) then s.(counter := FetchAdd(s.counter), loops := s.loops[l := Rejecting])
        else s.(counter := FetchAdd(s.counter), live := s.live + {conn})
      case TakeBack(l) => s.(counter := FetchSub(s.counter), loops := s.loops[l := Sleeping])
      case Wake(l) => s.(loops := s.loops[l := Accepting])
      case Finish(conn) => s.(counter := FetchSub(s.counter), live := s.live - {conn})
      case Crash(conn) => s.(live := s.live - {conn}, leaked := s.leaked + 1)
  }

  function After(loops: set<LoopId>, limit: nat, run: seq<Action>): State {
    if run == [] then Initial(loops) else Next(After(loops, limit, run[..|run| - 1]), run[|run| - 1], limit)
  }

  function Rejections(s: State): set<LoopId> {
    set l | l in s.loops && s.loops[l].Rejecting?
  }

  ghost predicate Accounted(s: State, loops: set<LoopId>, limit: nat) {
    && s.loops.Keys == loops
    && s.counter == |s.live| + |Rejections(s)| + s.leaked
    && |s.live| + s.leaked <= limit
  }

  lemma SubsetSize<T>(a: set<T>, b: set<T>)
    requires a <= b
    ensures |a| <= |b|
  {
    assert b == a + (b - a) && |b| == |a| + |b - a|;
  }

  /** A loop that goes from one pc to another changes the pending rejections by itself only. */
  lemma RejectionsMove(s: State, l: LoopId, pc: LoopPc)
    requires l in s.loops
    ensures Rejections(s.(loops := s.loops[l := pc]))
         == if pc.Rejecting? then Rejections(s) + {l} else Rejections(s) - {l}
    ensures Rejections(s) <= s.loops.Keys && |Rejections(s)| <= |s.loops.Keys|
  {
    SubsetSize(Rejections(s), s.loops.Keys);
  }

  /** Adding one for a connection that is refused. */
  lemma RefusalAccounts(s: State, l: LoopId, conn: ConnId, loops: set<LoopId>, limit: nat)
    requires Accounted(s, loops, limit) && limit + |loops| < WRAP
    requires Enabled(s, Arrive(l, conn)) && Full(s, limit)
    ensures Accounted(Next(s, Arrive(l, conn), limit), loops, limit)
  {
    var s' := Next(s, Arrive(l, conn), limit);
    RejectionsMove(s, l, Rejecting);
    assert l !in Rejections(s);
    assert s'.loops == s.loops[l := Rejecting];
    assert Rejections(s') == Rejections(s) + {l};
    SubsetSize(Rejections(s'), loops);
  }

  /** Adding one for a connection that is served. */
  lemma AdmissionAccounts(s: State, l: LoopId, conn: ConnId, loops: set<LoopId>, limit: nat)
    requires Accounted(s, loops, limit) && limit + |loops| < WRAP
    requires Enabled(s, Arrive(l, conn)) && !Full(s, limit)
    ensures Accounted(Next(s, Arrive(l, conn), limit), loops, limit)
  {
    assert Rejections(Next(s, Arrive(l, conn), limit)) == Rejections(s);
  }

  /** A loop that takes its one back, or wakes. */
  lemma LoopAccounts(s: State, a: Action, loops: set<LoopId>, limit: nat)
    requires Accounted(s, loops, limit) && limit + |loops| < WRAP
    requires Enabled(s, a) && (a.TakeBack? || a.Wake?)
    ensures a.TakeBack? ==> s.counter >= 1
    ensures Accounted(Next(s, a, limit), loops, limit)
  {
    var pc := if a.TakeBack? then Sleeping else Accepting;
    RejectionsMove(s, a.l, pc);
    assert a.TakeBack? <==> a.l in Rejections(s);
    assert Rejections(Next(s, a, limit)) == Rejections(s) - {a.l};
    SubsetSize(Rejections(s), loops);
    assert Next(s, a, limit).loops.Keys == loops;
  }

  /** A handler that ends. */
  lemma EndAccounts(s: State, a: Action, loops: set<LoopId>, limit: nat)
    requires Accounted(s, loops, limit) && limit + |loops| < WRAP
    requires Enabled(s, a) && (a.Finish? || a.Crash?)
    ensures s.counter >= 1
    ensures Accounted(Next(s, a, limit), loops, limit)
  {
    assert Rejections(Next(s, a, limit)) == Rejections(s);
    SubsetSize(Rejections(s), loops);
  }

  lemma StepAccounts(s: State, a: Action, loops: set<LoopId>, limit: nat)
    requires Accounted(s, loops, limit) && limit + |loops| < WRAP
    ensures Accounted(Next(s, a, limit), loops, limit)
  {
    if Enabled(s, a) {
      if a.Finish? || a.Crash? {
        EndAccounts(s, a, loops, limit);
      } else if a.TakeBack? || a.Wake? {
        LoopAccounts(s, a, loops, limit);
      } else if Full(s, limit) {
        RefusalAccounts(s, a.l, a.conn, loops, limit);
      } else {
        AdmissionAccounts(s, a.l, a.conn, loops, limit);
      }
    }
  }

  /** For any number of accept loops and any interleaving with handlers that end: the
      counter is the live handlers plus the pending rejections plus the slots lost to
      panics, live handlers and lost slots never exceed the limit, and whoever subtracts
      finds at least one, so that the counter never wraps. */
  lemma {:induction false} CounterIsExact(loops: set<LoopId>, limit: nat, run: seq<Action>)
    requires limit + |loops| < WRAP
    ensures var s := After(loops, limit, run);
            && s.counter == |s.live| + |Rejections(s)| + s.leaked
            && |s.live| + s.leaked <= limit && |Rejections(s)| <= |loops|
            && (forall a :: Enabled(s, a) && (a.TakeBack? || a.Finish?) ==> s.counter >= 1)
            && Accounted(s, loops, limit)
  {
    if run == [] {
      assert Rejections(Initial(loops)) == {};
    } else {
      CounterIsExact(loops, limit, run[..|run| - 1]);
      StepAccounts(After(loops, limit, run[..|run| - 1]), run[|run| - 1], loops, limit);
    }
    var s := After(loops, limit, run);
    SubsetSize(Rejections(s), loops);
    forall a | Enabled(s, a) && (a.TakeBack? || a.Finish?) ensures s.counter >= 1 {
      if a.TakeBack? { LoopAccounts(s, a, loops, limit); } else { EndAccounts(s, a, loops, limit); }
    }
  }

  /** A connection is refused exactly if the slots in use, the slots lost and the rejections
      still pending in the other loops together reach the limit. So with n loops a refusal
      means that at most n - 1 slots were left, and with one loop that none was. */
  lemma RefusalMeansNearlyFull(loops: set<LoopId>, limit: nat, run: seq<Action>, l: LoopId, conn: ConnId)
    requires limit + |loops| < WRAP
    requires Enabled(After(loops, limit, run), Arrive(l, conn))
    ensures var s := After(loops, limit, run);
            && (conn !in Next(s, Arrive(l, conn), limit).live <==> |s.live| + s.leaked + |Rejections(s)| >= limit)
            && (conn !in Next(s, Arrive(l, conn), limit).live ==> |s.live| + s.leaked + |loops| > limit)
            && (|loops| == 1 ==> (conn !in Next(s, Arrive(l, conn), limit).live <==> |s.live| + s.leaked == limit))
  {
    CounterIsExact(loops, limit, run);
    var s := After(loops, limit, run);
    assert l !in Rejections(s);
    SubsetSize(Rejections(s), loops - {l});
  }

  /** With two loops a connection can be refused although no other is being served. */
  lemma TwoLoopsRefuseAnIdleNode()
    ensures var s := After({0, 1}, 1, [Arrive(0, 10), Arrive(0, 11), Finish(10)]);
            && s.live == {} && s.leaked == 0 && Enabled(s, Arrive(1, 12))
            && 12 !in Next(s, Arrive(1, 12), 1).live
  {
    var a, b, c := Arrive(0, 10), Arrive(0, 11), Finish(10);
    assert [a, b, c][..2] == [a, b] && [a, b][..1] == [a] && [a][..0] == [];
    assert Initial({0, 1}) == State(0, map[0 := Accepting, 1 := Accepting], {}, 0);
    assert After({0, 1}, 1, []) == Initial({0, 1});
    var s1 := After({0, 1}, 1, [a]);
    assert s1 == State(1, map[0 := Accepting, 1 := Accepting], {10}, 0);
    var s2 := After({0, 1}, 1, [a, b]);
    assert s2 == State(2, map[0 := Rejecting, 1 := Accepting], {10}, 0);
    assert After({0, 1}, 1, [a, b, c]) == State(1, map[0 := Rejecting, 1 := Accepting], {}, 0);
  }

  /** Slots lost to panics never come back: once as many are lost as there are, nothing
      is admitted ever again. */
  lemma {:induction false} LostSlotsStayLost(loops: set<LoopId>, limit: nat, run: seq<Action>, later: seq<Action>)
    requires limit + |loops| < WRAP && run <= later
    ensures After(loops, limit, run).leaked <= After(loops, limit, later).leaked
    ensures After(loops, limit, run).leaked == limit ==> After(loops, limit, later).live == {}
    decreases |later|
  {
    CounterIsExact(loops, limit, later);
    if run == later {
    } else {
      LostSlotsStayLost(loops, limit, run, later[..|later| - 1]);
    }
  }

  /** The handlers that have crashed in a run. */
  function Crashes(loops: set<LoopId>, limit: nat, run: seq<Action>): nat {
    if run == [] then 0
    else
      var init, a := run[..|run| - 1], run[|run| - 1];
      Crashes(loops, limit, init) + if a.Crash? && Enabled(After(loops, limit, init), a) then 1 else 0
  }

  /** Every crash costs its slot, and nothing else does. */
  lemma {:induction false} EveryCrashCostsASlot(loops: set<LoopId>, limit: nat, run: seq<Action>)
    ensures After(loops, limit, run).leaked == Crashes(loops, limit, run)
  {
    if run != [] { EveryCrashCostsASlot(loops, limit, run[..|run| - 1]); }
  }

  /** So any node can be brought to serve nobody by as many crashes as it has slots. */
  lemma {:induction false} CrashesCanUseUpANode(loops: set<LoopId>, limit: nat, l: LoopId, slots: nat)
    returns (run: seq<Action>)
    requires limit + |loops| < WRAP && l in loops && slots <= limit
    ensures |run| == 2 * slots && Crashes(loops, limit, run) == slots
    ensures After(loops, limit, run) == State(slots, Initial(loops).loops, {}, slots)
    ensures slots == limit ==> forall later :: run <= later ==> After(loops, limit, later).live == {}
  {
    run := [];
    if slots > 0 {
      var init := CrashesCanUseUpANode(loops, limit, l, slots - 1);
      var run1 := init + [Arrive(l, 0)];
      run := run1 + [Crash(0)];
      assert run1[..|init|] == init && run[..|run1|] == run1;
    }
    forall later | slots == limit && run <= later ensures After(loops, limit, later).live == {} {
      LostSlotsStayLost(loops, limit, run, later);
    }
  }

  /** Without panics every slot comes back: when no handler is left and no rejection is
      pending the counter is zero. */
  lemma {:induction false} QuietNodeCountsZero(loops: set<LoopId>, limit: nat, run: seq<Action>)
    requires limit + |loops| < WRAP
    requires forall a :: a in run ==> !a.Crash?
    ensures var s := After(loops, limit, run);
            s.leaked == 0 && (s.live == {} && Rejections(s) == {} ==> s.counter == 0)
  {
    CounterIsExact(loops, limit, run);
    if run != [] {
      assert run[|run| - 1] in run;
      QuietNodeCountsZero(loops, limit, run[..|run| - 1]);
    }
  }

  /** A loop that has refused a connection takes its one back, listens to nobody before it has
      slept, and then listens again: two steps of its own at most, whatever the others do, and
      nobody who is served is disturbed. */
  lemma LoopsComeBack(loops: set<LoopId>, limit: nat, run: seq<Action>, l: LoopId) returns (more: seq<Action>)
    requires limit + |loops| < WRAP && l in loops
    ensures |more| <= 2 && forall a :: a in more ==> a == TakeBack(l) || a == Wake(l)
    ensures l in After(loops, limit, run).loops
    ensures var s, s' := After(loops, limit, run), After(loops, limit, run + more);
            && s'.loops == s.loops[l := Accepting] && s'.live == s.live && s'.leaked == s.leaked
            && s'.counter == s.counter - if s.loops[l].Rejecting? then 1 else 0
    ensures var s := After(loops, limit, run);
            s.loops[l].Rejecting? ==> forall conn :: !Enabled(Next(s, TakeBack(l), limit), Arrive(l, conn))
  {
    var s := After(loops, limit, run);
    CounterIsExact(loops, limit, run);
    if s.loops[l].Rejecting? {
      more := [TakeBack(l), Wake(l)];
      LoopAccounts(s, TakeBack(l), loops, limit);
      var run1 := run + [TakeBack(l)];
      assert run1[..|run|] == run;
      assert run + more == run1 + [Wake(l)] && (run1 + [Wake(l)])[..|run1|] == run1;
    } else if s.loops[l].Sleeping? {
      more := [Wake(l)];
      assert (run + more)[..|run|] == run;
    } else {
      more := [];
      assert run + more == run && s.loops[l := Accepting] == s.loops;
    }
  }
}
