/** The server's file store as a step system. Uploads and downloads run concurrently;
    each has a program counter, a handle from `hold_file_lock`, perhaps a guard, and
    the local variables that matter. An action is one step of one operation, so a run
    is a sequence of actions, in any interleaving.

    Any operation can end early at any point (a refusal, an I/O error, a timeout, a lost
    connection, a panic, for downloads also a short read): it drops its guard and its handle
    and leaves the lock table alone. If its handler is dropped while a blocking file call is
    outstanding, that one call still takes effect later: the operation is then `detached`. */
module FileStore {
  import opened Common

  type OpId = nat
  type LockId = nat
  type Node = nat
  type FileId = string

  /** <client key>/<file key>/<file id>: hashed in the source, and injectively so. */
  datatype Path = Path(client: seq<byte>, key: string, id: FileId)

  datatype Request =
    | Upload(path: Path, name: string, size: nat, hash: Digest)
    | Download(path: Path)

  datatype Record = Record(name: string, size: nat, hash: Digest)

  /** A metadata file: half written, or whole. */
  datatype MetaFile = Torn | Whole(rec: Record)

  datatype Pc =
    | Arrived | Held | Locked
    | Receiving | Mismatched | Refused | Saving | HalfSaved | Saved
    | Told | Streaming
    | Unlocked | Ended

  datatype Guard = NoGuard | ReadGuard | WriteGuard

  datatype Op = Op(
    req: Request, pc: Pc, handle: Option<LockId>, guard: Guard, detached: bool,
    node: Node, received: seq<byte>, written: nat, committed: bool,
    meta: Option<Record>, sent: seq<byte>, accepted: Option<(string, seq<byte>)>)

  datatype State = State(
    ops: map<OpId, Op>,
    table: map<FileId, LockId>,
    files: map<Path, Node>,
    nodes: map<Node, seq<byte>>,
    metas: map<Path, MetaFile>)

  const EMPTY := State(map[], map[], map[], map[], map[])

  datatype Action =
    | Begin(o: OpId, req: Request)
    | Hold(o: OpId, lock: LockId)
    | TryLock(o: OpId)
    | Create(o: OpId, node: Node)
    | Chunk(o: OpId, data: seq<byte>)
    | WriteOut(o: OpId, upTo: nat)
    | Verify(o: OpId)
    | Remove(o: OpId)
    | SaveBegin(o: OpId)
    | SaveEnd(o: OpId)
    | ReadMeta(o: OpId)
    | OpenFile(o: OpId)
    | SendChunk(o: OpId)
    | DropGuard(o: OpId)
    | Release(o: OpId)
    | Exit(o: OpId, detach: bool)
    | Accept(o: OpId)

  function NewOp(req: Request): Op {
    Op(req, Arrived, None, NoGuard, false, 0, [], 0, false, None, [], None)
  }

  function RecordOf(u: Request): Record
    requires u.Upload?
  {
    Record(u.name, u.size, u.hash)
  }

  /** `hold_file_lock`: the table's lock for the id, or a new one put there. */
  function HoldLock(table: map<FileId, LockId>, id: FileId, fresh_: LockId): (map<FileId, LockId>, LockId) {
    if id in table then (table, table[id]) else (table[id := fresh_], fresh_)
  }

  /** `release_file_lock`: the entry goes, whoever else holds a handle. */
  function ReleaseLock(table: map<FileId, LockId>, id: FileId): map<FileId, LockId> {
    table - {id}
  }

  /** No guard on the lock stands in the way of another one. */
  predicate LockFree(s: State, lock: LockId, forWriting: bool) {
    forall p :: p in s.ops && s.ops[p].handle == Some(lock) ==>
      if forWriting then s.ops[p].guard == NoGuard else s.ops[p].guard != WriteGuard
  }

  predicate UnusedLock(s: State, lock: LockId) {
    && (forall id :: id in s.table ==> s.table[id] != lock)
    && (forall p :: p in s.ops ==> s.ops[p].handle != Some(lock))
  }

  function ContentOf(s: State, node: Node): seq<byte> {
    if node in s.nodes then s.nodes[node] else []
  }

  /** Writing at an offset; a gap before it reads as zeros. */
  function WriteAt(content: seq<byte>, at: nat, data: seq<byte>): seq<byte> {
    var padded := content + seq(Max(0, at - |content|), _ => 0);
    padded[..at] + data + if at + |data| < |padded| then padded[at + |data|..] else []
  }

  /** A blocking file call that may outlive the operation's task. */
  predicate HasPendingEffect(op: Op) {
    op.req.Upload? && (op.pc.Locked? || op.pc.Receiving? || op.pc.Mismatched? || op.pc.Saving? || op.pc.HalfSaved?)
  }

  predicate Enabled(s: State, a: Action) {
    if a.Begin? then a.o !in s.ops
    else
      && a.o in s.ops
      && var op := s.ops[a.o];
      match a
      case Begin(_, _) => false
      case Hold(_, lock) => op.pc.Arrived? && !op.detached && UnusedLock(s, lock)
      case TryLock(_) => op.pc.Held? && op.handle.Some? && LockFree(s, op.handle.value, op.req.Upload?)
      case Create(_, node) => op.req.Upload? && op.pc.Locked? && node !in s.nodes
      case Chunk(_, data) =>
        op.req.Upload? && op.pc.Receiving? && !op.detached
        && |op.received| < op.req.size && |data| == Min(READ_CHUNK_SIZE, op.req.size - |op.received|)
      case WriteOut(_, upTo) => op.req.Upload? && op.pc.Receiving? && op.written < upTo <= |op.received|
      case Verify(_) =>
        op.req.Upload? && op.pc.Receiving? && !op.detached
        && |op.received| >= op.req.size && op.written == |op.received|
      case Remove(_) => op.req.Upload? && op.pc.Mismatched?
      case SaveBegin(_) => op.req.Upload? && op.pc.Saving?
      case SaveEnd(_) => op.req.Upload? && op.pc.HalfSaved?
      case ReadMeta(_) =>
        op.req.Download? && op.pc.Locked? && op.req.path in s.metas && s.metas[op.req.path].Whole?
      case OpenFile(_) => op.req.Download? && op.pc.Told? && op.req.path in s.files
      case SendChunk(_) =>
        op.req.Download? && op.pc.Streaming? && |op.sent| + READ_CHUNK_SIZE <= |ContentOf(s, op.node)|
      case DropGuard(_) =>
        !op.detached && (op.pc.Saved? || (op.pc.Streaming? && |op.sent| >= |ContentOf(s, op.node)|))
      case Release(_) => op.pc.Unlocked?
      case Exit(_, detach) => !op.detached && !op.pc.Ended? && (detach ==> HasPendingEffect(op))
      case Accept(_) =>
        op.req.Download? && op.meta.Some? && op.accepted.None? && |op.sent| >= op.meta.value.size
        && Sha256Of(op.sent[..op.meta.value.size]) == op.meta.value.hash
  }

  /** Where an operation is after its next effect: a detached one is at its end. */
  function Onward(op: Op, pc: Pc): Op {
    op.(pc := if op.detached then Ended else pc)
  }

  function Ending(op: Op): Op {
    op.(pc := Ended, handle := None, guard := NoGuard)
  }

  function Effect(s: State, a: Action): State
    requires Enabled(s, a)
  {
    if a.Begin? then s.(ops := s.ops[a.o := NewOp(a.req)])
    else
      var op := s.ops[a.o];
      var path := op.req.path;
      match a
      case Hold(o, lock) =>
        var (table, handle) := HoldLock(s.table, path.id, lock);
        s.(table := table, ops := s.ops[o := op.(pc := Held, handle := Some(handle))])
      case TryLock(o) =>
        s.(ops := s.ops[o := op.(pc := Locked, guard := if op.req.Upload? then WriteGuard else ReadGuard)])
      case Create(o, node) =>
        var n := if path in s.files then s.files[path] else node;
        s.(files := s.files[path := n], nodes := s.nodes[n := []],
           ops := s.ops[o := Onward(op, Receiving).(node := n, written := 0)])
      case Chunk(o, data) => s.(ops := s.ops[o := op.(received := op.received + data)])
      case WriteOut(o, upTo) =>
        s.(nodes := s.nodes[op.node := WriteAt(ContentOf(s, op.node), op.written, op.received[op.written..upTo])],
           ops := s.ops[o := Onward(op, Receiving).(written := upTo)])
      case Verify(o) =>
        s.(ops := s.ops[o := op.(pc := if Sha256Of(op.received) == op.req.hash then Saving else Mismatched)])
      case Remove(o) => s.(files := s.files - {path}, ops := s.ops[o := Onward(op, Refused)])
      case SaveBegin(o) => s.(metas := s.metas[path := Torn], ops := s.ops[o := op.(pc := HalfSaved)])
      case SaveEnd(o) =>
        s.(metas := s.metas[path := Whole(RecordOf(op.req))],
           ops := s.ops[o := Onward(op, Saved).(committed := true)])
      case ReadMeta(o) => s.(ops := s.ops[o := op.(pc := Told, meta := Some(s.metas[path].rec))])
      case OpenFile(o) => s.(ops := s.ops[o := op.(pc := Streaming, node := s.files[path])])
      case SendChunk(o) =>
        var at := |op.sent|;
        s.(ops := s.ops[o := op.(sent := op.sent + ContentOf(s, op.node)[at..at + READ_CHUNK_SIZE])])
      case DropGuard(o) => s.(ops := s.ops[o := op.(pc := Unlocked, guard := NoGuard)])
      case Release(o) => s.(table := ReleaseLock(s.table, path.id), ops := s.ops[o := Ending(op)])
      case Exit(o, detach) =>
        s.(ops := s.ops[o := if detach then op.(detached := true, handle := None, guard := NoGuard) else Ending(op)])
      case Accept(o) =>
        var m := op.meta.value;
        s.(ops := s.ops[o := op.(accepted := Some((m.name, op.sent[..m.size])))])
  }

  function Next(s: State, a: Action): State {
    if Enabled(s, a) then Effect(s, a) else s
  }

  // ---- Runs ------------------------------------------------------------------

  type Run = seq<Action>

  function After(run: Run): State {
    if run == [] then EMPTY else Next(After(run[..|run| - 1]), run[|run| - 1])
  }

  /** Every action of the run was possible when it happened. */
  predicate Legal(run: Run) {
    run == [] || (Legal(run[..|run| - 1]) && Enabled(After(run[..|run| - 1]), run[|run| - 1]))
  }

  lemma Snoc(run: Run, a: Action)
    ensures After(run + [a]) == Next(After(run), a)
    ensures Legal(run + [a]) <==> Legal(run) && Enabled(After(run), a)
  {
    assert (run + [a])[..|run|] == run;
  }

  lemma OthersKeepTheirs(s: State, a: Action, o: OpId)
    requires o in s.ops && (!Enabled(s, a) || a.o != o)
    ensures o in Next(s, a).ops && Next(s, a).ops[o] == s.ops[o]
  {}

  lemma OwnFrame(s: State, a: Action)
    requires Enabled(s, a) && !a.Begin?
    ensures a.o in Effect(s, a).ops
    ensures var op, op' := s.ops[a.o], Effect(s, a).ops[a.o];
            && op'.req == op.req
            && (op.committed ==> op'.committed)
            && (!a.Chunk? || !op.pc.Receiving? ==> op'.received == op.received)
            && (!a.ReadMeta? ==> op'.meta == op.meta)
            && (!a.Accept? ==> op'.accepted == op.accepted)
  {}

  /** What an action does to an operation's own record, whoever acts: requests never
      change, received bytes change by chunks only, and so on. */
  lemma OpFrame(s: State, a: Action, o: OpId)
    requires o in s.ops
    ensures o in Next(s, a).ops
    ensures var op, op' := s.ops[o], Next(s, a).ops[o];
            && op'.req == op.req
            && (op.committed ==> op'.committed)
            && (!a.Chunk? || !op.pc.Receiving? ==> op'.received == op.received)
            && (a != ReadMeta(o) ==> op'.meta == op.meta)
            && (a != Accept(o) ==> op'.accepted == op.accepted)
            && (a.o != o ==> op' == op)
  {
    if Enabled(s, a) && a.o == o { OwnFrame(s, a); } else { OthersKeepTheirs(s, a, o); }
  }

  lemma OwnLockFrame(s: State, a: Action)
    requires Enabled(s, a) && !a.Begin?
    ensures a.o in Effect(s, a).ops
    ensures var op, op' := s.ops[a.o], Effect(s, a).ops[a.o];
            && (!a.Hold? ==> op'.handle == op.handle || op'.handle == None)
            && (!a.TryLock? ==> op'.guard == op.guard || op'.guard == NoGuard)
  {}

  lemma TableStands(s: State, a: Action)
    requires !a.Hold? && !a.Release?
    ensures Next(s, a).table == s.table
  {}

  /** Who touches the lock table, handles and guards. */
  lemma LockFrame(s: State, a: Action, o: OpId)
    requires o in s.ops
    ensures !a.Hold? && !a.Release? ==> Next(s, a).table == s.table
    ensures o in Next(s, a).ops
    ensures var op, op' := s.ops[o], Next(s, a).ops[o];
            && (!a.Hold? || a.o != o ==> op'.handle == op.handle || op'.handle == None)
            && (!a.TryLock? || a.o != o ==> op'.guard == op.guard || op'.guard == NoGuard)
  {
    if !a.Hold? && !a.Release? { TableStands(s, a); }
    if Enabled(s, a) && a.o == o { OwnLockFrame(s, a); } else { OthersKeepTheirs(s, a, o); }
  }

  lemma OnlyBeginAdds(s: State, a: Action, o: OpId)
    requires o !in s.ops && o in Next(s, a).ops
    ensures a.Begin? && a.o == o && Next(s, a).ops[o] == NewOp(a.req)
  {}
}

/** The two functions on the shared lock table, in place. */
module FileLocks {
  import opened FileStore

  class LockTable {
    var locks: map<FileId, LockId>
    var nextLock: LockId

    ghost predicate Valid()
      reads this
    {
      forall id :: id in locks ==> locks[id] < nextLock
    }

    constructor ()
      ensures Valid() && locks == map[]
    {
      locks, nextLock := map[], 0;
    }

    method HoldFileLock(id: FileId) returns (lock: LockId)
      requires Valid()
      modifies this
      ensures Valid()
      ensures (locks, lock) == HoldLock(old(locks), id, old(nextLock))
      ensures id !in old(locks) ==> lock !in old(locks).Values
    {
      if id !in locks {
        locks := locks[id := nextLock];
        nextLock := nextLock + 1;
      }
      lock := locks[id];
    }

    method ReleaseFileLock(id: FileId)
      requires Valid()
      modifies this
      ensures Valid() && nextLock == old(nextLock)
      ensures locks == ReleaseLock(old(locks), id)
    {
      locks := locks - {id};
    }
  }
}
