/** Key rotation: two directory trees, one of authorised keys and one of stored files,
    each with a directory per key. A rotation renames the old key's directory to the new
    key's in both, and acknowledges only if both renames worked.

    Requests run concurrently, so a run is a sequence of their single steps. A handler can
    be dropped anywhere: its request then takes no more steps, except that a rename already
    handed to the file system still happens. So every step but the first may be missing. */
module Rotation {
  import opened Common

  /** Stands for its SHA-256 and SHA-512 names, both taken to be injective. */
  type Key = seq<byte>

  /** <file key>/<file>: contents. A directory with an empty sub-directory is not empty. */
  type Tree = map<string, map<string, seq<byte>>>

  type Dirs = map<Key, Tree>

  type ReqId = nat

  datatype Reply = Acknowledged | Code500 | UnknownUser

  /** A signed request: how its two renames went, if they were tried, and what it was told. */
  datatype Request = Request(old_: Key, new_: Key, auth: Option<bool>, storage: Option<bool>, reply: Option<Reply>)

  datatype Server = Server(auth: Dirs, storage: Dirs, requests: map<ReqId, Request>)

  datatype Event =
    | Arrive(id: ReqId, old_: Key, new_: Key)
    | RenameAuth(id: ReqId, fails: bool)      // `fails`: for a reason of the file system's own
    | RenameStorage(id: ReqId, fails: bool)
    | Answer(id: ReqId)

  /** `rename(2)` on directories: onto itself it does nothing, onto an empty directory it
      replaces it, onto any other it fails. */
  predicate CanRename(d: Dirs, from: Key, to: Key, fails: bool) {
    !fails && from in d && (from == to || to !in d || d[to] == map[])
  }

  function Renamed(d: Dirs, from: Key, to: Key, fails: bool): Dirs {
    if !CanRename(d, from, to, fails) || from == to then d else (d - {from})[to := d[from]]
  }

  /** The renames are tried one after the other, the second whatever became of the first. */
  predicate Enabled(s: Server, e: Event) {
    if e.Arrive? then e.id !in s.requests
    else
      && e.id in s.requests && s.requests[e.id].reply == None
      && match e
         case RenameAuth(id, _) => s.requests[id].auth == None
         case RenameStorage(id, _) => s.requests[id].auth.Some? && s.requests[id].storage == None
         case Answer(id) => s.requests[id].storage.Some?
  }

  function Next(s: Server, e: Event): Server {
    if !Enabled(s, e) then s
    else
      match e
      case Arrive(id, old_, new_) =>
        var reply := if old_ in s.storage then None else Some(UnknownUser);
        s.(requests := s.requests[id := Request(old_, new_, None, None, reply)])
      case RenameAuth(id, fails) =>
        var r := s.requests[id];
        s.(auth := Renamed(s.auth, r.old_, r.new_, fails),
           requests := s.requests[id := r.(auth := Some(CanRename(s.auth, r.old_, r.new_, fails)))])
      case RenameStorage(id, fails) =>
        var r := s.requests[id];
        s.(storage := Renamed(s.storage, r.old_, r.new_, fails),
           requests := s.requests[id := r.(storage := Some(CanRename(s.storage, r.old_, r.new_, fails)))])
      case Answer(id) =>
        var r := s.requests[id];
        var both := r.auth == Some(true) && r.storage == Some(true);
        s.(requests := s.requests[id := r.(reply := Some(if both then Acknowledged else Code500))])
  }

  function After(s: Server, run: seq<Event>): Server {
    if run == [] then s else Next(After(s, run[..|run| - 1]), run[|run| - 1])
  }

  /** The file a transfer under this key would find. */
  function Lookup(s: Server, k: Key, fileKey: string, name: string): Option<seq<byte>> {
    if k in s.storage && fileKey in s.storage[k] && name in s.storage[k][fileKey]
    then Some(s.storage[k][fileKey][name]) else None
  }

  // ---- One request by itself, in place ---------------------------------------------

  /** What a request that is not disturbed does. */
  function Handled(auth: Dirs, storage: Dirs, old_: Key, new_: Key, authFails: bool, storageFails: bool)
    : (Dirs, Dirs, Reply)
  {
    if old_ !in storage then (auth, storage, UnknownUser)
    else
      var both := CanRename(auth, old_, new_, authFails) && CanRename(storage, old_, new_, storageFails);
      (Renamed(auth, old_, new_, authFails), Renamed(storage, old_, new_, storageFails),
       if both then Acknowledged else Code500)
  }

  lemma FourInARow(s: Server, a: Event, b: Event, c: Event, d: Event)
    ensures After(s, [a, b, c]) == Next(Next(Next(s, a), b), c)
    ensures After(s, [a, b, c, d]) == Next(Next(Next(Next(s, a), b), c), d)
  {
    OneMore(s, [], a);
    OneMore(s, [a], b);
    OneMore(s, [a, b], c);
    OneMore(s, [a, b, c], d);
    assert [] + [a] == [a] && [a] + [b] == [a, b] && [a, b] + [c] == [a, b, c] && [a, b, c] + [d] == [a, b, c, d];
  }

  /** Its four steps in a row do just that. */
  lemma FourSteps(s: Server, id: ReqId, old_: Key, new_: Key, authFails: bool, storageFails: bool)
    requires id !in s.requests
    ensures var run := [Arrive(id, old_, new_), RenameAuth(id, authFails), RenameStorage(id, storageFails), Answer(id)];
            var s' := After(s, run);
            && id in s'.requests && s'.requests[id].reply.Some?
            && (s'.auth, s'.storage, s'.requests[id].reply.value)
               == Handled(s.auth, s.storage, old_, new_, authFails, storageFails)
  {
    FourInARow(s, Arrive(id, old_, new_), RenameAuth(id, authFails), RenameStorage(id, storageFails), Answer(id));
  }

  /** A key can be taken over by another that has nothing under it. */
  predicate Free(d: Dirs, from: Key, to: Key) {
    from in d && (to in d && to != from ==> d[to] == map[])
  }

  /** A request that nothing disturbs is acknowledged, and gives the new key both of the old
      key's directories, exactly if both are there, the new key is free and no rename fails. */
  lemma UndisturbedIsAcknowledged(s: Server, id: ReqId, old_: Key, new_: Key, authFails: bool, storageFails: bool)
    requires id !in s.requests && old_ != new_
    ensures var run := [Arrive(id, old_, new_), RenameAuth(id, authFails), RenameStorage(id, storageFails), Answer(id)];
            var s' := After(s, run);
            && id in s'.requests
            && (s'.requests[id].reply == Some(Acknowledged) <==>
                Free(s.auth, old_, new_) && Free(s.storage, old_, new_) && !authFails && !storageFails)
            && (s'.requests[id].reply == Some(UnknownUser) <==> old_ !in s.storage)
            && (s'.requests[id].reply == Some(Acknowledged) ==>
                && s'.auth == (s.auth - {old_})[new_ := s.auth[old_]]
                && s'.storage == (s.storage - {old_})[new_ := s.storage[old_]])
  {
    FourSteps(s, id, old_, new_, authFails, storageFails);
  }

  lemma OneMore(s: Server, run: seq<Event>, e: Event)
    ensures After(s, run + [e]) == Next(After(s, run), e)
  {
    assert (run + [e])[..|run|] == run;
  }

  class KeyDirectories {
    var auth: Dirs
    var storage: Dirs

    constructor (auth: Dirs, storage: Dirs)
      ensures this.auth == auth && this.storage == storage
    {
      this.auth, this.storage := auth, storage;
    }

    method RenameAuth(from: Key, to: Key, fails: bool) returns (ok: bool)
      modifies this`auth
      ensures ok == CanRename(old(auth), from, to, fails)
      ensures auth == Renamed(old(auth), from, to, fails)
    {
      ok := !fails && from in auth && (from == to || to !in auth || auth[to] == map[]);
      if ok && from != to {
        var tree := auth[from];
        auth := auth - {from};
        auth := auth[to := tree];
      }
    }

    method RenameStorage(from: Key, to: Key, fails: bool) returns (ok: bool)
      modifies this`storage
      ensures ok == CanRename(old(storage), from, to, fails)
      ensures storage == Renamed(old(storage), from, to, fails)
    {
      ok := !fails && from in storage && (from == to || to !in storage || storage[to] == map[]);
      if ok && from != to {
        var tree := storage[from];
        storage := storage - {from};
        storage := storage[to := tree];
      }
    }

    method RotateKeys(old_: Key, new_: Key, authFails: bool, storageFails: bool) returns (reply: Reply)
      modifies this
      ensures (auth, storage, reply) == Handled(old(auth), old(storage), old_, new_, authFails, storageFails)
      ensures reply.Acknowledged? <==>
                Free(old(auth), old_, new_) && Free(old(storage), old_, new_) && !authFails && !storageFails
      ensures reply.UnknownUser? <==> old_ !in old(storage)
      ensures reply.Acknowledged? && old_ != new_ ==> old_ !in storage && old_ !in auth
      ensures reply.Acknowledged? ==>
                && new_ in storage && storage[new_] == old(storage[old_])
                && new_ in auth && old_ in old(auth) && auth[new_] == old(auth[old_])
    {
      if old_ !in storage { return UnknownUser; }
      var first := RenameAuth(old_, new_, authFails);
      var second := RenameStorage(old_, new_, storageFails);
      reply := if first && second then Acknowledged else Code500;
    }
  }

  // ---- Nothing is lost or duplicated -----------------------------------------------

  /** The rename of the storage tree that an event makes, if it makes one. */
  predicate MovesFiles(s: Server, e: Event) {
    Enabled(s, e) && e.RenameStorage?
    && var r := s.requests[e.id]; CanRename(s.storage, r.old_, r.new_, e.fails) && r.old_ != r.new_
  }

  /** For every key that has a directory now, the key that directory was first seen under. */
  ghost function Origins(s: Server, run: seq<Event>): map<Key, Key> {
    if run == [] then map k | k in s.storage :: k
    else
      var init, e := run[..|run| - 1], run[|run| - 1];
      var now, o := After(s, init), Origins(s, init);
      if MovesFiles(now, e) && now.requests[e.id].old_ in o
      then (o - {now.requests[e.id].old_})[now.requests[e.id].new_ := o[now.requests[e.id].old_]]
      else o
  }

  /** `o` pairs the directories of `now` with different directories of `was`, tree for
      tree, and leaves out only empty ones. */
  ghost predicate Rearranged(was: Dirs, now: Dirs, o: map<Key, Key>) {
    && o.Keys == now.Keys
    && (forall k :: k in o ==> o[k] in was && now[k] == was[o[k]])
    && (forall j, k :: j in o && k in o && o[j] == o[k] ==> j == k)
    && (forall k0 :: k0 in was && was[k0] != map[] ==> exists k :: k in o && o[k] == k0)
  }

  lemma RenameRearranges(was: Dirs, now: Dirs, o: map<Key, Key>, from: Key, to: Key)
    requires Rearranged(was, now, o) && CanRename(now, from, to, false) && from != to
    ensures Rearranged(was, (now - {from})[to := now[from]], (o - {from})[to := o[from]])
  {
    var o' := (o - {from})[to := o[from]];
    forall k0 | k0 in was && was[k0] != map[] ensures exists k :: k in o' && o'[k] == k0 {
      var k :| k in o && o[k] == k0;
      if k == from {
        assert to in o' && o'[to] == k0;
      } else {
        assert k in o' && o'[k] == k0;
      }
    }
  }

  /** Whatever requests run at the same time, whichever renames fail and whichever handlers
      are dropped: every directory is one of those at the start, no two come from the same
      one, and none with anything in it has gone. */
  lemma {:induction false} TreesOnlyMove(s: Server, run: seq<Event>)
    ensures Rearranged(s.storage, After(s, run).storage, Origins(s, run))
  {
    if run != [] {
      var init, e := run[..|run| - 1], run[|run| - 1];
      TreesOnlyMove(s, init);
      var now := After(s, init);
      if MovesFiles(now, e) {
        RenameRearranges(s.storage, now.storage, Origins(s, init), now.requests[e.id].old_, now.requests[e.id].new_);
      } else {
        FilesStay(now, e);
      }
    } else {
      forall k0 | k0 in s.storage ensures exists k :: k in Origins(s, run) && Origins(s, run)[k] == k0 {
        assert k0 in Origins(s, run) && Origins(s, run)[k0] == k0;
      }
    }
  }

  lemma FilesStay(s: Server, e: Event)
    requires !MovesFiles(s, e)
    ensures Next(s, e).storage == s.storage
  {}

  lemma HomeOf(was: Dirs, now: Dirs, o: map<Key, Key>, k0: Key) returns (home: Key)
    requires Rearranged(was, now, o) && k0 in was && was[k0] != map[]
    ensures home in o && o[home] == k0 && home in now && now[home] == was[k0]
    ensures forall k :: k in o && o[k] == k0 ==> k == home
  {
    home :| home in o && o[home] == k0;
  }

  /** For files: each one stored before any requests is found afterwards under one key and
      one only that its directory has moved to, with the same content. */
  lemma EveryFileHasOneHome(s: Server, run: seq<Event>, k0: Key, fileKey: string, name: string)
    returns (home: Key, origins: map<Key, Key>)
    requires Lookup(s, k0, fileKey, name).Some?
    ensures Rearranged(s.storage, After(s, run).storage, origins)
    ensures home in origins && origins[home] == k0 && forall k :: k in origins && origins[k] == k0 ==> k == home
    ensures Lookup(After(s, run), home, fileKey, name) == Lookup(s, k0, fileKey, name)
  {
    TreesOnlyMove(s, run);
    origins := Origins(s, run);
    home := HomeOf(s.storage, After(s, run).storage, origins, k0);
  }

  // ---- Following the acknowledgements ------------------------------------------------

  /** The new keys of all requests so far. */
  ghost predicate IsTarget(s: Server, k: Key) {
    exists id :: id in s.requests && s.requests[id].new_ == k
  }

  /** Requests name new keys that have no storage directory and no two name the same one. */
  ghost predicate FreshKeys(start: Dirs, s: Server) {
    && (forall id :: id in s.requests ==> s.requests[id].new_ !in start)
    && (forall i, j :: i in s.requests && j in s.requests && s.requests[i].new_ == s.requests[j].new_ ==> i == j)
  }

  /** Requests are only added and filled in. */
  ghost predicate RequestsGrow(s: Server, s': Server) {
    forall id :: id in s.requests ==>
      && id in s'.requests && s'.requests[id].old_ == s.requests[id].old_ && s'.requests[id].new_ == s.requests[id].new_
      && (s.requests[id].auth.Some? ==> s'.requests[id].auth == s.requests[id].auth)
      && (s.requests[id].storage.Some? ==> s'.requests[id].storage == s.requests[id].storage)
      && (s.requests[id].reply.Some? ==> s'.requests[id].reply == s.requests[id].reply)
  }

  lemma StepGrows(s: Server, e: Event)
    ensures RequestsGrow(s, Next(s, e))
  {}

  lemma FreshBefore(start: Dirs, s: Server, e: Event)
    requires FreshKeys(start, Next(s, e))
    ensures FreshKeys(start, s)
  {
    StepGrows(s, e);
    var s' := Next(s, e);
    forall i, j | i in s.requests && j in s.requests && s.requests[i].new_ == s.requests[j].new_ ensures i == j {
      assert s'.requests[i].new_ == s'.requests[j].new_;
    }
  }

  /** Every key that ever had the files of a first key, with that first key. */
  ghost function Roots(s: Server, run: seq<Event>): map<Key, Key> {
    if run == [] then map k | k in s.storage :: k
    else
      var init, e := run[..|run| - 1], run[|run| - 1];
      var now, r := After(s, init), Roots(s, init);
      if MovesFiles(now, e) && now.requests[e.id].old_ in r
      then r[now.requests[e.id].new_ := r[now.requests[e.id].old_]] else r
  }

  predicate Took(r: Request) {
    r.storage == Some(true)
  }

  /** Every directory is the start's under its root. */
  ghost predicate TreesRooted(start: Dirs, now: Dirs, roots: map<Key, Key>) {
    && now.Keys <= roots.Keys
    && (forall k :: k in now ==> roots[k] in start && now[k] == start[roots[k]])
    && (forall k :: k in start ==> k in roots && roots[k] == k)
  }

  ghost predicate KeysExplained(start: Dirs, s: Server, roots: map<Key, Key>) {
    forall k :: k in roots ==> k in start || IsTarget(s, k)
  }

  /** A request that took files took them along from root to root, for good; the new key of
      any other has never had files. */
  ghost predicate RequestPlaced(now: Dirs, roots: map<Key, Key>, r: Request) {
    && (Took(r) ==> r.old_ in roots && r.new_ in roots && roots[r.new_] == roots[r.old_] && r.old_ !in now)
    && (!Took(r) ==> r.new_ !in roots)
    && (r.reply == Some(Acknowledged) ==> Took(r))
    && (r.reply.Some? && !r.reply.value.UnknownUser? ==> r.storage.Some?)
  }

  ghost predicate TakenAway(s: Server, k: Key) {
    exists id :: id in s.requests && s.requests[id].old_ == k && Took(s.requests[id])
  }

  ghost predicate Placed(start: Dirs, s: Server, roots: map<Key, Key>) {
    && TreesRooted(start, s.storage, roots) && KeysExplained(start, s, roots)
    && RequestsPlaced(s, roots) && LossesExplained(s, roots)
  }

  ghost predicate RequestsPlaced(s: Server, roots: map<Key, Key>) {
    forall id :: id in s.requests ==> RequestPlaced(s.storage, roots, s.requests[id])
  }

  ghost predicate LossesExplained(s: Server, roots: map<Key, Key>) {
    forall k :: k in roots && k !in s.storage ==> TakenAway(s, k)
  }

  lemma {:induction false} AlwaysPlaced(s: Server, run: seq<Event>)
    requires s.requests == map[] && FreshKeys(s.storage, After(s, run))
    ensures Placed(s.storage, After(s, run), Roots(s, run))
  {
    if run != [] {
      var init, e := run[..|run| - 1], run[|run| - 1];
      FreshBefore(s.storage, After(s, init), e);
      AlwaysPlaced(s, init);
      if MovesFiles(After(s, init), e) {
        MovePlaces(s.storage, After(s, init), e, Roots(s, init));
      } else {
        QuietPlaces(s.storage, After(s, init), e, Roots(s, init));
      }
    }
  }

  lemma KeysStayExplained(start: Dirs, s: Server, e: Event, roots: map<Key, Key>)
    requires KeysExplained(start, s, roots)
    ensures KeysExplained(start, Next(s, e), roots)
  {
    StepGrows(s, e);
    forall k | k in roots ensures k in start || IsTarget(Next(s, e), k) {
      if k !in start {
        var id :| id in s.requests && s.requests[id].new_ == k;
        assert Next(s, e).requests[id].new_ == k;
      }
    }
  }

  lemma TakenStaysTaken(s: Server, e: Event, k: Key)
    requires TakenAway(s, k)
    ensures TakenAway(Next(s, e), k)
  {
    StepGrows(s, e);
    var id :| id in s.requests && s.requests[id].old_ == k && Took(s.requests[id]);
    assert Next(s, e).requests[id].old_ == k;
  }

  lemma ArrivesUnused(start: Dirs, s: Server, e: Event, roots: map<Key, Key>)
    requires KeysExplained(start, s, roots) && FreshKeys(start, Next(s, e)) && e.Arrive? && Enabled(s, e)
    ensures e.new_ !in roots
  {
    var s' := Next(s, e);
    assert s'.requests[e.id].new_ == e.new_;
    forall id | id in s.requests ensures s.requests[id].new_ != e.new_ {
      OneTargetEach(start, s', id, e.id);
    }
    assert e.new_ in roots ==> IsTarget(s, e.new_);
  }

  lemma OneTargetEach(start: Dirs, s: Server, i: ReqId, j: ReqId)
    requires FreshKeys(start, s) && i in s.requests && j in s.requests && i != j
    ensures s.requests[i].new_ != s.requests[j].new_
  {}

  /** A rename of a directory onto itself cannot happen: the new key has never had files. */
  lemma QuietRequest(s: Server, e: Event, roots: map<Key, Key>, id: ReqId)
    requires s.storage.Keys <= roots.Keys && !MovesFiles(s, e)
    requires id in s.requests && RequestPlaced(s.storage, roots, s.requests[id])
    ensures id in Next(s, e).requests && RequestPlaced(s.storage, roots, Next(s, e).requests[id])
  {}

  lemma QuietPlaces(start: Dirs, s: Server, e: Event, roots: map<Key, Key>)
    requires Placed(start, s, roots) && FreshKeys(start, Next(s, e)) && !MovesFiles(s, e)
    ensures Placed(start, Next(s, e), roots)
  {
    var s' := Next(s, e);
    FilesStay(s, e);
    KeysStayExplained(start, s, e, roots);
    forall id | id in s'.requests ensures RequestPlaced(s.storage, roots, s'.requests[id]) {
      if id in s.requests { QuietRequest(s, e, roots, id); } else { ArrivesUnused(start, s, e, roots); }
    }
    forall k | k in roots && k !in s'.storage ensures TakenAway(s', k) {
      TakenStaysTaken(s, e, k);
    }
  }

  lemma MoveEffect(s: Server, e: Event)
    requires MovesFiles(s, e)
    ensures var s', r := Next(s, e), s.requests[e.id];
            && s'.storage == (s.storage - {r.old_})[r.new_ := s.storage[r.old_]]
            && s'.requests == s.requests[e.id := r.(storage := Some(true))]
            && r.reply == None && r.storage == None
  {}

  /** Files are put where none have ever been. */
  lemma MoveRoots(start: Dirs, now: Dirs, roots: map<Key, Key>, from: Key, to: Key)
    requires TreesRooted(start, now, roots) && from in now && to !in roots
    ensures TreesRooted(start, (now - {from})[to := now[from]], roots[to := roots[from]])
  {}

  lemma MoveKeepsRequest(now: Dirs, roots: map<Key, Key>, from: Key, to: Key, r: Request)
    requires RequestPlaced(now, roots, r) && from in now && from in roots && to !in roots && r.new_ != to
    ensures RequestPlaced((now - {from})[to := now[from]], roots[to := roots[from]], r)
  {}

  lemma MoveRequests(start: Dirs, s: Server, e: Event, roots: map<Key, Key>, id: ReqId)
    requires FreshKeys(start, s) && MovesFiles(s, e) && id in s.requests && id != e.id
    requires RequestPlaced(s.storage, roots, s.requests[id]) && RequestPlaced(s.storage, roots, s.requests[e.id])
    requires s.requests[e.id].old_ in roots
    ensures var r := s.requests[e.id];
            id in Next(s, e).requests
            && RequestPlaced(Next(s, e).storage, roots[r.new_ := roots[r.old_]], Next(s, e).requests[id])
  {
    var r := s.requests[e.id];
    MoveEffect(s, e);
    OneTargetEach(start, s, id, e.id);
    MoveKeepsRequest(s.storage, roots, r.old_, r.new_, s.requests[id]);
  }

  lemma MoverIsPlaced(s: Server, e: Event, roots: map<Key, Key>)
    requires MovesFiles(s, e) && s.requests[e.id].old_ in roots && s.requests[e.id].new_ !in roots
    ensures var r := s.requests[e.id];
            RequestPlaced(Next(s, e).storage, roots[r.new_ := roots[r.old_]], Next(s, e).requests[e.id])
  {
    MoveEffect(s, e);
  }

  lemma MoveAllRequests(start: Dirs, s: Server, e: Event, roots: map<Key, Key>)
    requires FreshKeys(start, s) && MovesFiles(s, e) && RequestsPlaced(s, roots)
    requires s.requests[e.id].old_ in roots && s.requests[e.id].new_ !in roots
    ensures RequestsPlaced(Next(s, e), roots[s.requests[e.id].new_ := roots[s.requests[e.id].old_]])
  {
    var s', roots' := Next(s, e), roots[s.requests[e.id].new_ := roots[s.requests[e.id].old_]];
    MoveEffect(s, e);
    forall id | id in s'.requests ensures RequestPlaced(s'.storage, roots', s'.requests[id]) {
      if id != e.id { MoveRequests(start, s, e, roots, id); } else { MoverIsPlaced(s, e, roots); }
    }
  }

  lemma MoveKeepsExplained(start: Dirs, s: Server, e: Event, roots: map<Key, Key>)
    requires KeysExplained(start, s, roots) && MovesFiles(s, e) && s.requests[e.id].old_ in roots
    ensures KeysExplained(start, Next(s, e), roots[s.requests[e.id].new_ := roots[s.requests[e.id].old_]])
  {
    KeysStayExplained(start, s, e, roots);
    MoveEffect(s, e);
    assert Next(s, e).requests[e.id].new_ == s.requests[e.id].new_;
  }

  lemma MoverWasPlaced(s: Server, e: Event, roots: map<Key, Key>)
    requires RequestsPlaced(s, roots) && s.storage.Keys <= roots.Keys && MovesFiles(s, e)
    ensures s.requests[e.id].old_ in roots && s.requests[e.id].new_ !in roots
  {
    assert RequestPlaced(s.storage, roots, s.requests[e.id]);
  }

  lemma MoveKeepsTrees(start: Dirs, s: Server, e: Event, roots: map<Key, Key>)
    requires TreesRooted(start, s.storage, roots) && MovesFiles(s, e) && s.requests[e.id].new_ !in roots
    ensures TreesRooted(start, Next(s, e).storage, roots[s.requests[e.id].new_ := roots[s.requests[e.id].old_]])
  {
    MoveEffect(s, e);
    MoveRoots(start, s.storage, roots, s.requests[e.id].old_, s.requests[e.id].new_);
  }

  lemma MovePlaces(start: Dirs, s: Server, e: Event, roots: map<Key, Key>)
    requires Placed(start, s, roots) && FreshKeys(start, s) && MovesFiles(s, e)
    ensures s.requests[e.id].old_ in roots
    ensures Placed(start, Next(s, e), roots[s.requests[e.id].new_ := roots[s.requests[e.id].old_]])
  {
    MoverWasPlaced(s, e, roots);
    MoveKeepsTrees(start, s, e, roots);
    MoveKeepsExplained(start, s, e, roots);
    MoveAllRequests(start, s, e, roots);
    MoveIsExplained(s, e, roots);
  }

  lemma MoveIsExplained(s: Server, e: Event, roots: map<Key, Key>)
    requires MovesFiles(s, e) && LossesExplained(s, roots) && s.requests[e.id].old_ in roots
    ensures LossesExplained(Next(s, e), roots[s.requests[e.id].new_ := roots[s.requests[e.id].old_]])
  {
    var s', r := Next(s, e), s.requests[e.id];
    MoveEffect(s, e);
    forall k | k in roots[r.new_ := roots[r.old_]] && k !in s'.storage ensures TakenAway(s', k) {
      if k == r.old_ {
        assert s'.requests[e.id].old_ == k && Took(s'.requests[e.id]);
      } else {
        TakenStaysTaken(s, e, k);
      }
    }
  }

  /** Each key was acknowledged as the one before's new key, in whatever order. */
  ghost predicate Acknowledgements(s: Server, keys: seq<Key>) {
    && keys != []
    && forall i :: 0 <= i < |keys| - 1 ==> AcknowledgedFrom(s, keys[i], keys[i + 1])
  }

  ghost predicate AcknowledgedFrom(s: Server, j: Key, k: Key) {
    exists id :: id in s.requests && s.requests[id].old_ == j && s.requests[id].new_ == k
      && s.requests[id].reply == Some(Acknowledged)
  }

  /** A rotation away from the key has renamed its files, and has not been acknowledged:
      because the other rename failed, because the handler was dropped, or not yet. */
  ghost predicate TakenUnacknowledged(s: Server, k: Key) {
    exists id :: id in s.requests && s.requests[id].old_ == k && Took(s.requests[id])
      && s.requests[id].reply != Some(Acknowledged)
  }

  /** The last key that an owner was told of. */
  ghost predicate LastTold(s: Server, keys: seq<Key>) {
    && Acknowledgements(s, keys)
    && forall id :: id in s.requests && s.requests[id].old_ == keys[|keys| - 1] ==>
         s.requests[id].reply != Some(Acknowledged)
  }

  lemma {:induction false} ChainKeepsRoot(start: Dirs, s: Server, roots: map<Key, Key>, keys: seq<Key>)
    requires Placed(start, s, roots) && Acknowledgements(s, keys) && keys[0] in start
    ensures keys[|keys| - 1] in roots && roots[keys[|keys| - 1]] == keys[0]
  {
    if |keys| > 1 {
      var n := |keys| - 1;
      assert forall i :: 0 <= i < n - 1 ==> AcknowledgedFrom(s, keys[..n][i], keys[..n][i + 1]);
      ChainKeepsRoot(start, s, roots, keys[..n]);
      assert AcknowledgedFrom(s, keys[n - 1], keys[n]);
      var id :| id in s.requests && s.requests[id].old_ == keys[n - 1] && s.requests[id].new_ == keys[n]
                && s.requests[id].reply == Some(Acknowledged);
      assert RequestPlaced(s.storage, roots, s.requests[id]);
    }
  }

  /** Rotations through fresh keys, of any users, at the same time, failing in any way, with
      handlers dropped anywhere: the last key an owner was told of leads to the owner's files,
      unchanged, exactly if no unacknowledged rotation has taken them from it; otherwise it
      leads nowhere. For a user who was never acknowledged a rotation it is the first key. */
  lemma OwnersFindTheirTrees(s: Server, run: seq<Event>, keys: seq<Key>)
    requires s.requests == map[] && FreshKeys(s.storage, After(s, run))
    requires LastTold(After(s, run), keys) && keys[0] in s.storage
    ensures var k := keys[|keys| - 1];
            && (k in After(s, run).storage <==> !TakenUnacknowledged(After(s, run), k))
            && (k in After(s, run).storage ==> After(s, run).storage[k] == s.storage[keys[0]])
  {
    var now, k := After(s, run), keys[|keys| - 1];
    AlwaysPlaced(s, run);
    ChainKeepsRoot(s.storage, now, Roots(s, run), keys);
    if k !in now.storage { assert TakenAway(now, k); }
  }

  // ---- Whatever keys others name -------------------------------------------------------

  /** The key that the tree first seen under k0 is under now. */
  function HolderOf(s: Server, run: seq<Event>, k0: Key): Key {
    if run == [] then k0
    else
      var init, e := run[..|run| - 1], run[|run| - 1];
      var now, k := After(s, init), HolderOf(s, init, k0);
      if MovesFiles(now, e) && now.requests[e.id].old_ == k then now.requests[e.id].new_ else k
  }

  /** A tree with anything in it is never replaced: in every run, whatever new keys are named
      by whom, it goes exactly where requests from the key it is under take it. */
  lemma {:induction false} TreeIsWithItsHolder(s: Server, run: seq<Event>, k0: Key)
    requires k0 in s.storage && s.storage[k0] != map[]
    ensures HolderOf(s, run, k0) in After(s, run).storage
    ensures After(s, run).storage[HolderOf(s, run, k0)] == s.storage[k0]
  {
    if run != [] {
      var init, e := run[..|run| - 1], run[|run| - 1];
      TreeIsWithItsHolder(s, init, k0);
      if MovesFiles(After(s, init), e) { MoveEffect(After(s, init), e); } else { FilesStay(After(s, init), e); }
    }
  }

  lemma {:induction false} RunGrows(s: Server, run: seq<Event>, k: nat)
    requires k <= |run|
    ensures RequestsGrow(After(s, run[..k]), After(s, run))
  {
    if k < |run| {
      var init := run[..|run| - 1];
      assert init[..k] == run[..k];
      RunGrows(s, init, k);
      StepGrows(After(s, init), run[|run| - 1]);
      GrowthComposes(After(s, run[..k]), After(s, init), After(s, run));
    } else {
      assert run[..k] == run;
    }
  }

  lemma GrowthComposes(a: Server, b: Server, c: Server)
    requires RequestsGrow(a, b) && RequestsGrow(b, c)
    ensures RequestsGrow(a, c)
  {}

  ghost predicate NoRequestFrom(s: Server, k: Key) {
    forall id :: id in s.requests ==> s.requests[id].old_ != k
  }

  /** A user who asks for no rotation keeps the directory, and every file in it, whatever
      keys others name, that user's own included. */
  lemma {:induction false} OthersAreUntouched(s: Server, run: seq<Event>, k: Key)
    requires k in s.storage && NoRequestFrom(After(s, run), k)
    ensures k in After(s, run).storage
    ensures s.storage[k] != map[] ==> After(s, run).storage[k] == s.storage[k]
  {
    if run != [] {
      var init, e := run[..|run| - 1], run[|run| - 1];
      StepGrows(After(s, init), e);
      assert NoRequestFrom(After(s, init), k) by {
        forall id | id in After(s, init).requests ensures After(s, init).requests[id].old_ != k {
          assert After(s, run).requests[id].old_ != k;
        }
      }
      OthersAreUntouched(s, init, k);
      UntouchedStep(After(s, init), e, k);
    }
  }

  /** The one exception, exactly: an empty directory is replaced by a tree with something in
      it when a request names its key and takes that tree. */
  lemma UntouchedStep(s: Server, e: Event, k: Key)
    requires k in s.storage && (MovesFiles(s, e) ==> s.requests[e.id].old_ != k)
    ensures k in Next(s, e).storage
    ensures Next(s, e).storage[k] != s.storage[k]
       <==> MovesFiles(s, e) && s.requests[e.id].new_ == k && s.storage[s.requests[e.id].old_] != map[]
    ensures Next(s, e).storage[k] != s.storage[k] ==> s.storage[k] == map[]
  {
    if MovesFiles(s, e) { MoveEffect(s, e); } else { FilesStay(s, e); }
  }

  /** Which happens: an empty directory can be taken over by anybody with files. */
  lemma EmptyDirectoryIsTakenOver(k: Key, other: Key, tree: Tree) returns (run: seq<Event>)
    requires k != other && tree != map[]
    ensures var s := Server(map[], map[k := map[], other := tree], map[]);
            NoRequestFrom(After(s, run), k) && After(s, run).storage == map[k := tree]
  {
    var s := Server(map[], map[k := map[], other := tree], map[]);
    run := TwoRenames(s, other, k, false);
    assert After(s, run).storage == (s.storage - {other})[k := tree];
  }

  /** A first request, up to where both renames have been tried. */
  lemma TwoRenames(s: Server, old_: Key, new_: Key, authFails: bool) returns (run: seq<Event>)
    requires s.requests == map[] && old_ in s.storage
    ensures var s' := After(s, run);
            && s'.storage == Renamed(s.storage, old_, new_, false)
            && s'.requests == map[0 := Request(old_, new_, Some(CanRename(s.auth, old_, new_, authFails)),
                                               Some(CanRename(s.storage, old_, new_, false)), None)]
  {
    var a, b, c := Arrive(0, old_, new_), RenameAuth(0, authFails), RenameStorage(0, false);
    OneMore(s, [], a);
    OneMore(s, [a], b);
    OneMore(s, [a, b], c);
    assert [] + [a] == [a] && [a] + [b] == [a, b];
    assert After(s, [a]) == s.(requests := map[0 := Request(old_, new_, None, None, None)]);
    var s2 := After(s, [a, b]);
    assert s2.storage == s.storage;
    assert s2.requests == map[0 := Request(old_, new_, Some(CanRename(s.auth, old_, new_, authFails)), None, None)];
    run := [a, b] + [c];
  }

  /** While one request is there, another has been acknowledged. */
  ghost predicate ComesAfter(s: Server, run: seq<Event>, id: ReqId, before: ReqId) {
    forall k :: 0 <= k <= |run| && id in After(s, run[..k]).requests ==>
      before in After(s, run[..k]).requests && After(s, run[..k]).requests[before].reply == Some(Acknowledged)
  }

  ghost predicate Asked(s: Server, id: ReqId, old_: Key, new_: Key) {
    && id in s.requests && s.requests[id].old_ == old_ && s.requests[id].new_ == new_
    && s.requests[id].reply == Some(Acknowledged)
  }

  /** k0 -> k1 -> ... -> kn: each rotation was asked for when the one before had been
      acknowledged, all were, and nothing else was asked for in the name of these keys. */
  ghost predicate InTurn(s: Server, run: seq<Event>, ids: seq<ReqId>, keys: seq<Key>) {
    && |keys| == |ids| + 1 && (forall i, j :: 0 <= i < j < |keys| ==> keys[i] != keys[j])
    && (forall i :: 0 <= i < |ids| ==> Asked(After(s, run), ids[i], keys[i], keys[i + 1]))
    && (forall i, id :: 0 <= i < |keys| && id in After(s, run).requests
                        && After(s, run).requests[id].old_ == keys[i] ==>
          i < |ids| && id == ids[i])
    && (forall i :: 0 < i < |ids| ==> ComesAfter(s, run, ids[i], ids[i - 1]))
  }

  ghost predicate HasTaken(s: Server, id: ReqId) {
    id in s.requests && Took(s.requests[id])
  }

  lemma {:induction false} AcknowledgedHaveTaken(s: Server, run: seq<Event>, id: ReqId)
    requires s.requests == map[]
    requires id in After(s, run).requests && After(s, run).requests[id].reply == Some(Acknowledged)
    ensures HasTaken(After(s, run), id)
  {
    var init, e := run[..|run| - 1], run[|run| - 1];
    if id in After(s, init).requests && After(s, init).requests[id].reply == Some(Acknowledged) {
      AcknowledgedHaveTaken(s, init, id);
      StepGrows(After(s, init), e);
    }
  }

  /** An event that takes files, or says so, is the storage rename of that request. */
  lemma TakingStep(s: Server, e: Event, id: ReqId)
    requires HasTaken(Next(s, e), id) && !HasTaken(s, id)
    ensures Enabled(s, e) && e.RenameStorage? && e.id == id && id in s.requests
    ensures MovesFiles(s, e) || s.requests[id].old_ == s.requests[id].new_
  {}

  /** What the next event does to the chain's tree. */
  lemma ChainStep(s: Server, run: seq<Event>, ids: seq<ReqId>, keys: seq<Key>, k: nat, m: nat, i: nat)
    requires s.requests == map[] && InTurn(s, run, ids, keys) && k < |run| && m <= |ids| && i < |ids|
    requires forall j :: 0 <= j < |ids| ==> (HasTaken(After(s, run[..k]), ids[j]) <==> j < m)
    requires HasTaken(After(s, run[..k + 1]), ids[i]) && i >= m
    ensures i == m && MovesFiles(After(s, run[..k]), run[k]) && run[k].id == ids[m]
    ensures After(s, run[..k]).requests[ids[m]].old_ == keys[m]
    ensures After(s, run[..k]).requests[ids[m]].new_ == keys[m + 1]
  {
    var now := After(s, run[..k]);
    assert run[..k + 1][..k] == run[..k];
    TakingStep(now, run[k], ids[i]);
    RunGrows(s, run, k);
    assert Asked(After(s, run), ids[i], keys[i], keys[i + 1]);
    if i > m {
      assert ComesAfter(s, run, ids[i], ids[i - 1]);
      AcknowledgedHaveTaken(s, run[..k], ids[i - 1]);
    }
  }

  /** After k events the tree is under the m-th key: just the first m requests have taken it. */
  ghost predicate AtLink(s: Server, run: seq<Event>, ids: seq<ReqId>, keys: seq<Key>, k: nat, m: nat)
    requires k <= |run| && |keys| == |ids| + 1
  {
    && m <= |ids| && HolderOf(s, run[..k], keys[0]) == keys[m]
    && forall i :: 0 <= i < |ids| ==> (HasTaken(After(s, run[..k]), ids[i]) <==> i < m)
  }

  lemma TakenStays(s: Server, e: Event, id: ReqId)
    requires HasTaken(s, id)
    ensures HasTaken(Next(s, e), id)
  {
    StepGrows(s, e);
  }

  lemma HolderStep(s: Server, run: seq<Event>, k: nat, k0: Key)
    requires k < |run|
    ensures After(s, run[..k + 1]) == Next(After(s, run[..k]), run[k])
    ensures var now, e, h := After(s, run[..k]), run[k], HolderOf(s, run[..k], k0);
            HolderOf(s, run[..k + 1], k0)
            == if MovesFiles(now, e) && now.requests[e.id].old_ == h then now.requests[e.id].new_ else h
  {
    assert run[..k + 1][..k] == run[..k];
  }

  /** The event takes the tree one link on. */
  lemma LinkTaken(s: Server, run: seq<Event>, ids: seq<ReqId>, keys: seq<Key>, k: nat, m: nat, i: nat)
    requires s.requests == map[] && InTurn(s, run, ids, keys) && k < |run| && AtLink(s, run, ids, keys, k, m)
    requires m <= i < |ids| && HasTaken(After(s, run[..k + 1]), ids[i])
    ensures AtLink(s, run, ids, keys, k + 1, m + 1)
  {
    HolderStep(s, run, k, keys[0]);
    ChainStep(s, run, ids, keys, k, m, i);
    forall j | 0 <= j < |ids| ensures HasTaken(After(s, run[..k + 1]), ids[j]) <==> j < m + 1 {
      if j < m { TakenStays(After(s, run[..k]), run[k], ids[j]); }
      if j > m && HasTaken(After(s, run[..k + 1]), ids[j]) { ChainStep(s, run, ids, keys, k, m, j); }
    }
  }

  /** A rename of files away from a key of the chain is by the chain's request. */
  lemma TakerIsInChain(s: Server, run: seq<Event>, ids: seq<ReqId>, keys: seq<Key>, k: nat, m: nat)
    requires InTurn(s, run, ids, keys) && k < |run| && m < |keys|
    requires MovesFiles(After(s, run[..k]), run[k]) && After(s, run[..k]).requests[run[k].id].old_ == keys[m]
    ensures m < |ids| && HasTaken(After(s, run[..k + 1]), ids[m])
  {
    HolderStep(s, run, k, keys[0]);
    RunGrows(s, run, k);
    MoveEffect(After(s, run[..k]), run[k]);
    assert run[k].id in After(s, run).requests && After(s, run).requests[run[k].id].old_ == keys[m];
  }

  /** Or leaves it where it is. */
  lemma LinkStays(s: Server, run: seq<Event>, ids: seq<ReqId>, keys: seq<Key>, k: nat, m: nat)
    requires InTurn(s, run, ids, keys) && k < |run| && AtLink(s, run, ids, keys, k, m)
    requires forall i :: m <= i < |ids| ==> !HasTaken(After(s, run[..k + 1]), ids[i])
    ensures AtLink(s, run, ids, keys, k + 1, m)
  {
    HolderStep(s, run, k, keys[0]);
    forall j | 0 <= j < m ensures HasTaken(After(s, run[..k + 1]), ids[j]) {
      TakenStays(After(s, run[..k]), run[k], ids[j]);
    }
    if MovesFiles(After(s, run[..k]), run[k]) && After(s, run[..k]).requests[run[k].id].old_ == keys[m] {
      TakerIsInChain(s, run, ids, keys, k, m);
    }
  }

  lemma {:induction false} ChainHolder(s: Server, run: seq<Event>, ids: seq<ReqId>, keys: seq<Key>, k: nat)
    returns (m: nat)
    requires s.requests == map[] && InTurn(s, run, ids, keys) && k <= |run|
    ensures AtLink(s, run, ids, keys, k, m)
  {
    if k == 0 {
      m := 0;
      assert run[..0] == [];
    } else {
      m := ChainHolder(s, run, ids, keys, k - 1);
      if i :| m <= i < |ids| && HasTaken(After(s, run[..k]), ids[i]) {
        LinkTaken(s, run, ids, keys, k - 1, m, i);
        m := m + 1;
      } else {
        LinkStays(s, run, ids, keys, k - 1, m);
      }
    }
  }

  /** After such a chain every lookup under the last key answers as it did under the first,
      whatever keys anybody else has named meanwhile. */
  lemma ChainKeepsLookups(s: Server, run: seq<Event>, ids: seq<ReqId>, keys: seq<Key>, fileKey: string, name: string)
    requires s.requests == map[] && InTurn(s, run, ids, keys)
    requires keys[0] in s.storage && s.storage[keys[0]] != map[]
    ensures Lookup(After(s, run), keys[|ids|], fileKey, name) == Lookup(s, keys[0], fileKey, name)
  {
    var m := ChainHolder(s, run, ids, keys, |run|);
    assert run[..|run|] == run;
    if m < |ids| {
      assert Asked(After(s, run), ids[m], keys[m], keys[m + 1]);
      AcknowledgedHaveTaken(s, run, ids[m]);
      assert false;
    }
    TreeIsWithItsHolder(s, run, keys[0]);
  }

  /** The files are never moved before the rename of the key has been tried, and nobody with a
      storage directory is answered before both have. */
  lemma {:induction false} RenamesComeInOrder(s: Server, run: seq<Event>, id: ReqId)
    requires s.requests == map[] && id in After(s, run).requests
    ensures After(s, run).requests[id].storage.Some? ==> After(s, run).requests[id].auth.Some?
    ensures var r := After(s, run).requests[id].reply;
            r.Some? && r != Some(UnknownUser) ==> After(s, run).requests[id].storage.Some?
  {
    if run != [] {
      var init := run[..|run| - 1];
      if id in After(s, init).requests { RenamesComeInOrder(s, init, id); }
    }
  }

  // ---- Chains exist --------------------------------------------------------------------

  lemma {:induction false} RunsCompose(s: Server, run: seq<Event>, more: seq<Event>)
    ensures After(s, run + more) == After(After(s, run), more)
  {
    if more == [] {
      assert run + more == run;
    } else {
      var n := |more| - 1;
      assert (run + more)[..|run + more| - 1] == run + more[..n] && (run + more)[|run + more| - 1] == more[n];
      RunsCompose(s, run, more[..n]);
    }
  }

  /** The owner's two directories are under the last key of the chain, all requests made so
      far have been acknowledged, and they are numbered in turn. */
  ghost predicate Reached(s: Server, keys: seq<Key>, auth: Tree, tree: Tree) {
    && keys != [] && s.auth == map[keys[|keys| - 1] := auth] && s.storage == map[keys[|keys| - 1] := tree]
    && (forall id: ReqId :: id in s.requests <==> id < |keys| - 1)
    && (forall i :: 0 <= i < |keys| - 1 ==> Asked(s, i, keys[i], keys[i + 1]))
  }

  lemma OneLinkMore(s: Server, keys: seq<Key>, next: Key, auth: Tree, tree: Tree) returns (run: seq<Event>)
    requires Reached(s, keys, auth, tree) && next !in keys
    ensures Reached(After(s, run), keys + [next], auth, tree)
  {
    var id, last := |keys| - 1, keys[|keys| - 1];
    run := [Arrive(id, last, next), RenameAuth(id, false), RenameStorage(id, false), Answer(id)];
    UndisturbedIsAcknowledged(s, id, last, next, false, false);
    FourStepsTouchOne(s, id, last, next);
    var s', keys' := After(s, run), keys + [next];
    forall i | 0 <= i < |keys'| - 1 ensures Asked(s', i, keys'[i], keys'[i + 1]) {
      if i < |keys| - 1 { assert Asked(s, i, keys[i], keys[i + 1]); }
    }
  }

  ghost predicate TouchesOnly(s: Server, s': Server, id: ReqId) {
    s'.requests.Keys <= s.requests.Keys + {id} && forall i :: i in s.requests && i != id ==>
      i in s'.requests && s'.requests[i] == s.requests[i]
  }

  lemma StepTouchesOne(s: Server, e: Event)
    ensures TouchesOnly(s, Next(s, e), e.id)
  {}

  lemma FourStepsTouchOne(s: Server, id: ReqId, old_: Key, new_: Key)
    requires id !in s.requests
    ensures var s' := After(s, [Arrive(id, old_, new_), RenameAuth(id, false), RenameStorage(id, false), Answer(id)]);
            && s'.requests.Keys == s.requests.Keys + {id}
            && (forall i :: i in s.requests ==> s'.requests[i] == s.requests[i])
            && s'.requests[id].old_ == old_ && s'.requests[id].new_ == new_
  {
    var a, b, c, d := Arrive(id, old_, new_), RenameAuth(id, false), RenameStorage(id, false), Answer(id);
    FourInARow(s, a, b, c, d);
    var s1 := Next(s, a);
    var s2 := Next(s1, b);
    var s3 := Next(s2, c);
    StepTouchesOne(s, a);
    StepTouchesOne(s1, b);
    StepTouchesOne(s2, c);
    StepTouchesOne(s3, d);
  }

  /** Request i is there only once request i - 1 has been acknowledged. */
  ghost predicate InNumber(s: Server, run: seq<Event>, i: ReqId) {
    i > 0 ==> ComesAfter(s, run, i, i - 1)
  }

  ghost predicate Numbered(s: Server, run: seq<Event>, n: nat) {
    forall i: ReqId :: i < n ==> InNumber(s, run, i)
  }

  lemma StaysNumbered(s: Server, init: seq<Event>, more: seq<Event>, keys: seq<Key>, auth: Tree, tree: Tree)
    requires Reached(After(s, init), keys, auth, tree) && Numbered(s, init, |keys| - 1)
    ensures Numbered(s, init + more, |keys|)
  {
    forall i: ReqId | i < |keys| ensures InNumber(s, init + more, i) {
      if i > 0 { StaysInNumber(s, init, more, keys, auth, tree, i); }
    }
  }

  lemma StaysInNumber(s: Server, init: seq<Event>, more: seq<Event>, keys: seq<Key>, auth: Tree, tree: Tree, i: ReqId)
    requires Reached(After(s, init), keys, auth, tree) && Numbered(s, init, |keys| - 1) && 0 < i < |keys|
    ensures ComesAfter(s, init + more, i, i - 1)
  {
    var run := init + more;
    forall k | 0 <= k <= |run| && i in After(s, run[..k]).requests
      ensures i - 1 in After(s, run[..k]).requests && After(s, run[..k]).requests[i - 1].reply == Some(Acknowledged)
    {
      if k <= |init| {
        assert run[..k] == init[..k];
        RunGrows(s, init, k);
        assert i < |keys| - 1 && InNumber(s, init, i);
      } else {
        assert run[..k][..|init|] == init;
        RunGrows(s, run[..k], |init|);
        assert Asked(After(s, init), i - 1, keys[i - 1], keys[i]);
      }
    }
  }

  /** Through any distinct keys, a registered user can have a chain of rotations in turn that
      are all acknowledged, and ends with the same files under the last key. */
  lemma {:induction false} ChainsExist(keys: seq<Key>, auth: Tree, tree: Tree) returns (run: seq<Event>)
    requires keys != [] && forall i, j :: 0 <= i < j < |keys| ==> keys[i] != keys[j]
    ensures var s := Server(map[keys[0] := auth], map[keys[0] := tree], map[]);
            Reached(After(s, run), keys, auth, tree) && Numbered(s, run, |keys| - 1)
  {
    var s := Server(map[keys[0] := auth], map[keys[0] := tree], map[]);
    if |keys| == 1 {
      run := [];
      assert After(s, run) == s;
    } else {
      var n := |keys| - 1;
      var init := ChainsExist(keys[..n], auth, tree);
      var more := OneLinkMore(After(s, init), keys[..n], keys[n], auth, tree);
      RunsCompose(s, init, more);
      assert keys[..n] + [keys[n]] == keys && keys[..n][0] == keys[0];
      run := init + more;
      assert After(s, run) == After(After(s, init), more);
      StaysNumbered(s, init, more, keys[..n], auth, tree);
    }
  }

  /** And such a chain is one in turn. */
  lemma ReachedInTurn(s: Server, run: seq<Event>, keys: seq<Key>, auth: Tree, tree: Tree)
    requires Reached(After(s, run), keys, auth, tree) && Numbered(s, run, |keys| - 1)
    requires forall i, j :: 0 <= i < j < |keys| ==> keys[i] != keys[j]
    ensures InTurn(s, run, Numbers(|keys| - 1), keys)
  {
    var now, ids := After(s, run), Numbers(|keys| - 1);
    forall i | 0 <= i < |ids| ensures Asked(now, ids[i], keys[i], keys[i + 1]) {
      assert Asked(now, i, keys[i], keys[i + 1]);
    }
    forall i, id | 0 <= i < |keys| && id in now.requests && now.requests[id].old_ == keys[i]
      ensures i < |ids| && id == ids[i]
    {
      OneAskerEach(now, keys, auth, tree, i, id);
    }
    forall i | 0 < i < |ids| ensures ComesAfter(s, run, ids[i], ids[i - 1]) {
      assert InNumber(s, run, i);
    }
  }

  function Numbers(n: nat): seq<ReqId> {
    seq(n, i => i)
  }

  lemma OneAskerEach(s: Server, keys: seq<Key>, auth: Tree, tree: Tree, i: nat, id: ReqId)
    requires Reached(s, keys, auth, tree) && i < |keys| && id in s.requests && s.requests[id].old_ == keys[i]
    requires forall i, j :: 0 <= i < j < |keys| ==> keys[i] != keys[j]
    ensures i < |keys| - 1 && id == i
  {
    assert Asked(s, id, keys[id], keys[id + 1]);
  }

  // ---- What can go wrong -------------------------------------------------------------

  /** Once a key's authorisation directory is gone, no rotation away from that key is ever
      acknowledged, however often it is retried and to whatever keys, save one whose rename
      of that directory is what made it go. */
  lemma RetriesAreNeverAcknowledged(s: Server, run: seq<Event>, k: Key, id: ReqId)
    requires k !in s.auth && (forall i :: i in After(s, run).requests ==> After(s, run).requests[i].new_ != k)
    requires id in After(s, run).requests && After(s, run).requests[id].old_ == k
    requires id in s.requests ==> s.requests[id].auth != Some(true) && s.requests[id].reply != Some(Acknowledged)
    ensures k !in After(s, run).auth && After(s, run).requests[id].reply != Some(Acknowledged)
  {
    StaysUnauthorised(s, run, k, id);
  }

  ghost predicate Unauthorised(s: Server, k: Key, id: ReqId) {
    && k !in s.auth
    && (id in s.requests && s.requests[id].old_ == k ==>
          s.requests[id].auth != Some(true) && s.requests[id].reply != Some(Acknowledged))
  }

  lemma StepStaysUnauthorised(s: Server, e: Event, k: Key, id: ReqId)
    requires Unauthorised(s, k, id) && (forall i :: i in s.requests ==> s.requests[i].new_ != k)
    ensures Unauthorised(Next(s, e), k, id)
  {}

  lemma {:induction false} StaysUnauthorised(s: Server, run: seq<Event>, k: Key, id: ReqId)
    requires Unauthorised(s, k, id) && (forall i :: i in After(s, run).requests ==> After(s, run).requests[i].new_ != k)
    ensures Unauthorised(After(s, run), k, id)
  {
    if run != [] {
      var init, e := run[..|run| - 1], run[|run| - 1];
      StepGrows(After(s, init), e);
      forall i | i in After(s, init).requests ensures After(s, init).requests[i].new_ != k {
        assert i in After(s, run).requests && After(s, run).requests[i].new_ == After(s, init).requests[i].new_;
      }
      StaysUnauthorised(s, init, k, id);
      StepStaysUnauthorised(After(s, init), e, k, id);
    }
  }

  /** The unacknowledged case exists in two ways. Told to try again, because the key could
      not be renamed, or told nothing, because the handler was dropped before its answer, the
      owner has lost the files under the old key, and a retry comes from an unknown user. */
  lemma OwnersCanBeCutOff(old_: Key, new_: Key, tree: Tree, dropped: bool) returns (run: seq<Event>)
    requires old_ != new_
    ensures var s := After(Server(map[old_ := map[]], map[old_ := tree], map[]), run);
            && s.requests == map[0 := Request(old_, new_, Some(dropped), Some(true),
                                              if dropped then None else Some(Code500)),
                                 1 := Request(old_, new_, None, None, Some(UnknownUser))]
            && TakenUnacknowledged(s, old_) && old_ !in s.storage
  {
    var s := Server(map[old_ := map[]], map[old_ := tree], map[]);
    run := TwoRenames(s, old_, new_, !dropped);
    assert After(s, run).storage == map[new_ := tree];
    if !dropped {
      OneMore(s, run, Answer(0));
      run := run + [Answer(0)];
    }
    OneMore(s, run, Arrive(1, old_, new_));
    run := run + [Arrive(1, old_, new_)];
    var now := After(s, run);
    assert now.requests[0].old_ == old_ && Took(now.requests[0]);
  }
}
