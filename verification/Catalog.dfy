/** The client's catalog: what was pushed under which identifier (`fileMap`), and for each
    file name the identifiers it was pushed under (`fileIndex`). Both maps are updated
    together after a transfer. */
module CatalogSpec {
  import opened Common

  type Id = string
  type Name = string

  datatype FileHistory = FileHistory(name: Name, lastPush: nat, lastPull: Option<nat>)

  datatype Book = Book(files: map<Id, FileHistory>, index: map<Name, seq<Id>>)

  function Pushed(b: Book, name: Name, id: Id, now: nat): Book {
    Book(
      b.files[id := if id in b.files then b.files[id].(lastPush := now) else FileHistory(name, now, None)],
      b.index[name := if name !in b.index then [id]
                      else if id in b.index[name] then b.index[name] else b.index[name] + [id]])
  }

  function Pulled(b: Book, id: Id, now: nat): Book {
    if id in b.files then b.(files := b.files[id := b.files[id].(lastPull := Some(now))]) else b
  }

  /** What the user is offered for a name, and what becomes of the answer: 0 for a new
      identifier, k for the k-th listed, any other number or no number ends the program.
      The listing itself fails on an identifier the map does not know. */
  datatype Choice = Chosen(id: Id) | NotInFileMap | NotANumber | OutOfRange

  predicate Listable(b: Book, name: Name) {
    name !in b.index || forall i :: 0 <= i < |b.index[name]| ==> b.index[name][i] in b.files
  }

  function Choose(b: Book, name: Name, answer: Option<nat>, fresh_: Id): Choice {
    if name !in b.index then Chosen(fresh_)
    else if !Listable(b, name) then NotInFileMap
    else
      match answer
      case None => NotANumber
      case Some(k) =>
        if k == 0 then Chosen(fresh_)
        else if k <= |b.index[name]| then Chosen(b.index[name][k - 1])
        else OutOfRange
  }

  /** When the program ends instead, and why: the listing comes first, then the answer. */
  lemma ChoiceFailsExactly(b: Book, name: Name, answer: Option<nat>, fresh_: Id)
    ensures var c := Choose(b, name, answer, fresh_);
            && (c == NotInFileMap <==>
                name in b.index && exists i :: 0 <= i < |b.index[name]| && b.index[name][i] !in b.files)
            && (c == NotANumber <==> name in b.index && c != NotInFileMap && answer == None)
            && (c == OutOfRange <==>
                name in b.index && c != NotInFileMap && answer.Some? && answer.value > |b.index[name]|)
            && (name !in b.index ==> c == Chosen(fresh_))
  {}

  function Tracked(b: Book, name: Name): seq<Id> {
    if name in b.index then b.index[name] else []
  }

  predicate NoDuplicates(ids: seq<Id>) {
    forall i, j :: 0 <= i < j < |ids| ==> ids[i] != ids[j]
  }

  /** The two maps agree: an identifier is listed under a name exactly if it is that name's,
      and once. */
  ghost predicate Consistent(b: Book) {
    && (forall name, id :: id in Tracked(b, name) <==> id in b.files && b.files[id].name == name)
    && forall name :: NoDuplicates(Tracked(b, name))
  }

  lemma AppendTracks(ids: seq<Id>, id: Id)
    requires NoDuplicates(ids) && id !in ids
    ensures NoDuplicates(ids + [id])
    ensures forall x :: x in ids + [id] <==> x in ids || x == id
  {}

  lemma PushTracks(b: Book, name: Name, id: Id, now: nat, n: Name)
    requires Consistent(b) && (id in b.files ==> b.files[id].name == name)
    ensures var b' := Pushed(b, name, id, now);
            && NoDuplicates(Tracked(b', n))
            && forall x :: x in Tracked(b', n) <==> x in b'.files && b'.files[x].name == n
  {
    assert forall x :: x in Tracked(b, n) <==> x in b.files && b.files[x].name == n;
    assert NoDuplicates(Tracked(b, n));
    if n == name && id !in Tracked(b, name) { AppendTracks(Tracked(b, name), id); }
  }

  /** A push keeps the maps consistent exactly if the identifier is new to the map or is
      already this name's. */
  lemma PushKeepsConsistent(b: Book, name: Name, id: Id, now: nat)
    requires Consistent(b)
    ensures Consistent(Pushed(b, name, id, now)) <==> (id in b.files ==> b.files[id].name == name)
  {
    if id in b.files ==> b.files[id].name == name {
      forall n { PushTracks(b, name, id, now, n); }
    } else {
      var b' := Pushed(b, name, id, now);
      assert id in Tracked(b', name) && b'.files[id].name != name;
    }
  }

  lemma PullKeepsConsistent(b: Book, id: Id, now: nat)
    requires Consistent(b)
    ensures Consistent(Pulled(b, id, now))
  {
    var b' := Pulled(b, id, now);
    forall n, x ensures x in Tracked(b', n) <==> x in b'.files && b'.files[x].name == n {
      assert x in Tracked(b, n) <==> x in b.files && b.files[x].name == n;
    }
    forall n ensures NoDuplicates(Tracked(b', n)) {
      assert NoDuplicates(Tracked(b, n));
    }
  }

  // ---- Whole runs of the program ----------------------------------------------------

  /** One run of the client program. `answer` is what was typed, if a number; `fresh_` is the
      identifier a push would draw; `done` is whether the upload worked. A pull may name any
      identifier. */
  datatype Session =
    | Push(name: Name, answer: Option<nat>, fresh_: Id, done: bool, at: nat)
    | Pull(id: Id, at: nat)

  function Applied(b: Book, s: Session): Book {
    match s
    case Push(name, answer, fresh_, done, at) =>
      var c := Choose(b, name, answer, fresh_);
      if c.Chosen? && done then Pushed(b, name, c.id, at) else b
    case Pull(id, at) => Pulled(b, id, at)
  }

  function After(run: seq<Session>): Book {
    if run == [] then Book(map[], map[]) else Applied(After(run[..|run| - 1]), run[|run| - 1])
  }

  /** The identifiers drawn so far. */
  function Drawn(run: seq<Session>): set<Id> {
    if run == [] then {}
    else Drawn(run[..|run| - 1]) + if run[|run| - 1].Push? then {run[|run| - 1].fresh_} else {}
  }

  /** None is drawn twice. */
  predicate DrawnOnce(run: seq<Session>) {
    run == [] || (DrawnOnce(run[..|run| - 1]) && New(run[|run| - 1], Drawn(run[..|run| - 1])))
  }

  predicate New(s: Session, drawn: set<Id>) {
    s.Push? ==> s.fresh_ !in drawn
  }

  lemma SessionKeepsConsistent(b: Book, s: Session, drawn: set<Id>)
    requires Consistent(b) && b.files.Keys <= drawn && New(s, drawn)
    ensures Consistent(Applied(b, s))
    ensures Applied(b, s).files.Keys <= drawn + if s.Push? then {s.fresh_} else {}
  {
    match s
    case Push(name, answer, fresh_, done, at) =>
      var c := Choose(b, name, answer, fresh_);
      if c.Chosen? && done {
        assert c.id == fresh_ || c.id in Tracked(b, name);
        PushKeepsConsistent(b, name, c.id, at);
      }
    case Pull(id, at) => PullKeepsConsistent(b, id, at);
  }

  lemma ConsistentIsListable(b: Book, name: Name)
    requires Consistent(b)
    ensures Listable(b, name)
  {
    if name in b.index {
      forall i | 0 <= i < |b.index[name]| ensures b.index[name][i] in b.files {
        assert b.index[name][i] in Tracked(b, name);
      }
    }
  }

  /** Whatever is answered, whichever transfers fail and whatever is pulled: the maps always
      agree, so the listing before a push never meets an identifier it cannot find. */
  lemma {:induction false} AlwaysConsistent(run: seq<Session>)
    requires DrawnOnce(run)
    ensures Consistent(After(run)) && forall name :: Listable(After(run), name)
    ensures After(run).files.Keys <= Drawn(run)
  {
    if run != [] {
      AlwaysConsistent(run[..|run| - 1]);
      SessionKeepsConsistent(After(run[..|run| - 1]), run[|run| - 1], Drawn(run[..|run| - 1]));
    }
    forall name ensures Listable(After(run), name) {
      ConsistentIsListable(After(run), name);
    }
  }

  /** The identifiers of a name's successful pushes that were its first or asked for a new
      one, in order. */
  function PushedUnder(run: seq<Session>, name: Name): seq<Id> {
    if run == [] then []
    else
      var ids, s := PushedUnder(run[..|run| - 1], name), run[|run| - 1];
      if s.Push? && s.name == name && s.done && (ids == [] || s.answer == Some(0)) then ids + [s.fresh_] else ids
  }

  /** A name's listing is that history: overwriting and pulling leave it alone. */
  lemma {:induction false} ListingIsPushHistory(run: seq<Session>, name: Name)
    requires DrawnOnce(run)
    ensures Tracked(After(run), name) == PushedUnder(run, name)
    ensures name in After(run).index ==> After(run).index[name] != []
  {
    if run != [] {
      var init, s := run[..|run| - 1], run[|run| - 1];
      ListingIsPushHistory(init, name);
      AlwaysConsistent(init);
      assert s.Push? ==> s.fresh_ !in Tracked(After(init), name);
    }
  }

  /** The identifier a session pushes to, if it does: by the history of its name. */
  function PushedTo(run: seq<Session>, s: Session): Option<Id> {
    if !s.Push? || !s.done then None
    else
      var ids := PushedUnder(run, s.name);
      if ids == [] || s.answer == Some(0) then Some(s.fresh_)
      else if s.answer.Some? && s.answer.value <= |ids| then Some(ids[s.answer.value - 1])
      else None
  }

  /** Sessions change the catalog by pushes to these and by pulls of known identifiers. */
  lemma SessionFollowsHistory(run: seq<Session>, s: Session)
    requires DrawnOnce(run)
    ensures Applied(After(run), s) ==
            match s
            case Push(name, _, _, _, at) =>
              (match PushedTo(run, s) case Some(id) => Pushed(After(run), name, id, at) case None => After(run))
            case Pull(id, at) => Pulled(After(run), id, at)
  {
    if s.Push? {
      ListingIsPushHistory(run, s.name);
      AlwaysConsistent(run);
      assert Listable(After(run), s.name);
    }
  }

  /** Answering k overwrites the k-th identifier of the listing, counted from the oldest. */
  lemma AnswersPickInOrder(run: seq<Session>, name: Name, k: nat, fresh_: Id, at: nat)
    requires DrawnOnce(run) && 1 <= k <= |PushedUnder(run, name)|
    ensures After(run + [Push(name, Some(k), fresh_, true, at)])
         == Pushed(After(run), name, PushedUnder(run, name)[k - 1], at)
  {
    var s := Push(name, Some(k), fresh_, true, at);
    assert (run + [s])[..|run|] == run;
    SessionFollowsHistory(run, s);
  }

  /** The name an identifier was first pushed under, and when it was last pushed and pulled. */
  function NameOf(run: seq<Session>, id: Id): Option<Name> {
    if run == [] then None
    else
      var init, s := run[..|run| - 1], run[|run| - 1];
      if NameOf(init, id) == None && PushedTo(init, s) == Some(id) then Some(s.name) else NameOf(init, id)
  }

  function LastPushOf(run: seq<Session>, id: Id): Option<nat> {
    if run == [] then None
    else
      var init, s := run[..|run| - 1], run[|run| - 1];
      if PushedTo(init, s) == Some(id) then Some(s.at) else LastPushOf(init, id)
  }

  function LastPullOf(run: seq<Session>, id: Id): Option<nat> {
    if run == [] then None
    else
      var init, s := run[..|run| - 1], run[|run| - 1];
      if s.Pull? && s.id == id && LastPushOf(init, id).Some? then Some(s.at) else LastPullOf(init, id)
  }

  /** The file map tells just that, for just the identifiers that were pushed to. */
  lemma {:induction false} FilesTellHistory(run: seq<Session>, id: Id)
    requires DrawnOnce(run)
    ensures id in After(run).files <==> LastPushOf(run, id).Some?
    ensures NameOf(run, id).Some? <==> LastPushOf(run, id).Some?
    ensures id in After(run).files ==>
              After(run).files[id] == FileHistory(NameOf(run, id).value, LastPushOf(run, id).value, LastPullOf(run, id))
    ensures id !in After(run).files ==> LastPullOf(run, id) == None
  {
    if run != [] {
      var init, s := run[..|run| - 1], run[|run| - 1];
      FilesTellHistory(init, id);
      SessionFollowsHistory(init, s);
    }
  }
}

module CatalogFile {
  import opened Common
  import opened CatalogSpec

  /** The catalog read from disk, changed in place and written back. */
  class Catalog {
    var fileMap: map<Id, FileHistory>
    var fileIndex: map<Name, seq<Id>>

    constructor (files: map<Id, FileHistory>, index: map<Name, seq<Id>>)
      ensures Contents() == Book(files, index)
    {
      fileMap, fileIndex := files, index;
    }

    ghost function Contents(): Book
      reads this
    {
      Book(fileMap, fileIndex)
    }

    method UpdateOnPush(fileName: Name, fileId: Id, now: nat)
      modifies this
      ensures Contents() == Pushed(old(Contents()), fileName, fileId, now)
      ensures fileId in Tracked(Contents(), fileName)
    {
      if fileId in fileMap {
        fileMap := fileMap[fileId := fileMap[fileId].(lastPush := now)];
      } else {
        fileMap := fileMap[fileId := FileHistory(fileName, now, None)];
      }
      if fileName in fileIndex {
        if fileId !in fileIndex[fileName] {
          fileIndex := fileIndex[fileName := fileIndex[fileName] + [fileId]];
        }
      } else {
        fileIndex := fileIndex[fileName := [fileId]];
      }
    }

    method UpdateOnPull(fileId: Id, now: nat)
      modifies this
      ensures Contents() == Pulled(old(Contents()), fileId, now)
    {
      if fileId in fileMap {
        fileMap := fileMap[fileId := fileMap[fileId].(lastPull := Some(now))];
      }
    }

    /** The choice of an identifier for a push: the listing is gone through in order and
        stops at the first identifier that is not in the map. */
    method ChooseId(fileName: Name, answer: Option<nat>, fresh_: Id) returns (c: Choice)
      ensures c == Choose(Contents(), fileName, answer, fresh_)
    {
      if fileName !in fileIndex { return Chosen(fresh_); }
      var tracked := fileIndex[fileName];
      for i := 0 to |tracked|
        invariant forall k :: 0 <= k < i ==> tracked[k] in fileMap
      {
        if tracked[i] !in fileMap { return NotInFileMap; }
      }
      match answer
      case None =>
        c := NotANumber;
      case Some(k) =>
        c := if k == 0 then Chosen(fresh_) else if k <= |tracked| then Chosen(tracked[k - 1]) else OutOfRange;
    }
  }
}
