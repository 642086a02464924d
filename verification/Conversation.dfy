/** The two conversations, one client and one server over two one-way channels. An item
    is a length-prefixed frame, known by its kind, or a bare sealed block, known only by
    its length. Reading an empty channel waits until the other side closes it; writing to a
    full one waits for room, and fails once the reader has gone. */
module Channels {
  import opened Common

  datatype Frame =
    | Request            // the command header
    | Ack                // the single byte 1
    | Info               // flag 1 and the download header
    | Success            // flag 1 and the upload response
    | Refusal(code: nat) // flag 3 and an error header

  datatype Item = AFrame(frame: Frame) | Block(len: nat)

  datatype Channel = Channel(items: seq<Item>, closed: bool) {
    function Put(i: Item): Channel {
      Channel(items + [i], closed)
    }

    function Closed(): Channel {
      Channel(items, true)
    }

    function Rest(): Channel
      requires items != []
    {
      Channel(items[1..], closed)
    }

    predicate Ready() {
      items != [] || closed
    }

    /** What writing comes to when there may be no room: the item is put, or lost. */
    function PutIfRoom(i: Item, capacity: nat): Channel {
      if |items| < capacity then Put(i) else this
    }
  }

  const OPEN := Channel([], false)

  predicate AllFullBlocks(items: seq<Item>) {
    forall i :: 0 <= i < |items| ==> items[i] == Block(READ_CHUNK_SIZE)
  }

  lemma BlockSent(items: seq<Item>)
    requires AllFullBlocks(items)
    ensures AllFullBlocks(items + [Block(READ_CHUNK_SIZE)])
  {}

  /** Sizes an upload header may announce (1 MiB to the configured maximum). */
  predicate ValidSize(size: nat, maxSize: nat) {
    1024 * 1024 <= size <= maxSize
  }
}

module UploadConversation {
  import opened Common
  import opened Channels

  datatype Client = Start | AwaitAck | Stream(sent: nat) | AwaitFinal | Finished(ok: bool)

  datatype Server = AwaitRequest | Admitting | Receiving(got: nat) | Checking | Responding | Ended(saved: bool)

  /** Set at the start: the announced size, which is the source's and does not change, the
      server's limit on it, and how many items a channel can hold. */
  datatype Setup = Setup(size: nat, maxSize: nat, capacity: nat)

  datatype State = State(setup: Setup, client: Client, server: Server, up: Channel, down: Channel) {
    const size := setup.size
    const maxSize := setup.maxSize
    const capacity := setup.capacity
  }

  function Initial(setup: Setup): State {
    State(setup, Start, AwaitRequest, OPEN, OPEN)
  }

  datatype Action =
    | ClientStep
    | ServerStep
    | Refuse(code: nat)   // 408 without a request; 429, 400 or 409 before the stream; 406 after it
    | Accept
    | Save
    | ClientAbort         // an I/O error, a timeout, the process going away
    | ServerAbort

  function ClientEnds(s: State, ok: bool): State {
    s.(client := Finished(ok), up := s.up.Closed())
  }

  function ServerEnds(s: State, saved: bool): State {
    s.(server := Ended(saved), down := s.down.Closed())
  }

  /** The server can write, or learn that it cannot. */
  predicate CanReply(s: State) {
    |s.down.items| < s.capacity || s.client.Finished?
  }

  predicate Enabled(s: State, a: Action) {
    match a
    case ClientStep =>
      (match s.client
       case Start => true
       case AwaitAck => s.down.Ready()
       case Stream(sent) =>
         s.size < sent + READ_CHUNK_SIZE || |s.up.items| < s.capacity || s.server.Ended?
       case AwaitFinal => s.down.Ready()
       case Finished(_) => false)
    case ServerStep =>
      (match s.server
       case AwaitRequest => s.up.Ready()
       case Admitting => false
       case Receiving(got) => got >= s.size || s.up.Ready()
       case Checking => false
       case Responding => CanReply(s)
       case Ended(_) => false)
    case Refuse(code) =>
      && CanReply(s)
      && ((s.server.AwaitRequest? && code == 408) || (s.server.Admitting? && code in {429, 400, 409})
          || (s.server.Checking? && code == 406))
    case Accept => s.server.Admitting? && ValidSize(s.size, s.maxSize) && CanReply(s)
    case Save => s.server.Checking?
    case ClientAbort => !s.client.Finished?
    case ServerAbort => !s.server.Ended?
  }

  function ClientNext(s: State): State
    requires Enabled(s, ClientStep)
  {
    match s.client
    case Start => s.(client := AwaitAck, up := s.up.Put(AFrame(Request)))
    case AwaitAck =>
      if s.down.items == [] then ClientEnds(s, false)
      else if s.down.items[0].AFrame? && !s.down.items[0].frame.Refusal?   // any flag but 3 will do
      then s.(client := Stream(0), down := s.down.Rest())
      else ClientEnds(s, false)
    case Stream(sent) =>
      if sent >= s.size then s.(client := AwaitFinal)
      else if s.size - sent >= READ_CHUNK_SIZE
      then if |s.up.items| < s.capacity
           then s.(client := Stream(sent + READ_CHUNK_SIZE), up := s.up.Put(Block(READ_CHUNK_SIZE)))
           else ClientEnds(s, false)   // nobody will read it
      else ClientEnds(s, false)   // the short last block panics
    case AwaitFinal =>
      if s.down.items != [] && s.down.items[0] == AFrame(Success) then ClientEnds(s.(down := s.down.Rest()), true)
      else ClientEnds(s, false)
  }

  function ServerNext(s: State): State
    requires Enabled(s, ServerStep)
  {
    match s.server
    case AwaitRequest =>
      if s.up.items != [] && s.up.items[0] == AFrame(Request) then s.(server := Admitting, up := s.up.Rest())
      else ServerEnds(s, false)
    case Receiving(got) =>
      if got >= s.size then s.(server := Checking)
      else if s.up.items != [] && s.up.items[0] == Block(Min(READ_CHUNK_SIZE, s.size - got))
      then s.(server := Receiving(got + s.up.items[0].len), up := s.up.Rest())
      else ServerEnds(s, false)
    case Responding => ServerEnds(s.(down := s.down.PutIfRoom(AFrame(Success), s.capacity)), true)
  }

  function Step(s: State, a: Action): State
    requires Enabled(s, a)
  {
    match a
    case ClientStep => ClientNext(s)
    case ServerStep => ServerNext(s)
    case Refuse(code) => ServerEnds(s.(down := s.down.PutIfRoom(AFrame(Refusal(code)), s.capacity)), false)
    case Accept =>
      if |s.down.items| < s.capacity then s.(server := Receiving(0), down := s.down.Put(AFrame(Ack)))
      else ServerEnds(s, false)
    case Save => s.(server := Responding)
    case ClientAbort => ClientEnds(s, false)
    case ServerAbort => ServerEnds(s, s.server.Responding?)
  }

  function After(setup: Setup, run: seq<Action>): State {
    if run == [] then Initial(setup)
    else
      var s := After(setup, run[..|run| - 1]);
      if Enabled(s, run[|run| - 1]) then Step(s, run[|run| - 1]) else s
  }

  // ---- What both ends agree on ---------------------------------------------------

  /** What the client may find in its inbox, given where the server is. */
  ghost predicate InboxFits(s: State) {
    match s.client
    case Start =>
      || (s.server.AwaitRequest? && s.down.items == [])
      || (s.server == Ended(false) && NoneOrRefusal(s.down.items))
    case AwaitAck =>
      (match s.server
       case AwaitRequest => s.down.items == []
       case Admitting => s.down.items == []
       case Receiving(got) => s.down.items == [AFrame(Ack)]
       case Ended(saved) => !saved && (s.down.items == [AFrame(Ack)] || NoneOrRefusal(s.down.items))
       case _ => false)
    case Stream(_) => PastAck(s)
    case AwaitFinal => PastAck(s)
    case Finished(ok) => ok ==> s.server == Ended(true)
  }

  ghost predicate NoneOrRefusal(items: seq<Item>) {
    items == [] || exists c :: c in {408, 429, 400, 409} && items == [AFrame(Refusal(c))]
  }

  ghost predicate PastAck(s: State) {
    match s.server
    case Receiving(_) => s.down.items == []
    case Checking => s.down.items == []
    case Responding => s.down.items == []
    case Ended(saved) =>
      s.down.items == [] || (saved && s.down.items == [AFrame(Success)])
      || (!saved && s.down.items == [AFrame(Refusal(406))])
    case _ => false
  }

  /** What the server may find in its inbox, given where the client is. */
  ghost predicate OutboxFits(s: State) {
    match s.server
    case AwaitRequest =>
      && (s.client.Start? ==> s.up.items == [])
      && (s.client.AwaitAck? ==> s.up.items == [AFrame(Request)])
    case Admitting => s.up.items == [] && (s.client.AwaitAck? || s.client == Finished(false))
    case Receiving(got) =>
      && got % READ_CHUNK_SIZE == 0 && AllFullBlocks(s.up.items)
      && got + |s.up.items| * READ_CHUNK_SIZE <= s.size && ValidSize(s.size, s.maxSize)
      && (s.client.AwaitAck? ==> got == 0 && s.up.items == [])
      && (s.client.Stream? ==> s.client.sent == got + |s.up.items| * READ_CHUNK_SIZE)
      && (s.client.AwaitFinal? ==> s.size == got + |s.up.items| * READ_CHUNK_SIZE)
      && s.client != Finished(true)
    case Checking => SizeReached(s)
    case Responding => SizeReached(s)
    case Ended(saved) => saved ==> SizeReached(s)
  }

  ghost predicate SizeReached(s: State) {
    && s.size % READ_CHUNK_SIZE == 0 && ValidSize(s.size, s.maxSize)
    && !s.client.Start? && !s.client.AwaitAck? && (s.client.Stream? ==> s.client.sent == s.size)
  }

  ghost predicate Agreed(s: State) {
    && InboxFits(s) && OutboxFits(s)
    && (s.server.AwaitRequest? && s.client.Finished? ==> s.up.items == [] || s.up.items == [AFrame(Request)])
    && (s.up.closed <==> s.client.Finished?) && (s.down.closed <==> s.server.Ended?)
    && (s.client.Stream? ==> s.client.sent <= s.size && s.client.sent % READ_CHUNK_SIZE == 0)
  }

  lemma ClientStepKeeps(s: State)
    requires Agreed(s) && Enabled(s, ClientStep)
    ensures Agreed(Step(s, ClientStep))
  {
    if s.server.Receiving? { BlockSent(s.up.items); }
  }

  lemma FirstBlock(s: State)
    requires Agreed(s) && s.server.Receiving? && s.up.items != []
    ensures s.server.got < s.size
    ensures s.up.items[0] == Block(Min(READ_CHUNK_SIZE, s.size - s.server.got)) == Block(READ_CHUNK_SIZE)
    ensures AllFullBlocks(s.up.items[1..])
  {
    assert s.up.items[0] in s.up.items;
  }

  lemma ServerStepKeeps(s: State)
    requires Agreed(s) && Enabled(s, ServerStep)
    ensures Agreed(Step(s, ServerStep))
  {
    if s.server.Receiving? && s.up.items != [] { FirstBlock(s); }
  }

  lemma DecisionKeeps(s: State, a: Action)
    requires Agreed(s) && Enabled(s, a) && !a.ClientStep? && !a.ServerStep?
    ensures Agreed(Step(s, a))
  {}

  lemma {:induction false} AlwaysAgreed(setup: Setup, run: seq<Action>)
    ensures Agreed(After(setup, run))
    ensures After(setup, run).setup == setup
  {
    if run != [] {
      var init, a := run[..|run| - 1], run[|run| - 1];
      AlwaysAgreed(setup, init);
      var s := After(setup, init);
      if Enabled(s, a) {
        match a
        case ClientStep => ClientStepKeeps(s);
        case ServerStep => ServerStepKeeps(s);
        case _ => DecisionKeeps(s, a);
      }
    }
  }

  /** The next item in an inbox is of a kind its reader expects at that point. */
  ghost predicate NextIsExpected(s: State) {
    && (s.client.AwaitAck? && s.down.items != [] ==>
          s.down.items[0] == AFrame(Ack) || (s.down.items[0].AFrame? && s.down.items[0].frame.Refusal?
                                                 && s.down.items[0].frame.code in {408, 429, 400, 409}))
    && (s.client.AwaitFinal? && s.down.items != [] ==>
          s.down.items[0] == AFrame(Success) || s.down.items[0] == AFrame(Refusal(406)))
    && (s.server.AwaitRequest? && s.up.items != [] ==> s.up.items[0] == AFrame(Request))
    && (s.server.Receiving? && s.up.items != [] ==>
          s.server.got < s.size && s.up.items[0] == Block(Min(READ_CHUNK_SIZE, s.size - s.server.got)))
  }

  /** Something other than giving up can happen. */
  ghost predicate CanMove(s: State) {
    exists a :: Enabled(s, a) && !a.ClientAbort? && !a.ServerAbort?
  }

  lemma SomeoneCanMove(s: State)
    requires Agreed(s) && s.capacity >= 1 && !(s.client.Finished? && s.server.Ended?)
    ensures CanMove(s)
  {
    if Enabled(s, ClientStep) {
    } else if Enabled(s, ServerStep) {
    } else if s.server.Admitting? {
      assert Enabled(s, Refuse(400));
    } else if s.server.Checking? {
      assert Enabled(s, Save);
    }
  }

  /** Whatever the server decides and whoever gives up when, with room in the channels for
      as little as one item: nothing unexpected is ever read, and as long as one end has not
      finished some step other than giving up is possible. In particular the two never both
      wait, on empty channels or on full ones. */
  lemma NeverStuck(setup: Setup, run: seq<Action>)
    requires setup.capacity >= 1
    ensures NextIsExpected(After(setup, run))
    ensures var s := After(setup, run);
            CanMove(s) || (s.client.Finished? && s.server.Ended?)
  {
    AlwaysAgreed(setup, run);
    var s := After(setup, run);
    if s.server.Receiving? && s.up.items != [] { FirstBlock(s); }
    if !(s.client.Finished? && s.server.Ended?) { SomeoneCanMove(s); }
  }

  /** Steps left at most. */
  function Fuel(s: State): nat {
    (match s.client
     case Start => 2 * s.size + 8
     case AwaitAck => 2 * s.size + 6
     case Stream(sent) => if sent <= s.size then 2 * (s.size - sent) + 4 else 4
     case AwaitFinal => 2
     case Finished(_) => 0)
    + (match s.server
       case AwaitRequest => 12
       case Admitting => 11
       case Receiving(_) => 8
       case Checking => 6
       case Responding => 4
       case Ended(_) => 0)
    + |s.up.items| + |s.down.items|
  }

  /** Every step uses fuel up, so every run of enabled steps ends, and then both ends have. */
  lemma EveryStepCosts(s: State, a: Action)
    requires Agreed(s) && Enabled(s, a)
    ensures Fuel(Step(s, a)) < Fuel(s)
  {}

  /** The client reports success only if the server has saved, and both only for a size
      that is a multiple of the block size. */
  lemma SuccessIsShared(setup: Setup, run: seq<Action>)
    ensures var s := After(setup, run);
            && (s.client == Finished(true) ==> s.server == Ended(true))
            && (s.server == Ended(true) ==>
                  setup.size % READ_CHUNK_SIZE == 0 && 1024 * 1024 <= setup.size <= setup.maxSize)
  {
    AlwaysAgreed(setup, run);
  }

  /** A run in which nobody gives up. */
  ghost predicate Patient(run: seq<Action>) {
    forall a :: a in run ==> !a.ClientAbort? && !a.ServerAbort?
  }

  ghost predicate Reported(s: State) {
    && (s.server == Ended(true) ==> s.client == Finished(true) || s.down.items == [AFrame(Success)])
    && (s.client == Finished(false) ==> s.size % READ_CHUNK_SIZE != 0 || s.server == Ended(false))
  }

  lemma ReportedStep(s: State, a: Action)
    requires Agreed(s) && Reported(s) && Enabled(s, a) && !a.ClientAbort? && !a.ServerAbort?
    ensures Reported(Step(s, a))
  {}

  lemma {:induction false} AlwaysReported(setup: Setup, run: seq<Action>)
    requires Patient(run)
    ensures Reported(After(setup, run))
  {
    if run != [] {
      var init, a := run[..|run| - 1], run[|run| - 1];
      assert a in run;
      AlwaysReported(setup, init);
      AlwaysAgreed(setup, init);
      var s := After(setup, init);
      if Enabled(s, a) { ReportedStep(s, a); }
    }
  }

  /** When nobody gives up, the two ends finish with the same outcome. */
  lemma SameOutcome(setup: Setup, run: seq<Action>)
    requires Patient(run)
    requires After(setup, run).client.Finished? && After(setup, run).server.Ended?
    ensures After(setup, run).client.ok == After(setup, run).server.saved
  {
    AlwaysAgreed(setup, run);
    AlwaysReported(setup, run);
  }

  // ---- What is bound to happen -------------------------------------------------------

  /** Nobody gives up and the server refuses nothing. */
  ghost predicate Willing(run: seq<Action>) {
    Patient(run) && forall a :: a in run ==> !a.Refuse?
  }

  ghost predicate CanSucceed(setup: Setup) {
    setup.capacity >= 1 && setup.size % READ_CHUNK_SIZE == 0 && 1024 * 1024 <= setup.size <= setup.maxSize
  }

  /** Neither end has failed. */
  ghost predicate OnCourse(s: State) {
    && s.server != Ended(false) && s.client != Finished(false)
    && (s.server.AwaitRequest? || s.server.Admitting? ==> s.down.items == [])
    && (s.server == Ended(true) ==> s.client == Finished(true) || s.down.items == [AFrame(Success)])
  }

  lemma ClientStaysOnCourse(s: State)
    requires Agreed(s) && OnCourse(s) && CanSucceed(s.setup) && Enabled(s, ClientStep)
    ensures OnCourse(Step(s, ClientStep))
  {}

  lemma ServerStaysOnCourse(s: State, a: Action)
    requires Agreed(s) && OnCourse(s) && CanSucceed(s.setup) && Enabled(s, a) && (a.ServerStep? || a.Accept? || a.Save?)
    ensures OnCourse(Step(s, a))
  {
    if s.server.Receiving? && s.up.items != [] { FirstBlock(s); }
  }

  lemma {:induction false} AlwaysOnCourse(setup: Setup, run: seq<Action>)
    requires Willing(run) && CanSucceed(setup)
    ensures OnCourse(After(setup, run))
  {
    if run != [] {
      var init, a := run[..|run| - 1], run[|run| - 1];
      assert a in run;
      AlwaysOnCourse(setup, init);
      AlwaysAgreed(setup, init);
      var s := After(setup, init);
      if Enabled(s, a) {
        if a.ClientStep? { ClientStaysOnCourse(s); } else { ServerStaysOnCourse(s, a); }
      }
    }
  }

  /** An upload of a canonical size that nobody refuses or gives up succeeds: neither end can
      fail, and the client is done only with the server's success in hand. */
  lemma WillingUploadsSucceed(setup: Setup, run: seq<Action>)
    requires Willing(run) && CanSucceed(setup)
    ensures var s := After(setup, run);
            && s.server != Ended(false) && s.client != Finished(false)
            && (s.client.Finished? ==> s.server == Ended(true))
            && (CanGoOn(s) || (s.client == Finished(true) && s.server == Ended(true)))
  {
    AlwaysOnCourse(setup, run);
    AlwaysAgreed(setup, run);
    var s := After(setup, run);
    if s.server.Admitting? {
      assert Enabled(s, Accept);
    } else if s.server.Checking? {
      assert Enabled(s, Save);
    } else if !(s.client.Finished? && s.server.Ended?) {
      assert Enabled(s, ClientStep) || Enabled(s, ServerStep);
    }
  }

  /** Something other than refusing and giving up can happen. */
  ghost predicate CanGoOn(s: State) {
    exists a :: Enabled(s, a) && !a.ClientAbort? && !a.ServerAbort? && !a.Refuse?
  }

  /** The code the server has refused with. */
  function RefusedWith(setup: Setup, run: seq<Action>): Option<nat> {
    if run == [] then None
    else
      var init, a := run[..|run| - 1], run[|run| - 1];
      if a.Refuse? && Enabled(After(setup, init), a) then Some(a.code) else RefusedWith(setup, init)
  }

  /** A client that has not finished by itself finds just that code. */
  lemma {:induction false} RefusedClientsAreTold(setup: Setup, run: seq<Action>)
    requires Patient(run) && setup.capacity >= 1 && RefusedWith(setup, run).Some?
    ensures var s := After(setup, run);
            && s.server == Ended(false)
            && (s.client == Finished(false) || s.down.items == [AFrame(Refusal(RefusedWith(setup, run).value))])
  {
    var init, a := run[..|run| - 1], run[|run| - 1];
    assert a in run;
    AlwaysAgreed(setup, init);
    AlwaysReported(setup, init);
    if !(a.Refuse? && Enabled(After(setup, init), a)) { RefusedClientsAreTold(setup, init); }
  }

  /** Before the server has accepted the client has sent its request at most. */
  ghost predicate Unaccepted(s: State) {
    && (s.server.AwaitRequest? || s.server.Admitting? || s.server == Ended(false))
    && (s.client.Start? || s.client.AwaitAck? || s.client == Finished(false))
    && (s.up.items == [] || s.up.items == [AFrame(Request)]) && NoneOrRefusal(s.down.items)
    && (!s.server.Ended? ==> s.down.items == []) && (s.client.Start? || s.server.Admitting? ==> s.up.items == [])
  }

  lemma {:induction false} NothingIsSentUnasked(setup: Setup, run: seq<Action>)
    requires Accept !in run
    ensures Unaccepted(After(setup, run))
  {
    if run != [] {
      var init, a := run[..|run| - 1], run[|run| - 1];
      NothingIsSentUnasked(setup, init);
      AlwaysAgreed(setup, init);
      assert a in run;
      if Enabled(After(setup, init), a) { StaysUnaccepted(After(setup, init), a); }
    }
  }

  lemma StaysUnaccepted(s: State, a: Action)
    requires Agreed(s) && Unaccepted(s) && Enabled(s, a) && a != Accept
    ensures Unaccepted(Step(s, a))
  {
    if a.Refuse? { assert s.down.items + [AFrame(Refusal(a.code))] == [AFrame(Refusal(a.code))]; }
  }
}

module DownloadConversation {
  import opened Common
  import opened Channels

  datatype Client = Start | AwaitInfo | Receiving(got: nat) | Finished(ok: bool)

  datatype Server = AwaitRequest | Admitting | Streaming(sent: nat) | Ended(sentAll: bool)

  /** Set at the start: the recorded size, which the stored file has throughout, and how
      many items a channel can hold. */
  datatype Setup = Setup(size: nat, capacity: nat)

  datatype State = State(setup: Setup, client: Client, server: Server, up: Channel, down: Channel) {
    const size := setup.size
    const capacity := setup.capacity
  }

  function Initial(setup: Setup): State {
    State(setup, Start, AwaitRequest, OPEN, OPEN)
  }

  datatype Action =
    | ClientStep
    | ServerStep
    | Refuse(code: nat)   // 408 without a request; 429, 400, 409, 404 or 500
    | Accept
    | ClientAbort
    | ServerAbort

  function ClientEnds(s: State, ok: bool): State {
    s.(client := Finished(ok), up := s.up.Closed())
  }

  function ServerEnds(s: State, sentAll: bool): State {
    s.(server := Ended(sentAll), down := s.down.Closed())
  }

  /** The server can write, or learn that it cannot. */
  predicate CanReply(s: State) {
    |s.down.items| < s.capacity || s.client.Finished?
  }

  predicate Enabled(s: State, a: Action) {
    match a
    case ClientStep =>
      (match s.client
       case Start => true
       case AwaitInfo => s.down.Ready()
       case Receiving(got) => got >= s.size || s.down.Ready()
       case Finished(_) => false)
    case ServerStep =>
      (match s.server
       case AwaitRequest => s.up.Ready()
       case Admitting => false
       case Streaming(sent) => s.size < sent + READ_CHUNK_SIZE || CanReply(s)
       case Ended(_) => false)
    case Refuse(code) =>
      && CanReply(s)
      && ((s.server.AwaitRequest? && code == 408) || (s.server.Admitting? && code in {429, 400, 409, 404, 500}))
    case Accept => s.server.Admitting? && CanReply(s)
    case ClientAbort => !s.client.Finished?
    case ServerAbort => !s.server.Ended?
  }

  function ClientNext(s: State): State
    requires Enabled(s, ClientStep)
  {
    match s.client
    case Start => s.(client := AwaitInfo, up := s.up.Put(AFrame(Request)))
    case AwaitInfo =>
      if s.down.items != [] && s.down.items[0] == AFrame(Info) then s.(client := Receiving(0), down := s.down.Rest())
      else ClientEnds(s, false)
    case Receiving(got) =>
      if got >= s.size then ClientEnds(s, true)   // the hash of an unchanged file matches
      else if s.down.items != [] && s.down.items[0] == Block(Min(READ_CHUNK_SIZE, s.size - got))
      then s.(client := Receiving(got + s.down.items[0].len), down := s.down.Rest())
      else ClientEnds(s, false)
  }

  function ServerNext(s: State): State
    requires Enabled(s, ServerStep)
  {
    match s.server
    case AwaitRequest =>
      if s.up.items != [] && s.up.items[0] == AFrame(Request) then s.(server := Admitting, up := s.up.Rest())
      else ServerEnds(s, false)
    case Streaming(sent) =>
      if sent >= s.size then ServerEnds(s, true)
      else if s.size - sent >= READ_CHUNK_SIZE
      then if |s.down.items| < s.capacity
           then s.(server := Streaming(sent + READ_CHUNK_SIZE), down := s.down.Put(Block(READ_CHUNK_SIZE)))
           else ServerEnds(s, false)   // nobody will read it
      else ServerEnds(s, false)   // the short last block panics
  }

  function Step(s: State, a: Action): State
    requires Enabled(s, a)
  {
    match a
    case ClientStep => ClientNext(s)
    case ServerStep => ServerNext(s)
    case Refuse(code) => ServerEnds(s.(down := s.down.PutIfRoom(AFrame(Refusal(code)), s.capacity)), false)
    case Accept =>
      if |s.down.items| < s.capacity then s.(server := Streaming(0), down := s.down.Put(AFrame(Info)))
      else ServerEnds(s, false)
    case ClientAbort => ClientEnds(s, false)
    case ServerAbort => ServerEnds(s, false)
  }

  function After(setup: Setup, run: seq<Action>): State {
    if run == [] then Initial(setup)
    else
      var s := After(setup, run[..|run| - 1]);
      if Enabled(s, run[|run| - 1]) then Step(s, run[|run| - 1]) else s
  }

  /** What has been put on the wire after the info frame. */
  ghost predicate Blocks(s: State, got: nat, items: seq<Item>) {
    && got % READ_CHUNK_SIZE == 0 && AllFullBlocks(items)
    && got + |items| * READ_CHUNK_SIZE <= s.size
    && (s.server.Streaming? ==> s.server.sent == got + |items| * READ_CHUNK_SIZE)
    && (s.server == Ended(true) ==> s.size == got + |items| * READ_CHUNK_SIZE)
  }

  ghost predicate NoneOrRefusal(items: seq<Item>) {
    items == [] || exists c :: c in {408, 429, 400, 409, 404, 500} && items == [AFrame(Refusal(c))]
  }

  ghost predicate InboxFits(s: State) {
    match s.client
    case Start =>
      && s.up.items == []
      && ((s.server.AwaitRequest? && s.down.items == []) || (s.server == Ended(false) && NoneOrRefusal(s.down.items)))
    case AwaitInfo =>
      (match s.server
       case AwaitRequest => s.down.items == [] && s.up.items == [AFrame(Request)]
       case Admitting => s.down.items == []
       case Streaming(_) => s.down.items != [] && s.down.items[0] == AFrame(Info) && Blocks(s, 0, s.down.items[1..])
       case Ended(sentAll) =>
         || (!sentAll && NoneOrRefusal(s.down.items))
         || (s.down.items != [] && s.down.items[0] == AFrame(Info) && Blocks(s, 0, s.down.items[1..])))
    case Receiving(got) => (s.server.Streaming? || s.server.Ended?) && Blocks(s, got, s.down.items)
    case Finished(ok) => true
  }

  ghost predicate Agreed(s: State) {
    && InboxFits(s)
    && (s.server.AwaitRequest? ==> s.up.items == [] || s.up.items == [AFrame(Request)])
    && (s.up.closed <==> s.client.Finished?) && (s.down.closed <==> s.server.Ended?)
    && (s.server.Streaming? ==> s.server.sent <= s.size && s.server.sent % READ_CHUNK_SIZE == 0)
    && (s.client == Finished(true) || s.server == Ended(true) ==> s.size % READ_CHUNK_SIZE == 0)
    && (s.client == Finished(true) ==>
          s.server == Ended(true) || s.server == Streaming(s.size) || s.server == Ended(false))
  }

  lemma BlocksGrow(s: State, got: nat, items: seq<Item>)
    requires Blocks(s, got, items) && s.server.Streaming? && s.server.sent <= s.size
    ensures s.server.sent >= s.size ==> Blocks(s.(server := Ended(true)), got, items)
    ensures Blocks(s.(server := Ended(false)), got, items)
    ensures s.size - s.server.sent >= READ_CHUNK_SIZE ==>
              Blocks(s.(server := Streaming(s.server.sent + READ_CHUNK_SIZE)), got, items + [Block(READ_CHUNK_SIZE)])
  {
    BlockSent(items);
  }

  lemma FirstBlock(s: State, got: nat, items: seq<Item>)
    requires Blocks(s, got, items) && items != []
    ensures got < s.size && items[0] == Block(Min(READ_CHUNK_SIZE, s.size - got)) == Block(READ_CHUNK_SIZE)
    ensures Blocks(s, got + READ_CHUNK_SIZE, items[1..])
  {
    assert items[0] in items;
  }

  lemma ClientStepKeeps(s: State)
    requires Agreed(s) && Enabled(s, ClientStep)
    ensures Agreed(Step(s, ClientStep))
  {
    if s.client.Receiving? && s.down.items != [] { FirstBlock(s, s.client.got, s.down.items); }
  }

  lemma StreamToReceiver(s: State)
    requires Agreed(s) && Enabled(s, ServerStep) && s.server.Streaming? && s.client.Receiving?
    ensures Agreed(Step(s, ServerStep))
  {
    BlocksGrow(s, s.client.got, s.down.items);
  }

  lemma StreamToWaiter(s: State)
    requires Agreed(s) && Enabled(s, ServerStep) && s.server.Streaming? && s.client.AwaitInfo?
    ensures Agreed(Step(s, ServerStep))
  {
    BlocksGrow(s, 0, s.down.items[1..]);
    assert (s.down.items + [Block(READ_CHUNK_SIZE)])[1..] == s.down.items[1..] + [Block(READ_CHUNK_SIZE)];
  }

  lemma StreamStepKeeps(s: State)
    requires Agreed(s) && Enabled(s, ServerStep) && s.server.Streaming?
    ensures Agreed(Step(s, ServerStep))
  {
    if s.client.Receiving? {
      StreamToReceiver(s);
    } else if s.client.AwaitInfo? {
      StreamToWaiter(s);
    }
  }

  lemma ServerStepKeeps(s: State)
    requires Agreed(s) && Enabled(s, ServerStep)
    ensures Agreed(Step(s, ServerStep))
  {
    if s.server.Streaming? { StreamStepKeeps(s); }
  }

  lemma DecisionKeeps(s: State, a: Action)
    requires Agreed(s) && Enabled(s, a) && !a.ClientStep? && !a.ServerStep?
    ensures Agreed(Step(s, a))
  {
    if s.server.Streaming? {
      if s.client.Receiving? {
        BlocksGrow(s, s.client.got, s.down.items);
      } else if s.client.AwaitInfo? {
        BlocksGrow(s, 0, s.down.items[1..]);
      }
    }
  }

  lemma {:induction false} AlwaysAgreed(setup: Setup, run: seq<Action>)
    ensures Agreed(After(setup, run)) && After(setup, run).setup == setup
  {
    if run != [] {
      var init, a := run[..|run| - 1], run[|run| - 1];
      AlwaysAgreed(setup, init);
      var s := After(setup, init);
      if Enabled(s, a) {
        match a
        case ClientStep => ClientStepKeeps(s);
        case ServerStep => ServerStepKeeps(s);
        case _ => DecisionKeeps(s, a);
      }
    }
  }

  ghost predicate NextIsExpected(s: State) {
    && (s.client.AwaitInfo? && s.down.items != [] ==>
          s.down.items[0] == AFrame(Info) || (s.down.items[0].AFrame? && s.down.items[0].frame.Refusal?
                                                 && s.down.items[0].frame.code in {408, 429, 400, 409, 404, 500}))
    && (s.client.Receiving? && s.down.items != [] ==>
          s.client.got < s.size && s.down.items[0] == Block(Min(READ_CHUNK_SIZE, s.size - s.client.got)))
    && (s.server.AwaitRequest? && s.up.items != [] ==> s.up.items[0] == AFrame(Request))
  }

  ghost predicate CanMove(s: State) {
    exists a :: Enabled(s, a) && !a.ClientAbort? && !a.ServerAbort?
  }

  lemma SomeoneCanMove(s: State)
    requires Agreed(s) && s.capacity >= 1 && !(s.client.Finished? && s.server.Ended?)
    ensures CanMove(s)
  {
    if Enabled(s, ClientStep) {
    } else if Enabled(s, ServerStep) {
    } else {
      assert Enabled(s, Accept);
    }
  }

  /** As for uploads: nothing unexpected is read and the two are never stuck. */
  lemma NeverStuck(setup: Setup, run: seq<Action>)
    requires setup.capacity >= 1
    ensures NextIsExpected(After(setup, run))
    ensures var s := After(setup, run);
            CanMove(s) || (s.client.Finished? && s.server.Ended?)
  {
    AlwaysAgreed(setup, run);
    var s := After(setup, run);
    if s.client.Receiving? && s.down.items != [] { FirstBlock(s, s.client.got, s.down.items); }
    if !(s.client.Finished? && s.server.Ended?) { SomeoneCanMove(s); }
  }

  function Fuel(s: State): nat {
    (match s.client
     case Start => 8
     case AwaitInfo => 6
     case Receiving(_) => 4
     case Finished(_) => 0)
    + (match s.server
       case AwaitRequest => 2 * s.size + 12
       case Admitting => 2 * s.size + 11
       case Streaming(sent) => if sent <= s.size then 2 * (s.size - sent) + 4 else 4
       case Ended(_) => 0)
    + |s.up.items| + |s.down.items|
  }

  lemma EveryStepCosts(s: State, a: Action)
    requires Agreed(s) && Enabled(s, a)
    ensures Fuel(Step(s, a)) < Fuel(s)
  {}

  ghost predicate Patient(run: seq<Action>) {
    forall a :: a in run ==> !a.ClientAbort? && !a.ServerAbort?
  }

  /** The server ended before streaming anything. */
  ghost predicate Refused(s: State) {
    match s.client
    case Start => exists c :: s.down.items == [AFrame(Refusal(c))]
    case AwaitInfo => exists c :: s.down.items == [AFrame(Refusal(c))]
    case Finished(ok) => !ok
    case _ => false
  }

  ghost predicate Reported(s: State) {
    && (s.server == Ended(true) ==> s.client != Finished(false))
    && (s.client == Finished(true) ==> s.server == Ended(true) || s.server == Streaming(s.size))
    && (s.server.Streaming? ==> s.client != Finished(false))
    && (s.server.Admitting? || s.server.AwaitRequest? ==> !s.client.Finished?)
    && (s.server == Ended(false) ==> s.size % READ_CHUNK_SIZE != 0 || Refused(s))
  }

  lemma ReportedByClient(s: State)
    requires Agreed(s) && Reported(s) && Enabled(s, ClientStep)
    ensures Reported(Step(s, ClientStep))
  {
    if s.client.Receiving? && s.down.items != [] { FirstBlock(s, s.client.got, s.down.items); }
  }

  lemma ReportedByServer(s: State, a: Action)
    requires Agreed(s) && Reported(s) && Enabled(s, a) && (a.ServerStep? || a.Refuse? || a.Accept?)
    ensures Reported(Step(s, a))
  {}

  lemma ReportedStep(s: State, a: Action)
    requires Agreed(s) && Reported(s) && Enabled(s, a) && !a.ClientAbort? && !a.ServerAbort?
    ensures Reported(Step(s, a))
  {
    if a.ClientStep? { ReportedByClient(s); } else { ReportedByServer(s, a); }
  }

  lemma {:induction false} AlwaysReported(setup: Setup, run: seq<Action>)
    requires Patient(run)
    ensures Reported(After(setup, run))
  {
    if run != [] {
      var init, a := run[..|run| - 1], run[|run| - 1];
      assert a in run;
      AlwaysReported(setup, init);
      AlwaysAgreed(setup, init);
      var s := After(setup, init);
      if Enabled(s, a) { ReportedStep(s, a); }
    }
  }

  /** When nobody gives up, the client accepts exactly when the server sent everything;
      and it can accept only a size that is a multiple of the block size. */
  lemma SameOutcome(setup: Setup, run: seq<Action>)
    requires Patient(run)
    requires After(setup, run).client.Finished? && After(setup, run).server.Ended?
    ensures After(setup, run).client.ok == After(setup, run).server.sentAll
    ensures After(setup, run).client.ok ==> setup.size % READ_CHUNK_SIZE == 0
  {
    AlwaysAgreed(setup, run);
    AlwaysReported(setup, run);
  }

  // ---- What is bound to happen -------------------------------------------------------

  /** Nobody gives up and the server refuses nothing. */
  ghost predicate Willing(run: seq<Action>) {
    Patient(run) && forall a :: a in run ==> !a.Refuse?
  }

  ghost predicate CanSucceed(setup: Setup) {
    setup.capacity >= 1 && setup.size % READ_CHUNK_SIZE == 0
  }

  /** Neither end has failed, and nothing that was put on the wire is missing. */
  ghost predicate OnCourse(s: State) {
    && s.server != Ended(false) && s.client != Finished(false)
    && (s.server.AwaitRequest? || s.server.Admitting? ==> s.down.items == [])
    && (s.client == Finished(true) ==> s.server == Ended(true) || s.server == Streaming(s.size))
  }

  lemma ClientStaysOnCourse(s: State)
    requires Agreed(s) && OnCourse(s) && CanSucceed(s.setup) && Enabled(s, ClientStep)
    ensures OnCourse(Step(s, ClientStep))
  {
    if s.client.Receiving? && s.down.items != [] { FirstBlock(s, s.client.got, s.down.items); }
  }

  lemma ServerStaysOnCourse(s: State, a: Action)
    requires Agreed(s) && OnCourse(s) && CanSucceed(s.setup) && Enabled(s, a) && (a.ServerStep? || a.Accept?)
    ensures OnCourse(Step(s, a))
  {}

  lemma {:induction false} AlwaysOnCourse(setup: Setup, run: seq<Action>)
    requires Willing(run) && CanSucceed(setup)
    ensures OnCourse(After(setup, run))
  {
    if run != [] {
      var init, a := run[..|run| - 1], run[|run| - 1];
      assert a in run;
      AlwaysOnCourse(setup, init);
      AlwaysAgreed(setup, init);
      var s := After(setup, init);
      if Enabled(s, a) {
        if a.ClientStep? { ClientStaysOnCourse(s); } else { ServerStaysOnCourse(s, a); }
      }
    }
  }

  /** A download of a canonical size that nobody refuses or gives up succeeds. */
  lemma WillingDownloadsSucceed(setup: Setup, run: seq<Action>)
    requires Willing(run) && CanSucceed(setup)
    ensures var s := After(setup, run);
            && s.server != Ended(false) && s.client != Finished(false)
            && (CanGoOn(s) || (s.client == Finished(true) && s.server == Ended(true)))
  {
    AlwaysOnCourse(setup, run);
    AlwaysAgreed(setup, run);
    var s := After(setup, run);
    if s.server.Admitting? {
      assert Enabled(s, Accept);
    } else if !(s.client.Finished? && s.server.Ended?) {
      assert Enabled(s, ClientStep) || Enabled(s, ServerStep);
    }
  }

  /** Something other than refusing and giving up can happen. */
  ghost predicate CanGoOn(s: State) {
    exists a :: Enabled(s, a) && !a.ClientAbort? && !a.ServerAbort? && !a.Refuse?
  }

  /** The code the server has refused with. */
  function RefusedWith(setup: Setup, run: seq<Action>): Option<nat> {
    if run == [] then None
    else
      var init, a := run[..|run| - 1], run[|run| - 1];
      if a.Refuse? && Enabled(After(setup, init), a) then Some(a.code) else RefusedWith(setup, init)
  }

  /** A client that has not finished by itself finds just that code. */
  lemma {:induction false} RefusedClientsAreTold(setup: Setup, run: seq<Action>)
    requires Patient(run) && setup.capacity >= 1 && RefusedWith(setup, run).Some?
    ensures var s := After(setup, run);
            && s.server == Ended(false)
            && (s.client == Finished(false) || s.down.items == [AFrame(Refusal(RefusedWith(setup, run).value))])
  {
    var init, a := run[..|run| - 1], run[|run| - 1];
    assert a in run;
    AlwaysAgreed(setup, init);
    AlwaysReported(setup, init);
    if !(a.Refuse? && Enabled(After(setup, init), a)) { RefusedClientsAreTold(setup, init); }
  }

  /** Before the server has accepted it has sent a refusal at most. */
  ghost predicate Unaccepted(s: State) {
    && (s.server.AwaitRequest? || s.server.Admitting? || s.server == Ended(false))
    && (s.client.Start? || s.client.AwaitInfo? || s.client == Finished(false))
    && NoneOrRefusal(s.down.items) && (!s.server.Ended? ==> s.down.items == [])
  }

  lemma {:induction false} NothingIsSentUnasked(setup: Setup, run: seq<Action>)
    requires Accept !in run
    ensures Unaccepted(After(setup, run))
  {
    if run != [] {
      var init, a := run[..|run| - 1], run[|run| - 1];
      NothingIsSentUnasked(setup, init);
      AlwaysAgreed(setup, init);
      assert a in run;
      if Enabled(After(setup, init), a) { StaysUnaccepted(After(setup, init), a); }
    }
  }

  lemma StaysUnaccepted(s: State, a: Action)
    requires Agreed(s) && Unaccepted(s) && Enabled(s, a) && a != Accept
    ensures Unaccepted(Step(s, a))
  {
    if a.Refuse? { assert s.down.items + [AFrame(Refusal(a.code))] == [AFrame(Refusal(a.code))]; }
  }
}
