/** The locking protocol shared by the DTLS and TCP transports: any number of concurrent ReadRegisters, Connect and
    Close calls over one mutex and one connection field. What the network does is an outcome chosen by the
    environment; each access to shared state is one step. */
module Transport {
  import opened Options
  import opened Runs

  type Call = nat
  type ConnId = nat

  datatype Operation = ReadRegisters | Connect | Close

  /** Where a call is. Names say what comes next. */
  datatype Place =
    | Enter                  // waiting for the mutex
    | FastPath               // holds the mutex, looks at conn
    | Reading(over: ConnId, retry: bool) // request written, response to be read
    | Dead                   // the connection turned out to be closed
    | Reconnect              // mutex released; waiting for it in Connect
    | Clear                  // in Connect: close a stale connection
    | Dial
    | Dialed(c: ConnId)      // connected, not yet stored
    | Retry                  // mutex released; waiting for it again
    | SecondRead             // holds the mutex, reads over whatever conn is now
    | Shut                   // in Close
    | Returned(result: Outcome)
    | Panicked               // a method call on a nil connection

  /** What a call has asked of the network, and the answer. */
  datatype Event =
    | Sent(over: ConnId, outcome: Outcome)
    | Received(over: ConnId, outcome: Outcome)
    | Dialled(outcome: Outcome)

  /** A call in progress, with everything it has asked of the network so far. */
  datatype Thread = Thread(op: Operation, at: Place, history: seq<Event>)

  datatype Wire = Wrote(call: Call) | ReadTried(call: Call)
  datatype Update = Stored(call: Call, c: ConnId) | Cleared(call: Call)

  /** The connection field and mutex, the connections the process has open, and the calls; and two logs kept for the
      proofs: of what went over the wire and of the changes of the connection field. */
  datatype State = State(
    conn: Option<ConnId>, lock: Option<Call>, open: set<ConnId>, nextConn: ConnId,
    threads: map<Call, Thread>, wire: seq<Wire>, updates: seq<Update>)

  function Init(): State {
    State(None, None, {}, 0, map[], [], [])
  }

  /** The result of a network operation. */
  datatype Outcome = Fine | ConnClosed | OtherError

  datatype Action = Begin(call: Call, op: Operation) | Go(call: Call, outcome: Outcome)

  predicate Waiting(t: Thread) {
    t.at.Enter? || t.at.Reconnect? || t.at.Retry?
  }

  predicate Over(t: Thread) {
    t.at.Returned? || t.at.Panicked?
  }

  /** A call waiting for the mutex can go on only when it is free. */
  predicate Enabled(s: State, a: Action) {
    match a
    case Begin(call, _) => call !in s.threads
    case Go(call, _) => call in s.threads && !Over(s.threads[call]) && (Waiting(s.threads[call]) ==> s.lock.None?)
  }

  function Move(s: State, call: Call, t: Thread): State {
    s.(threads := s.threads[call := t])
  }

  function Release(s: State, call: Call, t: Thread): State {
    Move(s, call, t).(lock := None)
  }

  /** conn.Close() and conn = nil. */
  function Drop(s: State, call: Call): State {
    if s.conn.None? then s
    else s.(open := s.open - {s.conn.value}, conn := None, updates := s.updates + [Cleared(call)])
  }

  function Note(t: Thread, event: Event): Thread {
    t.(history := t.history + [event])
  }

  /** The write half of doRead. */
  function Write(s: State, call: Call, t: Thread, c: ConnId, retry: bool, outcome: Outcome): State {
    var t' := Note(t, Sent(c, outcome));
    if outcome.Fine? then
      Move(s, call, t'.(at := Reading(c, retry))).(wire := s.wire + [Wrote(call)])
    else if outcome.ConnClosed? && !retry then
      Move(s, call, t'.(at := Dead))
    else
      Release(s, call, t'.(at := Returned(outcome)))
  }

  function Advance(s: State, call: Call, outcome: Outcome): State
    requires call in s.threads
  {
    var t := s.threads[call];
    match t.at
    case Enter =>
      var next := match t.op case ReadRegisters => FastPath case Connect => Clear case Close => Shut;
      Move(s, call, t.(at := next)).(lock := Some(call))
    case FastPath =>
      if s.conn.None? then Release(s, call, t.(at := Reconnect)) else Write(s, call, t, s.conn.value, false, outcome)
    case Reading(c, retry) =>
      var s' := s.(wire := s.wire + [ReadTried(call)]);
      var t' := Note(t, Received(c, outcome));
      if outcome.ConnClosed? && !retry then Move(s', call, t'.(at := Dead))
      else Release(s', call, t'.(at := Returned(outcome)))
    case Dead =>
      Release(Drop(s, call), call, t.(at := Reconnect))
    case Reconnect =>
      Move(s, call, t.(at := Clear)).(lock := Some(call))
    case Clear =>
      Move(Drop(s, call), call, t.(at := Dial))
    case Dial =>
      var t' := Note(t, Dialled(outcome));
      if outcome.Fine? then
        Move(s, call, t'.(at := Dialed(s.nextConn))).(open := s.open + {s.nextConn}, nextConn := s.nextConn + 1)
      else
        Release(s, call, t'.(at := Returned(outcome)))
    case Dialed(c) =>
      Release(s, call, t.(at := if t.op.ReadRegisters? then Retry else Returned(Fine))).(
        conn := Some(c), updates := s.updates + [Stored(call, c)])
    case Retry =>
      Move(s, call, t.(at := SecondRead)).(lock := Some(call))
    case SecondRead =>
      if s.conn.None? then Release(s, call, t.(at := Panicked)) else Write(s, call, t, s.conn.value, true, outcome)
    case Shut =>
      Release(Drop(s, call), call, t.(at := Returned(if s.conn.Some? then outcome else Fine)))
    case Returned(_) => s
    case Panicked => s
  }

  function Apply(s: State, a: Action): State {
    match a
    case Begin(call, op) => s.(threads := s.threads[call := Thread(op, Enter, [])])
    case Go(call, outcome) => if call in s.threads then Advance(s, call, outcome) else s
  }

  // ---------------------------------------------------------------- the invariant

  predicate HoldsLock(t: Thread) {
    !Waiting(t) && !Over(t)
  }

  /** Exactly the holder of the mutex is between its lock and unlock. */
  ghost predicate MutexRight(s: State) {
    && (s.lock.Some? ==> s.lock.value in s.threads)
    && forall c :: c in s.threads ==> (HoldsLock(s.threads[c]) <==> s.lock == Some(c))
  }

  predicate InDialed(s: State) {
    s.lock.Some? && s.lock.value in s.threads && s.threads[s.lock.value].at.Dialed?
  }

  /** The open connections are the one in the field, or the one just dialled and about to be stored. */
  ghost predicate ConnectionsRight(s: State) {
    && (forall c :: c in s.open ==> c < s.nextConn)
    && (if InDialed(s) then s.conn.None? && s.open == {s.threads[s.lock.value].at.c}
        else s.open == if s.conn.Some? then {s.conn.value} else {})
    && (s.lock.Some? && s.lock.value in s.threads && s.threads[s.lock.value].at.Dial? ==> s.conn.None?)
  }

  /** Every write is directly followed by its own read attempt. */
  ghost predicate Paired(wire: seq<Wire>) {
    && |wire| % 2 == 0
    && forall i :: 0 <= i < |wire| && i % 2 == 0 ==> wire[i].Wrote? && wire[i + 1] == ReadTried(wire[i].call)
  }

  ghost predicate WireRight(s: State) {
    if s.lock.Some? && s.lock.value in s.threads && s.threads[s.lock.value].at.Reading? then
      s.wire != [] && s.wire[|s.wire| - 1] == Wrote(s.lock.value) && Paired(s.wire[..|s.wire| - 1])
    else
      Paired(s.wire)
  }

  /** The whole of a first attempt that met a closed connection. */
  predicate Lost(h: seq<Event>, c: ConnId) {
    h == [Sent(c, ConnClosed)] || h == [Sent(c, Fine), Received(c, ConnClosed)]
  }

  /** Nothing asked yet, or an attempt that met a closed connection. */
  predicate Opening(h: seq<Event>) {
    h == [] || (h[0].Sent? && Lost(h, h[0].over))
  }

  predicate Redialled(h: seq<Event>, outcome: Outcome) {
    h != [] && h[|h| - 1] == Dialled(outcome) && Opening(h[..|h| - 1])
  }

  predicate Resent(h: seq<Event>, c: ConnId, outcome: Outcome) {
    h != [] && h[|h| - 1] == Sent(c, outcome) && Redialled(h[..|h| - 1], Fine)
  }

  predicate Answered(h: seq<Event>, c: ConnId, outcome: Outcome) {
    h != [] && h[|h| - 1] == Received(c, outcome) && Resent(h[..|h| - 1], c, Fine)
  }

  /** What a ReadRegisters that returns r has asked: one attempt that did not meet a closed connection, or after at most
      one that did a dial, and if that worked one more attempt. */
  predicate ReadStory(h: seq<Event>, r: Outcome) {
    || (h != [] && h[0].Sent? && r.OtherError? && h == [Sent(h[0].over, r)])
    || (h != [] && h[0].Sent? && !r.ConnClosed? && h == [Sent(h[0].over, Fine), Received(h[0].over, r)])
    || (!r.Fine? && Redialled(h, r))
    || (!r.Fine? && h != [] && h[|h| - 1].Sent? && Resent(h, h[|h| - 1].over, r))
    || (h != [] && h[|h| - 1].Received? && Answered(h, h[|h| - 1].over, r))
  }

  /** What a call has asked of the network by the time it is at a place. */
  predicate StoryRight(t: Thread) {
    var h, read := t.history, t.op.ReadRegisters?;
    match t.at
    case Enter => h == []
    case FastPath => read && h == []
    case Reading(c, retry) => read && if retry then Resent(h, c, Fine) else h == [Sent(c, Fine)]
    case Dead => read && h != [] && Opening(h)
    case Reconnect => read && Opening(h)
    case Clear => if read then Opening(h) else t.op.Connect? && h == []
    case Dial => if read then Opening(h) else t.op.Connect? && h == []
    case Dialed(_) => if read then Redialled(h, Fine) else t.op.Connect? && h == [Dialled(Fine)]
    case Retry => read && Redialled(h, Fine)
    case SecondRead => read && Redialled(h, Fine)
    case Shut => t.op.Close? && h == []
    case Returned(r) =>
      (match t.op case ReadRegisters => ReadStory(h, r) case Connect => h == [Dialled(r)] case Close => h == [])
    case Panicked => read && Redialled(h, Fine)
  }

  ghost predicate ThreadsRight(s: State) {
    forall c :: c in s.threads ==> StoryRight(s.threads[c])
  }

  /** The first thing the call asked was to send or receive over a connection that turned out to be closed. */
  predicate FoundClosed(h: seq<Event>) {
    && h != []
    && h[0].Sent?
    && (h[0].outcome.ConnClosed? || (h[0].outcome.Fine? && |h| > 1 && h[1] == Received(h[0].over, ConnClosed)))
  }

  /** A response is read over the connection in the field, and a connection found closed stays there only until it is
      dropped. */
  ghost predicate ClosedRight(s: State) {
    forall c :: c in s.threads ==> DropsClosed(s, s.threads[c])
  }

  ghost predicate DropsClosed(s: State, t: Thread) {
    && (t.at.Reading? ==> s.conn == Some(t.at.over))
    && (FoundClosed(t.history) ==>
      && t.history[0].over < s.nextConn
      && (if t.at.Dead? then s.conn == Some(t.history[0].over)
          else s.conn != Some(t.history[0].over) && t.history[0].over !in s.open))
  }

  /** The field holds what its last change put there. */
  ghost predicate FieldRight(s: State) {
    s.conn ==
      if s.updates == [] || s.updates[|s.updates| - 1].Cleared? then None
      else Some(s.updates[|s.updates| - 1].c)
  }

  /** The call has stored a connection, and every later change of the field was made by another call. */
  ghost predicate StoredSince(updates: seq<Update>, call: Call, p: nat) {
    && p < |updates| && updates[p].Stored? && updates[p].call == call
    && forall i :: p < i < |updates| ==> updates[i].call != call
  }

  ghost predicate RetriesRight(s: State) {
    forall c :: c in s.threads && (s.threads[c].at.Retry? || s.threads[c].at.SecondRead?) ==>
      exists p :: StoredSince(s.updates, c, p)
  }

  ghost predicate Inv(s: State) {
    && MutexRight(s) && ConnectionsRight(s) && WireRight(s) && ThreadsRight(s) && FieldRight(s) && RetriesRight(s)
    && ClosedRight(s)
  }

  // ---------------------------------------------------------------- every step keeps the invariant

  lemma BeginKeeps(s: State, call: Call, op: Operation)
    requires Inv(s) && Enabled(s, Begin(call, op))
    ensures Inv(Apply(s, Begin(call, op)))
  {
    var s' := Apply(s, Begin(call, op));
    assert forall c :: c in s.threads ==> s'.threads[c] == s.threads[c];
  }

  lemma GoKeepsMutex(s: State, call: Call, outcome: Outcome)
    requires MutexRight(s) && Enabled(s, Go(call, outcome))
    ensures MutexRight(Advance(s, call, outcome))
  {
  }

  lemma GoKeepsConnections(s: State, call: Call, outcome: Outcome)
    requires MutexRight(s) && ConnectionsRight(s) && Enabled(s, Go(call, outcome))
    ensures ConnectionsRight(Advance(s, call, outcome))
  {
  }

  lemma PairCompleted(wire: seq<Wire>, call: Call)
    requires wire != [] && wire[|wire| - 1] == Wrote(call) && Paired(wire[..|wire| - 1])
    ensures Paired(wire + [ReadTried(call)])
  {
    var done, longer := wire[..|wire| - 1], wire + [ReadTried(call)];
    forall i | 0 <= i < |longer| && i % 2 == 0 ensures longer[i].Wrote? && longer[i + 1] == ReadTried(longer[i].call) {
      if i < |done| {
        assert done[i].Wrote? && done[i + 1] == ReadTried(done[i].call);
        assert longer[i] == done[i] && longer[i + 1] == done[i + 1];
      }
    }
  }

  lemma GoKeepsWire(s: State, call: Call, outcome: Outcome)
    requires MutexRight(s) && WireRight(s) && Enabled(s, Go(call, outcome))
    ensures WireRight(Advance(s, call, outcome))
  {
    var s' := Advance(s, call, outcome);
    if s.threads[call].at.Reading? {
      assert s.lock == Some(call);
      PairCompleted(s.wire, call);
    } else if s'.wire != s.wire {
      assert s.lock == Some(call);
      assert s'.wire[..|s'.wire| - 1] == s.wire;
    }
  }

  lemma Longer(h: seq<Event>, c: ConnId, outcome: Outcome)
    ensures Opening(h) ==> Redialled(h + [Dialled(outcome)], outcome)
    ensures Redialled(h, Fine) ==> Resent(h + [Sent(c, outcome)], c, outcome)
    ensures Resent(h, c, Fine) ==> Answered(h + [Received(c, outcome)], c, outcome)
  {
    assert (h + [Dialled(outcome)])[..|h|] == h;
    assert (h + [Sent(c, outcome)])[..|h|] == h;
    assert (h + [Received(c, outcome)])[..|h|] == h;
  }

  lemma SendingKeepsStory(s: State, call: Call, outcome: Outcome)
    requires call in s.threads && StoryRight(s.threads[call])
    requires s.threads[call].at.FastPath? || s.threads[call].at.SecondRead?
    ensures StoryRight(Advance(s, call, outcome).threads[call])
  {
    if s.conn.Some? {
      Longer(s.threads[call].history, s.conn.value, outcome);
    }
  }

  lemma ReceivingKeepsStory(s: State, call: Call, outcome: Outcome)
    requires call in s.threads && StoryRight(s.threads[call])
    requires s.threads[call].at.Reading?
    ensures StoryRight(Advance(s, call, outcome).threads[call])
  {
    Longer(s.threads[call].history, s.threads[call].at.over, outcome);
  }

  lemma DiallingKeepsStory(s: State, call: Call, outcome: Outcome)
    requires call in s.threads && StoryRight(s.threads[call])
    requires s.threads[call].at.Dial?
    ensures StoryRight(Advance(s, call, outcome).threads[call])
  {
    var h, h' := s.threads[call].history, s.threads[call].history + [Dialled(outcome)];
    Longer(h, 0, outcome);
    if !s.threads[call].op.ReadRegisters? {
      assert h' == [Dialled(outcome)];
    } else if !outcome.Fine? {
      assert ReadStory(h', outcome);
    }
  }

  lemma OthersKeepStory(s: State, call: Call, outcome: Outcome)
    requires call in s.threads && StoryRight(s.threads[call])
    requires var at := s.threads[call].at; !at.FastPath? && !at.SecondRead? && !at.Reading? && !at.Dial?
    ensures StoryRight(Advance(s, call, outcome).threads[call])
  {
  }

  lemma GoKeepsThreads(s: State, call: Call, outcome: Outcome)
    requires ThreadsRight(s) && Enabled(s, Go(call, outcome))
    ensures ThreadsRight(Advance(s, call, outcome))
  {
    var at := s.threads[call].at;
    assert StoryRight(s.threads[call]);
    if at.FastPath? || at.SecondRead? {
      SendingKeepsStory(s, call, outcome);
    } else if at.Reading? {
      ReceivingKeepsStory(s, call, outcome);
    } else if at.Dial? {
      DiallingKeepsStory(s, call, outcome);
    } else {
      OthersKeepStory(s, call, outcome);
    }
    GoLeavesOthers(s, call, outcome);
    OthersStayRight(s, call, Advance(s, call, outcome));
  }

  lemma OthersStayRight(s: State, call: Call, s': State)
    requires ThreadsRight(s) && call in s'.threads && StoryRight(s'.threads[call])
    requires s'.threads == s.threads[call := s'.threads[call]]
    ensures ThreadsRight(s')
  {
  }

  /** What becomes open or enters the field was open or is new. */
  ghost predicate OnlyNew(s: State, s': State) {
    && s.nextConn <= s'.nextConn
    && (forall x :: x in s'.open ==> x in s.open || x >= s.nextConn)
    && (s'.conn.Some? ==> s'.conn == s.conn || s'.conn.value in s.open)
  }

  lemma GoOpensOnlyNew(s: State, call: Call, outcome: Outcome)
    requires MutexRight(s) && ConnectionsRight(s) && Enabled(s, Go(call, outcome))
    ensures OnlyNew(s, Advance(s, call, outcome))
  {
  }

  lemma OthersDropClosed(s: State, s': State, t: Thread)
    requires OnlyNew(s, s') && DropsClosed(s, t) && !HoldsLock(t)
    ensures DropsClosed(s', t)
  {
  }

  lemma SendingDropsClosed(s: State, call: Call, outcome: Outcome)
    requires MutexRight(s) && ConnectionsRight(s) && call in s.threads
    requires StoryRight(s.threads[call]) && DropsClosed(s, s.threads[call])
    requires s.threads[call].at.FastPath? || s.threads[call].at.SecondRead?
    ensures var s' := Advance(s, call, outcome); DropsClosed(s', s'.threads[call])
  {
  }

  lemma ReceivingDropsClosed(s: State, call: Call, outcome: Outcome)
    requires MutexRight(s) && ConnectionsRight(s) && call in s.threads
    requires StoryRight(s.threads[call]) && DropsClosed(s, s.threads[call])
    requires s.threads[call].at.Reading?
    ensures var s' := Advance(s, call, outcome); DropsClosed(s', s'.threads[call])
  {
  }

  lemma RestDropsClosed(s: State, call: Call, outcome: Outcome)
    requires MutexRight(s) && ConnectionsRight(s) && call in s.threads
    requires StoryRight(s.threads[call]) && DropsClosed(s, s.threads[call])
    requires var at := s.threads[call].at; !at.FastPath? && !at.SecondRead? && !at.Reading?
    ensures var s' := Advance(s, call, outcome); DropsClosed(s', s'.threads[call])
  {
  }

  lemma GoKeepsClosed(s: State, call: Call, outcome: Outcome)
    requires MutexRight(s) && ConnectionsRight(s) && ThreadsRight(s) && ClosedRight(s) && Enabled(s, Go(call, outcome))
    ensures ClosedRight(Advance(s, call, outcome))
  {
    var s', at := Advance(s, call, outcome), s.threads[call].at;
    assert StoryRight(s.threads[call]);
    if at.FastPath? || at.SecondRead? {
      SendingDropsClosed(s, call, outcome);
    } else if at.Reading? {
      ReceivingDropsClosed(s, call, outcome);
    } else {
      RestDropsClosed(s, call, outcome);
    }
    GoLeavesOthers(s, call, outcome);
    GoOpensOnlyNew(s, call, outcome);
    OthersStayClosed(s, call, s');
  }

  lemma OthersStayClosed(s: State, call: Call, s': State)
    requires MutexRight(s) && ClosedRight(s) && OnlyNew(s, s') && call in s'.threads && DropsClosed(s', s'.threads[call])
    requires s'.threads == s.threads[call := s'.threads[call]]
    requires s.lock.None? || s.lock == Some(call)
    ensures ClosedRight(s')
  {
    forall c | c in s'.threads && c != call ensures DropsClosed(s', s'.threads[c]) {
      assert DropsClosed(s, s.threads[c]) && !HoldsLock(s.threads[c]);
      OthersDropClosed(s, s', s.threads[c]);
    }
  }

  lemma GoKeepsField(s: State, call: Call, outcome: Outcome)
    requires FieldRight(s) && Enabled(s, Go(call, outcome))
    ensures FieldRight(Advance(s, call, outcome))
  {
  }

  lemma GoKeepsRetries(s: State, call: Call, outcome: Outcome)
    requires MutexRight(s) && RetriesRight(s) && Enabled(s, Go(call, outcome))
    ensures RetriesRight(Advance(s, call, outcome))
  {
    var s' := Advance(s, call, outcome);
    forall c | c in s'.threads && (s'.threads[c].at.Retry? || s'.threads[c].at.SecondRead?)
      ensures exists p :: StoredSince(s'.updates, c, p)
    {
      if c == call && s.threads[c].at.Dialed? {
        assert StoredSince(s'.updates, c, |s.updates|);
      } else {
        var p :| StoredSince(s.updates, c, p);
        assert StoredSince(s'.updates, c, p);
      }
    }
  }

  lemma EveryStepKeeps()
    ensures Inductive(Enabled, Apply, Inv)
  {
    forall s, a | Inv(s) && Enabled(s, a) ensures Inv(Apply(s, a)) {
      match a
      case Begin(call, op) => BeginKeeps(s, call, op);
      case Go(call, outcome) =>
        GoKeepsMutex(s, call, outcome);
        GoKeepsConnections(s, call, outcome);
        GoKeepsWire(s, call, outcome);
        GoKeepsThreads(s, call, outcome);
        GoKeepsField(s, call, outcome);
        GoKeepsRetries(s, call, outcome);
        GoKeepsClosed(s, call, outcome);
    }
  }

  ghost predicate Reachable(s: State) {
    Reaches(Enabled, Apply, Init(), s)
  }

  lemma ReachableInv(s: State)
    requires Reachable(s)
    ensures Inv(s)
  {
    var actions: seq<Action> :| Legal(Enabled, Apply, Init(), actions) && Exec(Apply, Init(), actions) == s;
    EveryStepKeeps();
    InvariantHolds(Enabled, Apply, Inv, Init(), actions);
  }

  // ---------------------------------------------------------------- what that means

  /** Under every interleaving at most one connection is open; when the mutex is free it is exactly the one in the
      field, so no dialled connection is ever leaked. */
  lemma NoConnectionLeaks(s: State)
    requires Reachable(s)
    ensures |s.open| <= 1
    ensures s.lock.None? ==> s.open == if s.conn.Some? then {s.conn.value} else {}
    ensures s.conn.Some? ==> s.open == {s.conn.value}
  {
    ReachableInv(s);
  }

  /** No request is written between another request and its own read attempt. */
  lemma TransactionsDoNotInterleave(s: State, i: nat)
    requires Reachable(s) && i < |s.wire| && s.wire[i].Wrote?
    ensures i + 1 < |s.wire| ==> s.wire[i + 1] == ReadTried(s.wire[i].call)
    ensures i + 1 == |s.wire| ==> s.lock == Some(s.wire[i].call)
  {
    ReachableInv(s);
    var wire := s.wire;
    if s.lock.Some? && s.threads[s.lock.value].at.Reading? {
      var done := wire[..|wire| - 1];
      if i < |done| {
        assert done[i] == wire[i];
        assert done[i - i % 2].Wrote? && done[i - i % 2 + 1] == ReadTried(done[i - i % 2].call);
      }
    } else {
      assert wire[i - i % 2].Wrote? && wire[i - i % 2 + 1] == ReadTried(wire[i - i % 2].call);
    }
  }

  function Sends(h: seq<Event>): nat {
    if h == [] then 0 else Sends(h[..|h| - 1]) + if h[|h| - 1].Sent? then 1 else 0
  }

  function Dials(h: seq<Event>): nat {
    if h == [] then 0 else Dials(h[..|h| - 1]) + if h[|h| - 1].Dialled? then 1 else 0
  }

  lemma OneSend(h: seq<Event>, c: ConnId, o: Outcome, p: Outcome)
    ensures Sends([Sent(c, o)]) == 1 && Dials([Sent(c, o)]) == 0
    ensures Sends([Sent(c, o), Received(c, p)]) == 1 && Dials([Sent(c, o), Received(c, p)]) == 0
  {
    assert [Sent(c, o)][..0] == [];
    assert [Sent(c, o), Received(c, p)][..1] == [Sent(c, o)];
  }

  lemma RedialledOnce(h: seq<Event>, outcome: Outcome)
    requires Redialled(h, outcome)
    ensures Sends(h) <= 1 && Dials(h) == 1
  {
    var first := h[..|h| - 1];
    if first != [] {
      OneSend(h, first[0].over, first[0].outcome, ConnClosed);
    }
  }

  /** No call sends more than two requests or dials more than once. */
  lemma CallsAreBounded(s: State, call: Call)
    requires Reachable(s) && call in s.threads
    ensures Sends(s.threads[call].history) <= 2 && Dials(s.threads[call].history) <= 1
  {
    ReachableInv(s);
    assert StoryRight(s.threads[call]);
    var h := s.threads[call].history;
    if h != [] {
      var last := h[|h| - 1];
      if last.Dialled? && Redialled(h, last.outcome) {
        RedialledOnce(h, last.outcome);
      } else if last.Sent? && Resent(h, last.over, last.outcome) {
        RedialledOnce(h[..|h| - 1], Fine);
      } else if last.Received? && Answered(h, last.over, last.outcome) {
        RedialledOnce(h[..|h| - 1][..|h| - 2], Fine);
      } else if h[0].Sent? {
        OneSend(h, h[0].over, h[0].outcome, last.outcome);
      }
    }
  }

  // ---------------------------------------------------------------- closed connections

  /** The history is what was asked: a step that writes, reads or dials notes it with its outcome, and no other step
      notes anything. */
  lemma StepsAreNoted(s: State, call: Call, outcome: Outcome)
    requires Reachable(s) && Enabled(s, Go(call, outcome))
    ensures var t, s' := s.threads[call], Apply(s, Go(call, outcome));
      call in s'.threads && s'.threads[call].history ==
        if (t.at.FastPath? || t.at.SecondRead?) && s.conn.Some? then t.history + [Sent(s.conn.value, outcome)]
        else if t.at.Reading? && s.conn.Some? then t.history + [Received(s.conn.value, outcome)]
        else if t.at.Dial? then t.history + [Dialled(outcome)]
        else t.history
  {
    ReachableInv(s);
    assert DropsClosed(s, s.threads[call]);
  }

  /** What Connect stores is the only open connection, and Close, or a call that found its connection closed, leaves none
      open and none in the field. */
  lemma StoresOrCloses(s: State, call: Call, outcome: Outcome)
    requires Reachable(s) && Enabled(s, Go(call, outcome))
    ensures var at, s' := s.threads[call].at, Apply(s, Go(call, outcome));
      && (at.Dialed? ==> s'.conn == Some(at.c) && s'.open == {at.c})
      && (at.Shut? || at.Dead? ==> s'.conn == None && s'.open == {})
  {
    ReachableInv(s);
  }

  /** A ReadRegisters that is over and whose first attempt met a closed connection, at the write or at the read, has
      dialled next. If that failed it returned the error. If it worked it tried once more, which is what it returned, or
      panicked. The connection it found closed is closed and out of the field for good. */
  lemma ClosedIsReplaced(s: State, call: Call)
    requires Reachable(s) && call in s.threads && s.threads[call].op.ReadRegisters? && Over(s.threads[call])
    requires FoundClosed(s.threads[call].history)
    ensures var t, h := s.threads[call], s.threads[call].history;
      var k := if h[0].outcome.ConnClosed? then 1 else 2;
      && k < |h| && h[k].Dialled?
      && (!h[k].outcome.Fine? ==> |h| == k + 1 && t.at == Returned(h[k].outcome))
      && (h[k].outcome.Fine? ==> if |h| == k + 1 then t.at.Panicked? else h[k + 1].Sent?)
    ensures var c := s.threads[call].history[0].over; s.conn != Some(c) && c !in s.open
  {
    ReachableInv(s);
    assert StoryRight(s.threads[call]) && DropsClosed(s, s.threads[call]);
  }

  lemma OnlyLostIsFollowed(h: seq<Event>)
    requires h != [] && h[0].Sent? && (Redialled(h, h[|h| - 1].outcome) || (|h| > 1 && Redialled(h[..|h| - 1], Fine))
      || (|h| > 2 && Redialled(h[..|h| - 1][..|h| - 2], Fine)))
    ensures FoundClosed(h)
  {
    var dialled := if Redialled(h, h[|h| - 1].outcome) then h
      else if |h| > 1 && Redialled(h[..|h| - 1], Fine) then h[..|h| - 1] else h[..|h| - 1][..|h| - 2];
    var first := dialled[..|dialled| - 1];
    assert dialled[0] == h[0] && first != [];
    assert |first| > 1 ==> first[1] == h[1];
  }

  /** A first attempt that did not meet a closed connection is the only one. */
  lemma OtherwiseOnce(s: State, call: Call)
    requires Reachable(s) && call in s.threads && s.threads[call].op.ReadRegisters? && Over(s.threads[call])
    requires var h := s.threads[call].history; h != [] && h[0].Sent? && !FoundClosed(h)
    ensures var h := s.threads[call].history; |h| == if h[0].outcome.Fine? then 2 else 1
  {
    ReachableInv(s);
    var h := s.threads[call].history;
    assert StoryRight(s.threads[call]);
    if h != [h[0]] && !(|h| == 2 && h[1].Received?) {
      OnlyLostIsFollowed(h);
    }
  }

  /** A ReadRegisters returns the outcome of the last thing it asked, and data only if that was to receive it. */
  lemma ReturnsLastAnswer(s: State, call: Call, r: Outcome)
    requires Reachable(s) && call in s.threads && s.threads[call].op.ReadRegisters?
    requires s.threads[call].at == Returned(r)
    ensures var h := s.threads[call].history;
      h != [] && h[|h| - 1].outcome == r && (r.Fine? ==> h[|h| - 1].Received?)
  {
    ReachableInv(s);
    assert StoryRight(s.threads[call]);
  }

  // ---------------------------------------------------------------- every call ends

  /** An upper bound on the steps a call still has to take. */
  function Left(p: Place): nat {
    match p
    case Enter => 12
    case FastPath => 11
    case Reading(_, retry) => if retry then 1 else 10
    case Dead => 9
    case Reconnect => 8
    case Clear => 7
    case Dial => 6
    case Dialed(_) => 5
    case Retry => 4
    case SecondRead => 3
    case Shut => 1
    case Returned(_) => 0
    case Panicked => 0
  }

  /** As long as a call is not over, some call can go on: the one that holds the mutex, or if it is free any. */
  lemma NoDeadlock(s: State, call: Call, outcome: Outcome) returns (next: Call)
    requires Reachable(s) && call in s.threads && !Over(s.threads[call])
    ensures Enabled(s, Go(next, outcome))
  {
    ReachableInv(s);
    next := if s.lock.Some? then s.lock.value else call;
    assert s.lock.Some? ==> HoldsLock(s.threads[next]);
  }

  function Steps(actions: seq<Action>, call: Call): nat {
    if actions == [] then 0 else (if actions[0].Go? && actions[0].call == call then 1 else 0) + Steps(actions[1..], call)
  }

  lemma GoLeavesOthers(s: State, call: Call, outcome: Outcome)
    requires call in s.threads
    ensures var s' := Apply(s, Go(call, outcome)); call in s'.threads && s'.threads == s.threads[call := s'.threads[call]]
  {
    var t := s.threads[call];
    assert Over(t) ==> s.threads == s.threads[call := t];
  }

  lemma TalkingShortens(s: State, call: Call, outcome: Outcome)
    requires call in s.threads
    requires var at := s.threads[call].at; at.FastPath? || at.SecondRead? || at.Reading? || at.Dial?
    ensures var s' := Advance(s, call, outcome); call in s'.threads && Left(s'.threads[call].at) < Left(s.threads[call].at)
  {
  }

  lemma MovingShortens(s: State, call: Call, outcome: Outcome)
    requires call in s.threads && !Over(s.threads[call])
    requires var at := s.threads[call].at; !at.FastPath? && !at.SecondRead? && !at.Reading? && !at.Dial?
    ensures var s' := Advance(s, call, outcome); call in s'.threads && Left(s'.threads[call].at) < Left(s.threads[call].at)
  {
  }

  lemma GoShortens(s: State, call: Call, outcome: Outcome)
    requires Enabled(s, Go(call, outcome))
    ensures var s' := Advance(s, call, outcome); call in s'.threads && Left(s'.threads[call].at) < Left(s.threads[call].at)
  {
    var at := s.threads[call].at;
    if at.FastPath? || at.SecondRead? || at.Reading? || at.Dial? {
      TalkingShortens(s, call, outcome);
    } else {
      MovingShortens(s, call, outcome);
    }
  }

  lemma {:induction false} StepsLeft(s: State, actions: seq<Action>, call: Call)
    requires Legal(Enabled, Apply, s, actions) && call in s.threads
    ensures var s' := Exec(Apply, s, actions);
      call in s'.threads && Steps(actions, call) + Left(s'.threads[call].at) <= Left(s.threads[call].at)
    decreases actions
  {
    if actions != [] {
      if actions[0].Go? {
        GoLeavesOthers(s, actions[0].call, actions[0].outcome);
        GoShortens(s, actions[0].call, actions[0].outcome);
      }
      StepsLeft(Apply(s, actions[0]), actions[1..], call);
    }
  }

  /** No call takes more than twelve steps, however many others there are. With NoDeadlock, calls always end. */
  lemma CallsEnd(s: State, call: Call, op: Operation, actions: seq<Action>)
    requires Enabled(s, Begin(call, op)) && Legal(Enabled, Apply, Apply(s, Begin(call, op)), actions)
    ensures Steps(actions, call) <= 12
  {
    StepsLeft(Apply(s, Begin(call, op)), actions, call);
  }

  // ---------------------------------------------------------------- the retry

  /** A retry panics on a nil connection exactly when the last change of the field was another call clearing it,
      after this call had reconnected and given the mutex up. */
  lemma RetryPanicsIff(s: State, call: Call, outcome: Outcome)
    requires Reachable(s) && call in s.threads && s.threads[call].at.SecondRead?
    ensures s.updates != []
    ensures var last := s.updates[|s.updates| - 1];
      Apply(s, Go(call, outcome)).threads[call].at.Panicked? <==> last.Cleared? && last.call != call
  {
    ReachableInv(s);
    var p :| StoredSince(s.updates, call, p);
  }

  lemma OneStep(s: State, a: Action)
    requires Reachable(s) && Enabled(s, a)
    ensures Reachable(Apply(s, a))
  {
    ReachesOne(Enabled, Apply, s, a);
    ReachesThen(Enabled, Apply, Init(), s, Apply(s, a));
  }

  /** A reconnected call, waiting to take the mutex again for its retry. */
  lemma CanWaitForRetry() returns (s: State)
    ensures Reachable(s) && s.lock.None? && s.conn.Some?
    ensures s.threads.Keys == {0} && s.threads[0].at.Retry?
  {
    ReachesSelf(Enabled, Apply, Init());
    s := Then(Init(), Begin(0, ReadRegisters));
    s := Then(s, Go(0, Fine));
    s := Then(s, Go(0, Fine));
    s := Then(s, Go(0, Fine));
    s := Then(s, Go(0, Fine));
    s := Then(s, Go(0, Fine));
    s := Then(s, Go(0, Fine));
  }

  /** The panic does happen: a Close between a reconnect and the retry it was made for. */
  lemma RetryCanPanic() returns (s: State)
    ensures Reachable(s) && 0 in s.threads && s.threads[0].at.Panicked?
  {
    s := CanWaitForRetry();
    s := Then(s, Begin(1, Close));
    s := Then(s, Go(1, Fine));
    s := Then(s, Go(1, Fine));
    s := Then(s, Go(0, Fine));
    s := Then(s, Go(0, Fine));
  }

  lemma Then(s: State, a: Action) returns (s': State)
    requires Reachable(s) && Enabled(s, a)
    ensures Reachable(s') && s' == Apply(s, a)
  {
    s' := Apply(s, a);
    OneStep(s, a);
  }
}
