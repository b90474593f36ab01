/** The inverter connection state machine of the daemon, with its backoff and the pinning of the inverter's serial
    number in the database. What the inverter and the database answer during one iteration of the timer loop is a
    Visit chosen by the environment. */
module Connection {
  import opened Arithmetic
  import opened Options

  type Time = int
  type Seconds = nat

  const BACKOFF_INITIAL: Seconds := 5
  const BACKOFF_MAX: Seconds := 300
  const ZERO_TIME: Time := 0

  datatype Info = Info(
    serial: string, model: string, firmware: string, dspVersion: string, armVersion: string, ratedPower: int)

  datatype Identity = Identity(info: Info, firstSeen: Time, lastSeen: Time)

  /** The identity table, by its primary key. */
  type Rows = map<string, Identity>

  /** One iteration: whether dialling works, what GetInfo returns, whether the identity can be read from and written to
      the database, and whether the sensors can be read. */
  datatype Visit = Visit(dialOk: bool, info: Option<Info>, readOk: bool, writeOk: bool, pollOk: bool, at: Time)

  datatype ConnState = Disabled | Disconnected | Connecting | Connected | Failed

  datatype Error = DialFailed | NoInfo | NotRead | NotWritten | SerialMismatch(expected: string, got: string) | PollFailed

  /** A call of an inverter method, and the connection state it is made in. */
  datatype Entry = Entry(call: InverterCall, state: ConnState)
  datatype InverterCall = Dial | GetInfo | Poll | Hangup

  // ---------------------------------------------------------------- a reference

  /** What the link has been through: failures counts the latest consecutive unsuccessful iterations. */
  datatype Link = Down(failures: nat) | Up | Dead

  datatype World = World(hasStore: bool, flagged: bool, link: Link, rows: Rows)

  datatype Meeting = Unreached | Accepted | Stranger

  /** What an attempt to connect comes to. */
  function Meets(hasStore: bool, rows: Rows, v: Visit): Meeting {
    if !v.dialOk || v.info.None? then Unreached
    else if !hasStore then Accepted
    else if !v.readOk || (rows == map[] && !v.writeOk) then Unreached
    else if rows == map[] || v.info.value.serial in rows then Accepted
    else Stranger
  }

  function Recorded(hasStore: bool, rows: Rows, v: Visit): Rows {
    if Meets(hasStore, rows, v).Accepted? && hasStore && v.writeOk then
      var serial := v.info.value.serial;
      rows[serial := Identity(v.info.value, if serial in rows then rows[serial].firstSeen else v.at, v.at)]
    else rows
  }

  function Polling(v: Visit, failures: nat): Link {
    if v.pollOk then Up else Down(failures + 1)
  }

  function Next(w: World, v: Visit): World {
    match w.link
    case Dead => w
    case Up => w.(link := Polling(v, 0))
    case Down(failures) =>
      var met := Meets(w.hasStore, w.rows, v);
      var link :=
        if met.Unreached? then Down(failures + 1)
        else if met.Stranger? || w.flagged then Dead
        else Polling(v, failures);
      w.(link := link, flagged := w.flagged || met.Stranger?, rows := Recorded(w.hasStore, w.rows, v))
  }

  function After(w: World, visits: seq<Visit>): World {
    if visits == [] then w else Next(After(w, visits[..|visits| - 1]), visits[|visits| - 1])
  }

  /** In this iteration the sensors are read. */
  predicate Polls(w: World, v: Visit) {
    w.link.Up? || (w.link.Down? && Meets(w.hasStore, w.rows, v).Accepted? && !w.flagged)
  }

  function PollCalls(v: Visit): seq<Entry> {
    [Entry(Poll, Connected)] + if v.pollOk then [] else [Entry(Hangup, Connected)]
  }

  function Calls(w: World, v: Visit): seq<Entry> {
    if w.link.Dead? then []
    else if w.link.Up? then PollCalls(v)
    else
      [Entry(Dial, Connecting)] +
      (if v.dialOk then [Entry(GetInfo, Connecting)] else []) +
      (if Polls(w, v) then PollCalls(v)
       else if v.dialOk && Meets(w.hasStore, w.rows, v).Unreached? then [Entry(Hangup, Connecting)]
       else [])
  }

  /** Everything asked of the inverter during a run, after what was asked before. */
  function Log(before: seq<Entry>, w: World, visits: seq<Visit>): seq<Entry> {
    if visits == [] then before
    else
      var fewer := visits[..|visits| - 1];
      Log(before, w, fewer) + Calls(After(w, fewer), visits[|visits| - 1])
  }

  /** A run that is cancelled closes the connection; one that ended in Failed does not. */
  function Goodbye(link: Link, log: seq<Entry>): seq<Entry> {
    match link
    case Dead => log
    case Up => log + [Entry(Hangup, Connected)]
    case Down(_) => log + [Entry(Hangup, Disconnected)]
  }

  function Min(a: nat, b: nat): nat {
    if a <= b then a else b
  }

  /** The wait after the k-th consecutive unsuccessful iteration. */
  function Backoff(k: nat): Seconds
    requires k > 0
  {
    Min(BACKOFF_INITIAL * Pow2(k - 1), BACKOFF_MAX)
  }

  /** Five seconds at first, then twice as long each time but never longer than five minutes. */
  lemma BackoffDoubles(k: nat)
    requires k > 0
    ensures k == 1 ==> Backoff(k) == 5
    ensures Backoff(k + 1) == if 2 * Backoff(k) <= 300 then 2 * Backoff(k) else 300
  {
  }

  // ---------------------------------------------------------------- the daemon

  ghost predicate Keyed(rows: Rows) {
    forall serial :: serial in rows ==> rows[serial].info.serial == serial
  }

  ghost predicate AtMostOne(rows: Rows) {
    forall a, b :: a in rows && b in rows ==> a == b
  }

  class IdentityStore {
    var rows: Rows

    constructor ()
      ensures rows == map[]
    {
      rows := map[];
    }

    /** Any one row, if there is one. */
    method GetInverterIdentity(v: Visit) returns (failed: bool, stored: Option<Identity>)
      requires Keyed(rows)
      ensures failed == !v.readOk
      ensures !failed ==> (stored.None? <==> rows == map[])
      ensures stored.Some? ==> stored.value.info.serial in rows && rows[stored.value.info.serial] == stored.value
    {
      stored := None;
      failed := !v.readOk;
      if v.readOk && rows != map[] {
        var serial :| serial in rows;
        stored := Some(rows[serial]);
      }
    }

    /** Insert, or update the row with this serial all but its firstSeen. */
    method SetInverterIdentity(v: Visit, info: Info) returns (failed: bool)
      modifies this
      ensures failed == !v.writeOk
      ensures failed ==> rows == old(rows)
      ensures !failed ==> rows == old(rows)[info.serial :=
        Identity(info, if info.serial in old(rows) then old(rows)[info.serial].firstSeen else v.at, v.at)]
    {
      failed := !v.writeOk;
      if v.writeOk {
        var firstSeen := if info.serial in rows then rows[info.serial].firstSeen else v.at;
        rows := rows[info.serial := Identity(info, firstSeen, v.at)];
      }
    }
  }

  class Daemon {
    const hasInverter: bool
    const store: IdentityStore?
    const pollInterval: Seconds

    var connState: ConnState
    var connErr: Option<Error>
    var verificationErr: Option<Error>
    var inverterIdentity: Option<Identity>

    ghost var calls: seq<Entry>

    constructor (hasInverter: bool, store: IdentityStore?, pollInterval: Seconds)
      ensures this.hasInverter == hasInverter && this.store == store && this.pollInterval == pollInterval
      ensures connState == (if hasInverter then Disconnected else Disabled)
      ensures connErr.None? && verificationErr.None? && inverterIdentity.None? && calls == []
    {
      this.hasInverter, this.store, this.pollInterval := hasInverter, store, pollInterval;
      connState := if hasInverter then Disconnected else Disabled;
      connErr, verificationErr, inverterIdentity, calls := None, None, None, [];
    }

    ghost function Footprint(): set<object> {
      if store == null then {} else {store}
    }

    ghost function Table(): Rows
      reads Footprint()
    {
      if store == null then map[] else store.rows
    }

    ghost predicate Valid()
      reads Footprint()
    {
      Keyed(Table()) && AtMostOne(Table())
    }

    /** The world the daemon is in, with the given link. */
    ghost function Around(link: Link): World
      reads this, Footprint()
    {
      World(store != null, verificationErr.Some?, link, Table())
    }

    ghost predicate Shows(link: Link)
      reads this
    {
      && connState == (match link case Down(_) => Disconnected case Up => Connected case Dead => Failed)
      && (connErr.None? <==> link.Up? || link == Down(0))
      && (link.Dead? ==> verificationErr.Some?)
      && (link.Up? ==> verificationErr.None?)
    }

    method SetState(state: ConnState, err: Option<Error>)
      modifies this`connState, this`connErr
      ensures connState == state && connErr == err
    {
      connState, connErr := state, err;
    }

    method CloseConnection()
      modifies this`calls
      ensures calls == old(calls) + [Entry(Hangup, connState)]
    {
      calls := calls + [Entry(Hangup, connState)];
    }

    /** Succeeds also when the serial is not the stored one, leaving a verification error. */
    method VerifyIdentity(v: Visit) returns (err: Option<Error>)
      requires Valid() && v.dialOk
      modifies this`verificationErr, this`inverterIdentity, this`calls, Footprint()
      ensures Valid()
      ensures calls == old(calls) + [Entry(GetInfo, connState)]
      ensures Table() == Recorded(store != null, old(Table()), v)
      ensures err.Some? <==> Meets(store != null, old(Table()), v).Unreached?
      ensures Meets(store != null, old(Table()), v).Stranger? ==>
        && inverterIdentity.Some?
        && verificationErr == Some(SerialMismatch(inverterIdentity.value.info.serial, v.info.value.serial))
        && inverterIdentity.value.info.serial in Table()
      ensures !Meets(store != null, old(Table()), v).Stranger? ==> verificationErr == old(verificationErr)
    {
      calls := calls + [Entry(GetInfo, connState)];
      if v.info.None? {
        return Some(NoInfo);
      }
      var info := v.info.value;
      if store == null {
        return None;
      }
      var failed, stored := store.GetInverterIdentity(v);
      if failed {
        return Some(NotRead);
      }
      if stored.None? {
        failed := store.SetInverterIdentity(v, info);
        if failed {
          return Some(NotWritten);
        }
        inverterIdentity := Some(Identity(info, ZERO_TIME, ZERO_TIME));
        return None;
      }
      inverterIdentity := stored;
      if stored.value.info.serial != info.serial {
        verificationErr := Some(SerialMismatch(stored.value.info.serial, info.serial));
        return None;
      }
      failed := store.SetInverterIdentity(v, info);
      return None;
    }

    method DoConnect(v: Visit)
      requires Valid()
      modifies this, Footprint()
      ensures Valid()
      ensures Table() == Recorded(store != null, old(Table()), v)
      ensures var met := Meets(store != null, old(Table()), v);
        && verificationErr.Some? == (old(verificationErr.Some?) || met.Stranger?)
        && connState == (if met.Unreached? then Disconnected else if verificationErr.Some? then Failed else Connected)
        && (connErr.None? <==> connState == Connected)
        && calls == old(calls) + [Entry(Dial, Connecting)] +
          (if v.dialOk then [Entry(GetInfo, Connecting)] else []) +
          (if v.dialOk && met.Unreached? then [Entry(Hangup, Connecting)] else [])
    {
      SetState(Connecting, None);
      calls := calls + [Entry(Dial, connState)];
      if !v.dialOk {
        SetState(Disconnected, Some(DialFailed));
        return;
      }
      var err := VerifyIdentity(v);
      if err.Some? {
        CloseConnection();
        SetState(Disconnected, err);
        return;
      }
      if verificationErr.Some? {
        SetState(Failed, verificationErr);
        return;
      }
      SetState(Connected, None);
    }

    /** The storing of samples and the voltage analysis, whose errors are only logged, are not part of this. */
    method DoPoll(v: Visit)
      requires connState == Connected && connErr.None?
      modifies this`connState, this`connErr, this`calls
      ensures calls == old(calls) + PollCalls(v)
      ensures connState == (if v.pollOk then Connected else Disconnected)
      ensures connErr.None? <==> v.pollOk
    {
      calls := calls + [Entry(Poll, connState)];
      if !v.pollOk {
        CloseConnection();
        SetState(Disconnected, Some(PollFailed));
      }
    }

    /** One firing of the timer, up to the choice of the next wait. */
    method Iterate(v: Visit, ghost link: Link)
      requires Valid() && Shows(link) && !link.Dead?
      modifies this, Footprint()
      ensures Valid()
      ensures Around(Next(old(Around(link)), v).link) == Next(old(Around(link)), v)
      ensures Shows(Next(old(Around(link)), v).link)
      ensures calls == old(calls) + Calls(old(Around(link)), v)
    {
      ghost var w := Around(link);
      if connState == Disconnected {
        DoConnect(v);
        if connState == Connected {
          DoPoll(v);
        }
      } else if connState == Connected {
        DoPoll(v);
      }
      assert Table() == Next(w, v).rows;
    }

    /** The daemon's connection loop, until it is cancelled when the visits are over. Returns the waits it scheduled. */
    method Run(visits: seq<Visit>) returns (waits: seq<Seconds>)
      requires Valid()
      modifies this, Footprint()
      ensures Valid()
      ensures !hasInverter || pollInterval == 0 ==>
        && connState == (if hasInverter then Disconnected else Disabled)
        && calls == old(calls) && Table() == old(Table()) && waits == []
      ensures hasInverter && pollInterval > 0 ==> Ran(old(Around(Down(0))), visits, old(calls), waits)
    {
      if !hasInverter {
        SetState(Disabled, None);
        return [];
      }
      if pollInterval == 0 {
        SetState(Disconnected, None);
        return [];
      }
      SetState(Disconnected, None);
      waits := PollLoop(visits);
    }

    /** What a run leaves behind: the state, the waits it scheduled and the calls it made. */
    ghost predicate Ran(w0: World, visits: seq<Visit>, before: seq<Entry>, waits: seq<Seconds>)
      reads this, Footprint()
    {
      var end := After(w0, visits);
      && Around(end.link) == end
      && Shows(end.link)
      && WaitsRight(w0, visits, pollInterval, waits)
      && calls == Goodbye(end.link, Log(before, w0, visits))
    }

    method PollLoop(visits: seq<Visit>) returns (waits: seq<Seconds>)
      requires Valid() && Shows(Down(0))
      modifies this, Footprint()
      ensures Valid()
      ensures Ran(old(Around(Down(0))), visits, old(calls), waits)
    {
      waits := [];
      var backoff := BACKOFF_INITIAL;
      ghost var before, w0 := calls, Around(Down(0));
      ghost var w := w0;
      for i := 0 to |visits|
        invariant Valid() && Shows(w.link) && !w.link.Dead? && w == Around(w.link)
        invariant BackoffRight(w.link, backoff)
        invariant Traces(w0, visits, pollInterval, before, i, w, calls, waits) && |waits| == i
      {
        var next;
        OneMore(w0, visits, pollInterval, before, i, w, calls, waits);
        next, backoff := Turn(visits[i], backoff, w.link);
        w := Next(w, visits[i]);
        if next.None? {
          DeadStays(w0, visits, pollInterval, before, i + 1, w, calls, waits);
          return;
        }
        waits := waits + [next.value];
      }
      TraceDone(w0, visits, pollInterval, before, w, calls, waits);
      CloseConnection();
    }

    /** One firing of the timer; None is no next one, the inverter being a stranger. */
    method Turn(v: Visit, backoff: Seconds, ghost link: Link) returns (next: Option<Seconds>, backoff': Seconds)
      requires Valid() && Shows(link) && !link.Dead? && BackoffRight(link, backoff)
      modifies this, Footprint()
      ensures Valid()
      ensures var w := Next(old(Around(link)), v);
        && Around(w.link) == w && Shows(w.link)
        && (next.None? <==> w.link.Dead?)
        && (next.Some? ==> WaitRight(w.link, pollInterval, next.value) && BackoffRight(w.link, backoff'))
      ensures calls == old(calls) + Calls(old(Around(link)), v)
    {
      ghost var w := Next(Around(link), v);
      Iterate(v, link);
      backoff' := backoff;
      if connState == Connected {
        next, backoff' := Some(pollInterval), BACKOFF_INITIAL;
      } else if connState == Disconnected {
        BackoffDoubles(w.link.failures);
        next, backoff' := Some(backoff), backoff * 2;
        if backoff' > BACKOFF_MAX {
          backoff' := BACKOFF_MAX;
        }
      } else {
        next := None;
      }
    }
  }

  /** The backoff kept for the next unsuccessful iteration. */
  predicate BackoffRight(link: Link, backoff: Seconds) {
    backoff == if link.Down? then Backoff(link.failures + 1) else BACKOFF_INITIAL
  }

  /** The waits scheduled during a run: one after each iteration that did not end in Failed, of the poll interval after
      a successful one, and of a growing backoff after unsuccessful ones. */
  ghost predicate WaitsRight(w: World, visits: seq<Visit>, pollInterval: Seconds, waits: seq<Seconds>) {
    && |waits| <= |visits|
    && (forall i :: 0 <= i < |waits| ==> WaitRight(After(w, visits[..i + 1]).link, pollInterval, waits[i]))
    && (|waits| < |visits| ==> After(w, visits[..|waits| + 1]).link.Dead?)
  }

  predicate WaitRight(link: Link, pollInterval: Seconds, wait: Seconds) {
    match link
    case Up => wait == pollInterval
    case Down(k) => k > 0 && wait == Backoff(k)
    case Dead => false
  }

  /** Where a run is after n iterations. */
  ghost predicate Traces(
    w0: World, visits: seq<Visit>, pollInterval: Seconds, before: seq<Entry>, n: nat, w: World, log: seq<Entry>,
    waits: seq<Seconds>)
  {
    && n <= |visits|
    && w == After(w0, visits[..n])
    && log == Log(before, w0, visits[..n])
    && WaitsRight(w0, visits[..n], pollInterval, waits)
  }

  lemma OneMore(
    w0: World, visits: seq<Visit>, pollInterval: Seconds, before: seq<Entry>, n: nat, w: World, log: seq<Entry>,
    waits: seq<Seconds>)
    requires Traces(w0, visits, pollInterval, before, n, w, log, waits) && |waits| == n < |visits|
    ensures var w', log' := Next(w, visits[n]), log + Calls(w, visits[n]);
      && (w'.link.Dead? ==> Traces(w0, visits, pollInterval, before, n + 1, w', log', waits))
      && forall wait :: WaitRight(w'.link, pollInterval, wait) ==>
        Traces(w0, visits, pollInterval, before, n + 1, w', log', waits + [wait])
  {
    var fewer, more := visits[..n], visits[..n + 1];
    assert more[..n] == fewer;
    assert more[..n + 1] == more;
    forall j | 0 <= j < n
      ensures WaitRight(After(w0, more[..j + 1]).link, pollInterval, waits[j])
    {
      assert fewer[..j + 1] == more[..j + 1];
    }
  }

  lemma TraceDone(
    w0: World, visits: seq<Visit>, pollInterval: Seconds, before: seq<Entry>, w: World, log: seq<Entry>,
    waits: seq<Seconds>)
    requires Traces(w0, visits, pollInterval, before, |visits|, w, log, waits)
    ensures w == After(w0, visits) && log == Log(before, w0, visits) && WaitsRight(w0, visits, pollInterval, waits)
  {
    assert visits[..|visits|] == visits;
  }

  // ---------------------------------------------------------------- Failed is absorbing

  /** Once Failed, a run asks nothing more of the inverter, schedules nothing and changes nothing. */
  lemma DeadStays(
    w0: World, visits: seq<Visit>, pollInterval: Seconds, before: seq<Entry>, n: nat, w: World, log: seq<Entry>,
    waits: seq<Seconds>)
    requires Traces(w0, visits, pollInterval, before, n, w, log, waits) && w.link.Dead?
    ensures w == After(w0, visits) && log == Log(before, w0, visits)
    ensures |waits| < n ==> WaitsRight(w0, visits, pollInterval, waits)
  {
    FailedAbsorbs(before, w0, visits, n);
    var done := visits[..n];
    forall i | 0 <= i < |waits| ensures WaitRight(After(w0, visits[..i + 1]).link, pollInterval, waits[i]) {
      assert done[..i + 1] == visits[..i + 1];
    }
    if |waits| < n {
      assert done[..|waits| + 1] == visits[..|waits| + 1];
    }
  }

  lemma {:induction false} FailedAbsorbs(before: seq<Entry>, w: World, visits: seq<Visit>, n: nat)
    requires n <= |visits| && After(w, visits[..n]).link.Dead?
    ensures After(w, visits) == After(w, visits[..n])
    ensures Log(before, w, visits) == Log(before, w, visits[..n])
    decreases visits
  {
    if n == |visits| {
      assert visits[..n] == visits;
    } else {
      var fewer := visits[..|visits| - 1];
      assert fewer[..n] == visits[..n];
      FailedAbsorbs(before, w, fewer, n);
    }
  }

  // ---------------------------------------------------------------- what a run comes to

  /** An attempt to connect finds an inverter that answers, and with a database that can be read either the stored
      serial or none, which must then be written; and no other inverter was met before. */
  ghost predicate Welcome(w: World, v: Visit) {
    && w.link.Down? && !w.flagged
    && v.dialOk && v.info.Some?
    && (w.hasStore ==> v.readOk && if w.rows == map[] then v.writeOk else v.info.value.serial in w.rows)
  }

  /** The link was made in iteration k and every poll since then has worked. */
  ghost predicate Session(w: World, visits: seq<Visit>, k: nat) {
    && k < |visits|
    && Welcome(After(w, visits[..k]), visits[k])
    && forall j :: k <= j < |visits| ==> visits[j].pollOk
  }

  /** A run that started disconnected is connected after an iteration if and only if some attempt to connect met the
      right inverter and no poll has failed since. */
  lemma {:induction false} ConnectedIff(w: World, visits: seq<Visit>)
    requires w.link.Down?
    ensures After(w, visits).link.Up? <==> exists k :: Session(w, visits, k)
    decreases visits
  {
    if visits != [] {
      var n := |visits| - 1;
      var fewer, last := visits[..n], visits[n];
      assert forall k :: 0 <= k <= n ==> fewer[..k] == visits[..k];
      ConnectedIff(w, fewer);
      if k: nat :| Session(w, visits, k) && k < n {
        assert Session(w, fewer, k);
      }
      if After(w, visits).link.Up? {
        if After(w, fewer).link.Up? {
          var k: nat :| Session(w, fewer, k);
          assert Session(w, visits, k);
        } else {
          assert Session(w, visits, n);
        }
      }
    }
  }

  // ---------------------------------------------------------------- hanging up

  /** The connection to the inverter as its calls make it: asked for, held, or left over by a wrong call. */
  datatype Hold = Closed | Asked | Held | Misused

  /** A dial is answered when GetInfo follows it. Only a held connection is polled, and none is dialled while held. */
  function AfterCall(hold: Hold, call: InverterCall): Hold {
    match call
    case Dial => if hold.Held? || hold.Misused? then Misused else Asked
    case GetInfo => if hold.Asked? then Held else Misused
    case Poll => if hold.Held? then Held else Misused
    case Hangup => if hold.Misused? then Misused else Closed
  }

  function Holds(hold: Hold, log: seq<Entry>): Hold
    decreases log
  {
    if log == [] then hold else Holds(AfterCall(hold, log[0].call), log[1..])
  }

  lemma {:induction false} HoldsAppend(hold: Hold, a: seq<Entry>, b: seq<Entry>)
    ensures Holds(hold, a + b) == Holds(Holds(hold, a), b)
    decreases a
  {
    if a == [] {
      assert a + b == b;
    } else {
      assert (a + b)[1..] == a[1..] + b;
      HoldsAppend(AfterCall(hold, a[0].call), a[1..], b);
    }
  }

  /** Connected or Failed, the connection is held; otherwise it is not. */
  predicate HoldFits(link: Link, hold: Hold) {
    if link.Down? then hold.Closed? || hold.Asked? else hold.Held?
  }

  lemma PollingFits(hold: Hold, v: Visit, failures: nat)
    requires hold.Held?
    ensures HoldFits(Polling(v, failures), Holds(hold, PollCalls(v)))
  {
    HoldsAppend(hold, [Entry(Poll, Connected)], if v.pollOk then [] else [Entry(Hangup, Connected)]);
  }

  lemma CallsFit(hold: Hold, w: World, v: Visit)
    requires HoldFits(w.link, hold)
    ensures HoldFits(Next(w, v).link, Holds(hold, Calls(w, v)))
  {
    if w.link.Up? {
      PollingFits(hold, v, 0);
    } else if w.link.Down? {
      var dial := [Entry(Dial, Connecting)];
      var ask := if v.dialOk then [Entry(GetInfo, Connecting)] else [];
      var rest := if Polls(w, v) then PollCalls(v)
        else if v.dialOk && Meets(w.hasStore, w.rows, v).Unreached? then [Entry(Hangup, Connecting)] else [];
      HoldsAppend(hold, dial, ask);
      HoldsAppend(hold, dial + ask, rest);
      if Polls(w, v) {
        PollingFits(Held, v, w.link.failures);
      }
    }
  }

  /** Over a whole run the inverter is dialled only when no connection is held and polled only when one is; every
      connection that is given up is hung up, and a cancelled run hangs up the last one unless it has Failed. */
  lemma {:induction false} NothingLeftOpen(w: World, visits: seq<Visit>)
    requires w.link.Down?
    ensures HoldFits(After(w, visits).link, Holds(Closed, Log([], w, visits)))
    ensures Holds(Closed, Goodbye(After(w, visits).link, Log([], w, visits))) ==
      if After(w, visits).link.Dead? then Held else Closed
    decreases visits
  {
    if visits != [] {
      var fewer, last := visits[..|visits| - 1], visits[|visits| - 1];
      NothingLeftOpen(w, fewer);
      HoldsAppend(Closed, Log([], w, fewer), Calls(After(w, fewer), last));
      CallsFit(Holds(Closed, Log([], w, fewer)), After(w, fewer), last);
    }
    HoldsAppend(Closed, Log([], w, visits), [Entry(Hangup, Connected)]);
    HoldsAppend(Closed, Log([], w, visits), [Entry(Hangup, Disconnected)]);
  }

  /** The last k iterations did not end connected, and the one before, if there was one, did. */
  ghost predicate Streak(w: World, visits: seq<Visit>, k: nat) {
    && k <= |visits|
    && (forall j :: |visits| - k < j <= |visits| ==> !After(w, visits[..j]).link.Up?)
    && (k < |visits| ==> After(w, visits[..|visits| - k]).link.Up?)
  }

  /** With k failures counted, the last k iterations of the run did not end connected, and the one before, if there was
      one, did: with WaitsRight, the k-th unsuccessful iteration in a row waits min(5 * 2^(k-1), 300) seconds. */
  lemma {:induction false} FailuresCounted(w: World, visits: seq<Visit>)
    requires w.link == Down(0) && After(w, visits).link.Down?
    ensures Streak(w, visits, After(w, visits).link.failures)
    decreases visits
  {
    if visits != [] {
      var fewer := visits[..|visits| - 1];
      var link := After(w, fewer).link;
      assert visits[..|visits|] == visits;
      if link.Down? {
        FailuresCounted(w, fewer);
        LongerStreak(w, fewer, visits, link.failures);
      }
    }
  }

  lemma LongerStreak(w: World, fewer: seq<Visit>, visits: seq<Visit>, k: nat)
    requires visits != [] && fewer == visits[..|visits| - 1] && Streak(w, fewer, k) && !After(w, visits).link.Up?
    ensures Streak(w, visits, k + 1)
  {
    assert visits[..|visits|] == visits;
    assert forall j :: 0 <= j < |visits| ==> fewer[..j] == visits[..j];
  }

  /** With a verification error from before, a run never polls. */
  lemma {:induction false} FlaggedNeverPolls(w: World, visits: seq<Visit>, v: Visit)
    requires w.flagged && !w.link.Up?
    ensures After(w, visits).flagged && !Polls(After(w, visits), v)
    decreases visits
  {
    if visits != [] {
      FlaggedNeverPolls(w, visits[..|visits| - 1], visits[|visits| - 1]);
    }
  }

  // ---------------------------------------------------------------- pinning

  lemma {:induction false} AtMostOneRow(w: World, visits: seq<Visit>)
    requires AtMostOne(w.rows)
    ensures AtMostOne(After(w, visits).rows)
    decreases visits
  {
    if visits != [] {
      AtMostOneRow(w, visits[..|visits| - 1]);
    }
  }

  /** A row that is there after m iterations is, with its firstSeen, the only one from then on. */
  lemma {:induction false} RowStays(w: World, visits: seq<Visit>, m: nat, serial: string)
    requires m <= |visits| && AtMostOne(w.rows) && serial in After(w, visits[..m]).rows
    ensures var rows := After(w, visits).rows;
      rows.Keys == {serial} && rows[serial].firstSeen == After(w, visits[..m]).rows[serial].firstSeen
    decreases visits
  {
    AtMostOneRow(w, visits);
    if m == |visits| {
      assert visits[..m] == visits;
    } else {
      var fewer := visits[..|visits| - 1];
      assert fewer[..m] == visits[..m];
      RowStays(w, fewer, m, serial);
    }
  }

  /** The daemon tried to connect, the inverter answered with the stored serial or the first one, and the database
      could be read and written. */
  ghost predicate Refreshes(w: World, v: Visit) {
    && w.hasStore && w.link.Down?
    && v.dialOk && v.info.Some? && v.readOk && v.writeOk
    && (w.rows == map[] || v.info.value.serial in w.rows)
  }

  /** No iteration from m on is one in which the identity is refreshed. */
  ghost predicate NoneFrom(w: World, visits: seq<Visit>, m: nat) {
    forall j :: m <= j < |visits| ==> !Refreshes(After(w, visits[..j]), visits[j])
  }

  /** The table changes in those iterations only. */
  lemma {:induction false} NoRefreshNoChange(w: World, visits: seq<Visit>, m: nat)
    requires m <= |visits| && NoneFrom(w, visits, m)
    ensures After(w, visits).rows == After(w, visits[..m]).rows
    decreases visits
  {
    if m == |visits| {
      assert visits[..m] == visits;
    } else {
      var fewer := visits[..|visits| - 1];
      assert forall j :: 0 <= j <= |fewer| ==> fewer[..j] == visits[..j];
      NoRefreshNoChange(w, fewer, m);
    }
  }

  /** After a run the only row is what the inverter answered when it was last met: its details and the time are those of
      the latest iteration that connected to it with the database working. */
  lemma LatestRefresh(w: World, visits: seq<Visit>, k: nat)
    requires AtMostOne(w.rows)
    requires k < |visits| && Refreshes(After(w, visits[..k]), visits[k]) && NoneFrom(w, visits, k + 1)
    ensures var rows, serial := After(w, visits).rows, visits[k].info.value.serial;
      rows.Keys == {serial} && rows[serial].info == visits[k].info.value && rows[serial].lastSeen == visits[k].at
  {
    NoRefreshNoChange(w, visits, k + 1);
    assert visits[..k + 1][..k] == visits[..k];
    AtMostOneRow(w, visits[..k]);
  }

  /** On an empty database firstSeen is the time of the first such iteration. */
  lemma FirstSeenIsFirst(w: World, visits: seq<Visit>, k: nat)
    requires w.rows == map[]
    requires k < |visits| && Refreshes(After(w, visits[..k]), visits[k]) && NoneFrom(w, visits[..k], 0)
    ensures var rows, serial := After(w, visits).rows, visits[k].info.value.serial;
      rows.Keys == {serial} && rows[serial].firstSeen == visits[k].at
  {
    NoRefreshNoChange(w, visits[..k], 0);
    assert visits[..k][..0] == [];
    assert visits[..k + 1][..k] == visits[..k];
    RowStays(w, visits, k + 1, visits[k].info.value.serial);
  }

  /** An inverter with another serial than the stored one leaves the table as it is and the daemon in Failed. */
  lemma StrangerRejected(w: World, v: Visit)
    requires w.link.Down? && w.hasStore && AtMostOne(w.rows)
    requires v.dialOk && v.info.Some? && v.readOk
    requires w.rows != map[] && v.info.value.serial !in w.rows
    ensures Next(w, v).link.Dead? && Next(w, v).rows == w.rows && Next(w, v).flagged
  {
  }

  /** With a database, every poll reads the inverter whose serial is in the table for good: the one that the latest
      attempt to connect reported. */
  lemma {:induction false} PollsReadThePinnedInverter(w: World, visits: seq<Visit>, i: nat) returns (k: nat)
    requires w.link == Down(0) && w.hasStore && AtMostOne(w.rows)
    requires i < |visits| && Polls(After(w, visits[..i]), visits[i])
    ensures k <= i && After(w, visits[..k]).link.Down?
    ensures forall j :: k < j <= i ==> After(w, visits[..j]).link.Up?
    ensures visits[k].dialOk && visits[k].info.Some?
    ensures After(w, visits).rows.Keys == {visits[k].info.value.serial}
    decreases i
  {
    if After(w, visits[..i]).link.Down? {
      k := i;
      assert visits[..i + 1][..i] == visits[..i];
      AtMostOneRow(w, visits[..i]);
      KeepsStore(w, visits[..i]);
      RowStays(w, visits, i + 1, visits[i].info.value.serial);
    } else {
      assert visits[..i][..i - 1] == visits[..i - 1];
      k := PollsReadThePinnedInverter(w, visits, i - 1);
    }
  }

  lemma {:induction false} KeepsStore(w: World, visits: seq<Visit>)
    ensures After(w, visits).hasStore == w.hasStore
    decreases visits
  {
    if visits != [] {
      KeepsStore(w, visits[..|visits| - 1]);
    }
  }

  /** The table after any number of daemons, one after the other, on one database. */
  function AfterAll(rows: Rows, runs: seq<seq<Visit>>): Rows
    decreases runs
  {
    if runs == [] then rows
    else AfterAll(After(World(true, false, Down(0), rows), runs[0]).rows, runs[1..])
  }

  /** The table of a database that starts empty never holds more than one row. */
  lemma {:induction false} OneIdentity(rows: Rows, runs: seq<seq<Visit>>)
    requires AtMostOne(rows)
    ensures |AfterAll(rows, runs)| <= 1
    decreases runs
  {
    if runs == [] {
      if rows != map[] {
        var serial :| serial in rows;
        assert rows.Keys == {serial};
        assert |rows| == |rows.Keys|;
      }
    } else {
      AtMostOneRow(World(true, false, Down(0), rows), runs[0]);
      OneIdentity(After(World(true, false, Down(0), rows), runs[0]).rows, runs[1..]);
    }
  }

  /** A stored serial and its firstSeen are there for ever. */
  lemma {:induction false} IdentityIsForEver(rows: Rows, runs: seq<seq<Visit>>, serial: string)
    requires AtMostOne(rows) && serial in rows
    ensures AfterAll(rows, runs).Keys == {serial} && AfterAll(rows, runs)[serial].firstSeen == rows[serial].firstSeen
    decreases runs
  {
    if runs == [] {
      assert rows.Keys == {serial};
    } else {
      var w := World(true, false, Down(0), rows);
      assert runs[0][..0] == [];
      RowStays(w, runs[0], 0, serial);
      AtMostOneRow(w, runs[0]);
      IdentityIsForEver(After(w, runs[0]).rows, runs[1..], serial);
    }
  }
}
