/**
 The connection count, the idle timer and the shutdown guard of the daemon's main loop.
 */
module Supervisor {

  /** Live-connection count of the main loop. */
  class Clients {
    var active: nat

    constructor ()
      ensures active == 0
    {
      active := 0;
    }

    method Connected()
      modifies this
      ensures active == old(active) + 1
    {
      active := active + 1;
    }

    /** Needs a counted connection: `CountNeverUnderflows` shows the loop always has one. */
    method Disconnected() returns (idle: bool)
      requires active > 0
      modifies this
      ensures active == old(active) - 1 && idle == (active == 0)
    {
      active := active - 1;
      idle := active == 0;
    }
  }

  type Conn = nat

  datatype Message = Connected(conn: Conn) | Disconnected(conn: Conn)

  /** A connection task: spawned by the accept branch, turned away without being counted, or past its
      handshake with its guard held or dropped. */
  datatype Task = Spawned | TurnedAway | Open | Closed

  /**
   `mailbox` is the event channel; `armed` is the guard of the timer branch, evaluated once when the
   loop enters `select!`; `counted` names the connections behind `active`.
   */
  datatype State = State(
    tasks: map<Conn, Task>,
    mailbox: seq<Message>,
    active: int,
    counted: set<Conn>,
    now: nat,
    deadline: nat,
    armed: bool,
    drainedAtGuard: bool,
    stopped: bool)

  /** `drained` is what `is_drained` answers when the loop evaluates the guard again. */
  datatype Event =
    | Tick(dt: nat)
    | Accepted(conn: Conn, drained: bool)
    | AcceptFailed(drained: bool)
    | Handshake(conn: Conn)
    | TurnAway(conn: Conn)
    | Drop(conn: Conn)
    | Receive(drained: bool)
    | IdleExit
    | Terminate

  predicate Enabled(s: State, e: Event) {
    match e
    case Tick(_) => true
    case Accepted(conn, _) => !s.stopped && conn !in s.tasks
    case AcceptFailed(_) => !s.stopped
    case Handshake(conn) => conn in s.tasks && s.tasks[conn].Spawned?
    case TurnAway(conn) => conn in s.tasks && s.tasks[conn].Spawned?
    case Drop(conn) => conn in s.tasks && s.tasks[conn].Open?
    case Receive(_) => !s.stopped && s.mailbox != []
    case IdleExit => !s.stopped && s.armed && s.now >= s.deadline
    case Terminate => !s.stopped
  }

  /** Entering `select!` evaluates `is_idle() && is_drained()`. */
  function Reenter(s: State, drained: bool): State {
    s.(armed := s.active == 0 && drained, drainedAtGuard := drained)
  }

  function Process(idle: nat, s: State, m: Message): State {
    match m
    case Connected(conn) => s.(active := s.active + 1, counted := s.counted + {conn})
    case Disconnected(conn) =>
      s.(active := s.active - 1, counted := s.counted - {conn},
         deadline := if s.active - 1 == 0 then s.now + idle else s.deadline)
  }

  function Apply(idle: nat, s: State, e: Event): State
    requires Enabled(s, e)
  {
    match e
    case Tick(dt) => s.(now := s.now + dt)
    case Handshake(conn) => s.(tasks := s.tasks[conn := Open], mailbox := s.mailbox + [Connected(conn)])
    case Drop(conn) => s.(tasks := s.tasks[conn := Closed], mailbox := s.mailbox + [Disconnected(conn)])
    case Accepted(conn, drained) => Reenter(s.(tasks := s.tasks[conn := Spawned]), drained)
    case AcceptFailed(drained) => Reenter(s, drained)
    case TurnAway(conn) => s.(tasks := s.tasks[conn := TurnedAway])
    case Receive(drained) => Reenter(Process(idle, s.(mailbox := s.mailbox[1..]), s.mailbox[0]), drained)
    case IdleExit => s.(stopped := true)
    case Terminate => s.(stopped := true)
  }

  ghost predicate Init(idle: nat, s: State) {
    && s.tasks == map[] && s.mailbox == [] && s.active == 0 && s.counted == {}
    && s.deadline == s.now + idle && s.armed == s.drainedAtGuard && !s.stopped
  }

  ghost predicate StepAt(idle: nat, states: seq<State>, events: seq<Event>, i: nat) {
    && i < |events| && i + 1 < |states|
    && Enabled(states[i], events[i]) && states[i + 1] == Apply(idle, states[i], events[i])
  }

  ghost predicate IsRun(idle: nat, states: seq<State>, events: seq<Event>) {
    && |states| == |events| + 1 && Init(idle, states[0])
    && forall i | 0 <= i < |events| :: StepAt(idle, states, events, i)
  }

  // ------------------------------------------------------------------ the count

  /** Each message is sent once, by a connection in the matching state. */
  ghost predicate SentOnce(tasks: map<Conn, Task>, mailbox: seq<Message>, counted: set<Conn>) {
    && (forall i, j | 0 <= i < j < |mailbox| :: mailbox[i] != mailbox[j])
    && (forall m | m in mailbox :: m.conn in tasks && (tasks[m.conn].Open? || tasks[m.conn].Closed?))
    && (forall m | m in mailbox && m.Connected? :: m.conn !in counted)
    && (forall m | m in mailbox && m.Disconnected? :: tasks[m.conn].Closed?)
    && (forall conn | conn in counted :: conn in tasks && (tasks[conn].Open? || tasks[conn].Closed?))
    && (forall conn | conn in tasks && tasks[conn].Open? :: conn in counted || Connected(conn) in mailbox)
    && (forall conn | conn in tasks && tasks[conn].Closed? && Connected(conn) in mailbox :: Disconnected(conn) in mailbox)
  }

  /** A disconnect in the channel follows its connect, which was processed or is still ahead of it. */
  ghost predicate Ordered(mailbox: seq<Message>, counted: set<Conn>) {
    forall i | 0 <= i < |mailbox| && mailbox[i].Disconnected? ::
      mailbox[i].conn in counted || Connected(mailbox[i].conn) in mailbox[..i]
  }

  ghost predicate Paired(s: State) {
    s.active == |s.counted| && SentOnce(s.tasks, s.mailbox, s.counted) && Ordered(s.mailbox, s.counted)
  }

  function CountedAfter(counted: set<Conn>, m: Message): set<Conn> {
    if m.Connected? then counted + {m.conn} else counted - {m.conn}
  }

  lemma OrderedTail(mailbox: seq<Message>, counted: set<Conn>)
    requires mailbox != [] && Ordered(mailbox, counted)
    requires forall i, j | 0 <= i < j < |mailbox| :: mailbox[i] != mailbox[j]
    ensures mailbox[0].Disconnected? ==> mailbox[0].conn in counted
    ensures Ordered(mailbox[1..], CountedAfter(counted, mailbox[0]))
  {
  }

  /** Taking the head off a channel without repetitions. */
  lemma HeadAndRest(mailbox: seq<Message>)
    requires mailbox != [] && forall i, j | 0 <= i < j < |mailbox| :: mailbox[i] != mailbox[j]
    ensures mailbox[0] in mailbox && mailbox[0] !in mailbox[1..]
    ensures forall m :: m in mailbox <==> m == mailbox[0] || m in mailbox[1..]
    ensures forall i, j | 0 <= i < j < |mailbox[1..]| :: mailbox[1..][i] != mailbox[1..][j]
  {
    assert mailbox == [mailbox[0]] + mailbox[1..];
  }

  lemma ConnectedTail(tasks: map<Conn, Task>, mailbox: seq<Message>, counted: set<Conn>)
    requires mailbox != [] && mailbox[0].Connected? && SentOnce(tasks, mailbox, counted)
    ensures SentOnce(tasks, mailbox[1..], counted + {mailbox[0].conn})
  {
    HeadAndRest(mailbox);
  }

  lemma DisconnectedTail(tasks: map<Conn, Task>, mailbox: seq<Message>, counted: set<Conn>)
    requires mailbox != [] && mailbox[0].Disconnected? && mailbox[0].conn in counted && SentOnce(tasks, mailbox, counted)
    ensures SentOnce(tasks, mailbox[1..], counted - {mailbox[0].conn})
  {
    HeadAndRest(mailbox);
  }

  lemma SentOnceTail(tasks: map<Conn, Task>, mailbox: seq<Message>, counted: set<Conn>)
    requires mailbox != [] && SentOnce(tasks, mailbox, counted) && Ordered(mailbox, counted)
    ensures SentOnce(tasks, mailbox[1..], CountedAfter(counted, mailbox[0]))
  {
    if mailbox[0].Connected? {
      ConnectedTail(tasks, mailbox, counted);
    } else {
      DisconnectedTail(tasks, mailbox, counted);
    }
  }

  lemma CountedSize(tasks: map<Conn, Task>, mailbox: seq<Message>, counted: set<Conn>)
    requires mailbox != [] && SentOnce(tasks, mailbox, counted) && Ordered(mailbox, counted)
    ensures |CountedAfter(counted, mailbox[0])| == if mailbox[0].Connected? then |counted| + 1 else |counted| - 1
    ensures mailbox[0].Disconnected? ==> mailbox[0].conn in counted
  {
    assert mailbox[0] in mailbox;
  }

  lemma PairedReceive(idle: nat, s: State, drained: bool)
    requires Paired(s) && Enabled(s, Receive(drained))
    ensures s.mailbox[0].Disconnected? ==> s.mailbox[0].conn in s.counted
    ensures Paired(Apply(idle, s, Receive(drained)))
  {
    OrderedTail(s.mailbox, s.counted);
    SentOnceTail(s.tasks, s.mailbox, s.counted);
    CountedSize(s.tasks, s.mailbox, s.counted);
  }

  lemma OrderedMore(mailbox: seq<Message>, counted: set<Conn>, m: Message)
    requires Ordered(mailbox, counted)
    requires m.Disconnected? ==> m.conn in counted || Connected(m.conn) in mailbox
    ensures Ordered(mailbox + [m], counted)
  {
    var more := mailbox + [m];
    assert more[..|mailbox|] == mailbox;
    forall i | 0 <= i < |mailbox| && mailbox[i].Disconnected?
      ensures mailbox[i].conn in counted || Connected(mailbox[i].conn) in more[..i]
    {
      assert more[..i] == mailbox[..i];
    }
  }

  lemma SentOnceMore(tasks: map<Conn, Task>, mailbox: seq<Message>, counted: set<Conn>, m: Message)
    requires SentOnce(tasks, mailbox, counted) && m.conn in tasks
    requires tasks[m.conn] == if m.Connected? then Spawned else Open
    ensures SentOnce(tasks[m.conn := if m.Connected? then Open else Closed], mailbox + [m], counted)
  {
  }

  lemma PairedSend(idle: nat, s: State, e: Event)
    requires Paired(s) && Enabled(s, e) && (e.Handshake? || e.Drop?)
    ensures Paired(Apply(idle, s, e))
  {
    var m := if e.Handshake? then Message.Connected(e.conn) else Message.Disconnected(e.conn);
    OrderedMore(s.mailbox, s.counted, m);
    SentOnceMore(s.tasks, s.mailbox, s.counted, m);
  }

  lemma PairedStep(idle: nat, s: State, e: Event)
    requires Paired(s) && Enabled(s, e)
    ensures Paired(Apply(idle, s, e))
  {
    if e.Handshake? || e.Drop? {
      PairedSend(idle, s, e);
    } else if e.Receive? {
      PairedReceive(idle, s, e.drained);
    }
  }

  lemma {:induction false} PairedAlong(idle: nat, states: seq<State>, events: seq<Event>, i: nat)
    requires IsRun(idle, states, events) && i < |states|
    ensures Paired(states[i])
  {
    if i > 0 {
      PairedAlong(idle, states, events, i - 1);
      assert StepAt(idle, states, events, i - 1);
      PairedStep(idle, states[i - 1], events[i - 1]);
    }
  }

  /** The count is the number of connections whose connect was processed and whose disconnect was not,
      and a disconnect is only ever processed when it is positive. */
  lemma CountNeverUnderflows(idle: nat, states: seq<State>, events: seq<Event>, i: nat)
    requires IsRun(idle, states, events) && i < |states|
    ensures states[i].active == |states[i].counted|
    ensures i < |events| && events[i].Receive? ==>
              states[i].mailbox != [] && (states[i].mailbox[0].Disconnected? ==> states[i].active > 0)
  {
    PairedAlong(idle, states, events, i);
    if i < |events| {
      assert StepAt(idle, states, events, i);
      if events[i].Receive? {
        PairedReceive(idle, states[i], events[i].drained);
      }
    }
  }

  // ------------------------------------------------------------------ the idle exit

  /** The guard and the timer agree with the history: the deadline is one idle period after the last
      moment the count was positive, or after startup. */
  ghost predicate Timed(idle: nat, states: seq<State>, i: nat)
    requires i < |states|
  {
    && (states[i].armed ==> states[i].active == 0 && states[i].drainedAtGuard)
    && (states[i].active == 0 ==>
          forall k | 0 <= k <= i && states[k].active != 0 :: states[k].now + idle <= states[i].deadline)
    && states[0].now + idle <= states[i].deadline
    && (forall k | 0 <= k <= i :: states[k].now <= states[i].now)
  }

  lemma {:induction false} TimedAlong(idle: nat, states: seq<State>, events: seq<Event>, i: nat)
    requires IsRun(idle, states, events) && i < |states|
    ensures Timed(idle, states, i)
  {
    if i > 0 {
      TimedAlong(idle, states, events, i - 1);
      PairedAlong(idle, states, events, i - 1);
      assert StepAt(idle, states, events, i - 1);
      TimeMoves(idle, states[i - 1], events[i - 1], states[i]);
      TimedNext(idle, states, i);
    }
  }

  lemma TimedNext(idle: nat, states: seq<State>, i: nat)
    requires 0 < i < |states| && Timed(idle, states, i - 1)
    requires var s, s' := states[i - 1], states[i];
             && (s'.armed ==> s'.active == 0 && s'.drainedAtGuard) && s.now <= s'.now
             && s'.deadline == (if s.active != 0 && s'.active == 0 then s.now + idle else s.deadline)
    ensures Timed(idle, states, i)
  {
    assert states[i - 1].now <= states[i].now;
  }

  lemma TimeMoves(idle: nat, s: State, e: Event, s': State)
    requires Paired(s) && Enabled(s, e) && s' == Apply(idle, s, e)
    requires s.armed ==> s.active == 0 && s.drainedAtGuard
    ensures s'.armed ==> s'.active == 0 && s'.drainedAtGuard
    ensures s.now <= s'.now && s'.deadline == if s.active != 0 && s'.active == 0 then s.now + idle else s.deadline
  {
    if e.Receive? {
      PairedReceive(idle, s, e.drained);
    }
  }

  /** What `is_drained` answered when the loop last evaluated the guard. */
  function LastDrained(initial: bool, events: seq<Event>, i: nat): bool
    requires i <= |events|
  {
    if i == 0 then initial
    else
      match events[i - 1]
      case Accepted(_, drained) => drained
      case AcceptFailed(drained) => drained
      case Receive(drained) => drained
      case _ => LastDrained(initial, events, i - 1)
  }

  /** The moment the count last dropped to zero, or startup. */
  function LastZero(states: seq<State>, i: nat): nat
    requires i < |states|
  {
    if i == 0 then states[0].now
    else if states[i].active == 0 && states[i - 1].active != 0 then states[i].now
    else LastZero(states, i - 1)
  }

  /** The guard is evaluated on every turn of the loop and on nothing else, and the timer is reset when the
      count drops to zero and at no other time. */
  lemma {:induction false} GuardExact(idle: nat, states: seq<State>, events: seq<Event>, i: nat)
    requires IsRun(idle, states, events) && i < |states|
    ensures states[i].drainedAtGuard == LastDrained(states[0].drainedAtGuard, events, i)
    ensures states[i].armed <==> states[i].active == 0 && states[i].drainedAtGuard
    ensures states[i].deadline == LastZero(states, i) + idle
  {
    if i > 0 {
      GuardExact(idle, states, events, i - 1);
      PairedAlong(idle, states, events, i - 1);
      assert StepAt(idle, states, events, i - 1);
      TimeMoves(idle, states[i - 1], events[i - 1], states[i]);
      GuardStep(idle, states[i - 1], events[i - 1], states[i]);
    }
  }

  lemma GuardStep(idle: nat, s: State, e: Event, s': State)
    requires Paired(s) && Enabled(s, e) && s' == Apply(idle, s, e) && (s.armed <==> s.active == 0 && s.drainedAtGuard)
    ensures s'.armed <==> s'.active == 0 && s'.drainedAtGuard
    ensures s'.drainedAtGuard == if e.Accepted? || e.AcceptFailed? || e.Receive? then e.drained else s.drainedAtGuard
  {
  }

  /** Exactly when the idle exit can be taken. */
  lemma IdleExitIff(idle: nat, states: seq<State>, events: seq<Event>, i: nat)
    requires IsRun(idle, states, events) && i < |states|
    ensures Enabled(states[i], IdleExit) <==>
            && !states[i].stopped && states[i].counted == {} && LastDrained(states[0].drainedAtGuard, events, i)
            && states[i].now >= LastZero(states, i) + idle
  {
    GuardExact(idle, states, events, i);
    PairedAlong(idle, states, events, i);
  }

  /** An idle exit happens only with no counted client, with the queue seen drained when the guard was
      evaluated, and after a whole idle period in which no state counted a client. */
  lemma IdleExitIsIdle(idle: nat, states: seq<State>, events: seq<Event>, i: nat)
    requires IsRun(idle, states, events) && i < |events| && events[i].IdleExit?
    ensures states[i].active == 0 && states[i].counted == {} && states[i].drainedAtGuard
    ensures states[0].now + idle <= states[i].now
    ensures forall k | 0 <= k <= i && states[k].now + idle > states[i].now :: states[k].active == 0
  {
    TimedAlong(idle, states, events, i);
    PairedAlong(idle, states, events, i);
    assert StepAt(idle, states, events, i);
  }

  /** Exactly which clients an idle exit drops: the open connections whose connect message, and no
      disconnect, is still in the channel. */
  lemma IdleExitDropsIff(idle: nat, states: seq<State>, events: seq<Event>, i: nat, conn: Conn)
    requires IsRun(idle, states, events) && i < |events| && events[i].IdleExit?
    ensures var s := states[i];
            conn in s.tasks && s.tasks[conn].Open? <==> Connected(conn) in s.mailbox && Disconnected(conn) !in s.mailbox
  {
    PairedAlong(idle, states, events, i);
    IdleExitIsIdle(idle, states, events, i);
  }

  /** And there can be one: the guard is not evaluated again while `select!` waits, so a client accepted
      by the very loop turn that armed the timer finishes its handshake in vain. */
  lemma IdleExitCanDropClient(idle: nat, conn: Conn) returns (states: seq<State>, events: seq<Event>)
    ensures IsRun(idle, states, events) && events == [Accepted(conn, true), Handshake(conn), Tick(idle), IdleExit]
    ensures conn in states[3].tasks && states[3].tasks[conn].Open? && conn !in states[3].counted
  {
    var s0 := State(map[], [], 0, {}, 0, idle, true, true, false);
    events := [Accepted(conn, true), Handshake(conn), Tick(idle), IdleExit];
    var s1 := Apply(idle, s0, events[0]);
    var s2 := Apply(idle, s1, events[1]);
    var s3 := Apply(idle, s2, events[2]);
    states := [s0, s1, s2, s3, Apply(idle, s3, events[3])];
    assert StepAt(idle, states, events, 0) && StepAt(idle, states, events, 1);
    assert StepAt(idle, states, events, 2) && StepAt(idle, states, events, 3);
  }
}
