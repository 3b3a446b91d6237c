/** Waking the container of a session: one live agent process per session under concurrent wakes. */
module ContainerWake {
  import opened Wrappers

  type Id = string

  /** Names a process, in the order of spawning. */
  type Pid = nat

  /** Names one execution of `doWake`. */
  type Ticket = nat

  /** The host's two maps: `activeContainers` and `wakePromises`. */
  datatype Host = Host(active: map<Id, Pid>, wakes: map<Id, Ticket>)

  datatype Answer = AlreadyRunning | Joined(ticket: Ticket) | Began(ticket: Ticket)

  function Wake(h: Host, session: Id, ticket: Ticket): (Host, Answer) {
    if session in h.active then (h, AlreadyRunning)
    else if session in h.wakes then (h, Joined(h.wakes[session]))
    else (h.(wakes := h.wakes[session := ticket]), Began(ticket))
  }

  function Register(h: Host, session: Id, pid: Pid): Host {
    h.(active := h.active[session := pid])
  }

  function Settle(h: Host, session: Id): Host {
    h.(wakes := h.wakes - {session})
  }

  /** The close and error handlers name the session, not the process. */
  function Unregister(h: Host, session: Id): Host {
    h.(active := h.active - {session})
  }

  /** The process that a kill signals. */
  function Killed(h: Host, session: Id): Option<Pid> {
    if session in h.active then Some(h.active[session]) else None
  }

  class ContainerRunner {
    var activeContainers: map<Id, Pid>
    var wakePromises: map<Id, Ticket>

    ghost function Contents(): Host
      reads this
    {
      Host(activeContainers, wakePromises)
    }

    constructor ()
      ensures Contents() == Host(map[], map[])
    {
      activeContainers, wakePromises := map[], map[];
    }

    /** Up to its first suspension; a begun wake goes on as the execution named by the ticket. */
    method WakeContainer(session: Id, ticket: Ticket) returns (answer: Answer)
      modifies this
      ensures (Contents(), answer) == Wake(old(Contents()), session, ticket)
      ensures session in activeContainers || session in wakePromises
    {
      if session in activeContainers {
        return AlreadyRunning;
      }
      if session in wakePromises {
        return Joined(wakePromises[session]);
      }
      wakePromises := wakePromises[session := ticket];
      answer := Began(ticket);
    }

    /** The end of `spawnContainer` and `spawnHostRunner`: the new process is entered without another check. */
    method OnSpawned(session: Id, pid: Pid)
      modifies this`activeContainers
      ensures Contents() == Register(old(Contents()), session, pid)
    {
      activeContainers := activeContainers[session := pid];
    }

    /** The `finally` of a wake, however it ended. */
    method OnWakeSettled(session: Id)
      modifies this`wakePromises
      ensures Contents() == Settle(old(Contents()), session)
    {
      wakePromises := wakePromises - {session};
    }

    method OnTerminalEvent(session: Id)
      modifies this`activeContainers
      ensures Contents() == Unregister(old(Contents()), session)
    {
      activeContainers := activeContainers - {session};
    }

    /**
      Signals one process or none: in any world that keeps the invariant, the session's process whose terminal
      event is still to come. The maps change only with that event.
     */
    method KillContainer(session: Id) returns (signalled: Option<Pid>)
      ensures signalled == Killed(Contents(), session)
      ensures forall w: World, p: Pid :: Invariant(w) && w.host == Contents() ==>
                (signalled == Some(p) <==> Unraised(w, p, session))
    {
      forall w: World, p: Pid | Invariant(w) && w.host == Contents()
        ensures Killed(Contents(), session) == Some(p) <==> Unraised(w, p, session)
      {
        KilledIsUnraised(w, session, p);
      }
      if session !in activeContainers {
        return None;
      }
      signalled := Some(activeContainers[session]);
    }
  }

  // ----- the host among its processes -----

  /** SettingUp has awaits before the spawn; Finished waits for its `finally`. */
  datatype Phase = SettingUp | Finished

  datatype Setup = Setup(session: Id, phase: Phase)

  datatype Process = Process(session: Id, alive: bool, raised: bool)

  datatype World = World(host: Host, setups: map<Ticket, Setup>, procs: map<Pid, Process>)

  datatype Step =
    | DoWake(session: Id, ticket: Ticket)
    | DoSpawn(ticket: Ticket, pid: Pid)
    | DoFail(ticket: Ticket)
    | DoSettle(ticket: Ticket)
    | DoKill(session: Id)
    | DoExit(pid: Pid)
    | DoTerminal(pid: Pid)

  /** Tickets and pids are new; setups and processes go through their lives in order. */
  predicate Possible(w: World, s: Step) {
    match s
    case DoWake(_, ticket) => ticket !in w.setups
    case DoSpawn(ticket, pid) => ticket in w.setups && w.setups[ticket].phase == SettingUp && pid !in w.procs
    case DoFail(ticket) => ticket in w.setups && w.setups[ticket].phase == SettingUp
    case DoSettle(ticket) => ticket in w.setups && w.setups[ticket].phase == Finished
    case DoKill(_) => true
    case DoExit(pid) => pid in w.procs
    case DoTerminal(pid) => pid in w.procs
  }

  /** The one terminal event of a process comes after the process is gone. */
  predicate Orderly(w: World, s: Step) {
    Possible(w, s) && (s.DoTerminal? ==> !w.procs[s.pid].alive && !w.procs[s.pid].raised)
  }

  function Next(w: World, s: Step): World
    requires Possible(w, s)
  {
    match s
    case DoWake(session, ticket) =>
      var (host, answer) := Wake(w.host, session, ticket);
      if answer.Began?
      then World(host, w.setups[ticket := Setup(session, SettingUp)], w.procs) else w
    case DoSpawn(ticket, pid) =>
      var session := w.setups[ticket].session;
      World(Register(w.host, session, pid), w.setups[ticket := Setup(session, Finished)],
            w.procs[pid := Process(session, true, false)])
    case DoFail(ticket) => w.(setups := w.setups[ticket := w.setups[ticket].(phase := Finished)])
    case DoSettle(ticket) => World(Settle(w.host, w.setups[ticket].session), w.setups - {ticket}, w.procs)
    case DoKill(_) => w
    case DoExit(pid) => w.(procs := w.procs[pid := w.procs[pid].(alive := false)])
    case DoTerminal(pid) =>
      World(Unregister(w.host, w.procs[pid].session), w.setups, w.procs[pid := w.procs[pid].(raised := true)])
  }

  const START := World(Host(map[], map[]), map[], map[])

  predicate OrderlyRun(w: World, steps: seq<Step>)
    decreases |steps|
  {
    steps == [] || (Orderly(w, steps[0]) && OrderlyRun(Next(w, steps[0]), steps[1..]))
  }

  predicate PossibleRun(w: World, steps: seq<Step>)
    decreases |steps|
  {
    steps == [] || (Possible(w, steps[0]) && PossibleRun(Next(w, steps[0]), steps[1..]))
  }

  function Run(w: World, steps: seq<Step>): World
    requires PossibleRun(w, steps)
    decreases |steps|
  {
    if steps == [] then w else Run(Next(w, steps[0]), steps[1..])
  }

  // ----- the invariant -----

  /** Until its terminal event a process is the one entered for its session. */
  predicate Entered(w: World, p: Pid)
    requires p in w.procs
  {
    !w.procs[p].raised ==> w.procs[p].session in w.host.active && w.host.active[w.procs[p].session] == p
  }

  /** An execution under way holds its session's promise, and has seen no entry while it sets up. */
  predicate Holding(w: World, t: Ticket)
    requires t in w.setups
  {
    var s := w.setups[t];
    s.session in w.host.wakes && w.host.wakes[s.session] == t && (s.phase == SettingUp ==> s.session !in w.host.active)
  }

  predicate Known(w: World, session: Id)
    requires session in w.host.active
  {
    var p := w.host.active[session];
    p in w.procs && w.procs[p].session == session && !w.procs[p].raised
  }

  /** A promise is that of an execution under way. */
  predicate Promised(w: World, session: Id)
    requires session in w.host.wakes
  {
    var t := w.host.wakes[session];
    t in w.setups && w.setups[t].session == session
  }

  ghost predicate Invariant(w: World) {
    && (forall p :: p in w.procs ==> Entered(w, p) && (w.procs[p].raised ==> !w.procs[p].alive))
    && (forall t :: t in w.setups ==> Holding(w, t))
    && (forall session :: session in w.host.active ==> Known(w, session))
    && (forall session :: session in w.host.wakes ==> Promised(w, session))
  }

  lemma {:induction false} WakeKeeps(w: World, session: Id, ticket: Ticket)
    requires Invariant(w) && Possible(w, DoWake(session, ticket))
    ensures Invariant(Next(w, DoWake(session, ticket)))
  {
  }

  lemma {:induction false} SpawnKeeps(w: World, ticket: Ticket, pid: Pid)
    requires Invariant(w) && Possible(w, DoSpawn(ticket, pid))
    ensures Invariant(Next(w, DoSpawn(ticket, pid)))
  {
  }

  lemma {:induction false} SettleKeeps(w: World, s: Step)
    requires Invariant(w) && (s.DoFail? || s.DoSettle?) && Possible(w, s)
    ensures Invariant(Next(w, s))
  {
  }

  lemma {:induction false} ProcessKeeps(w: World, s: Step)
    requires Invariant(w) && (s.DoExit? || s.DoTerminal?) && Orderly(w, s)
    ensures Invariant(Next(w, s))
  {
    var w' := Next(w, s);
    assert Entered(w, s.pid);
    forall t | t in w'.setups ensures Holding(w', t) {
      assert Holding(w, t);
    }
    forall p | p in w'.procs ensures Entered(w', p) && (w'.procs[p].raised ==> !w'.procs[p].alive) {
      assert Entered(w, p);
    }
    forall session | session in w'.host.active ensures Known(w', session) {
      assert Known(w, session);
    }
    forall session | session in w'.host.wakes ensures Promised(w', session) {
      assert Promised(w, session);
    }
  }

  lemma {:induction false} StepKeeps(w: World, s: Step)
    requires Invariant(w) && Orderly(w, s)
    ensures Invariant(Next(w, s))
  {
    match s
    case DoWake(session, ticket) => WakeKeeps(w, session, ticket);
    case DoSpawn(ticket, pid) => SpawnKeeps(w, ticket, pid);
    case DoFail(_) => SettleKeeps(w, s);
    case DoSettle(_) => SettleKeeps(w, s);
    case DoKill(_) =>
    case DoExit(_) => ProcessKeeps(w, s);
    case DoTerminal(_) => ProcessKeeps(w, s);
  }

  lemma {:induction false} RunKeeps(w: World, steps: seq<Step>)
    requires Invariant(w) && OrderlyRun(w, steps)
    ensures PossibleRun(w, steps) && Invariant(Run(w, steps))
    decreases |steps|
  {
    if steps != [] {
      StepKeeps(w, steps[0]);
      RunKeeps(Next(w, steps[0]), steps[1..]);
    }
  }

  predicate Alive(w: World, p: Pid, session: Id) {
    p in w.procs && w.procs[p].session == session && w.procs[p].alive
  }

  /** A live process is the one in `activeContainers`. */
  ghost predicate Tracked(w: World) {
    forall p, session :: Alive(w, p, session) ==> session in w.host.active && w.host.active[session] == p
  }

  ghost predicate OneWakeEach(w: World) {
    forall s, t :: s in w.setups && t in w.setups && w.setups[s].session == w.setups[t].session ==> s == t
  }

  /** Whatever wakes, kills and exits interleave: one live process per session, tracked, and one spawn under way. */
  lemma {:induction false} OneProcessPerSession(steps: seq<Step>)
    requires OrderlyRun(START, steps)
    ensures PossibleRun(START, steps)
    ensures var w := Run(START, steps);
            && Tracked(w)
            && OneWakeEach(w)
            && (forall p, q, session :: Alive(w, p, session) && Alive(w, q, session) ==> p == q)
  {
    RunKeeps(START, steps);
    var w := Run(START, steps);
    forall p, session | Alive(w, p, session) ensures session in w.host.active && w.host.active[session] == p {
      assert Entered(w, p);
    }
    forall s, t | s in w.setups && t in w.setups && w.setups[s].session == w.setups[t].session ensures s == t {
      assert Holding(w, s) && Holding(w, t);
    }
  }

  /** A process of the session whose terminal event has not been raised. */
  predicate Unraised(w: World, p: Pid, session: Id) {
    p in w.procs && w.procs[p].session == session && !w.procs[p].raised
  }

  lemma {:induction false} KilledIsUnraised(w: World, session: Id, p: Pid)
    requires Invariant(w)
    ensures Killed(w.host, session) == Some(p) <==> Unraised(w, p, session)
  {
    if p in w.procs {
      assert Entered(w, p);
    }
    if session in w.host.active {
      assert Known(w, session);
    }
  }

  /**
    After any orderly run a kill of a session signals exactly its process whose terminal event is still to
    come: every live one of the session, of no other session, and nothing only when none is alive.
   */
  lemma {:induction false} KillHitsTheLive(steps: seq<Step>, session: Id)
    requires OrderlyRun(START, steps)
    ensures PossibleRun(START, steps)
    ensures var w := Run(START, steps);
            && (forall p: Pid :: Killed(w.host, session) == Some(p) <==> Unraised(w, p, session))
            && (forall p: Pid :: Alive(w, p, session) ==> Killed(w.host, session) == Some(p))
  {
    RunKeeps(START, steps);
    var w := Run(START, steps);
    forall p: Pid ensures Killed(w.host, session) == Some(p) <==> Unraised(w, p, session) {
      KilledIsUnraised(w, session, p);
    }
    forall p: Pid | Alive(w, p, session) ensures Unraised(w, p, session) {
      assert Entered(w, p);
    }
  }

  // ----- when a wake begins a container, and that it can again -----

  predicate UnderWay(w: World, t: Ticket, session: Id) {
    t in w.setups && w.setups[t].session == session
  }

  /**
    A wake is told that the container runs exactly if a process of the session has not ended, joins exactly the
    wake under way if there is no such process, and else begins one.
   */
  lemma {:induction false} WakeAnswersIff(w: World, session: Id, ticket: Ticket)
    requires Invariant(w)
    ensures var answer := Wake(w.host, session, ticket).1;
            && (answer == AlreadyRunning <==> exists p :: Unraised(w, p, session))
            && (forall t :: answer == Joined(t) <==> UnderWay(w, t, session) && !exists p :: Unraised(w, p, session))
            && (answer.Began? ==> answer.ticket == ticket)
  {
    forall p | Unraised(w, p, session) ensures session in w.host.active {
      assert Entered(w, p);
    }
    if session in w.host.active {
      assert Known(w, session) && Unraised(w, w.host.active[session], session);
    }
    forall t | UnderWay(w, t, session) ensures session in w.host.wakes && w.host.wakes[session] == t {
      assert Holding(w, t);
    }
    if session in w.host.wakes {
      assert Promised(w, session);
    }
  }

  /** The wake under way, if there is one, ends. */
  function EndWake(w: World, session: Id): seq<Step> {
    if session !in w.host.wakes || w.host.wakes[session] !in w.setups then [] else
    var t := w.host.wakes[session];
    if w.setups[t].phase == SettingUp then [DoFail(t), DoSettle(t)] else [DoSettle(t)]
  }

  /** The running process, if there is one, exits, and its event is raised. */
  function EndProcess(w: World, session: Id): seq<Step> {
    if session !in w.host.active then [] else [DoExit(w.host.active[session]), DoTerminal(w.host.active[session])]
  }

  lemma {:induction false} OneStep(w: World, s: Step)
    requires Orderly(w, s)
    ensures OrderlyRun(w, [s]) && PossibleRun(w, [s]) && Run(w, [s]) == Next(w, s)
  {
    assert [s][1..] == [];
  }

  lemma {:induction false} TwoSteps(w: World, s: Step, r: Step)
    requires Orderly(w, s) && Orderly(Next(w, s), r)
    ensures OrderlyRun(w, [s, r]) && PossibleRun(w, [s, r]) && Run(w, [s, r]) == Next(Next(w, s), r)
  {
    assert [s, r][1..] == [r];
    OneStep(Next(w, s), r);
  }

  lemma {:induction false} WakeEnds(w: World, session: Id)
    requires Invariant(w)
    ensures OrderlyRun(w, EndWake(w, session)) && PossibleRun(w, EndWake(w, session))
    ensures var v := Run(w, EndWake(w, session));
            Invariant(v) && session !in v.host.wakes && v.host.active == w.host.active
  {
    if session in w.host.wakes {
      assert Promised(w, session);
      var t := w.host.wakes[session];
      if w.setups[t].phase == SettingUp {
        TwoSteps(w, DoFail(t), DoSettle(t));
      } else {
        OneStep(w, DoSettle(t));
      }
    }
    RunKeeps(w, EndWake(w, session));
  }

  lemma {:induction false} ProcessEnds(w: World, session: Id)
    requires Invariant(w)
    ensures OrderlyRun(w, EndProcess(w, session)) && PossibleRun(w, EndProcess(w, session))
    ensures var v := Run(w, EndProcess(w, session));
            Invariant(v) && session !in v.host.active && v.host.wakes == w.host.wakes
  {
    if session in w.host.active {
      assert Known(w, session);
      var p := w.host.active[session];
      TwoSteps(w, DoExit(p), DoTerminal(p));
    }
    RunKeeps(w, EndProcess(w, session));
  }

  /**
    From any world that keeps the invariant, once the wake under way has ended and the process has exited, which it
    can, the next wake of the session begins a container: no session stays blocked.
   */
  lemma {:induction false} SessionComesFree(w: World, session: Id, ticket: Ticket)
    requires Invariant(w)
    ensures OrderlyRun(w, EndWake(w, session)) && PossibleRun(w, EndWake(w, session))
    ensures var v := Run(w, EndWake(w, session));
            && OrderlyRun(v, EndProcess(v, session)) && PossibleRun(v, EndProcess(v, session))
            && Wake(Run(v, EndProcess(v, session)).host, session, ticket).1 == Began(ticket)
  {
    WakeEnds(w, session);
    ProcessEnds(Run(w, EndWake(w, session)), session);
  }

  // ----- what the event handlers rely on -----

  /** A terminal event leaves every live process tracked exactly if none of that session is alive. */
  lemma {:induction false} TerminalEventIsSafeIff(w: World, pid: Pid)
    requires Invariant(w) && pid in w.procs
    ensures Tracked(Next(w, DoTerminal(pid))) <==> forall q :: !Alive(w, q, w.procs[pid].session)
  {
    var session := w.procs[pid].session;
    var w' := Next(w, DoTerminal(pid));
    forall p, s ensures Alive(w', p, s) <==> Alive(w, p, s) {
    }
    if forall q :: !Alive(w, q, session) {
      forall p, s | Alive(w', p, s) ensures s in w'.host.active && w'.host.active[s] == p {
        assert Alive(w, p, s) && Entered(w, p);
      }
    } else {
      var q :| Alive(w, q, session);
      assert Alive(w', q, session);
      assert session !in w'.host.active;
    }
  }

  /** An error event of a live process, as for a signal that could not be sent, lets a second one start. */
  lemma {:induction false} ErrorWhileAliveDuplicates()
    ensures var steps := [DoWake("s", 0), DoSpawn(0, 0), DoSettle(0), DoTerminal(0), DoWake("s", 1), DoSpawn(1, 1)];
            PossibleRun(START, steps) && Alive(Run(START, steps), 0, "s") && Alive(Run(START, steps), 1, "s")
  {
    var w1 := Next(START, DoWake("s", 0));
    var w2 := Next(w1, DoSpawn(0, 0));
    var w3 := Next(w2, DoSettle(0));
    var w4 := Next(w3, DoTerminal(0));
    var w5 := Next(w4, DoWake("s", 1));
    var steps := [DoWake("s", 0), DoSpawn(0, 0), DoSettle(0), DoTerminal(0), DoWake("s", 1), DoSpawn(1, 1)];
    RunSix(START, steps);
  }

  lemma {:induction false} RunSix(w: World, steps: seq<Step>)
    requires |steps| == 6
    requires Possible(w, steps[0])
    requires var w1 := Next(w, steps[0]);
      Possible(w1, steps[1]) && var w2 := Next(w1, steps[1]);
      Possible(w2, steps[2]) && var w3 := Next(w2, steps[2]);
      Possible(w3, steps[3]) && var w4 := Next(w3, steps[3]);
      Possible(w4, steps[4]) && var w5 := Next(w4, steps[4]);
      Possible(w5, steps[5])
    ensures PossibleRun(w, steps)
    ensures var w3 := Next(Next(Next(w, steps[0]), steps[1]), steps[2]);
            Run(w, steps) == Next(Next(Next(w3, steps[3]), steps[4]), steps[5])
  {
    var w1 := Next(w, steps[0]);
    var w2 := Next(w1, steps[1]);
    var w3 := Next(w2, steps[2]);
    var w4 := Next(w3, steps[3]);
    var w5 := Next(w4, steps[4]);
    var w6 := Next(w5, steps[5]);
    assert steps[1..][1..] == steps[2..] && steps[2..][1..] == steps[3..] && steps[3..][1..] == steps[4..];
    assert steps[4..][1..] == steps[5..] && steps[5..][1..] == [];
    assert PossibleRun(w6, []) && Run(w6, []) == w6;
    assert PossibleRun(w5, steps[5..]) && Run(w5, steps[5..]) == w6;
    assert PossibleRun(w4, steps[4..]) && Run(w4, steps[4..]) == w6;
    assert PossibleRun(w3, steps[3..]) && Run(w3, steps[3..]) == w6;
    assert PossibleRun(w2, steps[2..]) && Run(w2, steps[2..]) == w6;
    assert PossibleRun(w1, steps[1..]) && Run(w1, steps[1..]) == w6;
  }
}
