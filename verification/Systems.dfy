/** The whole client: the thread of the state machine (src/fsm.cpp:7-134), the thread of
    the listener (src/listeners.cpp:269-372) and the mailbox they share, interleaved at
    the granularity of their accesses to the queues and to the pipe. */
module Systems {
  import opened Mails
  import opened MailBoxes
  import opened Console
  import opened Fsm
  import opened Listeners

  /** Where the machine's thread is: before a mail is fetched, with a mail in hand, or
      between pushing a mail and writing the byte that announces it. */
  datatype FsmPc = Idle | Deciding | Notifying

  datatype Fd = StdinFd | SocketFd | ToSendFd | SignalFd

  /** Where the listener's thread is: at the head of its loop, with descriptors of a batch
      still to serve, or between reading the byte and popping the mail. */
  datatype ListenerPc = LoopTop | Serving(fds: seq<Fd>) | Popping(fds: seq<Fd>)

  datatype Status = Running | Exited | NotResponding | Thrown

  /** The history of the sending side: the first transmission of a mail, a repetition,
      and the CONFIRM that was accepted for it. */
  datatype Trace = First(mail: Mail) | Again(mail: Mail) | Acked(id: int)

  /** `limit` is the number of retries. The last seven fields are histories: what the machine
      sent, what was dequeued for transmission, the sending side's trace, what was put in
      the incoming queue, what was taken out, what the socket put in, and the lines typed. */
  datatype System = System(c: Client, limit: int,
                           state: State, mail: Mail, fpc: FsmPc, lpc: ListenerPc, status: Status,
                           sent: seq<Mail>, transmitted: seq<Mail>, trace: seq<Trace>,
                           added: seq<Mail>, consumed: seq<Mail>, delivered: seq<Mail>, typed: seq<string>)

  function Init(protocol: Protocol, limit: int): System {
    System(NewClient(protocol), limit, StartState, Fresh, Idle, LoopTop, Running, [], [], [], [], [], [], [])
  }

  /** `Line` is one line of the console, `Socket` one decoded message and `BadSocket` one
      whose validators throw, `Poll` a non-empty and `Timeout` an empty result of
      `epoll_wait`, `MainStop` the call of `Listener::stop` after `run` has returned
      (main.cpp:54-59). */
  datatype Event =
    | FsmWait | FsmAct | FsmNotify | MainStop
    | Poll(fds: seq<Fd>) | Timeout | Leave
    | Line(line: string) | StdinDone | Socket(m: Mail) | BadSocket | SendRead | SendPop | Signal

  predicate AnyOrder(fds: seq<Fd>) {
    fds != [] && |fds| <= 10 && forall i, j :: 0 <= i < j < |fds| ==> fds[i] != fds[j]
  }

  predicate AtFd(s: System, fd: Fd) {
    s.lpc.Serving? && s.lpc.fds != [] && s.lpc.fds[0] == fd
  }

  predicate Enabled(s: System, e: Event) {
    match e
    case FsmWait => Alive(s) && s.fpc == Idle && s.state in {StartState, AuthState, OpenState} && s.c.box.incoming != []
    case FsmAct =>
      && Alive(s)
      && (s.fpc == Deciding || (s.fpc == Idle && s.state == ErrorState))
      && s.state != EndState
      && (s.state != ErrorState ==> Shaped(s.mail))
    case FsmNotify => Alive(s) && s.fpc == Notifying
    case MainStop => Alive(s) && s.fpc == Idle && s.state == EndState
    case Poll(fds) =>
      && s.status == Running && s.lpc == LoopTop && !LoopOver(s.c.link)
      && AnyOrder(fds)
      && (ToSendFd in fds ==> Sync(s.c.link).toSendRegistered && s.c.box.pipe > 0)
    case Timeout => s.status == Running && s.lpc == LoopTop && !LoopOver(s.c.link) && !s.c.link.receivedConfirm
    case Leave => s.status == Running && s.lpc == LoopTop && LoopOver(s.c.link)
    case Line(line) => s.status == Running && AtFd(s, StdinFd) && line != "" && OneLine(line)
    case StdinDone => s.status == Running && AtFd(s, StdinFd)
    case Socket(m) => s.status == Running && AtFd(s, SocketFd) && FromSocket(s.c.box.protocol, m)
    case BadSocket => s.status == Running && AtFd(s, SocketFd)
    case SendRead => s.status == Running && AtFd(s, ToSendFd) && s.c.box.pipe > 0
    case SendPop => s.status == Running && s.lpc.Popping? && s.c.box.outgoing != []
    case Signal => s.status == Running && AtFd(s, SignalFd)
  }

  /** The machine's thread goes on after the listener's has left its loop. */
  predicate Alive(s: System) {
    s.status == Running || s.status == Exited
  }

  function Next(fds: seq<Fd>): ListenerPc {
    if |fds| <= 1 then LoopTop else Serving(fds[1..])
  }

  function Grown(before: Box, after: Box): seq<Mail> {
    if |before.incoming| <= |after.incoming| then after.incoming[|before.incoming|..] else []
  }

  // ------------------------------------------------------------ the steps

  function DoWait(s: System): System
    requires Enabled(s, FsmWait)
  {
    s.(mail := s.c.box.incoming[0],
       c := s.c.(box := Take(s.c.box)),
       consumed := s.consumed + [s.c.box.incoming[0]],
       fpc := Deciding)
  }

  function DoAct(s: System): System
    requires Enabled(s, FsmAct)
  {
    var a := Act(s.state, s.c.box, s.mail);
    if a.Raised? then s.(status := Thrown)
    else if a.value.send && a.value.mail.addToMailQueue then
      s.(state := a.value.next, mail := a.value.mail,
         c := s.c.(box := Push(s.c.box, a.value.mail)),
         sent := s.sent + [Stamp(s.c.box, a.value.mail)],
         fpc := Notifying)
    else s.(state := a.value.next, mail := a.value.mail, fpc := Idle)
  }

  function DoNotify(s: System): System {
    s.(c := s.c.(box := Notify(s.c.box)), fpc := Idle)
  }

  function DoPoll(s: System, fds: seq<Fd>): System {
    s.(c := s.c.(link := Sync(s.c.link)), lpc := Serving(fds))
  }

  function DoTimeout(s: System): System {
    var synced := s.c.(link := Sync(s.c.link));
    var r := OnTimeout(synced, s.limit);
    if r.Raised? then s.(c := synced, status := NotResponding)
    else s.(c := r.value, trace := s.trace + [Again(s.c.link.confMail)])
  }

  function DoLine(s: System, line: string): System {
    var r := Enter(s.c.box, line);
    if r.Raised? then s.(status := Thrown)
    else s.(c := s.c.(box := r.value), added := s.added + Grown(s.c.box, r.value), typed := s.typed + [line])
  }

  function DoSocket(s: System, m: Mail): System
    requires Enabled(s, Socket(m))
  {
    var c := OnSocket(s.c, m);
    s.(c := c, lpc := Next(s.lpc.fds),
       added := s.added + Grown(s.c.box, c.box),
       delivered := s.delivered + Grown(s.c.box, c.box),
       trace := s.trace + (if !s.c.link.receivedConfirm && c.link.receivedConfirm then [Acked(MessageId(m))] else []))
  }

  function DoSendRead(s: System): System
    requires Enabled(s, SendRead)
  {
    s.(c := s.c.(box := ReadByte(s.c.box)), lpc := Popping(s.lpc.fds))
  }

  function DoSendPop(s: System): System
    requires Enabled(s, SendPop)
  {
    var m := s.c.box.outgoing[0];
    s.(c := OnSend(s.c), lpc := Next(s.lpc.fds),
       transmitted := s.transmitted + [m], trace := s.trace + [First(m)])
  }

  function DoSignal(s: System): System
    requires Enabled(s, Signal)
  {
    var r := OnSignal(s.c);
    if r.Raised? then s.(status := Thrown)
    else s.(c := r.value, lpc := Next(s.lpc.fds), added := s.added + Grown(s.c.box, r.value.box))
  }

  function Do(s: System, e: Event): System
    requires Enabled(s, e)
  {
    match e
    case FsmWait => DoWait(s)
    case FsmAct => DoAct(s)
    case FsmNotify => DoNotify(s)
    case MainStop => s.(c := s.c.(link := Stopped(s.c.link)))
    case Poll(fds) => DoPoll(s, fds)
    case Timeout => DoTimeout(s)
    case Leave => s.(status := Exited)
    case Line(line) => DoLine(s, line)
    case StdinDone => s.(lpc := Next(s.lpc.fds))
    case Socket(m) => DoSocket(s, m)
    case BadSocket => s.(status := Thrown)
    case SendRead => DoSendRead(s)
    case SendPop => DoSendPop(s)
    case Signal => DoSignal(s)
  }

  /** A step that is not possible leaves the state alone, so that every list of events
      denotes a run and every run is denoted by one. */
  function Step(s: System, e: Event): System {
    if Enabled(s, e) then Do(s, e) else s
  }

  function Run(s: System, es: seq<Event>): System {
    if es == [] then s else Step(Run(s, es[..|es| - 1]), es[|es| - 1])
  }

  /** The state reached from the start by some events: every reachable state is one. */
  function After(protocol: Protocol, limit: int, es: seq<Event>): System {
    Run(Init(protocol, limit), es)
  }

  lemma {:induction false} RunAppend(s: System, es: seq<Event>, more: seq<Event>)
    ensures Run(s, es + more) == Run(Run(s, es), more)
    decreases |more|
  {
    if more == [] {
      assert es + more == es;
    } else {
      assert (es + more)[..|es + more| - 1] == es + more[..|more| - 1];
      RunAppend(s, es, more[..|more| - 1]);
    }
  }

  // ------------------------------------------------------------ the machine's three steps

  /** Run without interruption, the three steps of the machine's thread are one iteration
      of its loop. */
  lemma StepsAreIteration(s: System)
    requires Alive(s) && s.fpc == Idle && s.state != EndState
    requires Sound(Machine(s.state, s.mail, s.c.box)) && !Blocked(Machine(s.state, s.mail, s.c.box))
    ensures var t := Step(Step(Step(s, FsmWait), FsmAct), FsmNotify);
            var m := Iterate(Machine(s.state, s.mail, s.c.box));
            if m.Raised? then t.status == Thrown
            else Alive(t) && t.fpc == Idle && Machine(t.state, t.mail, t.c.box) == m.value && t.c.link == s.c.link
  {
    var w := Step(s, FsmWait);
    assert s.state != ErrorState ==> w == DoWait(s) && Handled(s.c.box.incoming[0]);
    assert s.state == ErrorState ==> w == s;
    IterateSound(Machine(s.state, s.mail, s.c.box));
    ActSendsOutgoing(w.state, w.c.box, w.mail);
  }
}
