/** What the machine is given: the incoming queue holds exactly what the lines typed, the
    messages off the socket and the signals put in, in the order in which they happened. */
module Arrivals {
  import opened Mails
  import opened MailBoxes
  import opened Console
  import opened Fsm
  import opened Listeners
  import opened Systems
  import opened Accounting
  import opened StopAndWait
  import opened Receiving

  // ------------------------------------------------------------ the display name

  /** The display name in force, by the lines typed so far. */
  function NameNow(s: System): string {
    NameAt("default", s.typed, |s.typed|)
  }

  /** The number the next mail is given. */
  function NumberNow(s: System): int {
    |s.sent| % 0x1_0000
  }

  ghost predicate Titled(s: System) {
    s.c.box.displayName == NameNow(s)
  }

  lemma EnterMeaning(box: Box, line: string)
    requires Enter(box, line).Ok?
    ensures var after := Enter(box, line).value;
            && after.displayName == NameAfter(box.displayName, line)
            && Grown(box, after) == if IsLocal(line) then [] else [Meaning(box.sequence, box.displayName, line)]
  {
    CommandMeaning(box.sequence, box.displayName, line);
  }

  lemma NameSnoc(lines: seq<string>, line: string)
    ensures NameAt("default", lines + [line], |lines| + 1) == NameAfter(NameAt("default", lines, |lines|), line)
  {
    assert (lines + [line])[..|lines|] == lines;
    NameOfPrefix("default", lines + [line], |lines|, |lines|);
  }

  /** Only lines change the display name and the list of lines. */
  lemma ConsoleFrame(s: System, e: Event)
    requires Enabled(s, e) && !e.Line?
    ensures Do(s, e).typed == s.typed && Do(s, e).c.box.displayName == s.c.box.displayName
  {
    if e.Socket? {
      SocketAdds(s.c, e.m);
    } else if e.Signal? {
      if OnSignal(s.c).Ok? {
        SignalAdds(s.c);
      }
    }
  }

  lemma TitledStep(s: System, e: Event)
    requires Titled(s) && Enabled(s, e)
    ensures Titled(Do(s, e)) && s.typed <= Do(s, e).typed
  {
    if e.Line? {
      if Enter(s.c.box, e.line).Ok? {
        EnterMeaning(s.c.box, e.line);
        NameSnoc(s.typed, e.line);
      }
    } else {
      ConsoleFrame(s, e);
    }
  }

  lemma {:induction false} AlwaysTitled(protocol: Protocol, limit: int, es: seq<Event>)
    ensures Titled(After(protocol, limit, es))
  {
    if es != [] {
      AlwaysTitled(protocol, limit, es[..|es| - 1]);
      var s := After(protocol, limit, es[..|es| - 1]);
      if Enabled(s, es[|es| - 1]) {
        TitledStep(s, es[|es| - 1]);
      }
    }
  }

  // ------------------------------------------------------------ what an event puts in

  /** A message that a UDP client takes: a new one, and if it is a REPLY, one that answers
      the last AUTH or JOIN transmitted. */
  predicate IsNew(s: System, m: Mail) {
    && m.kind != CONFIRM
    && MessageId(m) > LastTaken(s.delivered)
    && (m.kind == REPLY ==> m.data.ReplyMessage? && m.data.refMessageId == LastRequest(s.transmitted))
  }

  /** What a message off the socket adds: over TCP always itself. */
  function FromServer(s: System, m: Mail): seq<Mail> {
    if s.c.box.protocol == TCP || IsNew(s, m) then [m] else []
  }

  /** What an event adds to the incoming queue. */
  function Entered(s: System, e: Event): seq<Mail> {
    match e
    case Line(line) =>
      var m := Meaning(NumberNow(s), NameNow(s), line);
      if IsLocal(line) || !ValidData(m.data) then [] else [m]
    case Socket(m) => FromServer(s, m)
    case Signal =>
      if ValidDisplayName(NameNow(s))
      then [Mail(ERR, ErrorMessage(NumberNow(s), NameNow(s), "MessageContent"), true, true)]
      else []
    case _ => []
  }

  /** Everything that has arrived in a run, and the part of it that came off the socket. */
  function Arrived(s: System, es: seq<Event>): seq<Mail> {
    if es == [] then []
    else
      var before, e := Run(s, es[..|es| - 1]), es[|es| - 1];
      Arrived(s, es[..|es| - 1]) + (if Enabled(before, e) then Entered(before, e) else [])
  }

  function TakenIn(s: System, es: seq<Event>): seq<Mail> {
    if es == [] then []
    else
      var before, e := Run(s, es[..|es| - 1]), es[|es| - 1];
      TakenIn(s, es[..|es| - 1]) + (if Enabled(before, e) && e.Socket? then FromServer(before, e.m) else [])
  }

  /** The messages of the socket events, whatever becomes of them. */
  function Messages(s: System, es: seq<Event>): seq<Mail> {
    if es == [] then []
    else
      var before, e := Run(s, es[..|es| - 1]), es[|es| - 1];
      Messages(s, es[..|es| - 1]) + (if Enabled(before, e) && e.Socket? then [e.m] else [])
  }

  ghost predicate Tracked(s: System) {
    && Titled(s) && s.c.box.sequence == NumberNow(s)
    && (s.c.box.protocol == UDP ==>
          s.c.link.refAuthId == LastRequest(s.transmitted) && s.c.box.srvMsgId == LastTaken(s.delivered))
  }

  lemma EnteredLine(s: System, line: string)
    requires Tracked(s) && Enabled(s, Line(line))
    ensures DoLine(s, line).added == s.added + Entered(s, Line(line))
    ensures DoLine(s, line).delivered == s.delivered
  {
    CommandMeaning(s.c.box.sequence, s.c.box.displayName, line);
    if Enter(s.c.box, line).Ok? {
      EnterMeaning(s.c.box, line);
    }
    assert s.added + [] == s.added;
  }

  lemma EnteredSocket(s: System, m: Mail)
    requires Tracked(s) && Enabled(s, Socket(m))
    ensures DoSocket(s, m).added == s.added + FromServer(s, m)
    ensures DoSocket(s, m).delivered == s.delivered + FromServer(s, m)
    ensures m.kind == REPLY ==> m.data.ReplyMessage?
  {
    assert Grown(s.c.box, OnSocket(s.c, m).box) == FromServer(s, m);
  }

  lemma EnteredSignal(s: System)
    requires Tracked(s) && Enabled(s, Signal)
    ensures DoSignal(s).added == s.added + Entered(s, Signal)
    ensures DoSignal(s).delivered == s.delivered
  {
    assert ValidContent("MessageContent");
    assert s.added + [] == s.added;
    if OnSignal(s.c).Ok? {
      SignalAdds(s.c);
    }
  }

  /** The other events leave the histories of the queue alone. */
  lemma EnteredNothing(s: System, e: Event)
    requires Enabled(s, e) && !e.Line? && !e.Socket? && !e.Signal?
    ensures Do(s, e).added == s.added && Do(s, e).delivered == s.delivered
  {
  }

  lemma EnteredStep(s: System, e: Event)
    requires Tracked(s) && Enabled(s, e)
    ensures Do(s, e).added == s.added + Entered(s, e)
    ensures Do(s, e).delivered == s.delivered + (if e.Socket? then FromServer(s, e.m) else [])
  {
    assert s.added + [] == s.added && s.delivered + [] == s.delivered;
    if e.Line? {
      EnteredLine(s, e.line);
    } else if e.Socket? {
      EnteredSocket(s, e.m);
    } else if e.Signal? {
      EnteredSignal(s);
    } else {
      EnteredNothing(s, e);
    }
  }

  lemma AlwaysTracked(protocol: Protocol, limit: int, es: seq<Event>)
    ensures Tracked(After(protocol, limit, es)) && After(protocol, limit, es).c.box.protocol == protocol
  {
    AlwaysTitled(protocol, limit, es);
    AlwaysBalanced(protocol, limit, es);
    AlwaysLimit(protocol, limit, es);
    if protocol == UDP {
      AlwaysAnswering(limit, es);
      AlwaysInOrder(limit, es);
    }
  }

  lemma {:induction false} AlwaysArrived(protocol: Protocol, limit: int, es: seq<Event>)
    ensures After(protocol, limit, es).added == Arrived(Init(protocol, limit), es)
    ensures After(protocol, limit, es).delivered == TakenIn(Init(protocol, limit), es)
    ensures protocol == TCP ==> TakenIn(Init(protocol, limit), es) == Messages(Init(protocol, limit), es)
  {
    if es != [] {
      var front, e := es[..|es| - 1], es[|es| - 1];
      var s := After(protocol, limit, front);
      AlwaysArrived(protocol, limit, front);
      AlwaysTracked(protocol, limit, front);
      assert s.added + [] == s.added && s.delivered + [] == s.delivered;
      if Enabled(s, e) {
        EnteredStep(s, e);
      }
    }
  }

  /** In every run, under every interleaving: what the machine has fetched and what still
      waits for it is, in order, what arrived, a mail for each accepted line under the
      display name in force, a mail for each message taken from the socket and an ERR for
      each signal. Over TCP that is every message that came. */
  lemma QueueIsWhatArrived(protocol: Protocol, limit: int, es: seq<Event>)
    ensures var s, start := After(protocol, limit, es), Init(protocol, limit);
            && s.consumed + s.c.box.incoming == Arrived(start, es)
            && s.delivered == (if protocol == TCP then Messages(start, es) else TakenIn(start, es))
  {
    AlwaysArrived(protocol, limit, es);
    AlwaysBalanced(protocol, limit, es);
  }

  /** ... and the machine, whenever it waits, can fetch the next of them and nothing else. */
  lemma FetchesInOrder(protocol: Protocol, limit: int, es: seq<Event>)
    ensures var s, all := After(protocol, limit, es), Arrived(Init(protocol, limit), es);
            && |s.consumed| <= |all| && s.consumed == all[..|s.consumed|]
            && (Enabled(s, FsmWait) <==>
                  Alive(s) && s.fpc == Idle && (s.state == StartState || s.state == AuthState || s.state == OpenState)
                  && |s.consumed| < |all|)
            && (Enabled(s, FsmWait) ==> After(protocol, limit, es + [FsmWait]).mail == all[|s.consumed|])
  {
    QueueIsWhatArrived(protocol, limit, es);
    assert (es + [FsmWait])[..|es|] == es;
    var s := After(protocol, limit, es);
    assert (s.consumed + s.c.box.incoming)[..|s.consumed|] == s.consumed;
  }

  // ------------------------------------------------------------ who asked the listener to stop

  /** An event that asks the loop to end: a signal, the BYE that is sent, or the main thread. */
  predicate AsksToStop(s: System, e: Event) {
    || (e.Signal? && ValidDisplayName(NameNow(s)))
    || (e.SendPop? && s.c.box.outgoing != [] && s.c.box.outgoing[0].kind == BYE)
    || e.MainStop?
  }

  predicate AskedToStop(s: System, es: seq<Event>) {
    if es == [] then false
    else
      var before, e := Run(s, es[..|es| - 1]), es[|es| - 1];
      AskedToStop(s, es[..|es| - 1]) || (Enabled(before, e) && AsksToStop(before, e))
  }

  lemma KeepRunningStep(s: System, e: Event)
    requires Titled(s) && Enabled(s, e)
    ensures Do(s, e).c.link.keepRunning <==> s.c.link.keepRunning && !AsksToStop(s, e)
  {
    if e.Signal? {
      KeepRunningSignal(s);
    } else if e.Socket? {
      KeepRunningSocket(s, e.m);
    } else if !e.SendPop? && !e.Timeout? && !e.MainStop? {
      KeepRunningFrame(s, e);
    }
  }

  lemma KeepRunningSignal(s: System)
    requires Titled(s) && Enabled(s, Signal)
    ensures DoSignal(s).c.link.keepRunning <==> s.c.link.keepRunning && !ValidDisplayName(NameNow(s))
  {
    assert ValidContent("MessageContent");
  }

  lemma KeepRunningSocket(s: System, m: Mail)
    requires Enabled(s, Socket(m))
    ensures DoSocket(s, m).c.link.keepRunning == s.c.link.keepRunning
  {
  }

  lemma KeepRunningFrame(s: System, e: Event)
    requires Enabled(s, e) && !e.Signal? && !e.Socket? && !e.SendPop? && !e.Timeout? && !e.MainStop?
    ensures Do(s, e).c.link.keepRunning == s.c.link.keepRunning
  {
  }

  /** `keepRunning` is cleared by exactly these events, and never set again. */
  lemma {:induction false} KeepsRunningIff(protocol: Protocol, limit: int, es: seq<Event>)
    ensures After(protocol, limit, es).c.link.keepRunning <==> !AskedToStop(Init(protocol, limit), es)
  {
    if es != [] {
      KeepsRunningIff(protocol, limit, es[..|es| - 1]);
      AlwaysTitled(protocol, limit, es[..|es| - 1]);
      var s := After(protocol, limit, es[..|es| - 1]);
      if Enabled(s, es[|es| - 1]) {
        KeepRunningStep(s, es[|es| - 1]);
      }
    }
  }
}
