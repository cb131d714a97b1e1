/** Runs that exist. The results about every run say what cannot happen; here are the runs
    they speak about: a conversation of any length over the network, a message of the
    server that is sent back, a shutdown that never comes, and, wherever the machine has
    said BYE, a continuation that ends the listener's loop. */
module Scenarios {
  import opened Mails
  import opened Streams
  import opened MailBoxes
  import opened Console
  import opened Fsm
  import opened Listeners
  import opened Systems
  import opened Accounting
  import opened Relaying
  import opened StopAndWait
  import opened TcpMode
  import opened Refinement
  import opened Network

  // ------------------------------------------------------------ the pieces of a run

  /** The listener is about to wait for events. */
  predicate AtTop(s: System) {
    s.status == Running && s.lpc == LoopTop && !LoopOver(s.c.link)
  }

  function TypeLine(line: string): seq<Event> {
    [Poll([StdinFd]), Line(line), StdinDone]
  }

  function Hear(m: Mail): seq<Event> {
    [Poll([SocketFd]), Socket(m)]
  }

  const SEND: seq<Event> := [Poll([ToSendFd]), SendRead, SendPop]
  const DECIDE: seq<Event> := [FsmWait, FsmAct, FsmNotify]

  lemma RunThree(s: System, e: Event, f: Event, g: Event)
    ensures Run(s, [e, f, g]) == Step(Step(Step(s, e), f), g)
  {
    assert [e, f, g][..2] == [e, f];
    RunTwo(s, e, f);
  }

  lemma PollOne(s: System, fd: Fd)
    requires AtTop(s) && (fd == ToSendFd ==> s.c.link.receivedConfirm && s.c.box.pipe > 0)
    ensures Step(s, Poll([fd])) == s.(c := s.c.(link := Sync(s.c.link)), lpc := Serving([fd]))
  {
    assert AnyOrder([fd]);
  }

  lemma LineTyped(s: System, line: string, mails: seq<Mail>, name: string)
    requires AtTop(s) && line != "" && OneLine(line)
    requires Enter(s.c.box, line) == Ok(s.c.box.(incoming := s.c.box.incoming + mails, displayName := name))
    ensures Run(s, TypeLine(line)) ==
            s.(c := Client(Enter(s.c.box, line).value, Sync(s.c.link)),
               added := s.added + mails, typed := s.typed + [line])
  {
    PollOne(s, StdinFd);
    RunThree(s, Poll([StdinFd]), Line(line), StdinDone);
    LineServed(Step(s, Poll([StdinFd])), line, mails, name);
  }

  lemma LineServed(s: System, line: string, mails: seq<Mail>, name: string)
    requires s.status == Running && s.lpc == Serving([StdinFd]) && line != "" && OneLine(line)
    requires Enter(s.c.box, line) == Ok(s.c.box.(incoming := s.c.box.incoming + mails, displayName := name))
    ensures Step(Step(s, Line(line)), StdinDone) ==
            s.(c := s.c.(box := Enter(s.c.box, line).value), lpc := LoopTop,
               added := s.added + mails, typed := s.typed + [line])
  {
    assert Grown(s.c.box, Enter(s.c.box, line).value) == mails;
  }

  lemma MachineSends(s: System, m: Mail, next: State)
    requires Alive(s) && s.fpc == Idle && s.state in {StartState, AuthState, OpenState} && s.c.box.incoming == [m]
    requires Shaped(m) && m.addToMailQueue && Act(s.state, Take(s.c.box), m) == Ok(Action(next, m, true))
    ensures Run(s, DECIDE) ==
            s.(c := s.c.(box := Notify(Push(Take(s.c.box), m))), mail := m, state := next,
               consumed := s.consumed + [m], sent := s.sent + [Stamp(s.c.box, m)])
  {
    RunThree(s, FsmWait, FsmAct, FsmNotify);
  }

  lemma SendServed(s: System)
    requires s.status == Running && s.lpc == Serving([ToSendFd]) && s.c.box.pipe > 0 && s.c.box.outgoing != []
    ensures var m, r := s.c.box.outgoing[0], Step(s, SendRead);
            && r == s.(c := s.c.(box := ReadByte(s.c.box)), lpc := Popping([ToSendFd]))
            && Step(r, SendPop) == s.(c := OnSend(r.c), lpc := LoopTop, transmitted := s.transmitted + [m],
                                      trace := s.trace + [First(m)])
  {
  }

  lemma Sends(s: System)
    requires AtTop(s) && s.c.link.receivedConfirm && s.c.box.pipe > 0 && s.c.box.outgoing != []
    ensures var m := s.c.box.outgoing[0];
            Run(s, SEND) == s.(c := OnSend(Client(ReadByte(s.c.box), Sync(s.c.link))),
                               transmitted := s.transmitted + [m], trace := s.trace + [First(m)])
  {
    PollOne(s, ToSendFd);
    RunThree(s, Poll([ToSendFd]), SendRead, SendPop);
    SendServed(Step(s, Poll([ToSendFd])));
  }

  lemma Heard1(s: System, m: Mail)
    requires AtTop(s) && FromSocket(s.c.box.protocol, m)
    ensures Run(s, Hear(m)) == DoSocket(s.(c := s.c.(link := Sync(s.c.link)), lpc := Serving([SocketFd])), m)
  {
    PollOne(s, SocketFd);
    RunTwo(s, Poll([SocketFd]), Socket(m));
  }

  lemma ConfirmHeard(s: System)
    requires AtTop(s) && s.c.box.protocol == UDP && !s.c.link.receivedConfirm && IsWord16(s.c.link.refMsgId)
    ensures Run(s, Hear(PeerConfirmation(s.c.link.refMsgId))) ==
            s.(c := s.c.(link := Sync(s.c.link).(receivedConfirm := true, retries := 0, refMsgId := -1)),
               trace := s.trace + [Acked(s.c.link.refMsgId)])
  {
    Heard1(s, PeerConfirmation(s.c.link.refMsgId));
  }

  // ------------------------------------------------------------ a mail from the keyboard to the wire

  /** Nothing is under way in either thread. */
  predicate AtRest(s: System) {
    && s.status == Running && s.lpc == LoopTop && s.fpc == Idle
    && s.c.box.incoming == [] && s.c.box.outgoing == [] && s.c.box.pipe == 0
    && s.c.link.receivedConfirm && s.c.link.keepRunning && ValidDisplayName(s.c.box.displayName)
  }

  predicate AllQuiet(s: System) {
    AtRest(s) && s.c.box.protocol == UDP
  }

  /** The same, but for the CONFIRM of the last mail. */
  predicate AllButConfirmed(s: System) {
    && s.status == Running && s.lpc == LoopTop && s.fpc == Idle && s.c.box.protocol == UDP
    && s.c.box.incoming == [] && s.c.box.outgoing == [] && s.c.box.pipe == 0
    && !s.c.link.receivedConfirm && s.c.link.keepRunning && ValidDisplayName(s.c.box.displayName)
  }

  function Round(line: string): seq<Event> {
    TypeLine(line) + DECIDE + SEND
  }

  /** From a state of rest the line makes mail m, which takes the machine to `next`. */
  predicate Leads(s: System, line: string, m: Mail, name: string, next: State) {
    && s.state in {StartState, AuthState, OpenState} && line != "" && OneLine(line)
    && Enter(s.c.box, line) == Ok(s.c.box.(incoming := s.c.box.incoming + [m], displayName := name))
    && ValidDisplayName(name) && Handled(m) && Numbered(m.data) && m.kind != BYE
    && Act(s.state, s.c.box.(displayName := name), m) == Ok(Action(next, m, true))
  }

  /** Typed, fetched, decided on and announced, but not yet sent. */
  lemma RoundQueues(s: System, line: string, m: Mail, name: string, next: State)
    requires AtRest(s) && Leads(s, line, m, name, next)
    ensures var t := Run(s, TypeLine(line) + DECIDE);
            var stamped := Stamp(s.c.box, m);
            && t.status == Running && t.lpc == LoopTop && t.fpc == Idle && t.state == next
            && t.c.box.incoming == [] && t.c.box.outgoing == [stamped] && t.c.box.pipe == 1
            && t.c.box.displayName == name && t.c.box.protocol == s.c.box.protocol
            && t.c.box.srvMsgId == s.c.box.srvMsgId && t.c.link == Sync(s.c.link)
            && t.transmitted == s.transmitted && t.sent == s.sent + [stamped]
            && MessageId(stamped) == s.c.box.sequence
  {
    var t1 := Run(s, TypeLine(line));
    LineTyped(s, line, [m], name);
    assert Take(t1.c.box) == s.c.box.(displayName := name);
    MachineSends(t1, m, next);
    assert Run(t1, DECIDE).c.box.outgoing == [Stamp(s.c.box, m)];
    RunAppend(s, TypeLine(line), DECIDE);
  }

  lemma RoundSends(s: System, line: string, m: Mail, name: string, next: State)
    requires AllQuiet(s) && Leads(s, line, m, name, next)
    ensures var t := Run(s, Round(line));
            var stamped := Stamp(s.c.box, m);
            && AllButConfirmed(t) && t.state == next && t.c.box.displayName == name
            && t.transmitted == s.transmitted + [stamped]
            && t.c.link.wire == s.c.link.wire + [stamped] && t.c.link.confMail == stamped
            && t.c.link.refMsgId == MessageId(stamped) == s.c.box.sequence
            && t.c.link.refAuthId == (if m.kind == AUTH || m.kind == JOIN then s.c.box.sequence else s.c.link.refAuthId)
            && t.c.box.srvMsgId == s.c.box.srvMsgId
  {
    RoundQueues(s, line, m, name, next);
    var u := Run(s, TypeLine(line) + DECIDE);
    Sends(u);
    assert Pop(ReadByte(u.c.box)).outgoing == [];
    RunAppend(s, TypeLine(line) + DECIDE, SEND);
  }

  /** Over TCP that is all: the mail is on the wire, and the client is at rest again. */
  lemma RoundSendsOverTcp(s: System, line: string, m: Mail, name: string, next: State)
    requires AtRest(s) && s.c.box.protocol == TCP && Leads(s, line, m, name, next)
    ensures var t := Run(s, Round(line));
            var stamped := Stamp(s.c.box, m);
            && AtRest(t) && t.c.box.protocol == TCP && t.state == next && t.c.box.displayName == name
            && t.sent == s.sent + [stamped] && t.c.link.wire == s.c.link.wire + [stamped]
  {
    RoundQueues(s, line, m, name, next);
    var u := Run(s, TypeLine(line) + DECIDE);
    Sends(u);
    assert Pop(ReadByte(u.c.box)).outgoing == [];
    RunAppend(s, TypeLine(line) + DECIDE, SEND);
  }

  /** The confirmation makes the client quiet again. */
  lemma ConfirmQuiets(s: System)
    requires AllButConfirmed(s) && IsWord16(s.c.link.refMsgId)
    ensures var t := Run(s, Hear(PeerConfirmation(s.c.link.refMsgId)));
            && AllQuiet(t) && t.state == s.state && t.transmitted == s.transmitted
            && t.c.box == s.c.box && t.c.link.refAuthId == s.c.link.refAuthId && t.c.link.wire == s.c.link.wire
  {
    ConfirmHeard(s);
  }

  /** A line that logs in. */
  predicate LogsIn(line: string) {
    && Token(line) == "/auth" && line != "" && OneLine(line)
    && ValidUsername(Word1(line)) && ValidSecret(Word2(line)) && ValidDisplayName(Word3(line))
  }

  /** A line that is a message, or one that changes the channel. */
  predicate Chats(line: string) {
    OneLine(line) && line != ""
    && (if Token(line) == "/join" then ValidChannelId(Word1(line))
        else Token(line) !in {"/auth", "/rename", "/help", "/print"} && ValidContent(line))
  }

  lemma LogInExists() returns (line: string)
    ensures LogsIn(line)
  {
    var c := " " + "c" + "";
    var b := " " + "b" + c;
    var a := " " + "a" + b;
    line := "/auth" + a;
    TokenRead("/auth", a);
    NextToken("a", b);
    NextToken("b", c);
    NextToken("c", "");
    assert OneLine(line);
  }

  lemma ChatExists() returns (line: string)
    ensures Chats(line)
  {
    line := "x";
    assert "x" + "" == "x";
    TokenRead("x", "");
  }

  /** The mail that a line makes in a given state. */
  function Written(s: System, line: string): Mail {
    Meaning(s.c.box.sequence, s.c.box.displayName, line)
  }

  lemma LogInLeads(s: System, line: string)
    requires s.state in {StartState, AuthState} && LogsIn(line)
    ensures Leads(s, line, Written(s, line), Word3(line), AuthState)
    ensures Written(s, line).kind == AUTH
    ensures Written(s, line).data == AuthMessage(s.c.box.sequence, Word1(line), Word3(line), Word2(line))
  {
    CommandMeaning(s.c.box.sequence, s.c.box.displayName, line);
  }

  /** The payload of such a line, from a user with this display name. */
  function ChatData(number: int, name: string, line: string): Data {
    if Token(line) == "/join" then JoinMessage(number, Word1(line), name) else TextMessage(number, name, line, true)
  }

  lemma ChatLeads(s: System, line: string)
    requires s.state == OpenState && Chats(line) && ValidDisplayName(s.c.box.displayName)
    ensures Leads(s, line, Written(s, line), s.c.box.displayName, OpenState)
    ensures Written(s, line).kind == (if Token(line) == "/join" then JOIN else MSG)
    ensures Written(s, line).data == ChatData(s.c.box.sequence, s.c.box.displayName, line)
  {
    CommandMeaning(s.c.box.sequence, s.c.box.displayName, line);
  }

  // ------------------------------------------------------------ the answer to a login

  /** A REPLY that the client takes as the answer to its last request. */
  predicate Answers(s: System, reply: Mail) {
    && reply.kind == REPLY && reply.data.ReplyMessage? && FromSocket(s.c.box.protocol, reply)
    && (s.c.box.protocol == UDP ==>
          reply.data.refMessageId == s.c.link.refAuthId && reply.data.messageId > s.c.box.srvMsgId)
  }

  function Decided(reply: Mail): seq<Event> {
    Hear(reply) + [FsmWait, FsmAct]
  }

  /** A positive answer opens the machine, a negative one leaves it where the user can try
      again. */
  lemma LoginAnswered(s: System, reply: Mail)
    requires AtRest(s) && s.state == AuthState && Answers(s, reply)
    ensures var t := Run(s, Decided(reply));
            && AtRest(t) && t.c.box.protocol == s.c.box.protocol
            && t.state == (if reply.data.result then OpenState else AuthState)
            && t.c.box.displayName == s.c.box.displayName && t.sent == s.sent && t.transmitted == s.transmitted
            && t.c.box.sequence == s.c.box.sequence && t.c.link.refAuthId == s.c.link.refAuthId
            && (if s.c.box.protocol == UDP then
                  && t.c.box.srvMsgId == reply.data.messageId
                  && t.c.link.wire == s.c.link.wire + [Confirmation(reply.data.messageId)]
                else t.c.link.wire == s.c.link.wire)
  {
    Heard1(s, reply);
    assert Run(s, Hear(reply)).c.box.incoming == [reply];
    ReplyFetched(Run(s, Hear(reply)), reply);
    RunAppend(s, Hear(reply), [FsmWait, FsmAct]);
  }

  lemma ReplyFetched(s: System, reply: Mail)
    requires s.status == Running && s.fpc == Idle && s.state == AuthState && s.c.box.incoming == [reply]
    requires reply.kind == REPLY && reply.data.ReplyMessage?
    ensures var t := Run(s, [FsmWait, FsmAct]);
            && t == s.(c := s.c.(box := Take(s.c.box)), mail := reply,
                       state := if reply.data.result then OpenState else AuthState,
                       consumed := s.consumed + [reply])
            && t.c.box.incoming == []
  {
    RunTwo(s, FsmWait, FsmAct);
  }

  /** A REPLY of a server over UDP, with its own number and that of the request. */
  function Reply(result: bool, id: int, ref: int): Mail {
    Mail(REPLY, ReplyMessage(id, result, ref, "text"), true, false)
  }

  // ------------------------------------------------------------ an open machine and the server's mails

  /** Log in, hear the CONFIRM and the REPLY, and open. */
  function Opening(login: string, id: int): seq<Event> {
    Round(login) + Hear(PeerConfirmation(0)) + Decided(Reply(true, id, 0))
  }

  lemma StartIsQuiet(limit: int)
    ensures AllQuiet(Init(UDP, limit))
  {
    assert ValidDisplayName("default");
  }

  lemma LoggedIn(limit: int, login: string)
    requires LogsIn(login)
    ensures var s := After(UDP, limit, Round(login) + Hear(PeerConfirmation(0)));
            && AllQuiet(s) && s.state == AuthState && s.c.link.refAuthId == 0 && s.c.box.srvMsgId == -1
  {
    var s := Init(UDP, limit);
    StartIsQuiet(limit);
    LogInLeads(s, login);
    RoundSends(s, login, Written(s, login), Word3(login), AuthState);
    ConfirmQuiets(Run(s, Round(login)));
    RunAppend(s, Round(login), Hear(PeerConfirmation(0)));
  }

  lemma OpeningOpens(limit: int, login: string, id: int)
    requires LogsIn(login) && IsWord16(id)
    ensures var s := After(UDP, limit, Opening(login, id));
            AllQuiet(s) && s.state == OpenState && s.c.box.srvMsgId == id
  {
    var before := Round(login) + Hear(PeerConfirmation(0));
    LoggedIn(limit, login);
    assert ValidContent("text");
    LoginAnswered(After(UDP, limit, before), Reply(true, id, 0));
    RunAppend(Init(UDP, limit), before, Decided(Reply(true, id, 0)));
  }

  lemma HeardAndFetched(s: System, m: Mail)
    requires AllQuiet(s) && s.state == OpenState
    requires FromSocket(UDP, m) && m.kind != REPLY && m.kind != CONFIRM && MessageId(m) > s.c.box.srvMsgId
    ensures var t := Run(s, Hear(m) + [FsmWait]);
            && t.status == Running && t.fpc == Deciding && t.state == OpenState && t.mail == m && m in t.delivered
  {
    Heard1(s, m);
    var u := Run(s, Hear(m));
    assert u.c.box.incoming == [m];
    RunOne(u, FsmWait);
    RunAppend(s, Hear(m), [FsmWait]);
  }

  /** Log in and let the machine fetch a message of the server. */
  function OpeningWith(login: string, m: Mail): seq<Event> {
    Opening(login, 0) + (Hear(m) + [FsmWait])
  }

  lemma OpeningFetches(limit: int, login: string, m: Mail)
    requires LogsIn(login)
    requires FromSocket(UDP, m) && m.kind != REPLY && m.kind != CONFIRM && MessageId(m) > 0
    ensures var s := After(UDP, limit, OpeningWith(login, m));
            && s.status == Running && s.fpc == Deciding && s.state == OpenState && s.mail == m && m in s.delivered
            && Enabled(s, FsmAct)
  {
    assert Shaped(m);
    OpeningOpens(limit, login, 0);
    HeardAndFetched(After(UDP, limit, Opening(login, 0)), m);
    RunAppend(Init(UDP, limit), Opening(login, 0), Hear(m) + [FsmWait]);
  }

  /** A run into the shutdown that never comes: after a BYE of the server the machine stops
      without one of its own, the listener goes on, and no continuation ever ends its loop. */
  lemma ServerByeDeserts(limit: nat, login: string, bye: Mail, more: seq<Event>)
    requires LogsIn(login) && FromSocket(UDP, bye) && bye.kind == BYE && MessageId(bye) > 0
    ensures var es := OpeningWith(login, bye) + [FsmAct];
            && Deserted(After(UDP, limit, es)) && After(UDP, limit, es).status == Running
            && After(UDP, limit, es + more).status != Exited
  {
    var es := OpeningWith(login, bye);
    OpeningFetches(limit, login, bye);
    BecomesDesertedIff(UDP, limit, es, FsmAct);
    AlwaysDisciplined(UDP, limit, es);
    NoByeWhileOpenState(After(UDP, limit, es));
    RunSnoc(Init(UDP, limit), es, FsmAct);
    NoExitAfterServerBye(UDP, limit, es, more);
  }

  lemma DesertedRunExists(limit: nat) returns (es: seq<Event>)
    ensures Deserted(After(UDP, limit, es)) && After(UDP, limit, es).status == Running
  {
    var login := LogInExists();
    var bye := Mail(BYE, ByeMessage(1), true, false);
    es := OpeningWith(login, bye) + [FsmAct];
    ServerByeDeserts(limit, login, bye, []);
  }

  /** While open the machine has not said BYE. */
  lemma NoByeWhileOpenState(s: System)
    requires Disciplined(s) && s.state in {StartState, AuthState, OpenState}
    ensures !HasBye(s.sent)
  {
    if s.state == AuthState || s.state == StartState {
      AuthIsBody(Kinds(s.sent));
    }
    BodyKinds(Kinds(s.sent));
    assert forall i :: 0 <= i < |s.sent| ==> Kinds(s.sent)[i] == s.sent[i].kind;
  }

  /** A run in which a JOIN of the server is sent back to it. */
  lemma ServerJoinEchoed(limit: nat, login: string, join: Mail)
    requires LogsIn(login) && FromSocket(UDP, join) && join.kind == JOIN && MessageId(join) > 0
    ensures var es := OpeningWith(login, join);
            var s, t := After(UDP, limit, es), After(UDP, limit, es + [FsmAct]);
            && join in s.delivered
            && |t.sent| == |s.sent| + 1 && Plain(t.sent[|s.sent|]) == Plain(join)
  {
    OpeningFetches(limit, login, join);
    EchoedIff(UDP, limit, OpeningWith(login, join));
  }

  lemma EchoExists(limit: nat) returns (es: seq<Event>, join: Mail)
    ensures var s, t := After(UDP, limit, es), After(UDP, limit, es + [FsmAct]);
            && join.kind == JOIN && join in s.delivered
            && |t.sent| == |s.sent| + 1 && Plain(t.sent[|s.sent|]) == Plain(join)
  {
    var login := LogInExists();
    join := Mail(JOIN, JoinMessage(1, "a", "b"), true, false);
    es := OpeningWith(login, join);
    ServerJoinEchoed(limit, login, join);
  }

  // ------------------------------------------------------------ ending the loop

  /** The machine has stopped with a BYE, and the listener is at the head of its loop. */
  predicate Ending(s: System) {
    s.status == Running && s.lpc == LoopTop && s.state == EndState && HasBye(s.sent)
  }

  function ToGo(s: System): nat {
    2 * |s.c.box.outgoing| + Between(!s.c.link.receivedConfirm) + Between(s.fpc == Notifying)
  }

  function NextToExit(s: System): seq<Event> {
    if s.fpc == Notifying then [FsmNotify]
    else if !s.c.link.receivedConfirm then Hear(PeerConfirmation(s.c.link.refMsgId))
    else if s.c.box.outgoing != [] then SEND
    else [Leave]
  }

  /** Announce, hear the CONFIRM awaited, send the next mail, or leave. */
  lemma StepToExit(s: System)
    requires Ending(s) && Balanced(s) && Leaving(s) && s.fpc != Deciding
    requires s.c.link.sentBye ==> s.c.box.outgoing == []
    requires !s.c.link.receivedConfirm ==> s.c.box.protocol == UDP && IsWord16(s.c.link.refMsgId)
    ensures var t := Run(s, NextToExit(s)); t.status == Exited || (Ending(t) && ToGo(t) < ToGo(s))
  {
    if s.fpc == Notifying {
      RunOne(s, FsmNotify);
    } else if !s.c.link.receivedConfirm {
      ConfirmHeard(s);
    } else if s.c.box.outgoing != [] {
      StepToExitSend(s);
    } else {
      assert s.transmitted == s.sent;
      RunOne(s, Leave);
    }
  }

  lemma StepToExitSend(s: System)
    requires Ending(s) && s.c.link.receivedConfirm && !s.c.link.sentBye
    requires s.c.box.pipe > 0 && s.c.box.outgoing != []
    ensures var t := Run(s, SEND); Ending(t) && ToGo(t) < ToGo(s)
  {
    Sends(s);
    assert |Pop(s.c.box).outgoing| == |s.c.box.outgoing| - 1;
  }

  lemma StepOfRun(protocol: Protocol, limit: nat, es: seq<Event>) returns (step: seq<Event>)
    requires Ending(After(protocol, limit, es))
    ensures var s, t := After(protocol, limit, es), After(protocol, limit, es + step);
            t.status == Exited || (Ending(t) && ToGo(t) < ToGo(s))
  {
    var s := After(protocol, limit, es);
    EndingFacts(protocol, limit, es);
    StepToExit(s);
    step := NextToExit(s);
    RunAppend(Init(protocol, limit), es, step);
  }

  /** A machine that has stopped with a BYE can always be followed by the listener: drain the
      queue, hear a CONFIRM for each mail, and leave. */
  lemma {:induction false} ExitReachable(protocol: Protocol, limit: nat, es: seq<Event>) returns (more: seq<Event>)
    requires Ending(After(protocol, limit, es))
    ensures After(protocol, limit, es + more).status == Exited
    decreases ToGo(After(protocol, limit, es))
  {
    var step := StepOfRun(protocol, limit, es);
    if After(protocol, limit, es + step).status == Exited {
      more := step;
    } else {
      var rest := ExitReachable(protocol, limit, es + step);
      more := step + rest;
      assert es + more == es + step + rest;
    }
  }

  lemma EndingFacts(protocol: Protocol, limit: nat, es: seq<Event>)
    requires Ending(After(protocol, limit, es))
    ensures var s := After(protocol, limit, es);
            && Balanced(s) && Leaving(s) && s.fpc != Deciding
            && (s.c.link.sentBye ==> s.c.box.outgoing == [])
            && (!s.c.link.receivedConfirm ==> s.c.box.protocol == UDP && IsWord16(s.c.link.refMsgId))
  {
    var s := After(protocol, limit, es);
    AlwaysBalanced(protocol, limit, es);
    AlwaysDisciplined(protocol, limit, es);
    AlwaysGated(protocol, limit, es);
    AlwaysLimit(protocol, limit, es);
    if s.c.link.sentBye {
      ByeIsLast(s);
    }
    if !s.c.link.receivedConfirm {
      AwaitedWord(protocol, limit, es);
    }
  }

  /** What is awaited is the number of a mail, and only over UDP. */
  lemma AwaitedWord(protocol: Protocol, limit: nat, es: seq<Event>)
    requires !After(protocol, limit, es).c.link.receivedConfirm
    ensures protocol == UDP && IsWord16(After(protocol, limit, es).c.link.refMsgId)
  {
    if protocol == TCP {
      AlwaysPlainQueue(limit, es);
    } else {
      AlwaysWindow(limit, es);
      AlwaysBalanced(UDP, limit, es);
      var s := After(UDP, limit, es);
      assert s.sent[|s.transmitted| - 1] == s.c.link.confMail;
    }
  }

  /** The exact condition of termination: once the machine has stopped, the listener's loop
      can still come to its end if and only if the machine has sent a BYE. */
  lemma ExitReachableIff(protocol: Protocol, limit: nat, es: seq<Event>)
    requires var s := After(protocol, limit, es); s.status == Running && s.lpc == LoopTop && s.state == EndState
    ensures (exists more :: After(protocol, limit, es + more).status == Exited)
            <==> HasBye(After(protocol, limit, es).sent)
  {
    if HasBye(After(protocol, limit, es).sent) {
      var more := ExitReachable(protocol, limit, es);
    } else {
      forall more
        ensures After(protocol, limit, es + more).status != Exited
      {
        DesertedForGood(protocol, limit, es, more);
      }
    }
  }

  /** From every state in which the machine waits, with nothing queued for it, the client can
      be ended: by a signal, after a `/rename` if the display name cannot stand in an ERR. */
  lemma IdleCanEnd(protocol: Protocol, limit: nat, es: seq<Event>) returns (more: seq<Event>)
    requires var s := After(protocol, limit, es);
             && s.status == Running && s.lpc == LoopTop && s.fpc == Idle && s.c.box.incoming == []
             && s.state in {StartState, AuthState, OpenState}
    ensures After(protocol, limit, es + more).status == Exited
    decreases Between(!ValidDisplayName(After(protocol, limit, es).c.box.displayName))
  {
    var s := After(protocol, limit, es);
    WaitingAtTop(protocol, limit, es);
    if ValidDisplayName(s.c.box.displayName) {
      SignalHeard(s);
      RunAppend(Init(protocol, limit), es, Interrupt());
      var rest := ExitReachable(protocol, limit, es + Interrupt());
      more := Interrupt() + rest;
      assert es + more == es + Interrupt() + rest;
    } else {
      var line := RenameExists();
      Renamed(s, line);
      RunAppend(Init(protocol, limit), es, TypeLine(line));
      var rest := IdleCanEnd(protocol, limit, es + TypeLine(line));
      more := TypeLine(line) + rest;
      assert es + more == es + TypeLine(line) + rest;
    }
  }

  lemma Renamed(s: System, line: string)
    requires AtTop(s) && line != "" && OneLine(line) && Token(line) == "/rename"
    ensures Run(s, TypeLine(line)) ==
            s.(c := Client(s.c.box.(displayName := Word1(line)), Sync(s.c.link)), typed := s.typed + [line])
  {
    CommandMeaning(s.c.box.sequence, s.c.box.displayName, line);
    assert s.c.box.incoming + [] == s.c.box.incoming && s.added + [] == s.added;
    LineTyped(s, line, [], Word1(line));
  }

  lemma RenameExists() returns (line: string)
    ensures line != "" && OneLine(line) && Token(line) == "/rename" && ValidDisplayName(Word1(line))
  {
    var a := " " + "a" + "";
    line := "/rename" + a;
    TokenRead("/rename", a);
    NextToken("a", "");
    assert OneLine(line);
  }

  /** While the machine waits for mails the loop is not over. */
  lemma WaitingAtTop(protocol: Protocol, limit: nat, es: seq<Event>)
    requires var s := After(protocol, limit, es);
             s.status == Running && s.lpc == LoopTop && s.state in {StartState, AuthState, OpenState}
    ensures AtTop(After(protocol, limit, es))
  {
    var s := After(protocol, limit, es);
    AlwaysBalanced(protocol, limit, es);
    AlwaysDisciplined(protocol, limit, es);
    AlwaysGated(protocol, limit, es);
    NoByeWhileOpenState(s);
    if s.c.link.sentBye {
      ByeIsLast(s);
    }
  }

  /** A signal, and what the machine makes of it. */
  function Interrupt(): seq<Event> {
    [Poll([SignalFd]), Signal] + [FsmWait, FsmAct]
  }

  lemma SignalHeard(s: System)
    requires AtTop(s) && s.fpc == Idle && s.c.box.incoming == []
    requires s.state in {StartState, AuthState, OpenState} && ValidDisplayName(s.c.box.displayName)
    ensures Ending(Run(s, Interrupt())) && SaysBye(s, Run(s, Interrupt()))
  {
    PollOne(s, SignalFd);
    RunTwo(s, Poll([SignalFd]), Signal);
    var u := Run(s, [Poll([SignalFd]), Signal]);
    assert ValidContent("MessageContent");
    var err := Mail(ERR, ErrorMessage(s.c.box.sequence, s.c.box.displayName, "MessageContent"), true, true);
    assert u.c.box.incoming == [err];
    SignalFetched(u, err);
    RunAppend(s, [Poll([SignalFd]), Signal], [FsmWait, FsmAct]);
  }

  /** The machine has queued a BYE, which it has still to announce. */
  predicate SaysBye(s: System, t: System) {
    && t.fpc == Notifying && t.transmitted == s.transmitted && t.sent != []
    && (var bye := t.sent[|t.sent| - 1];
        && bye.kind == BYE && MessageId(bye) == s.c.box.sequence
        && t.sent == s.sent + [bye] && t.c.box.outgoing == s.c.box.outgoing + [bye])
    && t.c.box.pipe == s.c.box.pipe && t.c.box.protocol == s.c.box.protocol
    && t.c.link.receivedConfirm == s.c.link.receivedConfirm && t.c.link.sentBye == s.c.link.sentBye
    && t.c.link.wire == s.c.link.wire
  }

  lemma SignalFetched(s: System, err: Mail)
    requires s.status == Running && s.lpc == LoopTop && s.fpc == Idle && s.c.box.incoming == [err]
    requires s.state in {StartState, AuthState, OpenState}
    requires err.kind == ERR && err.sigint && err.addToMailQueue && Shaped(err)
    ensures Ending(Run(s, [FsmWait, FsmAct])) && SaysBye(s, Run(s, [FsmWait, FsmAct]))
  {
    RunTwo(s, FsmWait, FsmAct);
    var w := Step(s, FsmWait);
    var bye := err.(kind := BYE, data := ByeMessage(w.c.box.sequence));
    assert Act(w.state, w.c.box, err) == Ok(Action(EndState, bye, true));
    HasByeSnoc(w.sent, Stamp(w.c.box, bye));
  }

  /** So some run ends, over either transport. */
  lemma SomeRunExits(protocol: Protocol, limit: nat)
    ensures exists es :: After(protocol, limit, es).status == Exited
  {
    var more := IdleCanEnd(protocol, limit, []);
  }
}
