/** Conversations that can take place, over the network and over TCP: refused logins, a
    login, and any messages, mail by mail with every field. */
module Conversations {
  import opened Mails
  import opened Words
  import opened Streams
  import opened MailBoxes
  import opened Console
  import opened Fsm
  import opened Systems
  import opened Accounting
  import opened Serializer
  import opened StopAndWait
  import opened TcpMode
  import opened Formats
  import opened Refinement
  import opened Network
  import opened Scenarios

  function Locals(es: seq<Event>): seq<Move> {
    seq(|es|, i requires 0 <= i < |es| => Local(es[i]))
  }

  lemma {:induction false} PlayAppend(w: World, moves: seq<Move>, more: seq<Move>)
    ensures Play(w, moves + more) == Play(Play(w, moves), more)
    decreases |more|
  {
    if more == [] {
      assert moves + more == moves;
    } else {
      assert (moves + more)[..|moves + more| - 1] == moves + more[..|more| - 1];
      PlayAppend(w, moves, more[..|more| - 1]);
    }
  }

  /** The network does not interfere with steps that need no datagram it has not got. */
  lemma {:induction false} PlayLocals(w: World, es: seq<Event>)
    requires forall i :: 0 <= i < |es| ==> !es[i].BadSocket? && (es[i].Socket? ==> es[i].m in w.toClient)
    ensures Play(w, Locals(es)) == w.(s := Run(w.s, es))
  {
    if es != [] {
      var front := es[..|es| - 1];
      PlayLocals(w, front);
      assert Locals(es)[..|es| - 1] == Locals(front);
    }
  }

  lemma PlayOne(w: World, move: Move)
    requires Allowed(w, move)
    ensures Play(w, [move]) == Apply(w, move)
  {
    assert [move][..0] == [];
    assert Play(w, []) == w;
  }

  /** The peer gets the outstanding mail and confirms it, and the CONFIRM arrives. */
  function Exchange(m: Mail): seq<Move> {
    [PeerTake(m)] + [PeerConfirm(MessageId(m))] + Locals(Hear(PeerConfirmation(MessageId(m))))
  }

  lemma Exchanged(w: World)
    requires AtTop(w.s) && w.s.c.box.protocol == UDP && !w.s.c.link.receivedConfirm
    requires var m := w.s.c.link.confMail;
             && m in w.s.c.link.wire && m.kind != CONFIRM && w.s.c.link.refMsgId == MessageId(m)
             && IsWord16(MessageId(m)) && ReadBack(w.signedChar, MessageId(m)) == MessageId(m)
    ensures var m := w.s.c.link.confMail;
            var v := Play(w, Exchange(m));
            && v.s == Run(w.s, Hear(PeerConfirmation(MessageId(m))))
            && v.outbox == w.outbox && v.acks == w.acks
            && v.signedChar == w.signedChar && v.disciplined == w.disciplined
  {
    var m := w.s.c.link.confMail;
    var id := MessageId(m);
    PlayOne(w, PeerTake(m));
    var w1 := Play(w, [PeerTake(m)]);
    assert Heard(w1.received, id) by {
      if !Heard(w.received, id) {
        assert w1.received[|w.received|] == m;
      }
    }
    PlayOne(w1, PeerConfirm(id));
    PlayAppend(w, [PeerTake(m)], [PeerConfirm(id)]);
    var w2 := Play(w1, [PeerConfirm(id)]);
    assert PeerConfirmation(id) in w2.toClient;
    PlayLocals(w2, Hear(PeerConfirmation(id)));
    PlayAppend(w, [PeerTake(m)] + [PeerConfirm(id)], Locals(Hear(PeerConfirmation(id))));
  }

  /** A line is typed, sent, received and confirmed. */
  lemma WorldRound(w: World, line: string, m: Mail, name: string, next: State) returns (more: seq<Move>)
    requires AllQuiet(w.s) && Leads(w.s, line, m, name, next)
    requires IsWord16(w.s.c.box.sequence) && ReadBack(w.signedChar, w.s.c.box.sequence) == w.s.c.box.sequence
    requires m.kind != CONFIRM
    ensures var v := Play(w, more);
            && AllQuiet(v.s) && v.s.state == next && v.s.transmitted == w.s.transmitted + [Stamp(w.s.c.box, m)]
            && v.s.c.box.displayName == name && v.s.c.box.srvMsgId == w.s.c.box.srvMsgId
            && (m.kind == AUTH ==> v.s.c.link.refAuthId == w.s.c.box.sequence)
            && v.outbox == w.outbox && v.acks == w.acks
            && v.signedChar == w.signedChar && v.disciplined == w.disciplined
  {
    RoundSends(w.s, line, m, name, next);
    PlayLocals(w, Round(line));
    var u := Play(w, Locals(Round(line)));
    Exchanged(u);
    ConfirmQuiets(u.s);
    more := Locals(Round(line)) + Exchange(u.s.c.link.confMail);
    PlayAppend(w, Locals(Round(line)), Exchange(u.s.c.link.confMail));
  }

  /** In a world the next number is the number of mails sent. */
  lemma NextNumber(limit: nat, disciplined: bool, signedChar: bool, moves: seq<Move>)
    ensures var w := Play(Start(limit, disciplined, signedChar), moves);
            && (AllQuiet(w.s) ==> w.s.sent == w.s.transmitted && w.s.c.box.sequence == |w.s.transmitted| % 0x1_0000)
            && w.signedChar == signedChar
  {
    AlwaysSane(limit, disciplined, signedChar, moves);
    var es := WorldIsRun(limit, disciplined, signedChar, moves);
  }

  /** The numbers that survive in this world, as far as it goes. */
  lemma ReadsBack(signedChar: bool, n: nat)
    requires signedChar ==> n < 128
    ensures ReadBack(signedChar, n % 0x1_0000) == n % 0x1_0000
  {
  }

  // ------------------------------------------------------------ what a conversation leaves behind

  function ChatKind(line: string): Kind {
    if Token(line) == "/join" then JOIN else MSG
  }

  /** Mail i of some logins with the same line and then these messages: under its number,
      with the fields of its line and the display name of the login. */
  predicate CarriesAt(mails: seq<Mail>, i: nat, login: string, logins: nat, lines: seq<string>) {
    i < |mails| == logins + |lines|
    && (if i < logins then
          && mails[i].kind == AUTH
          && mails[i].data == AuthMessage(i % 0x1_0000, Word1(login), Word3(login), Word2(login))
        else
          && mails[i].kind == ChatKind(lines[i - logins])
          && mails[i].data == ChatData(i % 0x1_0000, Word3(login), lines[i - logins]))
  }

  predicate AllChats(lines: seq<string>) {
    forall i :: 0 <= i < |lines| ==> Chats(lines[i])
  }

  lemma AllChatsFront(lines: seq<string>)
    requires AllChats(lines) && lines != []
    ensures AllChats(lines[..|lines| - 1]) && Chats(lines[|lines| - 1])
  {
  }

  ghost predicate Carry(mails: seq<Mail>, login: string, logins: nat, lines: seq<string>) {
    |mails| == logins + |lines| && forall i: nat :: i < |mails| ==> CarriesAt(mails, i, login, logins, lines)
  }

  lemma CarryLogin(mails: seq<Mail>, login: string, logins: nat, m: Mail)
    requires Carry(mails, login, logins, []) && m.kind == AUTH
    requires m.data == AuthMessage(|mails| % 0x1_0000, Word1(login), Word3(login), Word2(login))
    ensures Carry(mails + [m], login, logins + 1, [])
  {
    var more, n, none: seq<string> := mails + [m], logins + 1, [];
    forall i: nat | i < |more|
      ensures CarriesAt(more, i, login, n, none)
    {
      assert i < |mails| ==> CarriesAt(mails, i, login, logins, []);
    }
  }

  lemma CarryLine(mails: seq<Mail>, login: string, logins: nat, lines: seq<string>, m: Mail, line: string)
    requires Carry(mails, login, logins, lines) && m.kind == ChatKind(line)
    requires m.data == ChatData(|mails| % 0x1_0000, Word3(login), line)
    ensures Carry(mails + [m], login, logins, lines + [line])
  {
    var more, longer := mails + [m], lines + [line];
    forall i: nat | i < |more|
      ensures CarriesAt(more, i, login, logins, longer)
    {
      if i < |mails| {
        assert CarriesAt(mails, i, login, logins, lines);
        assert i >= logins ==> longer[i - logins] == lines[i - logins];
      }
    }
  }

  lemma StampedLogin(s: System, mails: seq<Mail>, login: string, n: nat)
    requires s.state in {StartState, AuthState} && LogsIn(login) && s.c.box.sequence == n % 0x1_0000
    requires Carry(mails, login, n, [])
    ensures Carry(mails + [Stamp(s.c.box, Written(s, login))], login, n + 1, [])
  {
    LogInLeads(s, login);
    CarryLogin(mails, login, n, Stamp(s.c.box, Written(s, login)));
  }

  lemma StampedChat(s: System, line: string)
    requires s.state == OpenState && Chats(line) && ValidDisplayName(s.c.box.displayName)
    ensures var m := Stamp(s.c.box, Written(s, line));
            m.kind == ChatKind(line) && m.data == ChatData(s.c.box.sequence, s.c.box.displayName, line)
  {
    ChatLeads(s, line);
  }

  // ------------------------------------------------------------ over UDP

  /** So many logins have been refused. */
  ghost predicate Refused(w: World, login: string, n: nat) {
    && AllQuiet(w.s) && w.s.state in {StartState, AuthState}
    && Carry(w.s.transmitted, login, n, []) && w.s.c.box.sequence == n % 0x1_0000
    && |w.outbox| == n && w.s.c.box.srvMsgId == n - 1 && (n > 0 ==> n - 1 in w.acks)
  }

  lemma LoginRound(w: World, login: string, n: nat) returns (more: seq<Move>)
    requires AllQuiet(w.s) && w.s.state in {StartState, AuthState} && LogsIn(login)
    requires Carry(w.s.transmitted, login, n, []) && w.s.c.box.sequence == n % 0x1_0000
    requires ReadBack(w.signedChar, n % 0x1_0000) == n % 0x1_0000
    ensures var v := Play(w, more);
            && AllQuiet(v.s) && v.s.state == AuthState
            && Carry(v.s.transmitted, login, n + 1, [])
            && v.s.c.box.displayName == Word3(login) && v.s.c.link.refAuthId == n % 0x1_0000
            && v.s.c.box.srvMsgId == w.s.c.box.srvMsgId && v.outbox == w.outbox && v.acks == w.acks
            && v.signedChar == w.signedChar && v.disciplined == w.disciplined
  {
    LogInLeads(w.s, login);
    StampedLogin(w.s, w.s.transmitted, login, n);
    more := WorldRound(w, login, Written(w.s, login), Word3(login), AuthState);
  }

  /** The user logs in once more, and everything but the answer has arrived. */
  lemma LogsInAgain(w: World, login: string, n: nat) returns (more: seq<Move>)
    requires Refused(w, login, n) && LogsIn(login) && n < 0x1_0000 && (w.signedChar ==> n < 128)
    ensures var v := Play(w, more);
            && AllQuiet(v.s) && v.s.state == AuthState && Carry(v.s.transmitted, login, n + 1, [])
            && v.s.c.box.displayName == Word3(login) && v.s.c.link.refAuthId == n && v.s.c.box.srvMsgId == n - 1
            && v.outbox == w.outbox && v.acks == w.acks
            && v.signedChar == w.signedChar && v.disciplined == w.disciplined
  {
    ReadsBack(w.signedChar, n);
    more := LoginRound(w, login, n);
  }

  /** The peer answers, the client confirms the answer, and the peer gets the CONFIRM. */
  function Answer(reply: Mail): seq<Move>
    requires reply.data.ReplyMessage?
  {
    [PeerSend(reply)] + Locals(Decided(reply)) + [PeerTake(Confirmation(reply.data.messageId))]
  }

  lemma PeerAnswers(w: World, reply: Mail)
    requires AllQuiet(w.s) && w.s.state == AuthState && Answers(w.s, reply)
    requires Allowed(w, PeerSend(reply)) && AsRead(w.signedChar, reply) == reply
    ensures var v := Play(w, Answer(reply));
            && AllQuiet(v.s) && v.s.state == (if reply.data.result then OpenState else AuthState)
            && v.s.transmitted == w.s.transmitted && v.s.c.box.displayName == w.s.c.box.displayName
            && v.s.c.box.sequence == w.s.c.box.sequence && v.s.c.box.srvMsgId == reply.data.messageId
            && v.outbox == w.outbox + [reply] && reply.data.messageId in v.acks
            && v.signedChar == w.signedChar && v.disciplined == w.disciplined
  {
    PlayOne(w, PeerSend(reply));
    var u := Play(w, [PeerSend(reply)]);
    PlayLocals(u, Decided(reply));
    LoginAnswered(w.s, reply);
    PlayAppend(w, [PeerSend(reply)], Locals(Decided(reply)));
    var v := Play(u, Locals(Decided(reply)));
    var confirmation := Confirmation(reply.data.messageId);
    assert v.s.c.link.wire[|v.s.c.link.wire| - 1] == confirmation;
    PlayOne(v, PeerTake(confirmation));
    PlayAppend(w, [PeerSend(reply)] + Locals(Decided(reply)), [PeerTake(confirmation)]);
  }

  /** The peer may send the answer to login n, and the client takes it for that. */
  lemma AnswerFits(w: World, n: nat, result: bool)
    requires AllQuiet(w.s) && w.s.c.link.refAuthId == n && w.s.c.box.srvMsgId == n - 1
    requires |w.outbox| == n < 0x1_0000 && (n > 0 ==> n - 1 in w.acks) && (w.signedChar ==> n < 128)
    ensures var reply := Reply(result, n, n);
            Answers(w.s, reply) && Allowed(w, PeerSend(reply)) && AsRead(w.signedChar, reply) == reply
  {
    assert ValidContent("text");
    ReadsBack(w.signedChar, n);
  }

  /** Any number of refusals, as far as the server's numbers go: each REPLY needs one of its
      own above the last. */
  lemma {:induction false} Refusals(limit: nat, disciplined: bool, signedChar: bool, login: string, n: nat)
    returns (moves: seq<Move>)
    requires LogsIn(login) && n <= 0x1_0000 && (signedChar ==> n <= 128)
    ensures var w := Play(Start(limit, disciplined, signedChar), moves);
            Refused(w, login, n) && w.signedChar == signedChar
  {
    var start := Start(limit, disciplined, signedChar);
    if n == 0 {
      StartIsQuiet(limit);
      moves := [];
    } else {
      var before := Refusals(limit, disciplined, signedChar, login, n - 1);
      var once := OneRefusal(Play(start, before), login, n - 1);
      PlayAppend(start, before, once);
      moves := before + once;
      NextNumber(limit, disciplined, signedChar, moves);
    }
  }

  lemma OneRefusal(w: World, login: string, n: nat) returns (more: seq<Move>)
    requires Refused(w, login, n) && LogsIn(login) && n < 0x1_0000 && (w.signedChar ==> n < 128)
    ensures var v := Play(w, more);
            && AllQuiet(v.s) && v.s.state == AuthState && Carry(v.s.transmitted, login, n + 1, [])
            && |v.outbox| == n + 1 && v.s.c.box.srvMsgId == n && n in v.acks
  {
    var again := LogsInAgain(w, login, n);
    var u := Play(w, again);
    AnswerFits(u, n, false);
    PeerAnswers(u, Reply(false, n, n));
    PlayAppend(w, again, Answer(Reply(false, n, n)));
    more := again + Answer(Reply(false, n, n));
  }

  /** The user was refused a few times, logged in and typed the lines, and everything was
      received and confirmed. */
  ghost predicate Conversed(s: System, login: string, refusals: nat, lines: seq<string>) {
    && AllQuiet(s) && s.state == OpenState && s.c.box.displayName == Word3(login)
    && Carry(s.transmitted, login, refusals + 1, lines)
  }

  lemma ConversationBegins(limit: nat, disciplined: bool, signedChar: bool, login: string, refusals: nat)
    returns (moves: seq<Move>)
    requires LogsIn(login) && refusals < 0x1_0000 && (signedChar ==> refusals < 128)
    ensures Conversed(Play(Start(limit, disciplined, signedChar), moves).s, login, refusals, [])
  {
    var start := Start(limit, disciplined, signedChar);
    var before := Refusals(limit, disciplined, signedChar, login, refusals);
    var accepted := LoginAccepted(Play(start, before), login, refusals);
    PlayAppend(start, before, accepted);
    moves := before + accepted;
  }

  lemma LoginAccepted(w: World, login: string, n: nat) returns (more: seq<Move>)
    requires Refused(w, login, n) && LogsIn(login) && n < 0x1_0000 && (w.signedChar ==> n < 128)
    ensures Conversed(Play(w, more).s, login, n, [])
  {
    var again := LogsInAgain(w, login, n);
    var u := Play(w, again);
    AnswerFits(u, n, true);
    PeerAnswers(u, Reply(true, n, n));
    PlayAppend(w, again, Answer(Reply(true, n, n)));
    more := again + Answer(Reply(true, n, n));
  }

  lemma ChatRound(w: World, line: string) returns (more: seq<Move>, m: Mail)
    requires AllQuiet(w.s) && w.s.state == OpenState && Chats(line)
    requires IsWord16(w.s.c.box.sequence) && ReadBack(w.signedChar, w.s.c.box.sequence) == w.s.c.box.sequence
    ensures var v := Play(w, more);
            && AllQuiet(v.s) && v.s.state == OpenState && v.s.c.box.displayName == w.s.c.box.displayName
            && v.s.transmitted == w.s.transmitted + [m]
    ensures m.kind == ChatKind(line) && m.data == ChatData(w.s.c.box.sequence, w.s.c.box.displayName, line)
  {
    ChatLeads(w.s, line);
    StampedChat(w.s, line);
    m := Stamp(w.s.c.box, Written(w.s, line));
    more := WorldRound(w, line, Written(w.s, line), w.s.c.box.displayName, OpenState);
  }

  lemma ConversationContinues(w: World, login: string, refusals: nat, lines: seq<string>, line: string)
    returns (more: seq<Move>)
    requires Conversed(w.s, login, refusals, lines) && Chats(line)
    requires w.s.c.box.sequence == |w.s.transmitted| % 0x1_0000 && (w.signedChar ==> |w.s.transmitted| < 128)
    ensures Conversed(Play(w, more).s, login, refusals, lines + [line])
  {
    ReadsBack(w.signedChar, |w.s.transmitted|);
    var m;
    more, m := ChatRound(w, line);
    CarryLine(w.s.transmitted, login, refusals + 1, lines, m, line);
  }

  lemma OneMore(limit: nat, disciplined: bool, signedChar: bool, moves: seq<Move>, login: string, refusals: nat,
                lines: seq<string>, line: string)
    returns (longer: seq<Move>)
    requires Conversed(Play(Start(limit, disciplined, signedChar), moves).s, login, refusals, lines) && Chats(line)
    requires signedChar ==> refusals + |lines| < 127
    ensures Conversed(Play(Start(limit, disciplined, signedChar), longer).s, login, refusals, lines + [line])
  {
    NextNumber(limit, disciplined, signedChar, moves);
    var w := Play(Start(limit, disciplined, signedChar), moves);
    var round := ConversationContinues(w, login, refusals, lines, line);
    PlayAppend(Start(limit, disciplined, signedChar), moves, round);
    longer := moves + round;
  }

  /** Any conversation can take place: the user is refused up to 65535 times, logs in and
      types any messages one by one, and everything arrives and is confirmed. With a signed
      `char` there is room for 128 mails. */
  lemma {:induction false} Conversation(limit: nat, disciplined: bool, signedChar: bool, login: string,
                                        refusals: nat, lines: seq<string>)
    returns (moves: seq<Move>)
    requires LogsIn(login) && AllChats(lines)
    requires refusals < 0x1_0000 && (signedChar ==> refusals + |lines| < 128)
    ensures Conversed(Play(Start(limit, disciplined, signedChar), moves).s, login, refusals, lines)
  {
    if lines == [] {
      moves := ConversationBegins(limit, disciplined, signedChar, login, refusals);
    } else {
      var n := |lines| - 1;
      AllChatsFront(lines);
      var before := Conversation(limit, disciplined, signedChar, login, refusals, lines[..n]);
      moves := OneMore(limit, disciplined, signedChar, before, login, refusals, lines[..n], lines[n]);
      assert lines[..n] + [lines[n]] == lines;
    }
  }

  /** How many mails can be transmitted: any number, but for 129 when `char` is signed. */
  lemma TransmissionsIff(limit: nat, disciplined: bool, signedChar: bool, n: nat)
    ensures (exists moves :: |Play(Start(limit, disciplined, signedChar), moves).s.transmitted| == n)
            <==> !signedChar || n <= 129
  {
    if signedChar && n > 129 {
      forall moves
        ensures |Play(Start(limit, disciplined, signedChar), moves).s.transmitted| != n
      {
        SignedCharStalls(limit, disciplined, moves);
      }
    } else {
      var moves := Transmissions(limit, disciplined, signedChar, n);
    }
  }

  lemma Transmissions(limit: nat, disciplined: bool, signedChar: bool, n: nat) returns (moves: seq<Move>)
    requires signedChar ==> n <= 129
    ensures |Play(Start(limit, disciplined, signedChar), moves).s.transmitted| == n
  {
    var start := Start(limit, disciplined, signedChar);
    var login := LogInExists();
    var chat := ChatExists();
    if n == 0 {
      moves := [];
    } else if n == 1 {
      StartIsQuiet(limit);
      LogInLeads(start.s, login);
      RoundSends(start.s, login, Written(start.s, login), Word3(login), AuthState);
      PlayLocals(start, Round(login));
      moves := Locals(Round(login));
    } else {
      var before := Conversation(limit, disciplined, signedChar, login, 0, seq(n - 2, _ => chat));
      OneMoreSent(Play(start, before), chat);
      PlayAppend(start, before, Locals(Round(chat)));
      moves := before + Locals(Round(chat));
    }
  }

  lemma OneMoreSent(w: World, line: string)
    requires AllQuiet(w.s) && w.s.state == OpenState && Chats(line)
    ensures |Play(w, Locals(Round(line))).s.transmitted| == |w.s.transmitted| + 1
  {
    ChatLeads(w.s, line);
    RoundSends(w.s, line, Written(w.s, line), w.s.c.box.displayName, OpenState);
    PlayLocals(w, Round(line));
  }

  /** Interrupt, announce the BYE and send it. */
  function SayBye(): seq<Event> {
    Interrupt() + [FsmNotify] + SEND
  }

  lemma ByeSent(s: System)
    requires AllQuiet(s) && s.state in {StartState, AuthState, OpenState} && !s.c.link.sentBye
    ensures var t := Run(s, SayBye());
            && AtTop(t) && t.c.box.protocol == UDP
            && !t.c.link.receivedConfirm && t.c.link.sentBye && !t.c.link.keepRunning
            && |t.sent| == |s.sent| + 1
            && t.c.link.confMail in t.c.link.wire && t.c.link.confMail.kind == BYE
            && t.c.link.refMsgId == MessageId(t.c.link.confMail) == s.c.box.sequence
  {
    SignalHeard(s);
    var u := Run(s, Interrupt());
    RunOne(u, FsmNotify);
    RunAppend(s, Interrupt(), [FsmNotify]);
    var v := Run(s, Interrupt() + [FsmNotify]);
    Sends(v);
    RunAppend(s, Interrupt() + [FsmNotify], SEND);
  }

  /** Once the BYE is confirmed the loop is left. */
  lemma ConfirmedLeaves(s: System)
    requires AtTop(s) && s.c.box.protocol == UDP && !s.c.link.receivedConfirm && IsWord16(s.c.link.refMsgId)
    requires s.c.link.sentBye && !s.c.link.keepRunning
    ensures var t := Run(s, Hear(PeerConfirmation(s.c.link.refMsgId)));
            Enabled(t, Leave) && t.sent == s.sent
  {
    ConfirmHeard(s);
  }

  /** A conversation of n mails, BYE included, that the client ends cleanly, for every n that
      a `char` of that kind allows; and the peer has heard all of it if and only if n is at
      most 65536. */
  lemma ConversationEnds(limit: nat, disciplined: bool, signedChar: bool, n: nat) returns (moves: seq<Move>)
    requires n >= 2 && (signedChar ==> n <= 128)
    ensures var w := Play(Start(limit, disciplined, signedChar), moves);
            && w.s.status == Exited && |w.s.sent| == n
            && (w.received == w.s.sent <==> n <= 0x1_0000)
  {
    var start := Start(limit, disciplined, signedChar);
    var login := LogInExists();
    var chat := ChatExists();
    var before := Conversation(limit, disciplined, signedChar, login, 0, seq(n - 2, _ => chat));
    var w := Play(start, before);
    NotSaidBye(limit, disciplined, signedChar, before);
    NextNumber(limit, disciplined, signedChar, before);
    var rest := WorldLeaves(w);
    PlayAppend(start, before, rest);
    moves := before + rest;
    PeerHeardAll(limit, disciplined, signedChar, moves);
  }

  lemma NotSaidBye(limit: nat, disciplined: bool, signedChar: bool, moves: seq<Move>)
    requires AllQuiet(Play(Start(limit, disciplined, signedChar), moves).s)
    ensures var w := Play(Start(limit, disciplined, signedChar), moves);
            !w.s.c.link.sentBye && w.signedChar == signedChar
  {
    var es := WorldIsRun(limit, disciplined, signedChar, moves);
    AlwaysGated(UDP, limit, es);
  }

  lemma WorldLeaves(w: World) returns (more: seq<Move>)
    requires AllQuiet(w.s) && w.s.state in {StartState, AuthState, OpenState} && !w.s.c.link.sentBye
    requires w.s.c.box.sequence == |w.s.sent| % 0x1_0000 && (w.signedChar ==> |w.s.sent| < 128)
    ensures var v := Play(w, more); v.s.status == Exited && |v.s.sent| == |w.s.sent| + 1
  {
    ByeSent(w.s);
    PlayLocals(w, SayBye());
    var u := Play(w, Locals(SayBye()));
    ReadsBack(w.signedChar, |w.s.sent|);
    Exchanged(u);
    ConfirmedLeaves(u.s);
    var exchange := Exchange(u.s.c.link.confMail);
    PlayAppend(w, Locals(SayBye()), exchange);
    var v := Play(u, exchange);
    PlayOne(v, Local(Leave));
    PlayAppend(w, Locals(SayBye()) + exchange, [Local(Leave)]);
    more := Locals(SayBye()) + exchange + [Local(Leave)];
  }

  // ------------------------------------------------------------ over TCP

  /** The answer of a server over TCP, as it is read from its line. */
  function TcpReply(s: System, result: bool): Mail {
    Mail(REPLY, ReplyMessage(s.c.box.sequence, result, -1, "text"), true, false)
  }

  ghost predicate RefusedOverTcp(s: System, login: string, n: nat) {
    && AtRest(s) && s.c.box.protocol == TCP && s.state in {StartState, AuthState}
    && Carry(s.sent, login, n, []) && s.c.box.sequence == n % 0x1_0000
  }

  /** The user logs in once more and is answered. */
  function LoginAndAnswer(s: System, login: string, result: bool): seq<Event> {
    Round(login) + Decided(TcpReply(Run(s, Round(login)), result))
  }

  /** One login more, the n-th. */
  lemma LoginOverTcp(s: System, login: string, n: nat, result: bool)
    requires n > 0 && RefusedOverTcp(s, login, n - 1) && LogsIn(login)
    ensures var t := Run(s, LoginAndAnswer(s, login, result));
            && AtRest(t) && t.c.box.protocol == TCP && t.state == (if result then OpenState else AuthState)
            && Carry(t.sent, login, n, []) && t.c.box.displayName == Word3(login)
  {
    LogInLeads(s, login);
    RoundSendsOverTcp(s, login, Written(s, login), Word3(login), AuthState);
    var u := Run(s, Round(login));
    StampedLogin(s, s.sent, login, n - 1);
    assert ValidContent("text");
    LoginAnswered(u, TcpReply(u, result));
    RunAppend(s, Round(login), Decided(TcpReply(u, result)));
  }

  lemma OneRefusalOverTcp(limit: nat, before: seq<Event>, login: string, n: nat) returns (es: seq<Event>)
    requires n > 0 && RefusedOverTcp(After(TCP, limit, before), login, n - 1) && LogsIn(login)
    ensures RefusedOverTcp(After(TCP, limit, es), login, n)
  {
    var s := After(TCP, limit, before);
    LoginOverTcp(s, login, n, false);
    RunAppend(Init(TCP, limit), before, LoginAndAnswer(s, login, false));
    es := before + LoginAndAnswer(s, login, false);
    AlwaysBalanced(TCP, limit, es);
  }

  lemma NoLoginOverTcp(limit: nat, login: string)
    ensures RefusedOverTcp(After(TCP, limit, []), login, 0)
  {
    assert ValidDisplayName("default");
  }

  /** Over TCP any number of logins can be refused. */
  lemma {:induction false} RefusalsOverTcp(limit: nat, login: string, n: nat) returns (es: seq<Event>)
    requires LogsIn(login)
    ensures RefusedOverTcp(After(TCP, limit, es), login, n)
  {
    if n == 0 {
      NoLoginOverTcp(limit, login);
      es := [];
    } else {
      var before := RefusalsOverTcp(limit, login, n - 1);
      es := OneRefusalOverTcp(limit, before, login, n);
    }
  }

  ghost predicate ConversedOverTcp(s: System, login: string, refusals: nat, lines: seq<string>) {
    && AtRest(s) && s.c.box.protocol == TCP && s.state == OpenState && s.c.box.displayName == Word3(login)
    && Carry(s.sent, login, refusals + 1, lines)
  }

  lemma ChatOverTcp(s: System, line: string) returns (m: Mail)
    requires AtRest(s) && s.c.box.protocol == TCP && s.state == OpenState && Chats(line)
    ensures var t := Run(s, Round(line));
            && AtRest(t) && t.c.box.protocol == TCP && t.state == OpenState
            && t.c.box.displayName == s.c.box.displayName && t.sent == s.sent + [m]
    ensures m.kind == ChatKind(line) && m.data == ChatData(s.c.box.sequence, s.c.box.displayName, line)
  {
    ChatLeads(s, line);
    StampedChat(s, line);
    m := Stamp(s.c.box, Written(s, line));
    RoundSendsOverTcp(s, line, Written(s, line), s.c.box.displayName, OpenState);
  }

  lemma LineOverTcp(s: System, login: string, refusals: nat, lines: seq<string>, line: string)
    requires ConversedOverTcp(s, login, refusals, lines) && Chats(line)
    requires s.c.box.sequence == |s.sent| % 0x1_0000
    ensures ConversedOverTcp(Run(s, Round(line)), login, refusals, lines + [line])
  {
    var m := ChatOverTcp(s, line);
    CarryLine(s.sent, login, refusals + 1, lines, m, line);
  }

  lemma OneMoreOverTcp(limit: nat, es: seq<Event>, login: string, refusals: nat, lines: seq<string>, line: string)
    requires ConversedOverTcp(After(TCP, limit, es), login, refusals, lines) && Chats(line)
    ensures ConversedOverTcp(After(TCP, limit, es + Round(line)), login, refusals, lines + [line])
  {
    AlwaysBalanced(TCP, limit, es);
    LineOverTcp(After(TCP, limit, es), login, refusals, lines, line);
    RunAppend(Init(TCP, limit), es, Round(line));
  }

  lemma AcceptedOverTcp(limit: nat, login: string, refusals: nat) returns (es: seq<Event>)
    requires LogsIn(login)
    ensures ConversedOverTcp(After(TCP, limit, es), login, refusals, [])
  {
    var before := RefusalsOverTcp(limit, login, refusals);
    var s := After(TCP, limit, before);
    LoginOverTcp(s, login, refusals + 1, true);
    RunAppend(Init(TCP, limit), before, LoginAndAnswer(s, login, true));
    es := before + LoginAndAnswer(s, login, true);
  }

  /** Any conversation can take place over TCP: any number of refused logins, a login, and any
      messages and changes of channel. */
  lemma {:induction false} ConversationOverTcp(limit: nat, login: string, refusals: nat, lines: seq<string>)
    returns (es: seq<Event>)
    requires LogsIn(login) && AllChats(lines)
    ensures ConversedOverTcp(After(TCP, limit, es), login, refusals, lines)
  {
    if lines == [] {
      es := AcceptedOverTcp(limit, login, refusals);
    } else {
      var n := |lines| - 1;
      AllChatsFront(lines);
      var before := ConversationOverTcp(limit, login, refusals, lines[..n]);
      OneMoreOverTcp(limit, before, login, refusals, lines[..n], lines[n]);
      es := before + Round(lines[n]);
      assert lines[..n] + [lines[n]] == lines;
    }
  }

  /** The text of mail i: the logins, then the lines. */
  function TextOf(login: string, refusals: nat, lines: seq<string>, i: nat): string
    requires i < refusals + 1 + |lines|
  {
    if i <= refusals
    then "AUTH" + Sp(Word1(login)) + Sp("AS") + Sp(Word3(login)) + Sp("USING") + Sp(Word2(login)) + CRLF
    else if Token(lines[i - refusals - 1]) == "/join"
    then "JOIN" + Sp(Word1(lines[i - refusals - 1])) + Sp("AS") + Sp(Word3(login)) + CRLF
    else "MSG" + Sp("FROM") + Sp(Word3(login)) + Sp("IS") + Sp(lines[i - refusals - 1]) + CRLF
  }

  lemma TextOfCarried(mails: seq<Mail>, login: string, refusals: nat, lines: seq<string>, i: nat)
    requires Carry(mails, login, refusals + 1, lines) && i < |mails|
    ensures Encoding(false, mails[i]) == TextOf(login, refusals, lines, i)
  {
    assert CarriesAt(mails, i, login, refusals + 1, lines);
    LineLayout(mails[i]);
  }

  /** ... and every mail of it is on the wire, as one of these lines of text. */
  lemma ConversationAsText(limit: nat, es: seq<Event>, login: string, refusals: nat, lines: seq<string>, i: nat)
    requires ConversedOverTcp(After(TCP, limit, es), login, refusals, lines) && i < refusals + 1 + |lines|
    ensures var wire := After(TCP, limit, es).c.link.wire;
            |wire| == refusals + 1 + |lines| && Encoding(false, wire[i]) == TextOf(login, refusals, lines, i)
  {
    var s := After(TCP, limit, es);
    TcpIsFifo(limit, es);
    assert s.sent == s.c.link.wire + [];
    TextOfCarried(s.sent, login, refusals, lines, i);
  }
}
