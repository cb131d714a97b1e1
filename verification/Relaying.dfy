/** What the machine passes on: the client invents, loses and reorders nothing between the
    mails it consumed and the mails it sent. */
module Relaying {
  import opened Mails
  import opened MailBoxes
  import opened Console
  import opened Fsm
  import opened Listeners
  import opened Systems
  import opened Accounting

  /** A mail without its number, field by field. */
  function Plain(m: Mail): Mail {
    var d := match m.data
             case ConfirmMessage(ref) => ConfirmMessage(ref)
             case AuthMessage(_, username, name, secret) => AuthMessage(0, username, name, secret)
             case JoinMessage(_, channel, name) => JoinMessage(0, channel, name)
             case ErrorMessage(_, name, content) => ErrorMessage(0, name, content)
             case ByeMessage(_) => ByeMessage(0)
             case TextMessage(_, name, content, toSend) => TextMessage(0, name, content, toSend)
             case ReplyMessage(_, result, ref, content) => ReplyMessage(0, result, ref, content)
             case UnknownMessage(_) => UnknownMessage(0);
    Mail(m.kind, d, m.addToMailQueue, m.sigint)
  }

  /** The mails among those sent that are passed on rather than made by the machine. */
  function Relayed(sent: seq<Mail>): seq<Mail> {
    if sent == [] then []
    else
      var last := sent[|sent| - 1];
      Relayed(sent[..|sent| - 1]) + (if last.kind in {AUTH, JOIN, MSG} then [Plain(last)] else [])
  }

  predicate Wanted(isOpen: bool, m: Mail) {
    if isOpen then m.kind == JOIN || (m.kind == MSG && m.data.TextMessage? && m.data.toSend)
    else m.kind == AUTH
  }

  /** What ought to be passed on: before the first positive REPLY the AUTHs, after it the
      JOINs and the messages typed by the user. */
  function Requests(mails: seq<Mail>): seq<Mail> {
    if mails == [] then []
    else
      var front, last := mails[..|mails| - 1], mails[|mails| - 1];
      Requests(front) + (if Wanted(Succeeded(front), last) then [Plain(last)] else [])
  }

  /** The mails the machine has dealt with. */
  function Done(s: System): seq<Mail> {
    if s.fpc == Deciding && s.consumed != [] then s.consumed[..|s.consumed| - 1] else s.consumed
  }

  ghost predicate Faithful(s: System) {
    && (s.fpc == Deciding ==> s.consumed != [] && s.consumed[|s.consumed| - 1] == s.mail)
    && (s.state in {StartState, AuthState} ==> !Succeeded(Done(s)))
    && (s.state == OpenState ==> Succeeded(Done(s)))
    && Relayed(s.sent) == Requests(Done(s))
  }

  lemma RelayedSnoc(sent: seq<Mail>, m: Mail)
    ensures Relayed(sent + [m]) == Relayed(sent) + (if m.kind in {AUTH, JOIN, MSG} then [Plain(m)] else [])
  {
    assert (sent + [m])[..|sent|] == sent;
  }

  lemma RequestsSnoc(mails: seq<Mail>, m: Mail)
    ensures Requests(mails + [m]) == Requests(mails) + (if Wanted(Succeeded(mails), m) then [Plain(m)] else [])
  {
    assert (mails + [m])[..|mails|] == mails;
  }

  /** The decision about one mail: it is passed on exactly if it ought to be. */
  lemma ActRelays(state: State, box: Box, m: Mail, isOpen: bool)
    requires state in {StartState, AuthState, OpenState} && Handled(m)
    requires isOpen <==> state == OpenState
    requires Act(state, box, m).Ok?
    ensures var a := Act(state, box, m).value;
            && (a.send && a.mail.kind in {AUTH, JOIN, MSG} <==> Wanted(isOpen, m))
            && (Wanted(isOpen, m) ==> Plain(Stamp(box, a.mail)) == Plain(m))
            && (a.next in {StartState, AuthState} ==> !isOpen && !IsSuccess(m))
            && (a.next == OpenState ==> isOpen || IsSuccess(m))
  {
  }

  lemma FaithfulDeciding(s: System)
    requires Complete(s) && Disciplined(s) && Faithful(s) && Enabled(s, FsmAct) && s.fpc == Deciding
    requires Act(s.state, s.c.box, s.mail).Ok?
    ensures Faithful(DoAct(s))
  {
    var t, a, front := DoAct(s), Act(s.state, s.c.box, s.mail).value, Done(s);
    ActEffect(s);
    ActRelays(s.state, s.c.box, s.mail, Succeeded(front));
    assert Done(t) == front + [s.mail];
    SucceededSnoc(front, s.mail);
    RequestsSnoc(front, s.mail);
    RelayedSnoc(s.sent, Stamp(s.c.box, a.mail));
  }

  lemma FaithfulAct(s: System)
    requires Complete(s) && Disciplined(s) && Faithful(s) && Enabled(s, FsmAct)
    ensures Faithful(DoAct(s))
  {
    if Act(s.state, s.c.box, s.mail).Ok? {
      if s.fpc == Deciding {
        FaithfulDeciding(s);
      } else {
        FaithfulLastWord(s);
      }
    }
  }

  /** In the state ERROR only the machine's own BYE is sent. */
  lemma FaithfulLastWord(s: System)
    requires Complete(s) && Faithful(s) && Enabled(s, FsmAct) && s.fpc == Idle && s.state == ErrorState
    requires Act(s.state, s.c.box, s.mail).Ok?
    ensures Faithful(DoAct(s))
  {
    var t, bye := DoAct(s), Stamp(s.c.box, Act(s.state, s.c.box, s.mail).value.mail);
    ActEffect(s);
    RelayedSnoc(s.sent, bye);
    assert Done(t) == Done(s) && t.state == EndState && bye.kind == BYE;
  }

  lemma FaithfulStep(s: System, e: Event)
    requires Complete(s) && Disciplined(s) && Faithful(s) && Enabled(s, e)
    ensures Faithful(Do(s, e))
  {
    if e.FsmAct? {
      FaithfulAct(s);
    } else if e.FsmWait? {
      assert Done(DoWait(s)) == s.consumed;
    } else {
      OtherFrame(s, e);
    }
  }

  lemma {:induction false} AlwaysFaithful(protocol: Protocol, limit: int, es: seq<Event>)
    ensures Faithful(After(protocol, limit, es))
  {
    if es != [] {
      AlwaysFaithful(protocol, limit, es[..|es| - 1]);
      AlwaysComplete(protocol, limit, es[..|es| - 1]);
      AlwaysDisciplined(protocol, limit, es[..|es| - 1]);
      var s := After(protocol, limit, es[..|es| - 1]);
      if Enabled(s, es[|es| - 1]) {
        FaithfulStep(s, es[|es| - 1]);
      }
    }
  }

  /** In every run, apart from numbers and from the machine's own ERR and BYE, what was sent
      is exactly what ought to be passed on of what was consumed, in the same order: the
      AUTHs up to the first positive REPLY, then every JOIN and every message typed by the
      user. Where an AUTH or a JOIN came from makes no difference. */
  lemma PassesOnExactly(protocol: Protocol, limit: int, es: seq<Event>)
    ensures var s := After(protocol, limit, es);
            && Relayed(s.sent) == Requests(Done(s))
            && Done(s) <= s.consumed <= s.added
            && |s.consumed| <= |Done(s)| + 1
  {
    AlwaysFaithful(protocol, limit, es);
    AlwaysBalanced(protocol, limit, es);
  }

  // ------------------------------------------------------------ what is sent back to the server

  ghost predicate OffSocket(s: System) {
    forall m :: m in s.delivered ==> FromSocket(s.c.box.protocol, m)
  }

  lemma OffSocketStep(s: System, e: Event)
    requires OffSocket(s) && Enabled(s, e)
    ensures OffSocket(Do(s, e))
  {
    match e
    case Line(line) => if Enter(s.c.box, line).Ok? { EnterAdds(s.c.box, line); }
    case Socket(m) => SocketAdds(s.c, m);
    case Signal => if OnSignal(s.c).Ok? { SignalAdds(s.c); }
    case _ =>
  }

  lemma {:induction false} AlwaysOffSocket(protocol: Protocol, limit: int, es: seq<Event>)
    ensures OffSocket(After(protocol, limit, es))
  {
    if es != [] {
      AlwaysOffSocket(protocol, limit, es[..|es| - 1]);
      var s := After(protocol, limit, es[..|es| - 1]);
      if Enabled(s, es[|es| - 1]) {
        OffSocketStep(s, es[|es| - 1]);
      }
    }
  }

  /** The machine decides on a mail that may be an echo: a JOIN while open, an AUTH before. */
  predicate Echoes(state: State, m: Mail) {
    (state == OpenState && m.kind == JOIN) || ((state == StartState || state == AuthState) && m.kind == AUTH)
  }

  lemma ActEchoes(state: State, box: Box, m: Mail)
    requires state in {StartState, AuthState, OpenState} && Handled(m) && FromSocket(box.protocol, m)
    ensures Echoes(state, m) ==> Act(state, box, m).Ok? && Act(state, box, m).value.mail == m
    ensures Act(state, box, m).Ok? ==>
            var a := Act(state, box, m).value;
            a.send && a.mail.kind in {AUTH, JOIN, MSG} <==> Echoes(state, m)
  {
  }

  lemma EchoAct(s: System)
    requires Complete(s) && Disciplined(s) && Enabled(s, FsmAct) && s.fpc == Deciding
    requires FromSocket(s.c.box.protocol, s.mail)
    ensures var t := DoAct(s);
            && (Relayed(t.sent) == Relayed(s.sent) + [Plain(s.mail)] <==> Echoes(s.state, s.mail))
            && (Relayed(t.sent) == Relayed(s.sent) <==> !Echoes(s.state, s.mail))
            && (Echoes(s.state, s.mail) ==> t.sent == s.sent + [Stamp(s.c.box, s.mail)])
  {
    ActEchoes(s.state, s.c.box, s.mail);
    assert |Relayed(s.sent) + [Plain(s.mail)]| != |Relayed(s.sent)|;
    if Act(s.state, s.c.box, s.mail).Ok? {
      var a := Act(s.state, s.c.box, s.mail).value;
      ActEffect(s);
      RelayedSnoc(s.sent, Stamp(s.c.box, a.mail));
      assert Plain(Stamp(s.c.box, s.mail)) == Plain(s.mail);
    }
  }

  /** A mail that came off the socket is sent back to the server if and only if it is a
      JOIN that finds the machine open or an AUTH that finds it not open yet. */
  lemma EchoedIff(protocol: Protocol, limit: int, es: seq<Event>)
    requires var s := After(protocol, limit, es);
             Enabled(s, FsmAct) && s.fpc == Deciding && s.mail in s.delivered
    ensures var s, t := After(protocol, limit, es), After(protocol, limit, es + [FsmAct]);
            && (Relayed(t.sent) == Relayed(s.sent) + [Plain(s.mail)] <==> Echoes(s.state, s.mail))
            && (Relayed(t.sent) == Relayed(s.sent) <==> !Echoes(s.state, s.mail))
            && (Echoes(s.state, s.mail) ==> t.sent == s.sent + [Stamp(s.c.box, s.mail)])
  {
    var s := After(protocol, limit, es);
    assert (es + [FsmAct])[..|es|] == es;
    AlwaysComplete(protocol, limit, es);
    AlwaysDisciplined(protocol, limit, es);
    AlwaysOffSocket(protocol, limit, es);
    EchoAct(s);
  }
}
