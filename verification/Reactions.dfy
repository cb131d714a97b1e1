/** What the machine does with each mail, state by state (src/fsm.cpp:7-134): when it says
    ERR or BYE, passes a mail on, opens, stays or ends, in terms of the kind of the mail,
    the result of a REPLY, the state and the signal flag; and what its own ERRs carry. */
module Reactions {
  import opened Mails
  import opened MailBoxes
  import opened Console
  import opened Fsm
  import opened Systems
  import opened Accounting
  import opened StopAndWait
  import opened Arrivals

  // ------------------------------------------------------------ the tests

  /** A mail that has no business in the state, which an ERR answers. In START that is any
      REPLY, BYE or unknown message and a server's ERR; later only BYE (but not while
      open) and unknown messages. */
  predicate Unexpected(state: State, m: Mail) {
    || (state == StartState && m.kind in {REPLY, BYE, CONFIRM, UNKNOWN})
    || (state == StartState && m.kind == ERR && !m.sigint)
    || (state == AuthState && m.kind in {BYE, CONFIRM, UNKNOWN})
    || (state == OpenState && m.kind in {CONFIRM, UNKNOWN})
  }

  /** What a BYE answers: a signal anywhere, an ERR of the server once an AUTH was sent, and
      the client's own ERR. */
  predicate EndsTalk(state: State, m: Mail) {
    || (state == StartState && m.kind == ERR && m.sigint)
    || (state == AuthState && m.kind == ERR)
    || (state == OpenState && m.kind == ERR)
    || state == ErrorState
  }

  /** What is sent on: an AUTH until the machine opens, then JOINs and typed messages. */
  predicate SentOn(state: State, m: Mail) {
    || (state == StartState && m.kind == AUTH)
    || (state == AuthState && m.kind == AUTH)
    || (state == OpenState && m.kind == JOIN)
    || (state == OpenState && m.kind == MSG && m.data.TextMessage? && m.data.toSend)
  }

  // ------------------------------------------------------------ one pass through the switch

  lemma ReactsWith(state: State, box: Box, m: Mail)
    requires state != EndState && (state != ErrorState ==> Handled(m))
    ensures var a := Act(state, box, m);
            && (a.Raised? <==> Unexpected(state, m) && !ValidDisplayName(box.displayName))
            && (a.Ok? ==>
                  && (a.value.send <==> Unexpected(state, m) || EndsTalk(state, m) || SentOn(state, m))
                  && (Unexpected(state, m) ==>
                        && a.value.mail.kind == ERR
                        && a.value.mail.data == ErrorMessage(box.sequence, box.displayName, "MessageContent"))
                  && (EndsTalk(state, m) ==>
                        a.value.mail.kind == BYE && a.value.mail.data == ByeMessage(box.sequence))
                  && (SentOn(state, m) ==> a.value.mail == m))
  {
    assert ValidContent("MessageContent");
  }

  lemma MovesTo(state: State, box: Box, m: Mail)
    requires state != EndState && (state != ErrorState ==> Handled(m)) && Act(state, box, m).Ok?
    ensures var next := Act(state, box, m).value.next;
            && (next == StartState <==> state == StartState && (m.kind == MSG || m.kind == JOIN))
            && (next == AuthState <==>
                  || (state == StartState && m.kind == AUTH)
                  || (state == AuthState && m.kind in {AUTH, MSG, JOIN})
                  || (state == AuthState && m.kind == REPLY && !m.data.result))
            && (next == OpenState <==>
                  || (state == AuthState && m.kind == REPLY && m.data.result)
                  || (state == OpenState && m.kind in {AUTH, JOIN, MSG, REPLY}))
            && (next == ErrorState <==> Unexpected(state, m))
            && (next == EndState <==> EndsTalk(state, m) || (state == OpenState && m.kind == BYE))
  {
  }

  // ------------------------------------------------------------ in every run

  /** Exactly one mail more has been sent: of this kind, with this payload. */
  predicate Says(s: System, t: System, kind: Kind, d: Data) {
    && |t.sent| == |s.sent| + 1 && t.sent[..|s.sent|] == s.sent
    && t.sent[|s.sent|].kind == kind && t.sent[|s.sent|].data == d
  }

  /** Exactly one mail more has been sent: m itself under the next number. */
  predicate PassesOn(s: System, t: System, m: Mail) {
    && |t.sent| == |s.sent| + 1 && t.sent[..|s.sent|] == s.sent
    && t.sent[|s.sent|].kind == m.kind && SameButNumber(m.data, t.sent[|s.sent|].data)
    && MessageId(t.sent[|s.sent|]) == NumberNow(s)
  }

  /** The client's own ERR, as it would be made now. */
  function OwnErr(s: System): Data {
    ErrorMessage(NumberNow(s), NameNow(s), "MessageContent")
  }

  predicate Throws(s: System) {
    Unexpected(s.state, s.mail) && !ValidDisplayName(NameNow(s))
  }

  lemma StampedActSaid(s: System, a: Action)
    requires Tracked(s) && a.mail.addToMailQueue && a.send && Numbered(a.mail.data)
    ensures var stamped := Stamp(s.c.box, a.mail);
            && stamped.kind == a.mail.kind && SameButNumber(a.mail.data, stamped.data)
            && MessageId(stamped) == NumberNow(s)
  {
  }

  lemma SaysOneMore(s: System, t: System, m: Mail)
    requires t.sent == s.sent + [m]
    ensures Says(s, t, m.kind, m.data) && t.sent != s.sent
    ensures forall kind, d :: Says(s, t, kind, d) ==> kind == m.kind && d == m.data
    ensures forall x :: PassesOn(s, t, x) <==>
              m.kind == x.kind && SameButNumber(x.data, m.data) && MessageId(m) == NumberNow(s)
  {
    assert t.sent[..|s.sent|] == s.sent;
  }

  ghost predicate Reaction(s: System, t: System) {
    && (t.status == Thrown <==> Throws(s))
    && (Says(s, t, ERR, OwnErr(s)) <==> Unexpected(s.state, s.mail) && !Throws(s))
    && (Says(s, t, BYE, ByeMessage(NumberNow(s))) <==> EndsTalk(s.state, s.mail))
    && (PassesOn(s, t, s.mail) && s.mail.kind in {AUTH, JOIN, MSG} <==> SentOn(s.state, s.mail))
    && (t.sent == s.sent <==>
          !(Unexpected(s.state, s.mail) && !Throws(s)) && !EndsTalk(s.state, s.mail) && !SentOn(s.state, s.mail))
  }

  lemma ReactsSaid(s: System)
    requires Complete(s) && Tracked(s) && Enabled(s, FsmAct)
    requires Act(s.state, s.c.box, s.mail).Ok? && Act(s.state, s.c.box, s.mail).value.send
    ensures Reaction(s, DoAct(s))
  {
    var a, t := Act(s.state, s.c.box, s.mail).value, DoAct(s);
    ReactsWith(s.state, s.c.box, s.mail);
    ActSendsOutgoing(s.state, s.c.box, s.mail);
    ActEffect(s);
    StampedActSaid(s, a);
    SaysOneMore(s, t, Stamp(s.c.box, a.mail));
  }

  lemma ReactsQuietly(s: System)
    requires Complete(s) && Tracked(s) && Enabled(s, FsmAct)
    requires Act(s.state, s.c.box, s.mail).Raised? || !Act(s.state, s.c.box, s.mail).value.send
    ensures Reaction(s, DoAct(s))
  {
    ReactsWith(s.state, s.c.box, s.mail);
    assert DoAct(s).sent == s.sent;
  }

  /** Where the machine goes, unless it throws. */
  ghost predicate Moves(s: System, t: System) {
    && (t.state == StartState <==> s.state == StartState && (s.mail.kind == MSG || s.mail.kind == JOIN))
    && (t.state == AuthState <==>
          || (s.state == StartState && s.mail.kind == AUTH)
          || (s.state == AuthState && s.mail.kind in {AUTH, MSG, JOIN})
          || (s.state == AuthState && s.mail.kind == REPLY && s.mail.data.ReplyMessage? && !s.mail.data.result))
    && (t.state == OpenState <==>
          || (s.state == AuthState && s.mail.kind == REPLY && s.mail.data.ReplyMessage? && s.mail.data.result)
          || (s.state == OpenState && s.mail.kind in {AUTH, JOIN, MSG, REPLY}))
    && (t.state == ErrorState <==> Unexpected(s.state, s.mail))
    && (t.state == EndState <==> EndsTalk(s.state, s.mail) || (s.state == OpenState && s.mail.kind == BYE))
  }

  /** In every run, whatever the state in which the machine deals with a mail: when it says
      ERR, when it says BYE, when it passes the mail on under the next number, when it says
      nothing, when it throws, and which state it goes to. A refused login, for one, leaves
      it in AUTH and says nothing. */
  lemma MachineReacts(protocol: Protocol, limit: int, es: seq<Event>)
    requires Enabled(After(protocol, limit, es), FsmAct)
    ensures var s, t := After(protocol, limit, es), After(protocol, limit, es + [FsmAct]);
            && Reaction(s, t)
            && (if Throws(s) then t.state == s.state else Moves(s, t))
  {
    assert (es + [FsmAct])[..|es|] == es;
    var s := After(protocol, limit, es);
    AlwaysComplete(protocol, limit, es);
    AlwaysTracked(protocol, limit, es);
    AlwaysDisciplined(protocol, limit, es);
    ReactsWith(s.state, s.c.box, s.mail);
    if Act(s.state, s.c.box, s.mail).Raised? {
      ReactsQuietly(s);
    } else {
      MovesTo(s.state, s.c.box, s.mail);
      ActEffect(s);
      if Act(s.state, s.c.box, s.mail).value.send {
        ReactsSaid(s);
      } else {
        ReactsQuietly(s);
      }
    }
  }

  // ------------------------------------------------------------ what the client's own ERRs carry

  /** An ERR of the client: its text, and a display name that was in force. */
  ghost predicate ErrOfClient(d: Data, number: int, typed: seq<string>) {
    exists k: nat :: k <= |typed| && d == ErrorMessage(number, NameAt("default", typed, k), "MessageContent")
  }

  lemma ErrOfClientLater(d: Data, number: int, typed: seq<string>, more: seq<string>)
    requires ErrOfClient(d, number, typed) && typed <= more
    ensures ErrOfClient(d, number, more)
  {
    var k: nat :| k <= |typed| && d == ErrorMessage(number, NameAt("default", typed, k), "MessageContent");
    assert more[..|typed|] == typed;
    NameOfPrefix("default", more, |typed|, k);
  }

  lemma TypedGrows(protocol: Protocol, limit: int, es: seq<Event>, e: Event)
    ensures After(protocol, limit, es).typed <= After(protocol, limit, es + [e]).typed
  {
    assert (es + [e])[..|es|] == es;
    AlwaysTitled(protocol, limit, es);
    if Enabled(After(protocol, limit, es), e) {
      TitledStep(After(protocol, limit, es), e);
    }
  }

  /** The last mail sent, if it is an ERR and this step sent it. */
  lemma ErrSaid(protocol: Protocol, limit: int, es: seq<Event>, e: Event)
    requires var s, t := After(protocol, limit, es), After(protocol, limit, es + [e]);
             t.sent != s.sent && t.sent != [] && t.sent[|t.sent| - 1].kind == ERR
    ensures var s, t := After(protocol, limit, es), After(protocol, limit, es + [e]);
            |t.sent| == |s.sent| + 1 && ErrOfClient(t.sent[|s.sent|].data, |s.sent| % 0x1_0000, t.typed)
  {
    var s := After(protocol, limit, es);
    assert (es + [e])[..|es|] == es;
    if e.FsmAct? {
      MachineReacts(protocol, limit, es);
      ConsoleFrame(s, FsmAct);
      assert OwnErr(s) == ErrorMessage(|s.sent| % 0x1_0000, NameAt("default", s.typed, |s.typed|), "MessageContent");
    } else if !e.FsmWait? {
      OtherFrame(s, e);
    }
  }

  ghost predicate ErrAt(sent: seq<Mail>, i: nat, typed: seq<string>) {
    i < |sent| && (sent[i].kind == ERR ==> ErrOfClient(sent[i].data, i % 0x1_0000, typed))
  }

  ghost predicate ErrsOfClient(sent: seq<Mail>, typed: seq<string>) {
    forall i: nat :: i < |sent| ==> ErrAt(sent, i, typed)
  }

  lemma ErrsLater(sent: seq<Mail>, typed: seq<string>, more: seq<string>)
    requires ErrsOfClient(sent, typed) && typed <= more
    ensures ErrsOfClient(sent, more)
  {
    forall i: nat | i < |sent|
      ensures ErrAt(sent, i, more)
    {
      assert ErrAt(sent, i, typed);
      if sent[i].kind == ERR {
        ErrOfClientLater(sent[i].data, i % 0x1_0000, typed, more);
      }
    }
  }

  lemma ErrsSnoc(sent: seq<Mail>, m: Mail, typed: seq<string>)
    requires ErrsOfClient(sent, typed) && (m.kind == ERR ==> ErrOfClient(m.data, |sent| % 0x1_0000, typed))
    ensures ErrsOfClient(sent + [m], typed)
  {
    forall i: nat | i < |sent + [m]|
      ensures ErrAt(sent + [m], i, typed)
    {
      assert i < |sent| ==> ErrAt(sent, i, typed);
    }
  }

  /** In every run each ERR the machine sent carries the text "MessageContent", its own
      number and a display name that was in force when it was made. */
  lemma {:induction false} OwnErrs(protocol: Protocol, limit: int, es: seq<Event>)
    ensures ErrsOfClient(After(protocol, limit, es).sent, After(protocol, limit, es).typed)
  {
    if es != [] {
      var front, e := es[..|es| - 1], es[|es| - 1];
      assert front + [e] == es;
      OwnErrs(protocol, limit, front);
      TypedGrows(protocol, limit, front, e);
      ErrsByOne(protocol, limit, front, e);
    }
  }

  lemma ErrsByOne(protocol: Protocol, limit: int, es: seq<Event>, e: Event)
    requires ErrsOfClient(After(protocol, limit, es).sent, After(protocol, limit, es).typed)
    requires After(protocol, limit, es).typed <= After(protocol, limit, es + [e]).typed
    ensures ErrsOfClient(After(protocol, limit, es + [e]).sent, After(protocol, limit, es + [e]).typed)
  {
    var s, t := After(protocol, limit, es), After(protocol, limit, es + [e]);
    assert (es + [e])[..|es|] == es;
    SentByOne(s, e);
    ErrsLater(s.sent, s.typed, t.typed);
    if t.sent != s.sent {
      var m := t.sent[|s.sent|];
      assert t.sent == s.sent + [m];
      if m.kind == ERR {
        ErrSaid(protocol, limit, es, e);
      }
      ErrsSnoc(s.sent, m, t.typed);
    }
  }

  lemma SentByOne(s: System, e: Event)
    ensures var t := Step(s, e); s.sent <= t.sent && |t.sent| <= |s.sent| + 1
  {
  }

  /** Only signals put a mail with the signal flag into the queue: an ERR of the client. */
  lemma {:induction false} SignalErrs(protocol: Protocol, limit: int, es: seq<Event>, m: Mail)
    requires m in After(protocol, limit, es).added && m.sigint
    ensures var s := After(protocol, limit, es);
            m.kind == ERR && m.data.ErrorMessage? && ErrOfClient(m.data, m.data.messageId, s.typed)
  {
    var front, e := es[..|es| - 1], es[|es| - 1];
    assert front + [e] == es;
    var s, t := After(protocol, limit, front), After(protocol, limit, es);
    if m in s.added {
      SignalErrs(protocol, limit, front, m);
      TypedGrows(protocol, limit, front, e);
      ErrOfClientLater(m.data, m.data.messageId, s.typed, t.typed);
    } else {
      AlwaysTracked(protocol, limit, front);
      assert Enabled(s, e);
      EnteredStep(s, e);
      assert m in Entered(s, e);
      if e.Signal? {
        ConsoleFrame(s, e);
        assert m.data == ErrorMessage(NumberNow(s), NameAt("default", t.typed, |t.typed|), "MessageContent");
      }
    }
  }

  // ------------------------------------------------------------ how a run breaks off

  /** A line that makes a mail with an invalid field. */
  predicate BadLine(s: System, line: string) {
    !IsLocal(line) && !ValidData(Meaning(NumberNow(s), NameNow(s), line).data)
  }

  lemma LineThrows(s: System, line: string)
    requires Tracked(s) && Enabled(s, Line(line))
    ensures DoLine(s, line).status == (if BadLine(s, line) then Thrown else Running)
  {
    CommandMeaning(s.c.box.sequence, s.c.box.displayName, line);
  }

  lemma SignalThrows(s: System)
    requires Tracked(s) && Enabled(s, Signal)
    ensures DoSignal(s).status == (if ValidDisplayName(NameNow(s)) then Running else Thrown)
  {
    assert ValidContent("MessageContent");
  }

  /** The events that cannot throw. */
  lemma StatusFrame(s: System, e: Event)
    requires Enabled(s, e) && !e.Line? && !e.Signal? && !e.FsmAct? && !e.BadSocket? && !e.Timeout?
    ensures Do(s, e).status == if e.Leave? then Exited else s.status
  {
  }

  /** In every run an exception ends it by exactly these steps: a message or a line whose
      fields are not valid, and an ERR that has to be made under an invalid display name, for
      the machine or for a signal; and "not responding" comes of a timeout when the retries
      are used up. */
  lemma BreaksOffIff(protocol: Protocol, limit: int, es: seq<Event>, e: Event)
    requires Enabled(After(protocol, limit, es), e)
    ensures var s, t := After(protocol, limit, es), After(protocol, limit, es + [e]);
            && (t.status == Thrown <==>
                  || e.BadSocket?
                  || (e.Line? && BadLine(s, e.line))
                  || (e.Signal? && !ValidDisplayName(NameNow(s)))
                  || (e.FsmAct? && Throws(s)))
            && (t.status == NotResponding <==> e.Timeout? && s.c.link.retries >= limit)
  {
    assert (es + [e])[..|es|] == es;
    var s := After(protocol, limit, es);
    AlwaysTracked(protocol, limit, es);
    AlwaysLimit(protocol, limit, es);
    if e.Line? {
      LineThrows(s, e.line);
    } else if e.Signal? {
      SignalThrows(s);
    } else if e.FsmAct? {
      MachineReacts(protocol, limit, es);
    } else if !e.BadSocket? && !e.Timeout? {
      StatusFrame(s, e);
    }
  }
}
