/** Receiving over UDP from a server that may send anything: each message is taken at most
    once and in order, and the machine opens only on the answer to its own AUTH. */
module Receiving {
  import opened Mails
  import opened Console
  import opened Fsm
  import opened Listeners
  import opened Systems
  import opened Accounting
  import opened StopAndWait

  // ------------------------------------------------------------ at most once, in order

  ghost predicate Increasing(mails: seq<Mail>) {
    forall i, j :: 0 <= i < j < |mails| ==> MessageId(mails[i]) < MessageId(mails[j])
  }

  /** The number of the last message taken from the socket. */
  function LastTaken(delivered: seq<Mail>): int {
    if delivered == [] then -1 else MessageId(delivered[|delivered| - 1])
  }

  ghost predicate InOrder(s: System) {
    && s.c.box.protocol == UDP
    && s.c.box.srvMsgId == LastTaken(s.delivered)
    && -1 <= s.c.box.srvMsgId <= 0xFFFF
    && Increasing(s.delivered)
    && (forall i :: 0 <= i < |s.delivered| ==> 0 <= MessageId(s.delivered[i]) <= s.c.box.srvMsgId)
  }

  lemma InOrderSocket(s: System, m: Mail)
    requires InOrder(s) && Enabled(s, Socket(m))
    ensures InOrder(DoSocket(s, m)) && DoSocket(s, m).c.box.srvMsgId >= s.c.box.srvMsgId
  {
    SocketAdds(s.c, m);
  }

  lemma InOrderStep(s: System, e: Event)
    requires InOrder(s) && Enabled(s, e)
    ensures InOrder(Do(s, e))
    ensures Do(s, e).c.box.srvMsgId >= s.c.box.srvMsgId && s.delivered <= Do(s, e).delivered
  {
    match e
    case Socket(m) => InOrderSocket(s, m);
    case Line(line) => if Enter(s.c.box, line).Ok? { EnterAdds(s.c.box, line); }
    case Signal => if OnSignal(s.c).Ok? { SignalAdds(s.c); }
    case _ =>
  }

  lemma {:induction false} AlwaysInOrder(limit: int, es: seq<Event>)
    ensures InOrder(After(UDP, limit, es))
  {
    if es != [] {
      AlwaysInOrder(limit, es[..|es| - 1]);
      var s := After(UDP, limit, es[..|es| - 1]);
      if Enabled(s, es[|es| - 1]) {
        InOrderStep(s, es[|es| - 1]);
      }
    }
  }

  lemma {:induction false} IncreasingBound(mails: seq<Mail>, bound: int)
    requires Increasing(mails) && forall i :: 0 <= i < |mails| ==> 0 <= MessageId(mails[i]) <= bound
    requires bound >= -1
    ensures |mails| <= bound + 1
  {
    if mails != [] {
      var last := MessageId(mails[|mails| - 1]);
      IncreasingBound(mails[..|mails| - 1], last - 1);
    }
  }

  lemma NotBackByOne(limit: int, es: seq<Event>, e: Event)
    ensures var s, t := After(UDP, limit, es), After(UDP, limit, es + [e]);
            s.c.box.srvMsgId <= t.c.box.srvMsgId && s.delivered <= t.delivered
  {
    assert (es + [e])[..|es|] == es;
    AlwaysInOrder(limit, es);
    if Enabled(After(UDP, limit, es), e) {
      InOrderStep(After(UDP, limit, es), e);
    }
  }

  lemma {:induction false} NeverBack(limit: int, es: seq<Event>, more: seq<Event>)
    ensures var s, t := After(UDP, limit, es), After(UDP, limit, es + more);
            s.c.box.srvMsgId <= t.c.box.srvMsgId && s.delivered <= t.delivered
    decreases |more|
  {
    if more == [] {
      assert es + more == es;
    } else {
      var front, e := more[..|more| - 1], more[|more| - 1];
      NeverBack(limit, es, front);
      NotBackByOne(limit, es + front, e);
      assert es + more == es + front + [e];
    }
  }

  /** Against any server: the ids of the messages taken from the socket strictly increase,
      so none is taken twice; `srvMsgId` never goes back and what was taken stays taken;
      and a run takes at most `srvMsgId + 1` messages, never more than 65536. */
  lemma AtMostOnce(limit: int, es: seq<Event>, more: seq<Event>)
    ensures var s, t := After(UDP, limit, es), After(UDP, limit, es + more);
            && Increasing(t.delivered)
            && s.c.box.srvMsgId <= t.c.box.srvMsgId && s.delivered <= t.delivered
            && |t.delivered| <= t.c.box.srvMsgId + 1 <= 0x1_0000
  {
    var t := After(UDP, limit, es + more);
    NeverBack(limit, es, more);
    AlwaysInOrder(limit, es + more);
    IncreasingBound(t.delivered, t.c.box.srvMsgId);
  }

  /** Which messages are taken and which are answered: an old one is never taken, and only
      an old REPLY is confirmed again; a new one is taken and confirmed, but for a REPLY
      that does not refer to the last request, which is ignored. */
  lemma TakenAndConfirmed(c: Client, m: Mail)
    requires c.box.protocol == UDP && FromSocket(UDP, m) && m.kind != CONFIRM
    ensures var d := OnSocket(c, m);
            var isNew := MessageId(m) > c.box.srvMsgId;
            var answers := m.kind == REPLY ==> RefMessageId(m) == c.link.refAuthId;
            && (d.box.incoming == c.box.incoming + [m] <==> isNew && answers)
            && (d.box.incoming == c.box.incoming <==> !(isNew && answers))
            && (d.link.wire == c.link.wire + [Confirmation(MessageId(m))] <==>
                  (isNew && answers) || (!isNew && m.kind == REPLY))
            && d.box.srvMsgId == (if isNew && answers then MessageId(m) else c.box.srvMsgId)
  {
    assert |c.box.incoming + [m]| != |c.box.incoming|;
    assert |c.link.wire + [Confirmation(MessageId(m))]| != |c.link.wire|;
  }

  // ------------------------------------------------------------ authentication

  /** `id` is the number of a request (AUTH or JOIN) that has been transmitted. */
  ghost predicate Asked(transmitted: seq<Mail>, id: int) {
    exists m :: m in transmitted && (m.kind == AUTH || m.kind == JOIN) && MessageId(m) == id
  }

  lemma AskedGrows(transmitted: seq<Mail>, m: Mail, id: int)
    requires Asked(transmitted, id)
    ensures Asked(transmitted + [m], id)
  {
    var r :| r in transmitted && (r.kind == AUTH || r.kind == JOIN) && MessageId(r) == id;
    assert r in transmitted + [m];
  }

  /** The number of the last AUTH or JOIN among some mails; -1 when there is none. */
  function LastRequest(mails: seq<Mail>): int {
    if mails == [] then -1
    else
      var last := mails[|mails| - 1];
      if last.kind == AUTH || last.kind == JOIN then MessageId(last) else LastRequest(mails[..|mails| - 1])
  }

  lemma {:induction false} LastRequestAsked(mails: seq<Mail>)
    ensures LastRequest(mails) == -1 || Asked(mails, LastRequest(mails))
  {
    if mails != [] {
      var front, last := mails[..|mails| - 1], mails[|mails| - 1];
      LastRequestAsked(front);
      if last.kind == AUTH || last.kind == JOIN {
        assert last in mails;
      } else if LastRequest(front) != -1 {
        AskedGrows(front, last, LastRequest(front));
        assert front + [last] == mails;
      }
    }
  }

  /** Every REPLY let through to the machine refers to a request already transmitted. */
  ghost predicate Answering(s: System) {
    && s.c.box.protocol == UDP
    && s.c.link.refAuthId == LastRequest(s.transmitted)
    && (forall m :: m in s.c.box.incoming && m.kind == REPLY ==> Asked(s.transmitted, RefMessageId(m)))
    && (s.fpc == Deciding && s.mail.kind == REPLY ==> Asked(s.transmitted, RefMessageId(s.mail)))
  }

  lemma AnsweringSendPop(s: System)
    requires Answering(s) && Enabled(s, SendPop)
    ensures Answering(DoSendPop(s))
  {
    var m, t := s.c.box.outgoing[0], DoSendPop(s);
    forall id | Asked(s.transmitted, id)
      ensures Asked(t.transmitted, id)
    {
      AskedGrows(s.transmitted, m, id);
    }
    assert t.transmitted[..|s.transmitted|] == s.transmitted;
  }

  lemma AnsweringSocket(s: System, m: Mail)
    requires Answering(s) && Enabled(s, Socket(m))
    ensures Answering(DoSocket(s, m))
  {
    SocketAdds(s.c, m);
    SocketLink(s.c, m);
    LastRequestAsked(s.transmitted);
  }

  lemma AnsweringStep(s: System, e: Event)
    requires Answering(s) && Enabled(s, e)
    ensures Answering(Do(s, e))
  {
    match e
    case SendPop => AnsweringSendPop(s);
    case Socket(m) => AnsweringSocket(s, m);
    case Line(line) => if Enter(s.c.box, line).Ok? { EnterAdds(s.c.box, line); }
    case Signal => if OnSignal(s.c).Ok? { SignalAdds(s.c); }
    case _ =>
  }

  lemma {:induction false} AlwaysAnswering(limit: int, es: seq<Event>)
    ensures Answering(After(UDP, limit, es))
  {
    if es != [] {
      AlwaysAnswering(limit, es[..|es| - 1]);
      var s := After(UDP, limit, es[..|es| - 1]);
      if Enabled(s, es[|es| - 1]) {
        AnsweringStep(s, es[|es| - 1]);
      }
    }
  }

  /** In every run a new REPLY is let through if and only if it answers the last AUTH or
      JOIN transmitted. */
  lemma OnlyLastRequestAnswered(limit: int, es: seq<Event>, m: Mail)
    requires Enabled(After(UDP, limit, es), Socket(m)) && m.kind == REPLY
    requires MessageId(m) > After(UDP, limit, es).c.box.srvMsgId
    ensures var s := After(UDP, limit, es);
            var t := After(UDP, limit, es + [Socket(m)]);
            && m.data.ReplyMessage?
            && (t.delivered == s.delivered + [m] <==> m.data.refMessageId == LastRequest(s.transmitted))
            && (t.delivered == s.delivered <==> m.data.refMessageId != LastRequest(s.transmitted))
  {
    assert (es + [Socket(m)])[..|es|] == es;
    AlwaysAnswering(limit, es);
    var s := After(UDP, limit, es);
    TakenAndConfirmed(s.c, m);
    assert |s.delivered + [m]| != |s.delivered|;
  }

  /** Until the machine opens, AUTH is all it has sent. */
  lemma OnlyAuthBeforeOpen(s: System, m: Mail)
    requires Disciplined(s) && Balanced(s) && s.state in {StartState, AuthState} && m in s.transmitted
    ensures m.kind == AUTH && s.state == AuthState
  {
    var i: nat :| i < |s.transmitted| && s.transmitted[i] == m;
    assert s.sent[i] == m;
    assert Kinds(s.sent)[i] == m.kind;
  }

  /** Authentication across the threads: the machine enters the open state only in the
      state AUTH, on a positive REPLY whose RefMessageID is the number of an AUTH mail the
      listener had already transmitted. */
  lemma OpensOnAnswerToAuth(limit: int, es: seq<Event>, e: Event)
    requires After(UDP, limit, es).state != OpenState && After(UDP, limit, es + [e]).state == OpenState
    ensures var s := After(UDP, limit, es);
            && e == FsmAct && s.state == AuthState
            && IsSuccess(s.mail)
            && exists m :: m in s.transmitted && m.kind == AUTH && MessageId(m) == RefMessageId(s.mail)
  {
    assert (es + [e])[..|es|] == es;
    var s := After(UDP, limit, es);
    assert Enabled(s, e);
    OpensByAct(s, e);
    AlwaysAnswering(limit, es);
    AlwaysDisciplined(UDP, limit, es);
    AlwaysBalanced(UDP, limit, es);
    AskedByAuth(s);
  }

  lemma OpensByAct(s: System, e: Event)
    requires Enabled(s, e) && s.state != OpenState && Do(s, e).state == OpenState
    ensures e == FsmAct && s.state == AuthState && IsSuccess(s.mail) && s.fpc == Deciding
  {
    if !e.FsmAct? && !e.FsmWait? {
      OtherFrame(s, e);
    }
  }

  lemma AskedByAuth(s: System)
    requires Answering(s) && Disciplined(s) && Balanced(s)
    requires s.state == AuthState && s.fpc == Deciding && s.mail.kind == REPLY
    ensures exists m :: m in s.transmitted && m.kind == AUTH && MessageId(m) == RefMessageId(s.mail)
  {
    var m :| m in s.transmitted && (m.kind == AUTH || m.kind == JOIN) && MessageId(m) == RefMessageId(s.mail);
    OnlyAuthBeforeOpen(s, m);
  }

  /** In the state START no REPLY is ever in the queue, let alone fetched. */
  lemma NoReplyAtStart(limit: int, es: seq<Event>)
    requires After(UDP, limit, es).state == StartState
    ensures var s := After(UDP, limit, es);
            && (forall m :: m in s.c.box.incoming ==> m.kind != REPLY)
            && (s.fpc == Deciding ==> s.mail.kind != REPLY)
  {
    AlwaysAnswering(limit, es);
    AlwaysDisciplined(UDP, limit, es);
    AlwaysBalanced(UDP, limit, es);
    var s := After(UDP, limit, es);
    assert s.transmitted == [];
  }
}
