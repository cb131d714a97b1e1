/** What every run keeps on both transports: the mails in the queues are complete and
    valid, nothing is lost or reordered between the threads, the pipe counts the queue,
    and what the machine sends follows its protocol. */
module Accounting {
  import opened Mails
  import opened MailBoxes
  import opened Console
  import opened Fsm
  import opened Listeners
  import opened Systems

  // ------------------------------------------------------------ the mails are complete

  /** Every mail waiting for the machine, or in its hands, has `addToMailQueue` set, is no
      CONFIRM, carries the payload its kind asks for and has passed its validators; and so
      has everything the machine ever sent. */
  ghost predicate Complete(s: System) {
    && (forall m :: m in s.c.box.incoming ==> Queued(m))
    && (s.fpc == Deciding ==> Queued(s.mail))
    && s.mail.addToMailQueue
    && (forall m :: m in s.sent ==> Outgoing(m))
  }

  lemma EnterAdds(box: Box, line: string)
    requires Enter(box, line).Ok?
    ensures var after := Enter(box, line).value;
            && after == box.(incoming := after.incoming, displayName := after.displayName)
            && after.incoming == box.incoming + Grown(box, after)
            && forall m :: m in Grown(box, after) ==> Queued(m) && m.kind in {AUTH, JOIN, MSG}
  {
  }

  lemma SocketAdds(c: Client, m: Mail)
    requires FromSocket(c.box.protocol, m)
    ensures var after := OnSocket(c, m);
            && after.box == c.box.(incoming := after.box.incoming, srvMsgId := after.box.srvMsgId)
            && after.box.incoming == c.box.incoming + Grown(c.box, after.box)
            && (Grown(c.box, after.box) == [] || Grown(c.box, after.box) == [m])
            && forall x :: x in Grown(c.box, after.box) ==> Queued(x)
  {
  }

  lemma SignalAdds(c: Client)
    requires OnSignal(c).Ok?
    ensures var after := OnSignal(c).value;
            && after.box == c.box.(incoming := after.box.incoming)
            && after.box.incoming == c.box.incoming + Grown(c.box, after.box)
            && forall m :: m in Grown(c.box, after.box) ==> Queued(m) && m.kind == ERR
  {
  }

  lemma CompleteStep(s: System, e: Event)
    requires Complete(s) && Enabled(s, e)
    ensures Complete(Do(s, e))
  {
    match e
    case FsmAct => ActSendsOutgoing(s.state, s.c.box, s.mail);
    case Line(line) => if Enter(s.c.box, line).Ok? { EnterAdds(s.c.box, line); }
    case Socket(m) => SocketAdds(s.c, m);
    case Signal => if OnSignal(s.c).Ok? { SignalAdds(s.c); }
    case _ =>
  }

  /** In every reachable state the queues hold complete, valid mails only; so `sendMail`
      is never a silent no-op and no `std::get` meets the wrong alternative. */
  lemma {:induction false} AlwaysComplete(protocol: Protocol, limit: int, es: seq<Event>)
    ensures Complete(After(protocol, limit, es))
  {
    if es != [] {
      AlwaysComplete(protocol, limit, es[..|es| - 1]);
      var s := After(protocol, limit, es[..|es| - 1]);
      if Enabled(s, es[|es| - 1]) {
        CompleteStep(s, es[|es| - 1]);
      }
    }
  }

  // ------------------------------------------------------------ the pipe and the queues

  function Between(b: bool): nat {
    if b then 1 else 0
  }

  /** Between the threads every mail and every byte is accounted for, and the i-th mail
      sent carries the number i modulo 65536. */
  ghost predicate Balanced(s: System) {
    && |s.c.box.outgoing| == s.c.box.pipe + Between(s.fpc == Notifying) + Between(s.lpc.Popping?)
    && s.sent == s.transmitted + s.c.box.outgoing
    && s.added == s.consumed + s.c.box.incoming
    && s.c.box.sequence == |s.sent| % 0x1_0000
    && (forall i :: 0 <= i < |s.sent| ==> MessageId(s.sent[i]) == i % 0x1_0000)
  }

  lemma BalancedAct(s: System)
    requires Complete(s) && Balanced(s) && Enabled(s, FsmAct)
    ensures Balanced(DoAct(s))
  {
    ActSendsOutgoing(s.state, s.c.box, s.mail);
    var a := Act(s.state, s.c.box, s.mail);
    if a.Ok? && a.value.send {
      var t, stamped := DoAct(s), Stamp(s.c.box, a.value.mail);
      assert t.sent == s.transmitted + (s.c.box.outgoing + [stamped]);
      assert MessageId(stamped) == s.c.box.sequence;
    }
  }

  lemma BalancedAdded(s: System, t: System, mails: seq<Mail>)
    requires Balanced(s) && t.added == s.added + mails && t.c.box.incoming == s.c.box.incoming + mails
    requires t.sent == s.sent && t.transmitted == s.transmitted && t.consumed == s.consumed
    requires t.c.box.outgoing == s.c.box.outgoing && t.c.box.pipe == s.c.box.pipe
    requires t.c.box.sequence == s.c.box.sequence && t.fpc == s.fpc && t.lpc.Popping? == s.lpc.Popping?
    ensures Balanced(t)
  {
    assert s.consumed + (s.c.box.incoming + mails) == s.consumed + s.c.box.incoming + mails;
  }

  lemma BalancedInput(s: System, e: Event)
    requires Balanced(s) && Enabled(s, e) && (e.Line? || e.Socket? || e.Signal?)
    ensures Balanced(Do(s, e))
  {
    var t := Do(s, e);
    if e.Line? {
      if Enter(s.c.box, e.line).Ok? {
        EnterAdds(s.c.box, e.line);
        BalancedAdded(s, t, Grown(s.c.box, t.c.box));
      }
    } else if e.Socket? {
      SocketAdds(s.c, e.m);
      BalancedAdded(s, t, Grown(s.c.box, t.c.box));
    } else {
      if OnSignal(s.c).Ok? {
        SignalAdds(s.c);
        BalancedAdded(s, t, Grown(s.c.box, t.c.box));
      }
    }
  }

  lemma BalancedStep(s: System, e: Event)
    requires Complete(s) && Balanced(s) && Enabled(s, e)
    ensures Balanced(Do(s, e))
  {
    match e
    case FsmAct => BalancedAct(s);
    case SendPop =>
      assert s.sent == s.transmitted + [s.c.box.outgoing[0]] + s.c.box.outgoing[1..];
    case FsmWait =>
      assert s.added == s.consumed + [s.c.box.incoming[0]] + s.c.box.incoming[1..];
    case Line(_) => BalancedInput(s, e);
    case Socket(_) => BalancedInput(s, e);
    case Signal => BalancedInput(s, e);
    case _ =>
  }

  /** Under every interleaving: a byte in the pipe, or a byte just read, stands for a mail
      in the queue; what was transmitted and what still waits is what the machine sent;
      what it consumed and what still waits is what was put in. */
  lemma {:induction false} AlwaysBalanced(protocol: Protocol, limit: int, es: seq<Event>)
    ensures Balanced(After(protocol, limit, es))
  {
    if es != [] {
      AlwaysBalanced(protocol, limit, es[..|es| - 1]);
      AlwaysComplete(protocol, limit, es[..|es| - 1]);
      var s := After(protocol, limit, es[..|es| - 1]);
      if Enabled(s, es[|es| - 1]) {
        BalancedStep(s, es[|es| - 1]);
      }
    }
  }

  /** `getOutgoingMail` never meets an empty queue, and `FSM::run` never meets a mail it
      cannot read. */
  lemma NeverStuck(protocol: Protocol, limit: int, es: seq<Event>)
    ensures var s := After(protocol, limit, es);
            && (s.lpc.Popping? ==> s.c.box.outgoing != [])
            && (s.fpc == Deciding ==> Shaped(s.mail))
            && s.c.box.pipe <= |s.c.box.outgoing|
  {
    AlwaysBalanced(protocol, limit, es);
    AlwaysComplete(protocol, limit, es);
  }

  // ------------------------------------------------------------ what the machine says

  /** A positive REPLY is among the mails. */
  predicate Succeeded(mails: seq<Mail>) {
    exists i :: 0 <= i < |mails| && IsSuccess(mails[i])
  }

  lemma SucceededSnoc(mails: seq<Mail>, m: Mail)
    ensures Succeeded(mails + [m]) <==> Succeeded(mails) || IsSuccess(m)
  {
    if Succeeded(mails) {
      var i :| 0 <= i < |mails| && IsSuccess(mails[i]);
      assert (mails + [m])[i] == mails[i];
    }
    assert (mails + [m])[|mails|] == m;
  }

  ghost predicate Disciplined(s: System) {
    && Spoken(s.state, Kinds(s.sent))
    && (s.fpc == Deciding ==> s.state in {StartState, AuthState, OpenState} && s.mail in s.consumed)
    && (s.state == OpenState ==> Succeeded(s.consumed))
    && (forall m :: m in s.sent && (m.kind == MSG || m.kind == JOIN) ==> Succeeded(s.consumed))
  }

  lemma ActEffect(s: System)
    requires Complete(s) && Enabled(s, FsmAct) && Act(s.state, s.c.box, s.mail).Ok?
    ensures var t, a := DoAct(s), Act(s.state, s.c.box, s.mail).value;
            && t.state == a.next && t.fpc != Deciding && t.consumed == s.consumed
            && t.sent == (if a.send then s.sent + [Stamp(s.c.box, a.mail)] else s.sent)
            && Stamp(s.c.box, a.mail).kind == a.mail.kind
  {
    ActSendsOutgoing(s.state, s.c.box, s.mail);
  }

  /** The machine opens on a positive REPLY, and chats only when it is open. */
  lemma ActOpens(state: State, box: Box, m: Mail)
    requires state != EndState && (state != ErrorState ==> Handled(m))
    requires Act(state, box, m).Ok?
    ensures var a := Act(state, box, m).value;
            && (a.next == OpenState ==> state == OpenState || IsSuccess(m))
            && (a.send && (a.mail.kind == MSG || a.mail.kind == JOIN) ==> state == OpenState)
  {
  }

  lemma DisciplinedAct(s: System)
    requires Complete(s) && Disciplined(s) && Enabled(s, FsmAct)
    ensures Disciplined(DoAct(s))
  {
    if Act(s.state, s.c.box, s.mail).Ok? {
      SpokenAct(s);
      ActEffect(s);
      ActOpens(s.state, s.c.box, s.mail);
      if s.fpc == Deciding && IsSuccess(s.mail) {
        var i :| 0 <= i < |s.consumed| && s.consumed[i] == s.mail;
      }
    }
  }

  /** The other steps of either thread leave the machine's histories alone. */
  lemma OtherFrame(s: System, e: Event)
    requires Enabled(s, e) && !e.FsmAct? && !e.FsmWait?
    ensures var t := Do(s, e);
            && t.state == s.state && t.sent == s.sent && t.consumed == s.consumed && t.mail == s.mail
            && (t.fpc == s.fpc || (s.fpc == Notifying && t.fpc == Idle))
  {
  }

  lemma SpokenAct(s: System)
    requires Complete(s) && Spoken(s.state, Kinds(s.sent)) && Enabled(s, FsmAct)
    requires s.fpc == Deciding ==> s.state in {StartState, AuthState, OpenState}
    requires Act(s.state, s.c.box, s.mail).Ok?
    ensures Spoken(DoAct(s).state, Kinds(DoAct(s).sent))
  {
    ActSendsOutgoing(s.state, s.c.box, s.mail);
    ActSpeaks(s.state, s.c.box, s.mail, Kinds(s.sent));
    assert Kinds(DoAct(s).sent) == Said(Kinds(s.sent), Act(s.state, s.c.box, s.mail).value);
  }

  lemma DisciplinedStep(s: System, e: Event)
    requires Complete(s) && Disciplined(s) && Enabled(s, e)
    ensures Disciplined(Do(s, e))
  {
    match e
    case FsmAct => DisciplinedAct(s);
    case FsmWait => SucceededSnoc(s.consumed, s.c.box.incoming[0]);
    case _ =>
  }

  lemma {:induction false} AlwaysDisciplined(protocol: Protocol, limit: int, es: seq<Event>)
    ensures Disciplined(After(protocol, limit, es))
  {
    if es != [] {
      AlwaysDisciplined(protocol, limit, es[..|es| - 1]);
      AlwaysComplete(protocol, limit, es[..|es| - 1]);
      var s := After(protocol, limit, es[..|es| - 1]);
      if Enabled(s, es[|es| - 1]) {
        DisciplinedStep(s, es[|es| - 1]);
      }
    }
  }

  /** Every run of the machine speaks its language: nothing, or AUTHs and then MSGs and
      JOINs, followed by nothing, ERR, BYE, or ERR and BYE; and no MSG or JOIN is sent
      before a positive REPLY has been consumed. */
  lemma OutputLanguage(protocol: Protocol, limit: int, es: seq<Event>)
    ensures var s := After(protocol, limit, es);
            && Language(Kinds(s.sent))
            && (forall m :: m in s.sent ==> m.kind !in {REPLY, CONFIRM, UNKNOWN})
            && (forall m :: m in s.sent && (m.kind == MSG || m.kind == JOIN) ==> Succeeded(s.consumed))
  {
    AlwaysDisciplined(protocol, limit, es);
    AlwaysComplete(protocol, limit, es);
    var s := After(protocol, limit, es);
    SpokenIsLanguage(s.state, Kinds(s.sent));
  }

  predicate HasBye(mails: seq<Mail>) {
    exists i :: 0 <= i < |mails| && mails[i].kind == BYE
  }

  lemma HasByeSnoc(mails: seq<Mail>, m: Mail)
    ensures HasBye(mails + [m]) <==> HasBye(mails) || m.kind == BYE
  {
    if HasBye(mails) {
      var i :| 0 <= i < |mails| && mails[i].kind == BYE;
      assert (mails + [m])[i] == mails[i];
    }
    assert (mails + [m])[|mails|] == m;
  }

  /** Nothing follows a BYE, and only a BYE follows an ERR. */
  lemma LastWords(protocol: Protocol, limit: int, es: seq<Event>, i: nat)
    requires i < |After(protocol, limit, es).sent|
    ensures var sent := After(protocol, limit, es).sent;
            && (sent[i].kind == BYE ==> i == |sent| - 1)
            && (sent[i].kind == ERR ==> i == |sent| - 1 || (i == |sent| - 2 && sent[i + 1].kind == BYE))
  {
    OutputLanguage(protocol, limit, es);
    LanguageOrder(Kinds(After(protocol, limit, es).sent), i);
  }
}
