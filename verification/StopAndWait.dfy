/** Sending over UDP: one mail at a time, each repeated at most `limit` times, each
    matched by its CONFIRM before the next; and what it means that the loop ends. */
module StopAndWait {
  import opened Mails
  import opened MailBoxes
  import opened Console
  import opened Fsm
  import opened Listeners
  import opened Systems
  import opened Accounting

  // ------------------------------------------------------------ an observer of the trace

  /** What stop-and-wait allows next: a first transmission when quiet; while a mail awaits
      its CONFIRM, that mail again, or the CONFIRM with its number. */
  datatype Observer = Quiet | Awaiting(mail: Mail, times: nat) | Broken

  function Observe(o: Observer, t: Trace, limit: int): Observer {
    match (o, t)
    case (Quiet, First(m)) => Awaiting(m, 1)
    case (Awaiting(m, n), Again(m')) => if m' == m && n <= limit then Awaiting(m, n + 1) else Broken
    case (Awaiting(m, n), Acked(id)) => if id == MessageId(m) then Quiet else Broken
    case (_, _) => Broken
  }

  function Watch(trace: seq<Trace>, limit: int): Observer {
    if trace == [] then Quiet
    else Observe(Watch(trace[..|trace| - 1], limit), trace[|trace| - 1], limit)
  }

  lemma WatchSnoc(trace: seq<Trace>, t: Trace, limit: int)
    ensures Watch(trace + [t], limit) == Observe(Watch(trace, limit), t, limit)
  {
    assert (trace + [t])[..|trace|] == trace;
  }

  lemma {:induction false} WatchPrefix(trace: seq<Trace>, n: nat, limit: int)
    requires n <= |trace| && Watch(trace, limit) != Broken
    ensures Watch(trace[..n], limit) != Broken
  {
    if n < |trace| {
      assert trace[..|trace| - 1][..n] == trace[..n];
      WatchPrefix(trace[..|trace| - 1], n, limit);
    } else {
      assert trace[..n] == trace;
    }
  }

  ghost predicate AckedWithin(trace: seq<Trace>, i: nat, n: nat, id: int)
    requires n <= |trace|
  {
    exists k :: i < k < n && trace[k] == Acked(id)
  }

  ghost predicate OnlyRepeats(trace: seq<Trace>, i: nat, n: nat, m: Mail)
    requires n <= |trace|
  {
    forall k :: i < k < n ==> trace[k] == Again(m)
  }

  /** Reading of the observer: after a first transmission either its CONFIRM has come, or
      there has been nothing but at most `limit` repetitions of the same mail. */
  lemma {:induction false} SinceFirst(trace: seq<Trace>, limit: int, i: nat, n: nat)
    requires i < n <= |trace| && trace[i].First? && Watch(trace, limit) != Broken && limit >= 0
    ensures var m := trace[i].mail;
            || AckedWithin(trace, i, n, MessageId(m))
            || (OnlyRepeats(trace, i, n, m) && n - i <= limit + 1 && Watch(trace[..n], limit) == Awaiting(m, n - i))
    decreases n
  {
    var m := trace[i].mail;
    WatchPrefix(trace, n, limit);
    assert trace[..n][..n - 1] == trace[..n - 1];
    if n > i + 1 {
      SinceFirst(trace, limit, i, n - 1);
      if AckedWithin(trace, i, n - 1, MessageId(m)) {
      } else if trace[n - 1] == Acked(MessageId(m)) {
        assert AckedWithin(trace, i, n, MessageId(m));
      } else {
        assert trace[n - 1] == Again(m);
      }
    } else {
      WatchPrefix(trace, n - 1, limit);
    }
  }

  /** Between two first transmissions lies the CONFIRM of the earlier mail. */
  lemma ConfirmedBetween(trace: seq<Trace>, limit: int, i: nat, j: nat)
    requires i < j < |trace| && trace[i].First? && trace[j].First? && Watch(trace, limit) != Broken && limit >= 0
    ensures AckedWithin(trace, i, j, MessageId(trace[i].mail))
  {
    SinceFirst(trace, limit, i, j);
    WatchPrefix(trace, j + 1, limit);
    assert trace[..j + 1][..j] == trace[..j];
  }

  // ------------------------------------------------------------ what the observer means

  /** Entry i transmits a mail, and up to entry k there is nothing but its repetitions. */
  ghost predicate SinceAt(trace: seq<Trace>, i: nat, k: nat) {
    i < k <= |trace| && trace[i].First? && OnlyRepeats(trace, i, k, trace[i].mail)
  }

  /** What may stand at position k: a first transmission at the start or right after a
      CONFIRM; a repetition of the mail transmitted last, when there have been fewer than
      `limit` since; the CONFIRM with the number of that mail. */
  ghost predicate Legal(trace: seq<Trace>, k: nat, limit: int)
    requires k < |trace|
  {
    match trace[k]
    case First(_) => k == 0 || trace[k - 1].Acked?
    case Again(m) => exists i: nat :: SinceAt(trace, i, k) && trace[i].mail == m && k - i <= limit
    case Acked(id) => exists i: nat :: SinceAt(trace, i, k) && MessageId(trace[i].mail) == id
  }

  ghost predicate AllLegal(trace: seq<Trace>, limit: int) {
    forall k: nat :: k < |trace| ==> Legal(trace, k, limit)
  }

  /** While a mail is awaited, its transmissions are the last entries. */
  lemma {:induction false} AwaitingOrigin(trace: seq<Trace>, limit: int)
    ensures var o := Watch(trace, limit);
            && (o.Quiet? ==> trace == [] || trace[|trace| - 1].Acked?)
            && (o.Awaiting? ==>
                  1 <= o.times <= |trace| && SinceAt(trace, |trace| - o.times, |trace|)
                  && trace[|trace| - o.times].mail == o.mail)
  {
    if trace != [] {
      var front := trace[..|trace| - 1];
      AwaitingOrigin(front, limit);
      var o := Watch(front, limit);
      if o.Awaiting? && trace[|trace| - 1] == Again(o.mail) {
        SinceExtended(trace, |front| - o.times);
      }
    }
  }

  lemma SinceExtended(trace: seq<Trace>, i: nat)
    requires trace != [] && SinceAt(trace[..|trace| - 1], i, |trace| - 1)
    requires trace[|trace| - 1] == Again(trace[i].mail)
    ensures SinceAt(trace, i, |trace|)
  {
    var front := trace[..|trace| - 1];
    forall k | i < k < |trace|
      ensures trace[k] == Again(trace[i].mail)
    {
      assert k < |front| ==> front[k] == trace[k];
    }
  }

  /** The last entry is legal exactly if the observer accepts it. */
  lemma LastLegal(trace: seq<Trace>, limit: int)
    requires trace != [] && Watch(trace[..|trace| - 1], limit) != Broken
    ensures Watch(trace, limit) != Broken <==> Legal(trace, |trace| - 1, limit)
  {
    var n := |trace| - 1;
    var o := Watch(trace[..n], limit);
    AwaitingOrigin(trace[..n], limit);
    if o.Awaiting? {
      SinceOfFront(trace, n - o.times);
      LegalWhileAwaiting(trace, n - o.times, n, limit);
    } else {
      LegalWhenQuiet(trace, n, limit);
    }
  }

  lemma LegalWhileAwaiting(trace: seq<Trace>, i: nat, k: nat, limit: int)
    requires k < |trace| && SinceAt(trace, i, k)
    ensures Legal(trace, k, limit) <==>
            || (trace[k] == Again(trace[i].mail) && k - i <= limit)
            || trace[k] == Acked(MessageId(trace[i].mail))
  {
    forall j: nat | SinceAt(trace, j, k)
      ensures j == i
    {
      SinceUnique(trace, i, j, k);
    }
  }

  lemma LegalWhenQuiet(trace: seq<Trace>, k: nat, limit: int)
    requires k < |trace| && (k == 0 || trace[k - 1].Acked?)
    ensures Legal(trace, k, limit) <==> trace[k].First?
  {
    forall i: nat
      ensures !SinceAt(trace, i, k)
    {
    }
  }

  lemma SinceOfFront(trace: seq<Trace>, i: nat)
    requires trace != [] && SinceAt(trace[..|trace| - 1], i, |trace| - 1)
    ensures SinceAt(trace, i, |trace| - 1)
  {
    var front := trace[..|trace| - 1];
    forall k | i < k < |front|
      ensures trace[k] == Again(trace[i].mail)
    {
      assert front[k] == trace[k];
    }
  }

  lemma SinceUnique(trace: seq<Trace>, i: nat, j: nat, k: nat)
    requires SinceAt(trace, i, k) && SinceAt(trace, j, k)
    ensures i == j
  {
  }

  lemma LegalOfFront(trace: seq<Trace>, k: nat, limit: int)
    requires k < |trace| - 1
    ensures Legal(trace[..|trace| - 1], k, limit) <==> Legal(trace, k, limit)
  {
    var front := trace[..|trace| - 1];
    forall i: nat
      ensures SinceAt(front, i, k) <==> SinceAt(trace, i, k)
    {
      assert forall j :: i < j < k ==> front[j] == trace[j];
    }
  }

  /** The observer accepts a trace if and only if each of its entries is legal. */
  lemma {:induction false} WatchLegal(trace: seq<Trace>, limit: int)
    ensures Watch(trace, limit) != Broken <==> AllLegal(trace, limit)
  {
    if trace != [] {
      var n := |trace| - 1;
      var front := trace[..n];
      WatchLegal(front, limit);
      forall k: nat | k < n
        ensures Legal(front, k, limit) <==> Legal(trace, k, limit)
      {
        LegalOfFront(trace, k, limit);
      }
      if Watch(front, limit) != Broken {
        LastLegal(trace, limit);
      }
      assert AllLegal(trace, limit) ==> Legal(trace, n, limit);
    }
  }

  // ------------------------------------------------------------ trace, transmissions and wire

  /** The mails dequeued for transmission. */
  function Firsts(trace: seq<Trace>): seq<Mail> {
    if trace == [] then []
    else Firsts(trace[..|trace| - 1]) + (if trace[|trace| - 1].First? then [trace[|trace| - 1].mail] else [])
  }

  /** Everything transmitted but the CONFIRMs, repetitions included. */
  function Sendings(trace: seq<Trace>): seq<Mail> {
    if trace == [] then []
    else Sendings(trace[..|trace| - 1]) + (if trace[|trace| - 1].Acked? then [] else [trace[|trace| - 1].mail])
  }

  function WithoutConfirms(wire: seq<Mail>): seq<Mail> {
    if wire == [] then []
    else WithoutConfirms(wire[..|wire| - 1]) + (if wire[|wire| - 1].kind == CONFIRM then [] else [wire[|wire| - 1]])
  }

  lemma TraceSnoc(trace: seq<Trace>, t: Trace)
    ensures Firsts(trace + [t]) == Firsts(trace) + (if t.First? then [t.mail] else [])
    ensures Sendings(trace + [t]) == Sendings(trace) + (if t.Acked? then [] else [t.mail])
  {
    assert (trace + [t])[..|trace|] == trace;
  }

  lemma WireSnoc(wire: seq<Mail>, m: Mail)
    ensures WithoutConfirms(wire + [m]) == WithoutConfirms(wire) + (if m.kind == CONFIRM then [] else [m])
  {
    assert (wire + [m])[..|wire|] == wire;
  }

  // ------------------------------------------------------------ the invariant on UDP

  /** The sender's fields: either nothing is outstanding, or the last mail transmitted is
      `confMail`, the CONFIRM awaited is the one for it, and the observer has counted as
      many transmissions as `retries` says. */
  ghost predicate Window(s: System) {
    var l := s.c.link;
    && s.limit >= 0
    && s.c.box.protocol == UDP
    && 0 <= l.retries <= s.limit
    && (l.receivedConfirm ==> l.refMsgId == -1 && l.retries == 0)
    && (!l.receivedConfirm ==>
          && l.refMsgId == MessageId(l.confMail)
          && s.transmitted != [] && l.confMail == s.transmitted[|s.transmitted| - 1])
    && Watch(s.trace, s.limit) == (if l.receivedConfirm then Quiet else Awaiting(l.confMail, l.retries + 1))
    && Firsts(s.trace) == s.transmitted
    && Sendings(s.trace) == WithoutConfirms(l.wire)
    && (s.status == NotResponding ==> !l.receivedConfirm && l.retries == s.limit)
  }

  /** The to-send pipe is served only while nothing is outstanding. */
  ghost predicate Gated(s: System) {
    match s.lpc
    case LoopTop => true
    case Serving(fds) =>
      && fds != []
      && (forall i, j :: 0 <= i < j < |fds| ==> fds[i] != fds[j])
      && (ToSendFd in fds ==> s.c.link.receivedConfirm && s.c.box.pipe > 0)
    case Popping(fds) =>
      && fds != [] && fds[0] == ToSendFd
      && (forall i, j :: 0 <= i < j < |fds| ==> fds[i] != fds[j])
      && s.c.link.receivedConfirm
  }

  /** The loop is left only when it is over, and BYE is noticed when it is transmitted. */
  ghost predicate Leaving(s: System) {
    && (s.status == Exited ==> LoopOver(s.c.link) && s.lpc == LoopTop)
    && (s.c.link.sentBye <==> HasBye(s.transmitted))
    && (s.c.link.sentBye ==> !s.c.link.keepRunning)
  }

  lemma WindowTimeout(s: System)
    requires Window(s) && Balanced(s) && Complete(s) && Enabled(s, Timeout)
    ensures Window(DoTimeout(s))
  {
    var l := s.c.link;
    WatchSnoc(s.trace, Again(l.confMail), s.limit);
    TraceSnoc(s.trace, Again(l.confMail));
    WireSnoc(l.wire, l.confMail);
    assert l.confMail in s.sent;
  }

  /** What a message off the socket can do to the sender's fields. */
  predicate Acknowledges(c: Client, m: Mail)
    requires FromSocket(c.box.protocol, m)
  {
    m.kind == CONFIRM && m.data.refMessageId == c.link.refMsgId && !c.link.receivedConfirm
  }

  lemma SocketLink(c: Client, m: Mail)
    requires c.box.protocol == UDP && FromSocket(UDP, m)
    ensures var l := OnSocket(c, m).link;
            if Acknowledges(c, m) then l == c.link.(receivedConfirm := true, retries := 0, refMsgId := -1)
            else l == c.link || l == Transmit(c.link, Confirmation(MessageId(m)))
    ensures OnSocket(c, m).box.protocol == UDP
  {
  }

  /** The four things that can happen to a message over UDP. */
  lemma SocketOutcome(c: Client, m: Mail)
    requires c.box.protocol == UDP && FromSocket(UDP, m)
    ensures var d, id := OnSocket(c, m), MessageId(m);
            || d == c
            || (m.kind == CONFIRM && d.box == c.box && d.link.wire == c.link.wire)
            || (m.kind == REPLY && id <= c.box.srvMsgId && d == c.(link := Transmit(c.link, Confirmation(id))))
            || (m.kind != CONFIRM && id > c.box.srvMsgId && d == Accept(c, m) && m.addToMailQueue)
  {
  }

  lemma WindowSocket(s: System, m: Mail)
    requires Window(s) && Enabled(s, Socket(m))
    ensures Window(DoSocket(s, m))
  {
    if Acknowledges(s.c, m) {
      WindowAcknowledged(s, m);
    } else {
      SocketEffect(s, m);
      WindowConfirming(s, DoSocket(s, m), MessageId(m));
    }
  }

  /** The sender's part of the state after a message, over UDP. */
  lemma SocketEffect(s: System, m: Mail)
    requires s.c.box.protocol == UDP && Enabled(s, Socket(m))
    ensures var t := DoSocket(s, m);
            && t.transmitted == s.transmitted && t.limit == s.limit
            && t.status == s.status == Running && t.c.box.protocol == UDP
            && (if Acknowledges(s.c, m)
                then t.c.link == s.c.link.(receivedConfirm := true, retries := 0, refMsgId := -1)
                     && t.trace == s.trace + [Acked(MessageId(m))]
                else (t.c.link == s.c.link || t.c.link == Transmit(s.c.link, Confirmation(MessageId(m))))
                     && t.trace == s.trace)
  {
    SocketLink(s.c, m);
  }

  lemma WindowConfirming(s: System, t: System, id: int)
    requires Window(s) && t.transmitted == s.transmitted && t.trace == s.trace && t.limit == s.limit
    requires t.status == s.status && t.c.box.protocol == UDP
    requires t.c.link == s.c.link || t.c.link == Transmit(s.c.link, Confirmation(id))
    ensures Window(t)
  {
    WireSnoc(s.c.link.wire, Confirmation(id));
  }

  lemma WindowAcknowledged(s: System, m: Mail)
    requires Window(s) && Enabled(s, Socket(m)) && Acknowledges(s.c, m)
    ensures Window(DoSocket(s, m))
  {
    SocketEffect(s, m);
    WatchSnoc(s.trace, Acked(MessageId(m)), s.limit);
    TraceSnoc(s.trace, Acked(MessageId(m)));
  }

  lemma WindowSendPop(s: System)
    requires Window(s) && Gated(s) && Balanced(s) && Complete(s) && Enabled(s, SendPop)
    ensures Window(DoSendPop(s))
  {
    var m := s.c.box.outgoing[0];
    assert m in s.sent;
    SendLink(s.c);
    WindowSent(s, DoSendPop(s), m);
  }

  /** What sending does to the sender's fields over UDP. */
  lemma SendLink(c: Client)
    requires c.box.protocol == UDP && c.box.outgoing != []
    ensures var m, l := c.box.outgoing[0], OnSend(c).link;
            && !l.receivedConfirm && l.refMsgId == MessageId(m) && l.confMail == m
            && l.retries == c.link.retries && l.wire == c.link.wire + [m]
    ensures OnSend(c).box == Pop(c.box)
  {
  }

  lemma WindowSent(s: System, t: System, m: Mail)
    requires Window(s) && s.c.link.receivedConfirm && s.status == t.status == Running && m.kind != CONFIRM
    requires t.limit == s.limit && t.c.box.protocol == UDP
    requires t.transmitted == s.transmitted + [m] && t.trace == s.trace + [First(m)]
    requires var l := t.c.link;
             && !l.receivedConfirm && l.refMsgId == MessageId(m) && l.confMail == m
             && l.retries == s.c.link.retries && l.wire == s.c.link.wire + [m]
    ensures Window(t)
  {
    WatchSnoc(s.trace, First(m), s.limit);
    TraceSnoc(s.trace, First(m));
    WireSnoc(s.c.link.wire, m);
  }

  /** The sender's fields and histories are the same, `keepRunning` is not set, and the loop
      is left only when it is over. */
  predicate SameSender(s: System, t: System) {
    && t.transmitted == s.transmitted && t.trace == s.trace && t.delivered == s.delivered
    && t.limit == s.limit && (t.status == NotResponding ==> s.status == NotResponding)
    && t.c.box.protocol == s.c.box.protocol && t.c.box.srvMsgId == s.c.box.srvMsgId
    && t.c.link.(keepRunning := s.c.link.keepRunning, toSendRegistered := s.c.link.toSendRegistered) == s.c.link
    && (t.c.link.keepRunning ==> s.c.link.keepRunning)
    && (t.status == Exited ==> t.lpc == s.lpc && (s.status == Exited || (s.lpc == LoopTop && LoopOver(s.c.link))))
  }

  /** Of the client's own steps only three touch them. */
  lemma SenderFrame(s: System, e: Event)
    requires Enabled(s, e) && !e.Socket? && !e.SendPop? && !e.Timeout?
    ensures SameSender(s, Do(s, e))
  {
    match e
    case Line(line) => if Enter(s.c.box, line).Ok? { EnterAdds(s.c.box, line); }
    case Signal => if OnSignal(s.c).Ok? { SignalAdds(s.c); }
    case _ =>
  }

  lemma WindowFrame(s: System, t: System)
    requires Window(s) && SameSender(s, t)
    ensures Window(t)
  {
  }

  lemma WindowStep(s: System, e: Event)
    requires Window(s) && Gated(s) && Balanced(s) && Complete(s) && Enabled(s, e)
    ensures Window(Do(s, e))
  {
    if e.Timeout? {
      WindowTimeout(s);
    } else if e.Socket? {
      WindowSocket(s, e.m);
    } else if e.SendPop? {
      WindowSendPop(s);
    } else {
      SenderFrame(s, e);
      WindowFrame(s, Do(s, e));
    }
  }

  lemma GatedStep(s: System, e: Event)
    requires Gated(s) && Enabled(s, e)
    ensures Gated(Do(s, e))
  {
    match e
    case Line(line) => if Enter(s.c.box, line).Ok? { EnterAdds(s.c.box, line); }
    case Socket(m) => SocketAdds(s.c, m);
    case Signal => if OnSignal(s.c).Ok? { SignalAdds(s.c); }
    case _ =>
  }

  lemma LeavingFrame(s: System, t: System)
    requires Leaving(s) && t.transmitted == s.transmitted && t.c.link.sentBye == s.c.link.sentBye
    requires t.c.link.keepRunning ==> s.c.link.keepRunning
    requires t.status == Exited ==>
               && t.lpc == s.lpc && (s.status == Exited || (s.lpc == LoopTop && LoopOver(s.c.link)))
               && t.c.link.receivedConfirm == s.c.link.receivedConfirm
    ensures Leaving(t)
  {
  }

  lemma LeavingSocket(s: System, m: Mail)
    requires Leaving(s) && Enabled(s, Socket(m))
    ensures Leaving(DoSocket(s, m))
  {
    SocketAdds(s.c, m);
  }

  lemma LeavingStep(s: System, e: Event)
    requires Leaving(s) && Enabled(s, e)
    ensures Leaving(Do(s, e))
  {
    if e == SendPop {
      HasByeSnoc(s.transmitted, s.c.box.outgoing[0]);
    } else if e.Socket? {
      LeavingSocket(s, e.m);
    } else if e.Timeout? {
      LeavingFrame(s, DoTimeout(s));
    } else {
      SenderFrame(s, e);
      LeavingFrame(s, Do(s, e));
    }
  }

  lemma {:induction false} AlwaysGated(protocol: Protocol, limit: int, es: seq<Event>)
    ensures Gated(After(protocol, limit, es)) && Leaving(After(protocol, limit, es))
  {
    if es != [] {
      AlwaysGated(protocol, limit, es[..|es| - 1]);
      var s := After(protocol, limit, es[..|es| - 1]);
      if Enabled(s, es[|es| - 1]) {
        GatedStep(s, es[|es| - 1]);
        LeavingStep(s, es[|es| - 1]);
      }
    }
  }

  lemma {:induction false} AlwaysWindow(limit: nat, es: seq<Event>)
    ensures Window(After(UDP, limit, es))
  {
    if es != [] {
      var s := After(UDP, limit, es[..|es| - 1]);
      AlwaysWindow(limit, es[..|es| - 1]);
      AlwaysGated(UDP, limit, es[..|es| - 1]);
      AlwaysBalanced(UDP, limit, es[..|es| - 1]);
      AlwaysComplete(UDP, limit, es[..|es| - 1]);
      if Enabled(s, es[|es| - 1]) {
        WindowStep(s, es[|es| - 1]);
      }
    }
  }

  // ------------------------------------------------------------ the theorems

  /** For every order of events in every batch: a mail is taken from the queue only when
      nothing is outstanding; `receivedConfirm` and `refMsgId == -1` say the same; and
      while a CONFIRM is awaited it is the one for `confMail`. */
  lemma OneAtATime(limit: nat, es: seq<Event>)
    ensures var s := After(UDP, limit, es);
            && (Enabled(s, SendRead) || Enabled(s, SendPop) ==> s.c.link.receivedConfirm)
            && (s.c.link.receivedConfirm <==> s.c.link.refMsgId == -1)
            && (!s.c.link.receivedConfirm ==> MessageId(s.c.link.confMail) == s.c.link.refMsgId)
  {
    AlwaysWindow(limit, es);
    AlwaysGated(UDP, limit, es);
    AlwaysBalanced(UDP, limit, es);
    var s := After(UDP, limit, es);
    if !s.c.link.receivedConfirm {
      assert s.sent[|s.transmitted| - 1] == s.c.link.confMail;
    }
  }

  /** What is on the wire, CONFIRMs aside, is stop-and-wait: the mails go out in the order
      in which the machine sent them; each is confirmed before the next is transmitted; until
      then it is repeated, unchanged, at most `limit` times; and after that never again. */
  lemma WireIsStopAndWait(limit: nat, es: seq<Event>, i: nat, n: nat)
    requires i < n <= |After(UDP, limit, es).trace| && After(UDP, limit, es).trace[i].First?
    ensures var s := After(UDP, limit, es);
            var m := s.trace[i].mail;
            && Sendings(s.trace) == WithoutConfirms(s.c.link.wire)
            && Firsts(s.trace) == s.transmitted <= s.sent
            && AllLegal(s.trace, limit)
            && (AckedWithin(s.trace, i, n, MessageId(m)) || (OnlyRepeats(s.trace, i, n, m) && n - i <= limit + 1))
            && (n < |s.trace| && s.trace[n].First? ==> AckedWithin(s.trace, i, n, MessageId(m)))
  {
    AlwaysWindow(limit, es);
    AlwaysBalanced(UDP, limit, es);
    AlwaysLimit(UDP, limit, es);
    var s := After(UDP, limit, es);
    WatchLegal(s.trace, limit);
    SinceFirst(s.trace, limit, i, n);
    if n < |s.trace| && s.trace[n].First? {
      ConfirmedBetween(s.trace, limit, i, n);
    }
  }

  /** "Server not responding" is raised only after the current mail has been transmitted
      exactly limit + 1 times without a CONFIRM. */
  lemma GivesUpAfterLimit(limit: nat, es: seq<Event>)
    requires After(UDP, limit, es).status == NotResponding
    ensures var s := After(UDP, limit, es);
            && s.transmitted != []
            && Watch(s.trace, limit) == Awaiting(s.transmitted[|s.transmitted| - 1], limit + 1)
  {
    AlwaysWindow(limit, es);
    AlwaysLimit(UDP, limit, es);
  }

  lemma {:induction false} AlwaysLimit(protocol: Protocol, limit: int, es: seq<Event>)
    ensures After(protocol, limit, es).limit == limit
    ensures After(protocol, limit, es).c.box.protocol == protocol
  {
    if es != [] {
      AlwaysLimit(protocol, limit, es[..|es| - 1]);
      var s := After(protocol, limit, es[..|es| - 1]);
      if Enabled(s, es[|es| - 1]) {
        LimitStep(s, es[|es| - 1]);
      }
    }
  }

  lemma LimitStep(s: System, e: Event)
    requires Enabled(s, e)
    ensures Do(s, e).limit == s.limit && Do(s, e).c.box.protocol == s.c.box.protocol
  {
    match e
    case Line(line) => if Enter(s.c.box, line).Ok? { EnterAdds(s.c.box, line); }
    case Socket(m) => SocketAdds(s.c, m);
    case Signal => if OnSignal(s.c).Ok? { SignalAdds(s.c); }
    case _ =>
  }

  /** Every repetition uses up one retry: `limit - retries` is a measure. */
  lemma RetryMeasure(limit: nat, es: seq<Event>)
    requires Enabled(After(UDP, limit, es), Timeout)
    ensures var s := After(UDP, limit, es);
            var t := Do(s, Timeout);
            || t.status == NotResponding
            || (s.transmitted != []
                && 0 <= s.limit - t.c.link.retries < s.limit - s.c.link.retries
                && t.c.link.wire == s.c.link.wire + [s.transmitted[|s.transmitted| - 1]])
  {
    AlwaysWindow(limit, es);
  }

  lemma ByePosition(s: System, k: nat)
    requires Disciplined(s) && k < |s.sent| && s.sent[k].kind == BYE
    ensures k == |s.sent| - 1
  {
    SpokenIsLanguage(s.state, Kinds(s.sent));
    LanguageOrder(Kinds(s.sent), k);
  }

  lemma ByeIsLast(s: System)
    requires Balanced(s) && Disciplined(s) && Leaving(s) && s.c.link.sentBye
    ensures s.transmitted == s.sent && s.sent != [] && s.sent[|s.sent| - 1].kind == BYE
    ensures s.c.box.outgoing == [] && s.c.box.pipe == 0 && s.fpc != Notifying && !s.lpc.Popping?
  {
    var k: nat :| k < |s.transmitted| && s.transmitted[k].kind == BYE;
    assert s.sent[k] == s.transmitted[k];
    ByePosition(s, k);
    assert |s.transmitted| == |s.sent|;
  }

  /** Clean shutdown: once the listener's loop has ended, every mail the machine ever sent
      has been transmitted, in order, ending with BYE; nothing is left in the queue or in
      the pipe; and over UDP each mail, the BYE included, was matched by its CONFIRM. */
  lemma CleanShutdown(protocol: Protocol, limit: nat, es: seq<Event>)
    requires After(protocol, limit, es).status == Exited
    ensures var s := After(protocol, limit, es);
            && s.transmitted == s.sent && s.sent != [] && s.sent[|s.sent| - 1].kind == BYE
            && s.c.box.outgoing == [] && s.c.box.pipe == 0 && s.fpc != Notifying
            && s.c.link.receivedConfirm
            && (protocol == UDP ==> Watch(s.trace, limit) == Quiet && Firsts(s.trace) == s.sent)
  {
    AlwaysGated(protocol, limit, es);
    AlwaysBalanced(protocol, limit, es);
    AlwaysDisciplined(protocol, limit, es);
    AlwaysLimit(protocol, limit, es);
    ByeIsLast(After(protocol, limit, es));
    if protocol == UDP {
      AlwaysWindow(limit, es);
    }
  }

  /** ... so that every first transmission is followed by its CONFIRM. */
  lemma ShutdownConfirmed(limit: nat, es: seq<Event>, i: nat)
    requires After(UDP, limit, es).status == Exited
    requires i < |After(UDP, limit, es).trace| && After(UDP, limit, es).trace[i].First?
    ensures var s := After(UDP, limit, es);
            AckedWithin(s.trace, i, |s.trace|, MessageId(s.trace[i].mail))
  {
    CleanShutdown(UDP, limit, es);
    var s := After(UDP, limit, es);
    SinceFirst(s.trace, limit, i, |s.trace|);
    assert s.trace[..|s.trace|] == s.trace;
  }

  // ------------------------------------------------------------ the shutdown that never comes

  /** The machine has stopped without having sent a BYE. */
  predicate Deserted(s: System) {
    s.state == EndState && !HasBye(s.sent)
  }

  /** Only a BYE that finds the machine open ends it without a BYE of its own. */
  lemma ActEnds(state: State, box: Box, m: Mail)
    requires state != EndState && (state != ErrorState ==> Handled(m))
    ensures var a := Act(state, box, m);
            if state == OpenState && m.kind == BYE then a == Ok(Action(EndState, m, false))
            else a.Ok? && a.value.next == EndState ==> a.value.send && a.value.mail.kind == BYE
  {
  }

  lemma DesertedActIff(s: System)
    requires Complete(s) && Disciplined(s) && Enabled(s, FsmAct)
    ensures Deserted(DoAct(s)) <==> s.state == OpenState && s.mail.kind == BYE
  {
    ActEnds(s.state, s.c.box, s.mail);
    if Act(s.state, s.c.box, s.mail).Ok? {
      ActEffect(s);
      HasByeSnoc(s.sent, Stamp(s.c.box, Act(s.state, s.c.box, s.mail).value.mail));
      if s.state == OpenState {
        BodyKinds(Kinds(s.sent));
        assert forall i :: 0 <= i < |s.sent| ==> Kinds(s.sent)[i] == s.sent[i].kind;
      }
    }
  }

  /** In every run the machine stops without a BYE by exactly one step: the one in which it
      deals, in the open state, with a BYE; and that BYE came off the socket. */
  lemma BecomesDesertedIff(protocol: Protocol, limit: int, es: seq<Event>, e: Event)
    ensures var s, t := After(protocol, limit, es), After(protocol, limit, es + [e]);
            && (!Deserted(s) && Deserted(t) <==>
                  Alive(s) && e == FsmAct && s.fpc == Deciding && s.state == OpenState && s.mail.kind == BYE)
            && (!Deserted(s) && Deserted(t) ==> s.mail in s.consumed && s.mail in s.delivered && Succeeded(s.consumed))
  {
    var s := After(protocol, limit, es);
    assert (es + [e])[..|es|] == es;
    AlwaysComplete(protocol, limit, es);
    AlwaysDisciplined(protocol, limit, es);
    AlwaysBalanced(protocol, limit, es);
    AlwaysByeFromServer(protocol, limit, es);
    if Enabled(s, e) {
      if e.FsmAct? {
        DesertedActIff(s);
      } else if !e.FsmWait? {
        OtherFrame(s, e);
      }
    }
  }

  lemma HistoriesGrow(s: System, e: Event)
    requires Enabled(s, e)
    ensures s.consumed <= Do(s, e).consumed && s.delivered <= Do(s, e).delivered
  {
  }

  lemma SucceededPrefix(mails: seq<Mail>, more: seq<Mail>)
    requires Succeeded(mails) && mails <= more
    ensures Succeeded(more)
  {
    var i :| 0 <= i < |mails| && IsSuccess(mails[i]);
    assert more[i] == mails[i];
  }

  /** So a run that has stopped without a BYE had been open and consumed a BYE of the server. */
  lemma {:induction false} DesertedByServer(protocol: Protocol, limit: int, es: seq<Event>)
    requires Deserted(After(protocol, limit, es))
    ensures var s := After(protocol, limit, es);
            && Succeeded(s.consumed)
            && exists m :: m in s.consumed && m.kind == BYE && m in s.delivered
  {
    if es != [] {
      var front, e := es[..|es| - 1], es[|es| - 1];
      var s := After(protocol, limit, front);
      if Enabled(s, e) {
        HistoriesGrow(s, e);
      }
      if Deserted(s) {
        DesertedByServer(protocol, limit, front);
      } else {
        assert front + [e] == es;
        BecomesDesertedIff(protocol, limit, front, e);
      }
      SucceededPrefix(s.consumed, After(protocol, limit, es).consumed);
    }
  }

  lemma {:induction false} StaysDeserted(s: System, more: seq<Event>)
    requires Deserted(s)
    ensures Deserted(Run(s, more)) && Run(s, more).sent == s.sent
  {
    if more != [] {
      StaysDeserted(s, more[..|more| - 1]);
      var t, e := Run(s, more[..|more| - 1]), more[|more| - 1];
      if Enabled(t, e) {
        OtherFrame(t, e);
      }
    }
  }

  /** From the moment at which an open machine deals with a BYE of the server, no
      continuation of the run ends the listener's loop. */
  lemma NoExitAfterServerBye(protocol: Protocol, limit: nat, es: seq<Event>, more: seq<Event>)
    requires var s := After(protocol, limit, es);
             Alive(s) && s.fpc == Deciding && s.state == OpenState && s.mail.kind == BYE
    ensures After(protocol, limit, es + [FsmAct] + more).status != Exited
  {
    BecomesDesertedIff(protocol, limit, es, FsmAct);
    AlwaysDisciplined(protocol, limit, es);
    DesertedForGood(protocol, limit, es + [FsmAct], more);
  }

  lemma DesertedForGood(protocol: Protocol, limit: nat, es: seq<Event>, more: seq<Event>)
    requires Deserted(After(protocol, limit, es))
    ensures After(protocol, limit, es + more).status != Exited
  {
    RunAppend(Init(protocol, limit), es, more);
    StaysDeserted(After(protocol, limit, es), more);
    if After(protocol, limit, es + more).status == Exited {
      CleanShutdown(protocol, limit, es + more);
    }
  }

  /** A BYE in the incoming queue came off the socket. */
  ghost predicate ByeFromServer(s: System) {
    && (forall m :: m in s.added && m.kind == BYE ==> m in s.delivered)
    && (s.fpc == Deciding ==> s.mail in s.consumed)
  }

  lemma ByeFromServerStep(s: System, e: Event)
    requires ByeFromServer(s) && Enabled(s, e)
    ensures ByeFromServer(Do(s, e))
  {
    match e
    case Line(line) => if Enter(s.c.box, line).Ok? { EnterAdds(s.c.box, line); }
    case Socket(m) => SocketAdds(s.c, m);
    case Signal => if OnSignal(s.c).Ok? { SignalAdds(s.c); }
    case _ =>
  }

  lemma {:induction false} AlwaysByeFromServer(protocol: Protocol, limit: int, es: seq<Event>)
    ensures ByeFromServer(After(protocol, limit, es))
  {
    if es != [] {
      AlwaysByeFromServer(protocol, limit, es[..|es| - 1]);
      var s := After(protocol, limit, es[..|es| - 1]);
      if Enabled(s, es[|es| - 1]) {
        ByeFromServerStep(s, es[|es| - 1]);
      }
    }
  }
}
