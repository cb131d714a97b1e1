/** Over TCP the same listener is a plain queue: no CONFIRM, no timeout, no repetition. */
module TcpMode {
  import opened Mails
  import opened Console
  import opened Listeners
  import opened Systems
  import opened Accounting

  ghost predicate PlainQueue(s: System) {
    && s.c.box.protocol == TCP
    && s.c.link.receivedConfirm && s.c.link.toSendRegistered && s.c.link.retries == 0
    && s.c.link.wire == s.transmitted
    && s.status != NotResponding
    && s.c.box.srvMsgId == -1
  }

  lemma PlainQueueStep(s: System, e: Event)
    requires PlainQueue(s) && Enabled(s, e)
    ensures PlainQueue(Do(s, e)) && e != Timeout
  {
    match e
    case Line(line) => if Enter(s.c.box, line).Ok? { EnterAdds(s.c.box, line); }
    case Socket(m) => SocketAdds(s.c, m);
    case Signal => if OnSignal(s.c).Ok? { SignalAdds(s.c); }
    case _ =>
  }

  lemma {:induction false} AlwaysPlainQueue(limit: int, es: seq<Event>)
    ensures PlainQueue(After(TCP, limit, es))
  {
    if es != [] {
      AlwaysPlainQueue(limit, es[..|es| - 1]);
      var s := After(TCP, limit, es[..|es| - 1]);
      if Enabled(s, es[|es| - 1]) {
        PlainQueueStep(s, es[|es| - 1]);
      }
    }
  }

  /** Refinement of a queue: the wait is never limited, so nothing times out and nothing is
      repeated, and the stream written to the socket is at every moment exactly the
      beginning of what the machine sent that is no longer queued. */
  lemma TcpIsFifo(limit: int, es: seq<Event>)
    ensures var s := After(TCP, limit, es);
            && s.c.link.receivedConfirm && s.c.link.toSendRegistered
            && !Enabled(s, Timeout) && s.status != NotResponding
            && s.sent == s.c.link.wire + s.c.box.outgoing
  {
    AlwaysPlainQueue(limit, es);
    AlwaysBalanced(TCP, limit, es);
  }
}
