/** The class `Listener` and the interleaved system tell the same story: one pass of the
    class through its loop, undisturbed by the machine's thread, is a run of the system. */
module Refinement {
  import opened Mails
  import opened MailBoxes
  import opened Console
  import opened Listeners
  import opened Systems

  function FdOf(ready: Ready): Fd {
    match ready
    case StdinReady(_) => StdinFd
    case SocketReady(_, _) => SocketFd
    case ToSendReady => ToSendFd
    case SignalReady => SignalFd
  }

  function Fds(batch: seq<Ready>): seq<Fd> {
    seq(|batch|, i requires 0 <= i < |batch| => FdOf(batch[i]))
  }

  function Typing(lines: seq<string>): seq<Event> {
    seq(|lines|, i requires 0 <= i < |lines| => Line(lines[i]))
  }

  /** The steps of the system that serve one descriptor. */
  function StepsOf(box: Box, signedChar: bool, ready: Ready): seq<Event> {
    match ready
    case StdinReady(chunk) => Typing(Lines(chunk)) + [StdinDone]
    case SocketReady(buffer, _) =>
      (match Receive(box, signedChar, buffer)
       case Parsed(m) => [Socket(m)]
       case _ => [BadSocket])
    case ToSendReady => [SendRead, SendPop]
    case SignalReady => [Signal]
  }

  /** The machine's thread and the limit are as before. */
  predicate SameMachine(s: System, t: System) {
    t.state == s.state && t.mail == s.mail && t.fpc == s.fpc && t.sent == s.sent && t.limit == s.limit
  }

  lemma {:induction false} LinesAreLines(chunk: string)
    ensures WholeLines(Lines(chunk))
  {
    if chunk != "" {
      LinesAreLines(chunk[..|chunk| - 1]);
      PendingIsOneLine(chunk[..|chunk| - 1]);
    }
  }

  /** The fields a line can change. */
  predicate OnlyTyped(s: System, t: System, box: Box) {
    t == s.(c := s.c.(box := box), added := t.added, typed := t.typed)
  }

  /** The state after some lines, whether they are accepted or one of them throws. */
  predicate TypedTo(s: System, t: System, r: Result<Box>) {
    match r
    case Ok(box) => OnlyTyped(s, t, box)
    case Raised => t.status == Thrown && SameMachine(s, t)
  }

  function EnterNext(r: Result<Box>, line: string): Result<Box> {
    if r.Raised? then Raised else Enter(r.value, line)
  }

  lemma LineStep(s: System, u: System, r: Result<Box>, line: string)
    requires s.status == Running && AtFd(s, StdinFd) && line != "" && OneLine(line)
    requires TypedTo(s, u, r)
    ensures TypedTo(s, Step(u, Line(line)), EnterNext(r, line))
  {
  }

  lemma FeedSnoc(box: Box, lines: seq<string>, line: string)
    ensures Feed(box, lines + [line]) == EnterNext(Feed(box, lines), line)
  {
    assert (lines + [line])[..|lines|] == lines;
  }

  lemma RunSnoc(s: System, es: seq<Event>, e: Event)
    ensures Run(s, es + [e]) == Step(Run(s, es), e)
  {
    assert (es + [e])[..|es|] == es;
  }

  lemma TypingSnoc(s: System, lines: seq<string>, line: string)
    ensures Run(s, Typing(lines + [line])) == Step(Run(s, Typing(lines)), Line(line))
  {
    assert Typing(lines + [line]) == Typing(lines) + [Line(line)];
    RunSnoc(s, Typing(lines), Line(line));
  }

  predicate WholeLines(lines: seq<string>) {
    forall i :: 0 <= i < |lines| ==> lines[i] != "" && OneLine(lines[i])
  }

  lemma TypingOneMore(s: System, lines: seq<string>, line: string)
    requires s.status == Running && AtFd(s, StdinFd) && line != "" && OneLine(line)
    requires TypedTo(s, Run(s, Typing(lines)), Feed(s.c.box, lines))
    ensures TypedTo(s, Run(s, Typing(lines + [line])), Feed(s.c.box, lines + [line]))
  {
    TypingSnoc(s, lines, line);
    FeedSnoc(s.c.box, lines, line);
    LineStep(s, Run(s, Typing(lines)), Feed(s.c.box, lines), line);
  }

  lemma {:induction false} TypingIsRun(s: System, lines: seq<string>)
    requires s.status == Running && AtFd(s, StdinFd) && WholeLines(lines)
    ensures TypedTo(s, Run(s, Typing(lines)), Feed(s.c.box, lines))
  {
    if lines != [] {
      var front, last := lines[..|lines| - 1], lines[|lines| - 1];
      TypingIsRun(s, front);
      TypingOneMore(s, front, last);
      assert front + [last] == lines;
    }
  }

  lemma RunOne(s: System, e: Event)
    ensures Run(s, [e]) == Step(s, e)
  {
    assert [e][..0] == [];
    assert Run(s, []) == s;
  }

  lemma RunTwo(s: System, e: Event, f: Event)
    ensures Run(s, [e, f]) == Step(Step(s, e), f)
  {
    assert [e, f][..1] == [e];
    RunOne(s, e);
  }

  lemma StdinDoneStep(s: System, u: System)
    requires s.status == Running && AtFd(s, StdinFd) && OnlyTyped(s, u, u.c.box)
    ensures Step(u, StdinDone) == u.(lpc := Next(s.lpc.fds))
  {
  }

  lemma StdinIsRun(s: System, chunk: string)
    requires s.status == Running && AtFd(s, StdinFd) && OnStdin(s.c, chunk).Ok?
    ensures var t := Run(s, Typing(Lines(chunk)) + [StdinDone]);
            && t.c == OnStdin(s.c, chunk).value
            && t.status == Running && t.lpc == Next(s.lpc.fds) && SameMachine(s, t)
  {
    LinesAreLines(chunk);
    TypingIsRun(s, Lines(chunk));
    RunSnoc(s, Typing(Lines(chunk)), StdinDone);
    StdinDoneStep(s, Run(s, Typing(Lines(chunk))));
  }

  lemma SocketIsRun(s: System, m: Mail)
    requires s.status == Running && AtFd(s, SocketFd) && FromSocket(s.c.box.protocol, m)
    ensures var t := Run(s, [Socket(m)]);
            && t.c == OnSocket(s.c, m)
            && t.status == Running && t.lpc == Next(s.lpc.fds) && SameMachine(s, t)
  {
    RunOne(s, Socket(m));
  }

  lemma SendingIsRun(s: System)
    requires s.status == Running && AtFd(s, ToSendFd) && s.c.box.pipe > 0 && s.c.box.outgoing != []
    ensures var t := Run(s, [SendRead, SendPop]);
            && t.c == OnSend(s.c.(box := ReadByte(s.c.box)))
            && t.status == Running && t.lpc == Next(s.lpc.fds) && SameMachine(s, t)
  {
    RunTwo(s, SendRead, SendPop);
  }

  lemma SignalIsRun(s: System)
    requires s.status == Running && AtFd(s, SignalFd) && OnSignal(s.c).Ok?
    ensures var t := Run(s, [Signal]);
            && t.c == OnSignal(s.c).value
            && t.status == Running && t.lpc == Next(s.lpc.fds) && SameMachine(s, t)
  {
    RunOne(s, Signal);
  }

  lemma HandleIsRun(s: System, signedChar: bool, ready: Ready)
    requires s.status == Running && AtFd(s, FdOf(ready))
    requires ready.ToSendReady? ==> s.c.box.pipe > 0 && s.c.box.outgoing != []
    requires Handle(s.c, signedChar, ready).Ok? && WellFormedBatch(s.c.box.protocol, [ready])
    ensures var t := Run(s, StepsOf(s.c.box, signedChar, ready));
            && t.c == Handle(s.c, signedChar, ready).value
            && t.status == Running && t.lpc == Next(s.lpc.fds) && SameMachine(s, t)
  {
    match ready
    case StdinReady(chunk) => StdinIsRun(s, chunk);
    case SocketReady(buffer, _) =>
      assert [ready][0] == ready;
      ReceiveNotRejected(s.c.box, signedChar, buffer);
      ReceiveFromSocket(s.c.box, signedChar, buffer);
      SocketIsRun(s, Receive(s.c.box, signedChar, buffer).mail);
    case ToSendReady => SendingIsRun(s);
    case SignalReady => SignalIsRun(s);
  }

  lemma {:induction false} BatchIsRun(s: System, signedChar: bool, batch: seq<Ready>, i: nat) returns (es: seq<Event>)
    requires i <= |batch| && batch != []
    requires s.status == Running && s.lpc == Serving(Fds(batch)) && WellFormedBatch(s.c.box.protocol, batch)
    requires HandleAll(s.c, signedChar, batch[..i]).Ok?
    ensures var t := Run(s, es);
            && t.c == HandleAll(s.c, signedChar, batch[..i]).value && t.c.box.protocol == s.c.box.protocol
            && t.status == Running && SameMachine(s, t)
            && t.lpc == (if i == |batch| then LoopTop else Serving(Fds(batch)[i..]))
    decreases i
  {
    if i == 0 {
      assert Fds(batch)[0..] == Fds(batch);
      es := [];
    } else {
      assert batch[..i][..i - 1] == batch[..i - 1];
      var before := BatchIsRun(s, signedChar, batch, i - 1);
      var u := Run(s, before);
      assert u.lpc.fds[0] == FdOf(batch[i - 1]);
      HandleIsRun(u, signedChar, batch[i - 1]);
      HandleKeeps(u.c, signedChar, batch[i - 1]);
      var steps := StepsOf(u.c.box, signedChar, batch[i - 1]);
      RunAppend(s, before, steps);
      es := before + steps;
      assert Fds(batch)[i - 1..][1..] == Fds(batch)[i..];
    }
  }

  // ------------------------------------------------------------ exceptions

  lemma StuckStep(s: System, e: Event)
    requires s.status == Thrown
    ensures Step(s, e) == s
  {
  }

  lemma StdinRaises(s: System, chunk: string)
    requires s.status == Running && AtFd(s, StdinFd) && OnStdin(s.c, chunk).Raised?
    ensures var t := Run(s, Typing(Lines(chunk)) + [StdinDone]); t.status == Thrown && SameMachine(s, t)
  {
    LinesAreLines(chunk);
    TypingIsRun(s, Lines(chunk));
    RunSnoc(s, Typing(Lines(chunk)), StdinDone);
    StuckStep(Run(s, Typing(Lines(chunk))), StdinDone);
  }

  lemma HandleRaises(s: System, signedChar: bool, ready: Ready)
    requires s.status == Running && AtFd(s, FdOf(ready))
    requires ready.ToSendReady? ==> s.c.box.pipe > 0 && s.c.box.outgoing != []
    requires Handle(s.c, signedChar, ready).Raised?
    ensures var t := Run(s, StepsOf(s.c.box, signedChar, ready)); t.status == Thrown && SameMachine(s, t)
  {
    match ready
    case StdinReady(chunk) => StdinRaises(s, chunk);
    case SocketReady(_, _) => BadSocketRaises(s, signedChar, ready);
    case SignalReady => SignalRaises(s);
  }

  lemma BadSocketRaises(s: System, signedChar: bool, ready: Ready)
    requires s.status == Running && AtFd(s, SocketFd) && ready.SocketReady?
    requires Handle(s.c, signedChar, ready).Raised?
    ensures StepsOf(s.c.box, signedChar, ready) == [BadSocket]
    ensures var t := Run(s, [BadSocket]); t.status == Thrown && SameMachine(s, t)
  {
    RunOne(s, BadSocket);
  }

  lemma SignalRaises(s: System)
    requires s.status == Running && AtFd(s, SignalFd) && OnSignal(s.c).Raised?
    ensures var t := Run(s, [Signal]); t.status == Thrown && SameMachine(s, t)
  {
    RunOne(s, Signal);
  }

  /** With a mail for every byte in the pipe the to-send handler never fails; so a batch
      ends in an exception only where one of the other handlers throws. */
  lemma {:induction false} BatchRaises(s: System, c: Client, signedChar: bool, batch: seq<Ready>, i: nat)
    returns (es: seq<Event>)
    requires i <= |batch| && batch != []
    requires s.status == Running && s.lpc == Serving(Fds(batch)) && WellFormedBatch(s.c.box.protocol, batch)
    requires Reportable(c, batch) && c.box.pipe <= |c.box.outgoing| && s.c == c.(link := Sync(c.link))
    requires HandleAll(s.c, signedChar, batch[..i]).Raised?
    ensures Run(s, es).status == Thrown && SameMachine(s, Run(s, es))
    decreases i
  {
    assert batch[..i][..i - 1] == batch[..i - 1];
    if HandleAll(s.c, signedChar, batch[..i - 1]).Raised? {
      es := BatchRaises(s, c, signedChar, batch, i - 1);
    } else {
      var before := BatchIsRun(s, signedChar, batch, i - 1);
      var u := Run(s, before);
      if batch[i - 1] == ToSendReady {
        SendOnlyWhenConfirmed(c, signedChar, batch, i - 1);
      }
      assert u.lpc.fds[0] == FdOf(batch[i - 1]);
      HandleRaises(u, signedChar, batch[i - 1]);
      var steps := StepsOf(u.c.box, signedChar, batch[i - 1]);
      RunAppend(s, before, steps);
      es := before + steps;
    }
  }

  lemma PollStep(s: System, batch: seq<Ready>)
    requires s.status == Running && s.lpc == LoopTop && !LoopOver(s.c.link)
    requires Reportable(s.c, batch) && batch != []
    ensures var t := Run(s, [Poll(Fds(batch))]);
            && t.c == s.c.(link := Sync(s.c.link)) && t.lpc == Serving(Fds(batch))
            && t.status == Running && SameMachine(s, t)
  {
    if ToSendFd in Fds(batch) {
      assert ToSendReady in batch;
    }
    assert Enabled(s, Poll(Fds(batch)));
    RunOne(s, Poll(Fds(batch)));
  }

  /** One pass through the loop of `runListener` (src/listeners.cpp:285-366), as the class
      carries it out, is a run of the system, whether it comes to its end or throws. */
  lemma TurnIsRun(s: System, signedChar: bool, batch: seq<Ready>) returns (es: seq<Event>)
    requires s.status == Running && s.lpc == LoopTop && !LoopOver(s.c.link)
    requires Reportable(s.c, batch) && WellFormedBatch(s.c.box.protocol, batch)
    requires s.c.box.pipe <= |s.c.box.outgoing|
    ensures var t := Run(s, es);
            && SameMachine(s, t)
            && match Turn(s.c, s.limit, signedChar, batch)
               case Ok(c) => t.c == c && t.status == Running && t.lpc == LoopTop
               case Raised => t.status == if batch == [] then NotResponding else Thrown
  {
    if batch == [] {
      es := [Timeout];
      RunOne(s, Timeout);
    } else {
      var poll := [Poll(Fds(batch))];
      PollStep(s, batch);
      assert batch[..|batch|] == batch;
      var rest;
      if Turn(s.c, s.limit, signedChar, batch).Ok? {
        rest := BatchIsRun(Run(s, poll), signedChar, batch, |batch|);
      } else {
        rest := BatchRaises(Run(s, poll), s.c, signedChar, batch, |batch|);
      }
      RunAppend(s, poll, rest);
      es := poll + rest;
    }
  }
}
