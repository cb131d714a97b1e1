/** From the keyboard to the peer: through the console, the two queues, the machine, the
    stop-and-wait transport and the network. */
module EndToEnd {
  import opened Mails
  import opened Streams
  import opened Console
  import opened Fsm
  import opened Listeners
  import opened Systems
  import opened Accounting
  import opened Arrivals
  import opened Relaying
  import opened Network

  /** A message typed by the user. */
  predicate IsTyped(m: Mail) {
    m.kind == MSG && m.data.TextMessage? && m.data.toSend
  }

  /** The display names and contents of the typed messages among some mails. */
  function Texts(mails: seq<Mail>): seq<(string, string)> {
    if mails == [] then []
    else
      var last := mails[|mails| - 1];
      Texts(mails[..|mails| - 1]) + (if IsTyped(last) then [(last.data.displayName, last.data.content)] else [])
  }

  lemma TextsSnoc(mails: seq<Mail>, m: Mail)
    ensures Texts(mails + [m]) == Texts(mails) + (if IsTyped(m) then [(m.data.displayName, m.data.content)] else [])
  {
    assert (mails + [m])[..|mails|] == mails;
  }

  /** A line that is no command. */
  predicate IsChat(line: string) {
    Token(line) !in {"/auth", "/join", "/rename", "/help", "/print"}
  }

  /** The lines that are no commands, each with the display name of the last `/auth` or
      `/rename` above it. */
  function Chatted(lines: seq<string>): seq<(string, string)> {
    if lines == [] then []
    else
      var n := |lines| - 1;
      Chatted(lines[..n]) + (if IsChat(lines[n]) then [(NameAt("default", lines[..n], n), lines[n])] else [])
  }

  lemma ChattedSnoc(lines: seq<string>, line: string)
    ensures var name := NameAt("default", lines, |lines|);
            && Chatted(lines + [line]) == Chatted(lines) + (if IsChat(line) then [(name, line)] else [])
            && NameAt("default", lines + [line], |lines| + 1) == NameAfter(name, line)
  {
    assert (lines + [line])[..|lines|] == lines;
    NameOfPrefix("default", lines + [line], |lines|, |lines|);
  }

  lemma NothingAdded<T>(s: seq<T>)
    ensures s + [] == s
  {
  }

  lemma {:induction false} TextsPrefix(mails: seq<Mail>, more: seq<Mail>)
    requires mails <= more
    ensures Texts(mails) <= Texts(more)
  {
    if |mails| < |more| {
      TextsPrefix(mails, more[..|more| - 1]);
    } else {
      assert mails == more;
    }
  }

  // ------------------------------------------------------------ what the lines put into the queue

  /** The typed messages put into the incoming queue are those of the lines typed. */
  ghost predicate Recorded(s: System) {
    Titled(s) && Texts(s.added) == Chatted(s.typed)
  }

  /** One more line adds the same text to both sides. */
  lemma TextsOfLine(added: seq<Mail>, lines: seq<string>, sequence: int, line: string)
    requires Texts(added) == Chatted(lines)
    ensures var grown := if IsLocal(line) then []
                         else [Meaning(sequence, NameAt("default", lines, |lines|), line)];
            Texts(added + grown) == Chatted(lines + [line])
  {
    ChattedSnoc(lines, line);
    NothingAdded(added);
    NothingAdded(Chatted(lines));
    TextsSnoc(added, Meaning(sequence, NameAt("default", lines, |lines|), line));
  }

  lemma RecordedLine(s: System, line: string)
    requires Recorded(s) && Enabled(s, Line(line)) && Enter(s.c.box, line).Ok?
    ensures Recorded(DoLine(s, line))
  {
    EnterMeaning(s.c.box, line);
    ChattedSnoc(s.typed, line);
    TextsOfLine(s.added, s.typed, s.c.box.sequence, line);
  }

  lemma RecordedSocket(s: System, m: Mail)
    requires Recorded(s) && Enabled(s, Socket(m))
    ensures Recorded(DoSocket(s, m))
  {
    SocketAdds(s.c, m);
    TextsSnoc(s.added, m);
    NothingAdded(s.added);
    NothingAdded(Texts(s.added));
  }

  lemma RecordedSignal(s: System)
    requires Recorded(s) && Enabled(s, Signal) && OnSignal(s.c).Ok?
    ensures Recorded(DoSignal(s))
  {
    SignalAdds(s.c);
    NothingAdded(Texts(s.added));
    var grown := Grown(s.c.box, OnSignal(s.c).value.box);
    assert |grown| == 1 && s.added + grown == s.added + [grown[0]];
    TextsSnoc(s.added, grown[0]);
  }

  lemma AddedFrame(s: System, e: Event)
    requires Enabled(s, e) && !e.Line? && !e.Socket? && !e.Signal?
    ensures Do(s, e).added == s.added
  {
  }

  lemma {:induction false} AlwaysRecorded(protocol: Protocol, limit: int, es: seq<Event>)
    ensures Recorded(After(protocol, limit, es))
  {
    if es != [] {
      AlwaysRecorded(protocol, limit, es[..|es| - 1]);
      var s, e := After(protocol, limit, es[..|es| - 1]), es[|es| - 1];
      if Enabled(s, e) {
        RecordedStep(s, e);
      }
    }
  }

  lemma RecordedStep(s: System, e: Event)
    requires Recorded(s) && Enabled(s, e)
    ensures Recorded(Do(s, e))
  {
    if e.Line? {
      if Enter(s.c.box, e.line).Ok? {
        RecordedLine(s, e.line);
      }
    } else if e.Socket? {
      RecordedSocket(s, e.m);
    } else if e.Signal? {
      if OnSignal(s.c).Ok? {
        RecordedSignal(s);
      }
    } else {
      ConsoleFrame(s, e);
      AddedFrame(s, e);
    }
  }

  // ------------------------------------------------------------ what the machine makes of it

  lemma PlainTyped(m: Mail)
    ensures IsTyped(Plain(m)) <==> IsTyped(m)
    ensures IsTyped(m) ==>
              Plain(m).data.displayName == m.data.displayName && Plain(m).data.content == m.data.content
  {
  }

  lemma {:induction false} TextsOfRelayed(sent: seq<Mail>)
    ensures Texts(Relayed(sent)) == Texts(sent)
  {
    if sent != [] {
      var front, last := sent[..|sent| - 1], sent[|sent| - 1];
      TextsOfRelayed(front);
      PlainTyped(last);
      TextsSnoc(Relayed(front), Plain(last));
      NothingAdded(Relayed(front));
      NothingAdded(Texts(front));
    }
  }

  /** The messages passed on are those dealt with after the machine opened. */
  lemma {:induction false} TextsOfRequests(mails: seq<Mail>) returns (a: nat)
    ensures a <= |Texts(mails)| && Texts(Requests(mails)) == Texts(mails)[a..]
    ensures !Succeeded(mails) ==> a == |Texts(mails)|
  {
    if mails == [] {
      a := 0;
    } else {
      var front, last := mails[..|mails| - 1], mails[|mails| - 1];
      var before := TextsOfRequests(front);
      assert front + [last] == mails;
      SucceededSnoc(front, last);
      PlainTyped(last);
      TextsSnoc(Requests(front), Plain(last));
      NothingAdded(Requests(front));
      NothingAdded(Texts(Requests(front)));
      a := if Succeeded(front) then before else |Texts(mails)|;
    }
  }

  /** The machine sends no message but typed ones. */
  ghost predicate OnlyTypedSent(s: System) {
    forall m :: m in s.sent && m.kind == MSG ==> IsTyped(m)
  }

  lemma OnlyTypedAct(s: System)
    requires OnlyTypedSent(s) && Complete(s) && Enabled(s, FsmAct)
    ensures OnlyTypedSent(DoAct(s))
  {
    if Act(s.state, s.c.box, s.mail).Ok? {
      ActEffect(s);
    }
  }

  lemma {:induction false} AlwaysOnlyTyped(protocol: Protocol, limit: int, es: seq<Event>)
    ensures OnlyTypedSent(After(protocol, limit, es))
  {
    if es != [] {
      AlwaysOnlyTyped(protocol, limit, es[..|es| - 1]);
      AlwaysComplete(protocol, limit, es[..|es| - 1]);
      var s, e := After(protocol, limit, es[..|es| - 1]), es[|es| - 1];
      if Enabled(s, e) {
        if e.FsmAct? {
          OnlyTypedAct(s);
        } else if !e.FsmWait? {
          OtherFrame(s, e);
        }
      }
    }
  }

  /** Over either transport: the messages sent are a contiguous block of the messages typed,
      from the one that first found the machine open. */
  lemma SentIsTyped(protocol: Protocol, limit: int, es: seq<Event>) returns (a: nat, b: nat)
    ensures var s := After(protocol, limit, es);
            && a <= b <= |Chatted(s.typed)| && Texts(s.sent) == Chatted(s.typed)[a..b]
            && forall m :: m in s.sent && m.kind == MSG ==> IsTyped(m)
  {
    var s := After(protocol, limit, es);
    PassesOnExactly(protocol, limit, es);
    AlwaysRecorded(protocol, limit, es);
    AlwaysOnlyTyped(protocol, limit, es);
    TextsOfRelayed(s.sent);
    a := TextsOfRequests(Done(s));
    b := |Texts(Done(s))|;
    TextsPrefix(Done(s), s.added);
    assert Texts(s.added)[..b] == Texts(Done(s));
  }

  // ------------------------------------------------------------ what the peer hears

  lemma {:induction false} RelayedPrefix(mails: seq<Mail>, more: seq<Mail>)
    requires mails <= more
    ensures Relayed(mails) <= Relayed(more)
  {
    if |mails| < |more| {
      RelayedPrefix(mails, more[..|more| - 1]);
    } else {
      assert mails == more;
    }
  }

  lemma PrefixOfBlock<T>(front: seq<T>, block: seq<T>, whole: seq<T>, a: nat, b: nat)
    requires a <= b <= |whole| && block == whole[a..b] && front <= block
    ensures front == whole[a..a + |front|]
  {
  }

  /** End to end, up to 65536 transmissions, over a network that loses, duplicates and
      reorders: what the peer first hears, the machine's ERR and BYE aside, is a beginning
      of what the machine was asked to pass on; and the messages in it are a contiguous
      block of the lines typed, in order, each under its display name. */
  lemma PeerHearsWhatWasTyped(limit: nat, disciplined: bool, signedChar: bool, moves: seq<Move>)
    returns (a: nat, b: nat)
    requires |Play(Start(limit, disciplined, signedChar), moves).s.transmitted| <= 0x1_0000
    ensures var w := Play(Start(limit, disciplined, signedChar), moves);
            && Relayed(w.received) <= Requests(Done(w.s))
            && a <= b <= |Chatted(w.s.typed)| && Texts(w.received) == Chatted(w.s.typed)[a..b]
            && forall m :: m in w.received && m.kind == MSG ==> IsTyped(m)
  {
    var w := Play(Start(limit, disciplined, signedChar), moves);
    PeerHearsInOrder(limit, disciplined, signedChar, moves);
    var es := WorldIsRun(limit, disciplined, signedChar, moves);
    PassesOnExactly(UDP, limit, es);
    RelayedPrefix(w.received, w.s.sent);
    TextsPrefix(w.received, w.s.sent);
    var c;
    a, c := SentIsTyped(UDP, limit, es);
    b := a + |Texts(w.received)|;
    PrefixOfBlock(Texts(w.received), Texts(w.s.sent), Chatted(w.s.typed), a, c);
  }
}
