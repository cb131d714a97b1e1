/** The client and a peer over a network that loses, duplicates and reorders: a datagram
    once sent may arrive never, or any number of times, at any later moment. The peer
    behaves as the test server does (tests/server.py:111-139): it confirms what it has
    received, and nothing else. */
module Network {
  import opened Mails
  import opened Words
  import opened Listeners
  import opened Systems
  import opened Accounting
  import opened StopAndWait

  /** `received` lists the client's mails in the order in which the peer first saw them,
      `acks` the CONFIRMs it got, `outbox` its own messages; `toClient` is every datagram it
      ever sent, with the ids that the client reads in it, whose `char` may be signed. A
      `disciplined` peer numbers its messages from 0 and sends the next one only after the
      CONFIRM of the last. */
  datatype World = World(s: System, received: seq<Mail>, acks: set<int>, outbox: seq<Mail>, toClient: set<Mail>,
                         disciplined: bool, signedChar: bool)

  datatype Move = Local(e: Event) | PeerTake(m: Mail) | PeerConfirm(id: int) | PeerSend(m: Mail)

  function Start(limit: int, disciplined: bool, signedChar: bool): World {
    World(Init(UDP, limit), [], {}, [], {}, disciplined, signedChar)
  }

  /** A message of the peer with the ids that `readUInt16` makes of its own. */
  function AsRead(signedChar: bool, m: Mail): Mail {
    var d := match m.data
             case ConfirmMessage(ref) => ConfirmMessage(ReadBack(signedChar, ref))
             case ReplyMessage(id, r, ref, c) => ReplyMessage(ReadBack(signedChar, id), r, ReadBack(signedChar, ref), c)
             case _ => SetId(m.data, ReadBack(signedChar, m.data.messageId));
    m.(data := d)
  }

  predicate Heard(received: seq<Mail>, id: int) {
    exists i :: 0 <= i < |received| && MessageId(received[i]) == id
  }

  predicate Allowed(w: World, move: Move) {
    match move
    case Local(e) => Enabled(w.s, e) && (e.Socket? ==> e.m in w.toClient) && !e.BadSocket?
    case PeerTake(m) => m in w.s.c.link.wire
    case PeerConfirm(id) => Heard(w.received, id)
    case PeerSend(m) =>
      && m.kind != CONFIRM && FromSocket(UDP, m)
      && (w.disciplined ==> MessageId(m) == |w.outbox| && (w.outbox != [] ==> |w.outbox| - 1 in w.acks))
  }

  /** A CONFIRM as the client decodes it. */
  function PeerConfirmation(id: int): Mail {
    Mail(CONFIRM, ConfirmMessage(id), false, false)
  }

  function Apply(w: World, move: Move): World
    requires Allowed(w, move)
  {
    match move
    case Local(e) => w.(s := Do(w.s, e))
    case PeerTake(m) =>
      if m.kind == CONFIRM then w.(acks := w.acks + {MessageId(m)})
      else if Heard(w.received, MessageId(m)) then w
      else w.(received := w.received + [m])
    case PeerConfirm(id) => w.(toClient := w.toClient + {AsRead(w.signedChar, PeerConfirmation(id))})
    case PeerSend(m) => w.(outbox := w.outbox + [m], toClient := w.toClient + {AsRead(w.signedChar, m)})
  }

  function Play(w: World, moves: seq<Move>): World {
    if moves == [] then w
    else
      var before := Play(w, moves[..|moves| - 1]);
      if Allowed(before, moves[|moves| - 1]) then Apply(before, moves[|moves| - 1]) else before
  }

  /** Every state of the client inside the world is one the client reaches by itself. */
  lemma {:induction false} WorldIsRun(limit: int, disciplined: bool, signedChar: bool, moves: seq<Move>)
    returns (es: seq<Event>)
    ensures Play(Start(limit, disciplined, signedChar), moves).s == After(UDP, limit, es)
    ensures Play(Start(limit, disciplined, signedChar), moves).disciplined == disciplined
    ensures Play(Start(limit, disciplined, signedChar), moves).signedChar == signedChar
  {
    if moves == [] {
      es := [];
    } else {
      var before, last := moves[..|moves| - 1], moves[|moves| - 1];
      es := WorldIsRun(limit, disciplined, signedChar, before);
      var w := Play(Start(limit, disciplined, signedChar), before);
      if Allowed(w, last) && last.Local? {
        assert (es + [last.e])[..|es|] == es;
        es := es + [last.e];
      }
    }
  }

  // ------------------------------------------------------------ from the client to the peer

  /** The client's thread invariants, which the network does not touch. */
  ghost predicate Sane(s: System) {
    Window(s) && Balanced(s) && Complete(s) && Gated(s)
  }

  lemma AlwaysSane(limit: nat, disciplined: bool, signedChar: bool, moves: seq<Move>)
    ensures Sane(Play(Start(limit, disciplined, signedChar), moves).s)
  {
    var es := WorldIsRun(limit, disciplined, signedChar, moves);
    AlwaysWindow(limit, es);
    AlwaysBalanced(UDP, limit, es);
    AlwaysComplete(UDP, limit, es);
    AlwaysGated(UDP, limit, es);
  }

  /** The CONFIRM of something the peer has seen is read with this id. */
  predicate HeardAs(received: seq<Mail>, signedChar: bool, id: int) {
    exists i :: 0 <= i < |received| && ReadBack(signedChar, MessageId(received[i])) == id
  }

  /** The peer has seen all but perhaps the last of the mails transmitted, and that one too
      if it is confirmed; it confirms what it has seen. With a signed `char` mail number
      128 waits for ever. */
  ghost predicate Heeded(w: World) {
    && w.received <= w.s.transmitted
    && |w.s.transmitted| <= |w.received| + 1
    && (w.s.c.link.receivedConfirm ==> w.received == w.s.transmitted)
    && (w.signedChar ==> |w.s.transmitted| <= 129 && (|w.s.transmitted| == 129 ==> !w.s.c.link.receivedConfirm))
    && (forall m :: m in w.toClient && m.kind == CONFIRM ==>
          m.data.ConfirmMessage? && HeardAs(w.received, w.signedChar, MessageId(m)))
    && (forall m :: m in w.s.c.link.wire && m.kind != CONFIRM ==> m in w.s.transmitted)
  }

  /** The number of a mail is its position. */
  ghost predicate ByPosition(mails: seq<Mail>) {
    forall i :: 0 <= i < |mails| ==> MessageId(mails[i]) == i % 0x1_0000
  }

  lemma TransmittedByPosition(s: System)
    requires Balanced(s)
    ensures ByPosition(s.transmitted)
  {
    assert forall i :: 0 <= i < |s.transmitted| ==> s.sent[i] == s.transmitted[i];
  }

  /** A CONFIRM that is read with the number of the last mail means that the peer has it,
      and that this number can be read at all. */
  lemma LastHeard(signedChar: bool, received: seq<Mail>, transmitted: seq<Mail>)
    requires ByPosition(transmitted) && 0 < |transmitted| <= 0x1_0000 && (signedChar ==> |transmitted| <= 129)
    requires received <= transmitted && |transmitted| <= |received| + 1
    requires HeardAs(received, signedChar, MessageId(transmitted[|transmitted| - 1]))
    ensures received == transmitted && (signedChar ==> |transmitted| < 129)
  {
    var last := |transmitted| - 1;
    var i :| 0 <= i < |received| && ReadBack(signedChar, MessageId(received[i])) == MessageId(transmitted[last]);
    assert received[i] == transmitted[i];
    ReadAsLast(signedChar, i, last);
  }

  /** Among the numbers in use only the last is read as the last, and with a signed `char`
      not even 128 is. */
  lemma ReadAsLast(signedChar: bool, i: nat, last: nat)
    requires i <= last < 0x1_0000 && (signedChar ==> last <= 128) && ReadBack(signedChar, i) == last
    ensures i == last && (signedChar ==> last < 128)
  {
  }

  lemma HeedSocket(w: World, m: Mail)
    requires Heeded(w) && Sane(w.s) && |w.s.transmitted| <= 0x1_0000
    requires Allowed(w, Local(Socket(m)))
    ensures Heeded(Apply(w, Local(Socket(m))))
  {
    SocketEffect(w.s, m);
    if Acknowledges(w.s.c, m) {
      TransmittedByPosition(w.s);
      HeedConfirm(w, DoSocket(w.s, m), MessageId(m));
    } else {
      HeedQuiet(w, DoSocket(w.s, m), MessageId(m));
    }
  }

  lemma HeedConfirm(w: World, t: System, id: int)
    requires Heeded(w) && Window(w.s) && ByPosition(w.s.transmitted) && |w.s.transmitted| <= 0x1_0000
    requires !w.s.c.link.receivedConfirm && id == w.s.c.link.refMsgId && HeardAs(w.received, w.signedChar, id)
    requires t.transmitted == w.s.transmitted && t.c.link.receivedConfirm && t.c.link.wire == w.s.c.link.wire
    ensures Heeded(w.(s := t))
  {
    LastHeard(w.signedChar, w.received, w.s.transmitted);
  }

  lemma HeedQuiet(w: World, t: System, id: int)
    requires Heeded(w) && t.transmitted == w.s.transmitted
    requires t.c.link.receivedConfirm == w.s.c.link.receivedConfirm
    requires t.c.link.wire == w.s.c.link.wire || t.c.link.wire == w.s.c.link.wire + [Confirmation(id)]
    ensures Heeded(w.(s := t))
  {
  }

  lemma HeedSendPop(w: World)
    requires Heeded(w) && Sane(w.s) && Allowed(w, Local(SendPop))
    ensures Heeded(Apply(w, Local(SendPop)))
  {
    var t := DoSendPop(w.s);
    assert forall m :: m in w.s.transmitted ==> m in t.transmitted;
    assert w.s.c.box.outgoing[0] in t.transmitted;
    assert t.c.link.wire == w.s.c.link.wire + [w.s.c.box.outgoing[0]];
  }

  /** Of the client's own steps only four touch the sender's fields. */
  lemma LocalFrame(s: System, e: Event)
    requires Enabled(s, e) && !e.Socket? && !e.SendPop?
    ensures var t := Do(s, e);
            && t.transmitted == s.transmitted && t.delivered == s.delivered
            && t.c.box.srvMsgId == s.c.box.srvMsgId && t.c.box.protocol == s.c.box.protocol
            && t.c.link.receivedConfirm == s.c.link.receivedConfirm
            && (t.c.link.wire == s.c.link.wire
                || (!s.c.link.receivedConfirm && t.c.link.wire == s.c.link.wire + [s.c.link.confMail]))
  {
    if !e.Timeout? {
      SenderFrame(s, e);
    }
  }

  lemma HeedLocal(w: World, e: Event)
    requires Heeded(w) && Sane(w.s) && |w.s.transmitted| <= 0x1_0000
    requires Allowed(w, Local(e))
    ensures Heeded(Apply(w, Local(e)))
  {
    if e.Socket? {
      HeedSocket(w, e.m);
    } else if e.SendPop? {
      HeedSendPop(w);
    } else {
      LocalFrame(w.s, e);
      HeedFrame(w, Do(w.s, e));
    }
  }

  lemma HeedFrame(w: World, t: System)
    requires Heeded(w) && Window(w.s) && t.transmitted == w.s.transmitted
    requires t.c.link.receivedConfirm == w.s.c.link.receivedConfirm
    requires || t.c.link.wire == w.s.c.link.wire
             || (!w.s.c.link.receivedConfirm && t.c.link.wire == w.s.c.link.wire + [w.s.c.link.confMail])
    ensures Heeded(w.(s := t))
  {
  }

  lemma HeedTake(w: World, m: Mail)
    requires Heeded(w) && Sane(w.s) && |w.s.transmitted| <= 0x1_0000
    requires Allowed(w, PeerTake(m)) && m.kind != CONFIRM
    ensures Heeded(Apply(w, PeerTake(m)))
  {
    var k: nat :| k < |w.s.transmitted| && w.s.transmitted[k] == m;
    assert w.s.sent[k] == m;
    if k < |w.received| {
      assert MessageId(w.received[k]) == MessageId(m);
    } else {
      assert forall i :: 0 <= i < |w.received| ==> w.received[i] == w.s.sent[i];
      forall id | HeardAs(w.received, w.signedChar, id)
        ensures HeardAs(w.received + [m], w.signedChar, id)
      {
        HeardGrows(w.received, m, w.signedChar, id);
      }
    }
  }

  lemma HeardGrows(received: seq<Mail>, m: Mail, signedChar: bool, id: int)
    requires HeardAs(received, signedChar, id)
    ensures HeardAs(received + [m], signedChar, id)
  {
    var i :| 0 <= i < |received| && ReadBack(signedChar, MessageId(received[i])) == id;
    assert (received + [m])[i] == received[i];
  }

  lemma HeedMove(w: World, move: Move)
    requires Heeded(w) && Sane(w.s) && |w.s.transmitted| <= 0x1_0000 && Allowed(w, move)
    ensures Heeded(Apply(w, move))
  {
    match move
    case Local(e) => HeedLocal(w, e);
    case PeerTake(m) => if m.kind != CONFIRM { HeedTake(w, m); }
    case _ =>
  }

  lemma TransmittedGrows(w: World, move: Move)
    requires Allowed(w, move)
    ensures |w.s.transmitted| <= |Apply(w, move).s.transmitted|
  {
  }

  lemma {:induction false} AlwaysHeeded(limit: nat, disciplined: bool, signedChar: bool, moves: seq<Move>)
    requires |Play(Start(limit, disciplined, signedChar), moves).s.transmitted| <= 0x1_0000
    ensures Heeded(Play(Start(limit, disciplined, signedChar), moves))
  {
    if moves != [] {
      var front, last := moves[..|moves| - 1], moves[|moves| - 1];
      var w := Play(Start(limit, disciplined, signedChar), front);
      if Allowed(w, last) {
        TransmittedGrows(w, last);
        AlwaysSane(limit, disciplined, signedChar, front);
        AlwaysHeeded(limit, disciplined, signedChar, front);
        HeedMove(w, last);
      } else {
        AlwaysHeeded(limit, disciplined, signedChar, front);
      }
    }
  }

  /** Reliability of sending: up to 65536 transmissions the peer sees the mails for the
      first time in the order in which the machine sent them, without gaps, and has seen
      every earlier one when the next is dequeued. */
  lemma PeerHearsInOrder(limit: nat, disciplined: bool, signedChar: bool, moves: seq<Move>)
    requires |Play(Start(limit, disciplined, signedChar), moves).s.transmitted| <= 0x1_0000
    ensures var w := Play(Start(limit, disciplined, signedChar), moves);
            && w.received <= w.s.transmitted <= w.s.sent
            && |w.s.transmitted| <= |w.received| + 1
            && (Enabled(w.s, SendPop) ==> w.received == w.s.transmitted)
  {
    AlwaysSane(limit, disciplined, signedChar, moves);
    AlwaysHeeded(limit, disciplined, signedChar, moves);
  }

  /** A transmission is the number 129 at most when `char` is signed: the CONFIRM of mail
      number 128 is read with another number, whatever the network does. */
  lemma {:induction false} SignedCharStalls(limit: nat, disciplined: bool, moves: seq<Move>)
    ensures |Play(Start(limit, disciplined, true), moves).s.transmitted| <= 129
  {
    if moves != [] {
      var front, last := moves[..|moves| - 1], moves[|moves| - 1];
      var w := Play(Start(limit, disciplined, true), front);
      SignedCharStalls(limit, disciplined, front);
      if Allowed(w, last) {
        AlwaysSane(limit, disciplined, true, front);
        AlwaysHeeded(limit, disciplined, true, front);
        var es := WorldIsRun(limit, disciplined, true, front);
        HeedMove(w, last);
      }
    }
  }

  lemma WorldShutdown(limit: nat, disciplined: bool, signedChar: bool, moves: seq<Move>)
    requires Play(Start(limit, disciplined, signedChar), moves).s.status == Exited
    ensures var s := Play(Start(limit, disciplined, signedChar), moves).s;
            && s.c.link.receivedConfirm && s.transmitted == s.sent
            && s.sent != [] && s.sent[|s.sent| - 1].kind == BYE
  {
    var es := WorldIsRun(limit, disciplined, signedChar, moves);
    CleanShutdown(UDP, limit, es);
  }

  ghost predicate DistinctWords(mails: seq<Mail>) {
    && (forall i, j :: 0 <= i < j < |mails| ==> MessageId(mails[i]) != MessageId(mails[j]))
    && (forall i :: 0 <= i < |mails| ==> IsWord16(MessageId(mails[i])))
  }

  lemma DistinctWordsSnoc(mails: seq<Mail>, m: Mail)
    requires DistinctWords(mails) && IsWord16(MessageId(m)) && !Heard(mails, MessageId(m))
    ensures DistinctWords(mails + [m])
  {
  }

  /** The ids by which the peer tells the client's mails apart are distinct words. */
  ghost predicate ToldApart(w: World) {
    && DistinctWords(w.received)
    && (forall m :: m in w.s.c.link.wire && m.kind != CONFIRM ==> m in w.s.sent)
  }

  lemma ToldApartLocal(w: World, e: Event)
    requires ToldApart(w) && Sane(w.s) && Allowed(w, Local(e))
    ensures ToldApart(Apply(w, Local(e)))
  {
    SentKept(w.s, e);
    WireGrows(w.s, e);
  }

  predicate IsConfirm(m: Mail) {
    m.kind == CONFIRM && m.data.ConfirmMessage?
  }

  /** What a step puts on the wire is a CONFIRM or a mail of the machine. */
  lemma WireGrows(s: System, e: Event)
    requires Sane(s) && Enabled(s, e)
    ensures var before, after := s.c.link.wire, Do(s, e).c.link.wire;
            after == before || exists m :: after == before + [m] && (IsConfirm(m) || m in s.sent)
  {
    var before, after := s.c.link.wire, Do(s, e).c.link.wire;
    if e.Socket? {
      SocketEffect(s, e.m);
      assert after == before || after == before + [Confirmation(MessageId(e.m))];
    } else if e.SendPop? {
      assert s.c.box.outgoing[0] in s.sent;
      assert after == before + [s.c.box.outgoing[0]];
    } else {
      LocalFrame(s, e);
      assert !s.c.link.receivedConfirm ==> s.c.link.confMail in s.sent;
    }
  }

  lemma SentKept(s: System, e: Event)
    requires Enabled(s, e)
    ensures s.sent <= Do(s, e).sent
    ensures forall m :: m in s.sent ==> m in Do(s, e).sent
  {
  }

  lemma ToldApartMove(w: World, move: Move)
    requires ToldApart(w) && Sane(w.s) && Allowed(w, move)
    ensures ToldApart(Apply(w, move))
  {
    match move
    case Local(e) => ToldApartLocal(w, e);
    case PeerTake(m) =>
      if m.kind != CONFIRM && !Heard(w.received, MessageId(m)) {
        var i: nat :| i < |w.s.sent| && w.s.sent[i] == m;
        assert IsWord16(MessageId(m));
        DistinctWordsSnoc(w.received, m);
      }
    case _ =>
  }

  lemma {:induction false} Pigeonhole(mails: seq<Mail>, n: nat)
    requires forall i, j :: 0 <= i < j < |mails| ==> MessageId(mails[i]) != MessageId(mails[j])
    requires forall i :: 0 <= i < |mails| ==> 0 <= MessageId(mails[i]) < n
    ensures |mails| <= n
  {
    assert mails != [] ==> 0 <= MessageId(mails[0]) < n;
    if n > 0 {
      if k :| 0 <= k < |mails| && MessageId(mails[k]) == n - 1 {
        Pigeonhole(mails[..k] + mails[k + 1..], n - 1);
      } else {
        Pigeonhole(mails, n - 1);
      }
    }
  }

  /** A peer that tells mails apart by their 16-bit id never holds more than 65536 of them,
      however many the client transmits. */
  lemma {:induction false} PeerHoldsAtMost65536(limit: nat, disciplined: bool, signedChar: bool, moves: seq<Move>)
    ensures var w := Play(Start(limit, disciplined, signedChar), moves);
            ToldApart(w) && |w.received| <= 0x1_0000
  {
    var w := Play(Start(limit, disciplined, signedChar), moves);
    if moves != [] {
      var front := moves[..|moves| - 1];
      var before := Play(Start(limit, disciplined, signedChar), front);
      PeerHoldsAtMost65536(limit, disciplined, signedChar, front);
      AlwaysSane(limit, disciplined, signedChar, front);
      if Allowed(before, moves[|moves| - 1]) {
        ToldApartMove(before, moves[|moves| - 1]);
      }
    }
    assert ToldApart(w);
    Pigeonhole(w.received, 0x1_0000);
  }

  /** The exact limit of reliability. Whenever the client believes that everything is
      confirmed, and so whenever it dequeues another mail, the peer has all it transmitted
      if and only if that is no more than 65536 mails. */
  lemma PeerHearsAllIff(limit: nat, disciplined: bool, signedChar: bool, moves: seq<Move>)
    ensures var w := Play(Start(limit, disciplined, signedChar), moves);
            && (Enabled(w.s, SendPop) ==> w.s.c.link.receivedConfirm)
            && (w.s.c.link.receivedConfirm ==> (w.received == w.s.transmitted <==> |w.s.transmitted| <= 0x1_0000))
  {
    var w := Play(Start(limit, disciplined, signedChar), moves);
    AlwaysSane(limit, disciplined, signedChar, moves);
    PeerHoldsAtMost65536(limit, disciplined, signedChar, moves);
    if |w.s.transmitted| <= 0x1_0000 {
      AlwaysHeeded(limit, disciplined, signedChar, moves);
    }
    HearsAllIff(w);
  }

  lemma HearsAllIff(w: World)
    requires Gated(w.s) && |w.received| <= 0x1_0000 && (|w.s.transmitted| <= 0x1_0000 ==> Heeded(w))
    ensures Enabled(w.s, SendPop) ==> w.s.c.link.receivedConfirm
    ensures w.s.c.link.receivedConfirm ==> (w.received == w.s.transmitted <==> |w.s.transmitted| <= 0x1_0000)
  {
  }

  /** At a clean shutdown the peer has seen the whole conversation, BYE included, if and
      only if that is no more than 65536 mails. */
  lemma PeerHeardAll(limit: nat, disciplined: bool, signedChar: bool, moves: seq<Move>)
    requires Play(Start(limit, disciplined, signedChar), moves).s.status == Exited
    ensures var w := Play(Start(limit, disciplined, signedChar), moves);
            && w.s.sent != [] && w.s.sent[|w.s.sent| - 1].kind == BYE
            && (w.received == w.s.sent <==> |w.s.sent| <= 0x1_0000)
  {
    WorldShutdown(limit, disciplined, signedChar, moves);
    PeerHearsAllIff(limit, disciplined, signedChar, moves);
  }

  // ------------------------------------------------------------ from the peer to the client

  /** The peer's messages as the client reads them. */
  function ReadAll(signedChar: bool, mails: seq<Mail>): seq<Mail> {
    seq(|mails|, i requires 0 <= i < |mails| => AsRead(signedChar, mails[i]))
  }

  /** How many messages can be numbered before their numbers are misread or run out. */
  function Span(signedChar: bool): nat {
    if signedChar then 129 else 0x1_0000
  }

  lemma NumbersGrow(signedChar: bool, i: nat, j: nat)
    requires i < Span(signedChar) && j < Span(signedChar)
    ensures ReadBack(signedChar, i) < ReadBack(signedChar, j) <==> i < j
  {
  }

  /** The id, as it is read, of one of the first n messages. */
  predicate NumberBelow(signedChar: bool, n: nat, id: int) {
    exists k :: 0 <= k < n && ReadBack(signedChar, k) == id
  }

  /** What the client took is the beginning of what the peer sent, all but at most the last,
      and `srvMsgId` is the number of the last one taken. */
  ghost predicate Taking(signedChar: bool, outbox: seq<Mail>, delivered: seq<Mail>, srvMsgId: int) {
    && |delivered| <= |outbox| <= |delivered| + 1 && |outbox| <= Span(signedChar)
    && (forall k :: 0 <= k < |outbox| ==> MessageId(outbox[k]) == k && outbox[k].kind != CONFIRM)
    && delivered == ReadAll(signedChar, outbox)[..|delivered|]
    && srvMsgId == (if delivered == [] then -1 else ReadBack(signedChar, |delivered| - 1))
  }

  /** Only the first n messages have been confirmed. */
  ghost predicate Named(signedChar: bool, n: nat, acks: set<int>, wire: seq<Mail>) {
    && (forall a :: a in acks ==> NumberBelow(signedChar, n, a))
    && (forall m :: m in wire && m.kind == CONFIRM ==> NumberBelow(signedChar, n, MessageId(m)))
  }

  ghost predicate Prefix(w: World) {
    && w.s.c.box.protocol == UDP
    && Taking(w.signedChar, w.outbox, w.s.delivered, w.s.c.box.srvMsgId)
    && Named(w.signedChar, |w.s.delivered|, w.acks, w.s.c.link.wire)
    && (forall m :: m in w.toClient && m.kind != CONFIRM ==> m in ReadAll(w.signedChar, w.outbox))
  }

  lemma TakingMore(signedChar: bool, outbox: seq<Mail>, delivered: seq<Mail>, srvMsgId: int)
    requires Taking(signedChar, outbox, delivered, srvMsgId) && |delivered| < |outbox|
    ensures Taking(signedChar, outbox, delivered + [AsRead(signedChar, outbox[|delivered|])],
                   ReadBack(signedChar, |delivered|))
  {
    var k, all := |delivered|, ReadAll(signedChar, outbox);
    assert all[..k] + [all[k]] == all[..k + 1];
  }

  lemma NamedMore(signedChar: bool, n: nat, acks: set<int>, wire: seq<Mail>)
    requires Named(signedChar, n, acks, wire)
    ensures Named(signedChar, n + 1, acks, wire + [Confirmation(ReadBack(signedChar, n))])
  {
    forall id | NumberBelow(signedChar, n, id) || id == ReadBack(signedChar, n)
      ensures NumberBelow(signedChar, n + 1, id)
    {
      if id == ReadBack(signedChar, n) {
        assert ReadBack(signedChar, n) == id;
      }
    }
  }

  lemma NamedKept(signedChar: bool, n: nat, acks: set<int>, wire: seq<Mail>, m: Mail)
    requires Named(signedChar, n, acks, wire)
    requires m.kind == CONFIRM ==> NumberBelow(signedChar, n, MessageId(m))
    ensures Named(signedChar, n, acks, wire + [m])
  {
  }

  /** A message that arrives: which one it is, and whether it is old or the next. */
  lemma Arrived(w: World, m: Mail) returns (k: nat)
    requires Prefix(w) && m in w.toClient && m.kind != CONFIRM
    ensures k < |w.outbox| && m == AsRead(w.signedChar, w.outbox[k]) && MessageId(m) == ReadBack(w.signedChar, k)
    ensures m.kind == w.outbox[k].kind
    ensures if MessageId(m) <= w.s.c.box.srvMsgId then k < |w.s.delivered| else k == |w.s.delivered|
  {
    k :| k < |w.outbox| && ReadAll(w.signedChar, w.outbox)[k] == m;
    if w.s.delivered != [] {
      NumbersGrow(w.signedChar, |w.s.delivered| - 1, k);
    }
  }

  lemma PrefixSocket(w: World, m: Mail)
    requires Prefix(w) && Allowed(w, Local(Socket(m)))
    ensures Prefix(Apply(w, Local(Socket(m))))
  {
    SocketOutcome(w.s.c, m);
    if m.kind != CONFIRM {
      if MessageId(m) <= w.s.c.box.srvMsgId {
        PrefixOld(w, m);
      } else if OnSocket(w.s.c, m) == Accept(w.s.c, m) {
        PrefixAccept(w, m);
      }
    }
  }

  /** At most an old REPLY is confirmed again. */
  lemma OldOutcome(s: System, m: Mail)
    requires s.c.box.protocol == UDP && Enabled(s, Socket(m))
    requires m.kind != CONFIRM && MessageId(m) <= s.c.box.srvMsgId
    ensures var t := DoSocket(s, m);
            && t.delivered == s.delivered && t.c.box == s.c.box
            && (t.c.link.wire == s.c.link.wire || t.c.link.wire == s.c.link.wire + [Confirmation(MessageId(m))])
  {
    SocketOutcome(s.c, m);
  }

  lemma PrefixOld(w: World, m: Mail)
    requires Prefix(w) && Allowed(w, Local(Socket(m))) && m.kind != CONFIRM && MessageId(m) <= w.s.c.box.srvMsgId
    ensures Prefix(Apply(w, Local(Socket(m))))
  {
    var k := Arrived(w, m);
    OldOutcome(w.s, m);
    PrefixConfirms(w, DoSocket(w.s, m), k);
  }

  lemma PrefixConfirms(w: World, t: System, k: nat)
    requires Prefix(w) && t.delivered == w.s.delivered && t.c.box == w.s.c.box && k < |w.s.delivered|
    requires || t.c.link.wire == w.s.c.link.wire
             || t.c.link.wire == w.s.c.link.wire + [Confirmation(ReadBack(w.signedChar, k))]
    ensures Prefix(w.(s := t))
  {
    assert NumberBelow(w.signedChar, |w.s.delivered|, ReadBack(w.signedChar, k));
    NamedKept(w.signedChar, |w.s.delivered|, w.acks, w.s.c.link.wire, Confirmation(ReadBack(w.signedChar, k)));
  }

  lemma PrefixAccept(w: World, m: Mail)
    requires Prefix(w) && Allowed(w, Local(Socket(m)))
    requires m.kind != CONFIRM && MessageId(m) > w.s.c.box.srvMsgId && OnSocket(w.s.c, m) == Accept(w.s.c, m)
    ensures Prefix(Apply(w, Local(Socket(m))))
  {
    var k := Arrived(w, m);
    var u := Apply(w, Local(Socket(m)));
    TakingMore(w.signedChar, w.outbox, w.s.delivered, w.s.c.box.srvMsgId);
    NamedMore(w.signedChar, k, w.acks, w.s.c.link.wire);
    assert u.s.delivered == w.s.delivered + [m];
    assert u.s.c.link.wire == w.s.c.link.wire + [Confirmation(MessageId(m))];
  }

  lemma PrefixLocal(w: World, e: Event)
    requires Prefix(w) && Sane(w.s) && Allowed(w, Local(e))
    ensures Prefix(Apply(w, Local(e)))
  {
    if e.Socket? {
      PrefixSocket(w, e.m);
    } else {
      OwnWire(w.s, e);
      PrefixFrame(w, Do(w.s, e));
    }
  }

  /** The client's own steps put at most one mail on the wire, which is no CONFIRM. */
  lemma OwnWire(s: System, e: Event)
    requires Sane(s) && Enabled(s, e) && !e.Socket?
    ensures var t := Do(s, e);
            && t.delivered == s.delivered && t.c.box.srvMsgId == s.c.box.srvMsgId
            && t.c.box.protocol == s.c.box.protocol
            && (t.c.link.wire == s.c.link.wire
                || exists m: Mail :: m.kind != CONFIRM && t.c.link.wire == s.c.link.wire + [m])
  {
    if e.SendPop? {
      assert s.c.box.outgoing[0] in s.sent;
      assert Do(s, e).c.link.wire == s.c.link.wire + [s.c.box.outgoing[0]];
    } else {
      LocalFrame(s, e);
      assert !s.c.link.receivedConfirm ==> s.c.link.confMail in s.sent;
    }
  }

  lemma PrefixFrame(w: World, t: System)
    requires Prefix(w) && t.delivered == w.s.delivered
    requires t.c.box.srvMsgId == w.s.c.box.srvMsgId && t.c.box.protocol == w.s.c.box.protocol
    requires || t.c.link.wire == w.s.c.link.wire
             || exists m: Mail :: m.kind != CONFIRM && t.c.link.wire == w.s.c.link.wire + [m]
    ensures Prefix(w.(s := t))
  {
    if t.c.link.wire != w.s.c.link.wire {
      var m: Mail :| m.kind != CONFIRM && t.c.link.wire == w.s.c.link.wire + [m];
      NamedKept(w.signedChar, |w.s.delivered|, w.acks, w.s.c.link.wire, m);
    }
  }

  /** The next message is sent only when all before it were taken, and while its number can
      still be told from theirs. */
  lemma NextToSend(w: World, m: Mail)
    requires Prefix(w) && w.disciplined && Allowed(w, PeerSend(m))
    ensures |w.s.delivered| == |w.outbox| < Span(w.signedChar)
  {
    if w.outbox != [] {
      var k :| 0 <= k < |w.s.delivered| && ReadBack(w.signedChar, k) == |w.outbox| - 1;
      assert k == |w.outbox| - 1 && |w.outbox| < Span(w.signedChar);
    }
  }

  lemma TakingSend(signedChar: bool, outbox: seq<Mail>, delivered: seq<Mail>, srvMsgId: int, m: Mail)
    requires Taking(signedChar, outbox, delivered, srvMsgId) && |delivered| == |outbox| < Span(signedChar)
    requires MessageId(m) == |outbox| && m.kind != CONFIRM
    ensures Taking(signedChar, outbox + [m], delivered, srvMsgId)
    ensures ReadAll(signedChar, outbox + [m]) == ReadAll(signedChar, outbox) + [AsRead(signedChar, m)]
  {
    assert ReadAll(signedChar, outbox + [m]) == ReadAll(signedChar, outbox) + [AsRead(signedChar, m)];
    assert ReadAll(signedChar, outbox + [m])[..|delivered|] == ReadAll(signedChar, outbox)[..|delivered|];
  }

  lemma PrefixSend(w: World, m: Mail)
    requires Prefix(w) && w.disciplined && Allowed(w, PeerSend(m))
    ensures Prefix(Apply(w, PeerSend(m)))
  {
    NextToSend(w, m);
    TakingSend(w.signedChar, w.outbox, w.s.delivered, w.s.c.box.srvMsgId, m);
  }

  lemma PrefixMove(w: World, move: Move)
    requires Prefix(w) && Sane(w.s) && w.disciplined && Allowed(w, move)
    ensures Prefix(Apply(w, move))
  {
    match move
    case Local(e) => PrefixLocal(w, e);
    case PeerSend(m) => PrefixSend(w, m);
    case _ =>
  }

  lemma {:induction false} AlwaysPrefix(limit: nat, signedChar: bool, moves: seq<Move>)
    ensures Prefix(Play(Start(limit, true, signedChar), moves))
  {
    if moves != [] {
      var w := Play(Start(limit, true, signedChar), moves[..|moves| - 1]);
      AlwaysPrefix(limit, signedChar, moves[..|moves| - 1]);
      AlwaysSane(limit, true, signedChar, moves[..|moves| - 1]);
      var es := WorldIsRun(limit, true, signedChar, moves[..|moves| - 1]);
      if Allowed(w, moves[|moves| - 1]) {
        PrefixMove(w, moves[|moves| - 1]);
      }
    }
  }

  /** With an unsigned `char` the client reads a message as it was sent. */
  lemma ReadUnsigned(w: World)
    requires Prefix(w) && !w.signedChar
    requires forall m :: m in w.outbox ==> FromSocket(UDP, m)
    ensures ReadAll(false, w.outbox) == w.outbox
  {
    forall i | 0 <= i < |w.outbox|
      ensures AsRead(false, w.outbox[i]) == w.outbox[i]
    {
      assert w.outbox[i] in w.outbox;
    }
  }

  lemma {:induction false} SentFromSocket(limit: nat, disciplined: bool, signedChar: bool, moves: seq<Move>)
    ensures forall m :: m in Play(Start(limit, disciplined, signedChar), moves).outbox ==> FromSocket(UDP, m)
  {
    if moves != [] {
      SentFromSocket(limit, disciplined, signedChar, moves[..|moves| - 1]);
    }
  }

  /** Reliability of receiving: from a peer that numbers its messages and waits for their
      CONFIRMs, the client takes at every moment exactly a beginning of what was sent, all
      of it or all but the last message, and whatever it confirms it has taken. With an
      unsigned `char` the messages are read as they were sent; with a signed one the peer
      gets no further than message number 128, whose CONFIRM bears another number. */
  lemma ClientTakesPrefix(limit: nat, signedChar: bool, moves: seq<Move>)
    ensures var w := Play(Start(limit, true, signedChar), moves);
            && w.s.delivered <= ReadAll(signedChar, w.outbox)
            && |w.s.delivered| <= |w.outbox| <= |w.s.delivered| + 1
            && (if signedChar then |w.outbox| <= 129 else ReadAll(signedChar, w.outbox) == w.outbox)
            && forall m :: m in w.s.c.link.wire && m.kind == CONFIRM ==>
                 exists k :: 0 <= k < |w.s.delivered| && MessageId(w.s.delivered[k]) == MessageId(m)
  {
    AlwaysPrefix(limit, signedChar, moves);
    SentFromSocket(limit, true, signedChar, moves);
    var w := Play(Start(limit, true, signedChar), moves);
    var es := WorldIsRun(limit, true, signedChar, moves);
    if !signedChar {
      ReadUnsigned(w);
    }
    forall m | m in w.s.c.link.wire && m.kind == CONFIRM
      ensures exists k :: 0 <= k < |w.s.delivered| && MessageId(w.s.delivered[k]) == MessageId(m)
    {
      var k :| 0 <= k < |w.s.delivered| && ReadBack(signedChar, k) == MessageId(m);
      assert w.s.delivered[k] == AsRead(signedChar, w.outbox[k]);
    }
  }

  // ------------------------------------------------------------ a CONFIRM is sent only once

  /** How often the client has put the CONFIRM of this id on the wire. */
  function Confirms(w: World, id: int): nat {
    multiset(w.s.c.link.wire)[Confirmation(id)]
  }

  /** Message k is unconfirmed until it is taken; then it is confirmed, and but for a REPLY
      confirmed once. */
  predicate ConfirmedOnceAt(w: World, k: nat)
    requires k < |w.outbox|
  {
    var id := ReadBack(w.signedChar, k);
    if k >= |w.s.delivered| then Confirms(w, id) == 0
    else Confirms(w, id) >= 1 && (w.outbox[k].kind != REPLY ==> Confirms(w, id) == 1)
  }

  ghost predicate ConfirmedOnce(w: World) {
    forall k :: 0 <= k < |w.outbox| ==> ConfirmedOnceAt(w, k)
  }

  lemma ConfirmedOnceSocket(w: World, m: Mail)
    requires ConfirmedOnce(w) && Prefix(w) && Allowed(w, Local(Socket(m)))
    ensures ConfirmedOnce(Apply(w, Local(Socket(m))))
  {
    var u := Apply(w, Local(Socket(m)));
    SocketOutcome(w.s.c, m);
    if u.s.c.link.wire == w.s.c.link.wire {
      assert forall k :: 0 <= k < |u.outbox| && ConfirmedOnceAt(w, k) ==> ConfirmedOnceAt(u, k);
    } else {
      var j := Arrived(w, m);
      ConfirmedOnceArrived(w, u, j);
    }
  }

  /** One more CONFIRM of message j, which was taken with it or is an old REPLY. */
  lemma ConfirmedOnceArrived(w: World, u: World, j: nat)
    requires ConfirmedOnce(w) && Prefix(w) && j < |w.outbox|
    requires u.outbox == w.outbox && u.signedChar == w.signedChar
    requires u.s.c.link.wire == w.s.c.link.wire + [Confirmation(ReadBack(w.signedChar, j))]
    requires || (j == |w.s.delivered| && |u.s.delivered| == j + 1)
             || (j < |w.s.delivered| && |u.s.delivered| == |w.s.delivered| && w.outbox[j].kind == REPLY)
    ensures ConfirmedOnce(u)
  {
    forall k | 0 <= k < |u.outbox|
      ensures ConfirmedOnceAt(u, k)
    {
      NumbersGrow(w.signedChar, j, k);
      NumbersGrow(w.signedChar, k, j);
      OneMoreConfirm(w.s.c.link.wire, ReadBack(w.signedChar, j), ReadBack(w.signedChar, k));
      assert ConfirmedOnceAt(w, k);
    }
  }

  lemma OneMoreConfirm(wire: seq<Mail>, id: int, k: int)
    ensures multiset(wire + [Confirmation(id)])[Confirmation(k)] ==
            multiset(wire)[Confirmation(k)] + if k == id then 1 else 0
  {
  }

  lemma LocalWire(s: System, e: Event)
    requires Sane(s) && Enabled(s, e) && !e.Socket?
    ensures var t := Do(s, e);
            && t.delivered == s.delivered
            && forall k :: multiset(t.c.link.wire)[Confirmation(k)] == multiset(s.c.link.wire)[Confirmation(k)]
  {
    OwnWire(s, e);
  }

  lemma ConfirmedOnceMove(w: World, move: Move)
    requires ConfirmedOnce(w) && Prefix(w) && Sane(w.s) && w.disciplined && Allowed(w, move)
    ensures ConfirmedOnce(Apply(w, move))
  {
    if move.Local? {
      if move.e.Socket? {
        ConfirmedOnceSocket(w, move.e.m);
      } else {
        LocalWire(w.s, move.e);
        ConfirmedOnceSame(w, Apply(w, move));
      }
    } else if move.PeerSend? {
      ConfirmedOnceSend(w, move.m);
    } else {
      ConfirmedOnceSame(w, Apply(w, move));
    }
  }

  lemma ConfirmedOnceSame(w: World, u: World)
    requires ConfirmedOnce(w) && u.outbox == w.outbox && u.signedChar == w.signedChar
    requires u.s.delivered == w.s.delivered && forall id :: Confirms(u, id) == Confirms(w, id)
    ensures ConfirmedOnce(u)
  {
    forall k | 0 <= k < |u.outbox|
      ensures ConfirmedOnceAt(u, k)
    {
      assert ConfirmedOnceAt(w, k);
    }
  }

  /** Nothing of the next message has been confirmed. */
  lemma NotYetConfirmed(w: World, k: nat)
    requires Prefix(w) && |w.s.delivered| <= k < Span(w.signedChar)
    ensures Confirms(w, ReadBack(w.signedChar, k)) == 0
  {
    var c := Confirmation(ReadBack(w.signedChar, k));
    if c in w.s.c.link.wire {
      assert MessageId(c) == ReadBack(w.signedChar, k);
      var i :| 0 <= i < |w.s.delivered| && ReadBack(w.signedChar, i) == MessageId(c);
      NumbersGrow(w.signedChar, i, k);
    }
  }

  lemma ConfirmedOnceSend(w: World, m: Mail)
    requires ConfirmedOnce(w) && Prefix(w) && w.disciplined && Allowed(w, PeerSend(m))
    ensures ConfirmedOnce(Apply(w, PeerSend(m)))
  {
    NextToSend(w, m);
    NotYetConfirmed(w, |w.outbox|);
    ConfirmedOnceSent(w, Apply(w, PeerSend(m)), m);
  }

  lemma ConfirmedOnceSent(w: World, u: World, m: Mail)
    requires ConfirmedOnce(w) && u.outbox == w.outbox + [m] && u.signedChar == w.signedChar
    requires u.s == w.s && |w.s.delivered| <= |w.outbox| && Confirms(w, ReadBack(w.signedChar, |w.outbox|)) == 0
    ensures ConfirmedOnce(u)
  {
    forall k | 0 <= k < |u.outbox|
      ensures ConfirmedOnceAt(u, k)
    {
      assert k < |w.outbox| ==> ConfirmedOnceAt(w, k);
    }
  }

  /** A message that is not a REPLY is confirmed when it is taken and never again: a peer
      that loses this one CONFIRM waits for ever, however often it repeats the message. */
  lemma {:induction false} NoSecondConfirm(limit: nat, signedChar: bool, moves: seq<Move>)
    ensures ConfirmedOnce(Play(Start(limit, true, signedChar), moves))
  {
    if moves != [] {
      var w := Play(Start(limit, true, signedChar), moves[..|moves| - 1]);
      NoSecondConfirm(limit, signedChar, moves[..|moves| - 1]);
      AlwaysPrefix(limit, signedChar, moves[..|moves| - 1]);
      AlwaysSane(limit, true, signedChar, moves[..|moves| - 1]);
      var es := WorldIsRun(limit, true, signedChar, moves[..|moves| - 1]);
      if Allowed(w, moves[|moves| - 1]) {
        ConfirmedOnceMove(w, moves[|moves| - 1]);
      }
    }
  }
}
