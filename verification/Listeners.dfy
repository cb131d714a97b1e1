/** `Listener` (src/listeners.cpp:61-372): the thread that owns the socket. `Link` holds
    its fields as a value, with the effect of every handler; the class below is proved
    against it. */
module Listeners {
  import opened Mails
  import opened MailBoxes
  import opened Console
  import opened Serializer
  import UdpCodec
  import TcpCodec

  /** The fields of src/headers/listeners.h:18-30; `wire` is everything handed to the
      connection so far, oldest first. */
  datatype Link = Link(receivedConfirm: bool, toSendRegistered: bool, retries: int, refMsgId: int, refAuthId: int,
                       keepRunning: bool, sentBye: bool, confMail: Mail, wire: seq<Mail>)

  datatype Client = Client(box: Box, link: Link)

  const NewLink: Link := Link(true, true, 0, -1, -1, true, false, Fresh, [])

  function NewClient(protocol: Protocol): Client {
    Client(NewBox(protocol), NewLink)
  }

  // ------------------------------------------------------------ the handlers, on values

  /** `keepRunning` is cleared. */
  function Stopped(l: Link): Link {
    l.(keepRunning := false)
  }

  function Transmit(l: Link, m: Mail): Link {
    l.(wire := l.wire + [m])
  }

  /** A new message of the server: remember its id, confirm it, queue it. */
  function Accept(c: Client, m: Mail): Client {
    Client(Add(c.box.(srvMsgId := MessageId(m)), m), Transmit(c.link, Confirmation(MessageId(m))))
  }

  /** `listenSocket` for a decoded message (src/listeners.cpp:139-200) */
  function OnSocket(c: Client, m: Mail): Client
    requires FromSocket(c.box.protocol, m)
  {
    if c.box.protocol == TCP then c.(box := Add(c.box, m))
    else
      match m.kind
      case REPLY =>
        if MessageId(m) <= c.box.srvMsgId then c.(link := Transmit(c.link, Confirmation(MessageId(m))))
        else if c.link.refAuthId != RefMessageId(m) then c
        else Accept(c, m)
      case CONFIRM =>
        if m.data.refMessageId == c.link.refMsgId && !c.link.receivedConfirm
        then c.(link := c.link.(receivedConfirm := true, retries := 0, refMsgId := -1))
        else c
      case _ => if MessageId(m) <= c.box.srvMsgId then c else Accept(c, m)
  }

  /** `listenToSendPipe` after the byte has been read (src/listeners.cpp:216-239) */
  function OnSend(c: Client): Client
    requires c.box.outgoing != []
  {
    var m := c.box.outgoing[0];
    var l := Transmit(if m.kind == BYE then c.link.(sentBye := true, keepRunning := false) else c.link, m);
    Client(Pop(c.box),
           if c.box.protocol == TCP then l
           else l.(receivedConfirm := false, refMsgId := MessageId(m), confMail := m,
                   refAuthId := if m.kind == AUTH || m.kind == JOIN then MessageId(m) else l.refAuthId))
  }

  /** `listenSignal` (src/listeners.cpp:259-264) */
  function OnSignal(c: Client): Result<Client> {
    var r := Write(c.box, ERR, Fresh, -1);
    if r.Raised? then Raised
    else Ok(Client(Add(c.box, r.value.(sigint := true)), Stopped(c.link)))
  }

  /** `listenSocket` for a TCP line without its fixed words (src/listeners.cpp:146-150,197):
      the loop is told to stop, but the mail, whose type was never set, is queued. */
  function OnRejected(c: Client, unset: Kind): Client {
    Client(Add(c.box, Fresh.(kind := unset)), Stopped(c.link))
  }

  /** `listenStdin` */
  function OnStdin(c: Client, chunk: string): Result<Client> {
    var r := Feed(c.box, Lines(chunk));
    if r.Raised? then Raised else Ok(c.(box := r.value))
  }

  /** The to-send pipe is watched exactly while nothing is unconfirmed. */
  function Sync(l: Link): Link {
    if !l.receivedConfirm && l.toSendRegistered then l.(toSendRegistered := false)
    else if l.receivedConfirm && !l.toSendRegistered then l.(toSendRegistered := true)
    else l
  }

  /** `epoll_wait` came back empty (src/listeners.cpp:307-315) */
  function OnTimeout(c: Client, limit: int): Result<Client> {
    if c.link.retries >= limit then Raised
    else Ok(c.(link := Transmit(c.link.(retries := c.link.retries + 1), c.link.confMail)))
  }

  /** The condition of the loop is false (src/listeners.cpp:285). */
  predicate LoopOver(l: Link) {
    !(l.keepRunning || (!l.sentBye || !l.receivedConfirm))
  }

  // ------------------------------------------------------------ one turn of the loop, on values

  /** A file descriptor that `epoll_wait` reports, with what is read from it; `unset` is
      the value of a type field that is never assigned. */
  datatype Ready = StdinReady(chunk: string) | SocketReady(buffer: string, unset: Kind) | ToSendReady | SignalReady

  predicate Distinct(batch: seq<Ready>) {
    forall i, j :: 0 <= i < j < |batch| ==>
      !(batch[i].StdinReady? && batch[j].StdinReady?) && !(batch[i].SocketReady? && batch[j].SocketReady?)
      && batch[i] != batch[j]
  }

  function Handle(c: Client, signedChar: bool, ready: Ready): Result<Client>
    requires ready.ToSendReady? ==> c.box.pipe > 0 && c.box.outgoing != []
  {
    match ready
    case StdinReady(chunk) => OnStdin(c, chunk)
    case SocketReady(buffer, unset) =>
      ReceiveFromSocket(c.box, signedChar, buffer);
      (match Receive(c.box, signedChar, buffer)
       case Parsed(m) => Ok(OnSocket(c, m))
       case Rejected => Ok(OnRejected(c, unset))
       case Threw => Raised)
    case ToSendReady => Ok(OnSend(c.(box := ReadByte(c.box))))
    case SignalReady => OnSignal(c)
  }

  /** The handlers of a batch, in the order of the batch. That the to-send handler is served
      without its byte or its mail is excluded by `SendOnlyWhenConfirmed`. */
  function HandleAll(c: Client, signedChar: bool, batch: seq<Ready>): Result<Client> {
    if batch == [] then Ok(c)
    else
      var before := HandleAll(c, signedChar, batch[..|batch| - 1]);
      var last := batch[|batch| - 1];
      if before.Raised? then Raised
      else if last.ToSendReady? && (before.value.box.pipe == 0 || before.value.box.outgoing == []) then Raised
      else Handle(before.value, signedChar, last)
  }

  function Turn(c: Client, limit: int, signedChar: bool, batch: seq<Ready>): Result<Client> {
    var synced := c.(link := Sync(c.link));
    if batch == [] then OnTimeout(synced, limit) else HandleAll(synced, signedChar, batch)
  }

  /** What the operating system may report: no descriptor twice, the to-send pipe only if
      it is watched and not empty, and nothing at all only when the wait was limited. */
  predicate Reportable(c: Client, batch: seq<Ready>) {
    && Distinct(batch)
    && |batch| <= 10
    && (ToSendReady in batch ==> Sync(c.link).toSendRegistered && c.box.pipe > 0)
    && (batch == [] ==> !c.link.receivedConfirm)
  }

  /** Over TCP the lines received have their fixed words in place. */
  predicate WellFormedBatch(protocol: Protocol, batch: seq<Ready>) {
    protocol == TCP ==> forall i :: 0 <= i < |batch| && batch[i].SocketReady? ==> TcpCodec.WellFormed(batch[i].buffer)
  }

  lemma ReceiveNotRejected(box: Box, signedChar: bool, buffer: string)
    requires box.protocol == TCP ==> TcpCodec.WellFormed(buffer)
    ensures !Receive(box, signedChar, buffer).Rejected?
  {
    UdpCodec.DecodedFromSocket(signedChar, buffer);
    TcpCodec.WellFormedAnyNumber(box.sequence, buffer);
  }

  lemma HandleKeeps(c: Client, signedChar: bool, ready: Ready)
    requires ready.ToSendReady? ==> c.box.pipe > 0 && c.box.outgoing != []
    requires Handle(c, signedChar, ready).Ok?
    ensures var d := Handle(c, signedChar, ready).value;
            && d.box.protocol == c.box.protocol
            && d.link.toSendRegistered == c.link.toSendRegistered
            && (!ready.ToSendReady? ==>
                  && d.box.pipe == c.box.pipe && d.box.outgoing == c.box.outgoing
                  && (c.link.receivedConfirm ==> d.link.receivedConfirm))
  {
    if ready.StdinReady? {
      FeedMeaning(c.box, Lines(ready.chunk));
    }
  }

  /** Within a batch nothing but the to-send handler takes a mail or withdraws the
      confirmation, so up to its turn both are as they were at the start. */
  lemma {:induction false} BeforeSending(c: Client, signedChar: bool, batch: seq<Ready>)
    requires ToSendReady !in batch && HandleAll(c, signedChar, batch).Ok?
    ensures var d := HandleAll(c, signedChar, batch).value;
            && d.box.protocol == c.box.protocol
            && d.box.pipe == c.box.pipe && d.box.outgoing == c.box.outgoing
            && d.link.toSendRegistered == c.link.toSendRegistered
            && (c.link.receivedConfirm ==> d.link.receivedConfirm)
  {
    if batch != [] {
      var n := |batch| - 1;
      BeforeSending(c, signedChar, batch[..n]);
      HandleKeeps(HandleAll(c, signedChar, batch[..n]).value, signedChar, batch[n]);
    }
  }

  /** For every order of events in every batch, the to-send handler runs only when no
      message is waiting for its CONFIRM, and finds its byte and its mail. */
  lemma SendOnlyWhenConfirmed(c: Client, signedChar: bool, batch: seq<Ready>, i: nat)
    requires Reportable(c, batch) && c.box.pipe <= |c.box.outgoing|
    requires i < |batch| && batch[i] == ToSendReady
    requires HandleAll(c.(link := Sync(c.link)), signedChar, batch[..i]).Ok?
    ensures var d := HandleAll(c.(link := Sync(c.link)), signedChar, batch[..i]).value;
            d.link.receivedConfirm && d.box.pipe > 0 && d.box.outgoing != []
  {
    assert ToSendReady in batch;
    assert ToSendReady !in batch[..i];
    BeforeSending(c.(link := Sync(c.link)), signedChar, batch[..i]);
  }

  /** An exception ends the batch. */
  lemma {:induction false} HandleAllRaised(c: Client, signedChar: bool, batch: seq<Ready>, i: nat)
    requires i <= |batch| && HandleAll(c, signedChar, batch[..i]).Raised?
    ensures HandleAll(c, signedChar, batch).Raised?
  {
    if i == |batch| {
      assert batch[..i] == batch;
    } else {
      assert batch[..|batch| - 1][..i] == batch[..i];
      HandleAllRaised(c, signedChar, batch[..|batch| - 1], i);
    }
  }

  // ------------------------------------------------------------ the classes

  /** What has left through the socket, as bytes, and the mails they stand for. */
  class Connection {
    const protocol: Protocol
    const retries: int
    var datagrams: seq<string>
    ghost var wire: seq<Mail>

    ghost predicate Valid()
      reads this
    {
      |datagrams| == |wire| && forall i :: 0 <= i < |wire| ==> datagrams[i] == Encoding(protocol == UDP, wire[i])
    }

    constructor (protocol: Protocol, retries: int)
      ensures Valid() && wire == [] && this.protocol == protocol && this.retries == retries
    {
      this.protocol, this.retries, datagrams, wire := protocol, retries, [], [];
    }

    method SendData(m: Mail)
      requires Valid()
      modifies this
      ensures Valid() && wire == old(wire) + [m]
    {
      var serializer := new MailSerializer(protocol == UDP);
      var bytes := serializer.Serialize(m);
      datagrams := datagrams + [bytes];
      wire := wire + [m];
    }
  }

  class Listener {
    const mailbox: MailBox
    const connection: Connection
    const protocolType: Protocol
    var confMail: Mail
    var receivedConfirm: bool
    var toSendRegistered: bool
    var retries: int
    var refMsgId: int
    var refAuthId: int
    var keepRunning: bool
    var sentBye: bool

    ghost predicate Valid()
      reads this, mailbox, connection
    {
      connection.Valid() && protocolType == connection.protocol == mailbox.deliveryService
    }

    ghost function State(): Client
      reads this, mailbox, connection
    {
      Client(mailbox.State(), Link(receivedConfirm, toSendRegistered, retries, refMsgId, refAuthId,
                                   keepRunning, sentBye, confMail, connection.wire))
    }

    constructor (mailbox: MailBox, connection: Connection, protocolType: Protocol)
      requires connection.Valid() && connection.wire == []
      requires protocolType == connection.protocol == mailbox.deliveryService
      ensures Valid() && this.mailbox == mailbox && this.connection == connection
      ensures State() == Client(mailbox.State(), NewLink)
    {
      this.mailbox, this.connection, this.protocolType := mailbox, connection, protocolType;
      confMail, receivedConfirm, toSendRegistered, retries := Fresh, true, true, 0;
      refMsgId, refAuthId, keepRunning, sentBye := -1, -1, true, false;
    }

    /** `writeMail(line, mail)` and `addMail(mail)` */
    method EnterLine(line: string) returns (threw: bool)
      requires Valid()
      modifies mailbox
      ensures Valid()
      ensures threw <==> Enter(old(mailbox.State()), line).Raised?
      ensures !threw ==> mailbox.State() == Enter(old(mailbox.State()), line).value
    {
      var mail := mailbox.WriteLine(line);
      if mail.Raised? {
        return true;
      }
      mailbox.AddMail(mail.value);
      threw := false;
    }

    method ListenStdin(chunk: string) returns (threw: bool)
      requires Valid()
      modifies mailbox
      ensures Valid()
      ensures threw <==> OnStdin(old(State()), chunk).Raised?
      ensures !threw ==> State() == OnStdin(old(State()), chunk).value
    {
      ghost var box := mailbox.State();
      var line := "";
      for i := 0 to |chunk|
        invariant Valid()
        invariant line == Pending(chunk[..i])
        invariant Feed(box, Lines(chunk[..i])) == Ok(mailbox.State())
      {
        FeedCharacter(box, chunk, i);
        if chunk[i] == '\n' {
          if line != "" {
            threw := EnterLine(line);
            if threw {
              FeedRaisedEarly(box, chunk, i + 1);
              return;
            }
            line := "";
          }
        } else {
          line := line + [chunk[i]];
        }
      }
      assert chunk[..|chunk|] == chunk;
      threw := false;
    }

    method ListenSocket(buffer: string, unset: Kind) returns (threw: bool)
      requires Valid()
      modifies this, mailbox, connection
      ensures Valid()
      ensures threw <==> old(Handle(State(), mailbox.signedChar, SocketReady(buffer, unset))).Raised?
      ensures !threw ==> State() == old(Handle(State(), mailbox.signedChar, SocketReady(buffer, unset))).value
    {
      ReceiveFromSocket(mailbox.State(), mailbox.signedChar, buffer);
      UdpCodec.DecodedFromSocket(mailbox.signedChar, buffer);
      var outcome := mailbox.WriteSocketMail(buffer);
      match outcome {
        case Threw => return true;
        case Parsed(mail) => HandleMail(mail);
        case Rejected =>
          keepRunning := false;
          mailbox.AddMail(Fresh.(kind := unset));
      }
      threw := false;
    }

    /** The rest of `listenSocket`, once the message is decoded. */
    method HandleMail(mail: Mail)
      requires Valid() && FromSocket(mailbox.deliveryService, mail)
      modifies this, mailbox, connection
      ensures Valid() && State() == OnSocket(old(State()), mail)
    {
      if protocolType == UDP {
        var confirmation := mailbox.WriteMail(CONFIRM, Fresh, MessageId(mail));
        match mail.kind {
          case REPLY =>
            if MessageId(mail) <= mailbox.srvMsgId {
              connection.SendData(confirmation.value);
              return;
            }
            if refAuthId != RefMessageId(mail) {
              return;
            }
            mailbox.srvMsgId := MessageId(mail);
          case CONFIRM =>
            if mail.data.refMessageId == refMsgId && !receivedConfirm {
              receivedConfirm := true;
              retries := 0;
              refMsgId := -1;
            }
            return;
          case _ =>
            if MessageId(mail) <= mailbox.srvMsgId {
              return;
            }
            mailbox.srvMsgId := MessageId(mail);
        }
        connection.SendData(confirmation.value);
      }
      mailbox.AddMail(mail);
    }

    method ListenToSendPipe()
      requires Valid() && mailbox.notifyPipe > 0 && mailbox.outgoingMails != []
      modifies this, mailbox, connection
      ensures Valid()
      ensures State() == OnSend(old(State().(box := ReadByte(mailbox.State()))))
    {
      mailbox.notifyPipe := mailbox.notifyPipe - 1;
      var mail := mailbox.GetOutgoingMail();
      if mail.kind == BYE {
        sentBye := true;
        keepRunning := false;
      }
      connection.SendData(mail);
      if protocolType == UDP {
        receivedConfirm := false;
        refMsgId := MessageId(mail);
        confMail := mail;
        if mail.kind == AUTH || mail.kind == JOIN {
          refAuthId := MessageId(mail);
        }
      }
    }

    method ListenSignal() returns (threw: bool)
      requires Valid()
      modifies this, mailbox
      ensures Valid()
      ensures threw <==> OnSignal(old(State())).Raised?
      ensures !threw ==> State() == OnSignal(old(State())).value
    {
      var r := mailbox.WriteMail(ERR, Fresh, -1);
      if r.Raised? {
        return true;
      }
      var mail := r.value;
      mail := mail.(sigint := true);
      mailbox.AddMail(mail);
      keepRunning := false;
      threw := false;
    }

    /** What `stop` does before it joins the thread. */
    method Stop()
      requires Valid()
      modifies this`keepRunning
      ensures Valid() && State() == old(State()).(link := Stopped(old(State()).link))
    {
      keepRunning := false;
    }

    /** One pass through the loop of `runListener`, for a batch the system may report. */
    method Iterate(batch: seq<Ready>) returns (threw: bool)
      requires Valid() && !LoopOver(State().link) && Reportable(State(), batch)
      requires mailbox.notifyPipe <= |mailbox.outgoingMails|
      modifies this, mailbox, connection
      ensures Valid()
      ensures threw <==> Turn(old(State()), connection.retries, mailbox.signedChar, batch).Raised?
      ensures !threw ==> State() == Turn(old(State()), connection.retries, mailbox.signedChar, batch).value
    {
      if !receivedConfirm && toSendRegistered {
        toSendRegistered := false;
      } else if receivedConfirm && !toSendRegistered {
        toSendRegistered := true;
      }
      if |batch| == 0 {
        if retries >= connection.retries {
          return true;
        }
        retries := retries + 1;
        connection.SendData(confMail);
        return false;
      }
      threw := Serve(batch);
    }

    /** The loop over the events of a batch. */
    method Serve(batch: seq<Ready>) returns (threw: bool)
      requires Valid() && Reportable(State(), batch) && Sync(State().link) == State().link
      requires mailbox.notifyPipe <= |mailbox.outgoingMails|
      modifies this, mailbox, connection
      ensures Valid()
      ensures threw <==> HandleAll(old(State()), mailbox.signedChar, batch).Raised?
      ensures !threw ==> State() == HandleAll(old(State()), mailbox.signedChar, batch).value
    {
      ghost var start := State();
      for i := 0 to |batch|
        invariant Valid()
        invariant HandleAll(start, mailbox.signedChar, batch[..i]) == Ok(State())
      {
        assert batch[..i + 1][..i] == batch[..i];
        if batch[i] == ToSendReady {
          SendOnlyWhenConfirmed(old(State()), mailbox.signedChar, batch, i);
        }
        threw := Dispatch(batch[i]);
        if threw {
          HandleAllRaised(start, mailbox.signedChar, batch, i + 1);
          return;
        }
      }
      assert batch[..|batch|] == batch;
      threw := false;
    }

    /** The switch over the kinds of descriptors. */
    method Dispatch(ready: Ready) returns (threw: bool)
      requires Valid()
      requires ready.ToSendReady? ==> mailbox.notifyPipe > 0 && mailbox.outgoingMails != []
      modifies this, mailbox, connection
      ensures Valid()
      ensures threw <==> old(Handle(State(), mailbox.signedChar, ready)).Raised?
      ensures !threw ==> State() == old(Handle(State(), mailbox.signedChar, ready)).value
    {
      match ready {
        case StdinReady(chunk) => threw := ListenStdin(chunk);
        case SocketReady(buffer, unset) => threw := ListenSocket(buffer, unset);
        case ToSendReady =>
          ListenToSendPipe();
          threw := false;
        case SignalReady => threw := ListenSignal();
      }
    }
  }
}
