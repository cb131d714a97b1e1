/** `MailBox` (src/headers/mail-box.h:231-662): the two queues between the threads, the
    notification pipe, the message numbers and the writers of mails. `Box` is the state
    as a value, with the effect of every atomic operation; the class below is proved
    against it. */
module MailBoxes {
  import opened Mails
  import opened Streams
  import UdpCodec
  import TcpCodec
  import Words

  /** `pipe` counts the bytes in the notification pipe. */
  datatype Box = Box(protocol: Protocol, incoming: seq<Mail>, outgoing: seq<Mail>, pipe: nat,
                     displayName: string, sequence: int, srvMsgId: int)

  datatype Result<+T> = Ok(value: T) | Raised

  function NewBox(protocol: Protocol): Box {
    Box(protocol, [], [], 0, "default", 0, -1)
  }

  /** `addMail` */
  function Add(box: Box, m: Mail): Box {
    if m.addToMailQueue then box.(incoming := box.incoming + [m]) else box
  }

  /** `waitMail` once a mail is there */
  function Take(box: Box): Box
    requires box.incoming != []
  {
    box.(incoming := box.incoming[1..])
  }

  /** The number `sendMail` writes into the payloads that have one. */
  function Stamp(box: Box, m: Mail): Mail {
    if Numbered(m.data) then m.(data := SetId(m.data, box.sequence)) else m
  }

  /** `sendMail` up to the notification: the counter is 16 bits wide. */
  function Push(box: Box, m: Mail): Box {
    box.(outgoing := box.outgoing + [Stamp(box, m)],
         sequence := if Numbered(m.data) then (box.sequence + 1) % 0x1_0000 else box.sequence)
  }

  function Notify(box: Box): Box {
    box.(pipe := box.pipe + 1)
  }

  /** `sendMail` as a whole */
  function Send(box: Box, m: Mail): Box {
    if m.addToMailQueue then Notify(Push(box, m)) else box
  }

  /** What `sendMail` does, field by field: nothing for a mail that is not marked; otherwise
      the mail is last in the queue, the same but for its number, and one byte announces it. */
  lemma SendMeaning(box: Box, m: Mail)
    ensures var after := Send(box, m);
            if !m.addToMailQueue then after == box
            else
              && |after.outgoing| == |box.outgoing| + 1 && after.outgoing[..|box.outgoing|] == box.outgoing
              && after.outgoing[|box.outgoing|].kind == m.kind
              && SameButNumber(m.data, after.outgoing[|box.outgoing|].data)
              && (Numbered(m.data) ==> after.outgoing[|box.outgoing|].data.messageId == box.sequence)
              && after.sequence == (if Numbered(m.data) then (box.sequence + 1) % 0x1_0000 else box.sequence)
              && after.pipe == box.pipe + 1
              && after.incoming == box.incoming && after.protocol == box.protocol
              && after.displayName == box.displayName && after.srvMsgId == box.srvMsgId
  {
    assert (box.outgoing + [Stamp(box, m)])[..|box.outgoing|] == box.outgoing;
  }

  function ReadByte(box: Box): Box
    requires box.pipe > 0
  {
    box.(pipe := box.pipe - 1)
  }

  /** `getOutgoingMail` */
  function Pop(box: Box): Box
    requires box.outgoing != []
  {
    box.(outgoing := box.outgoing[1..])
  }

  /** `writeMail` for the mails the client makes itself; every other kind becomes an ERR,
      whose constructor checks the current display name. */
  function Write(box: Box, kind: Kind, m: Mail, refMessageId: int): Result<Mail> {
    match kind
    case BYE => Ok(m.(kind := BYE, data := ByeMessage(box.sequence)))
    case CONFIRM => Ok(m.(kind := CONFIRM, data := ConfirmMessage(refMessageId)))
    case _ =>
      var d := ErrorMessage(box.sequence, box.displayName, "MessageContent");
      if ValidData(d) then Ok(m.(kind := ERR, data := d)) else Raised
  }

  const Fresh: Mail := Mail(UNKNOWN, ConfirmMessage(0), true, false)

  /** What a console line makes: a mail, queued or only local, and the display name after it. */
  datatype Typed = Typed(mail: Mail, displayName: string)

  const Local: Mail := Fresh.(addToMailQueue := false)

  function Checked(kind: Kind, d: Data, displayName: string): Result<Typed> {
    if ValidData(d) then Ok(Typed(Mail(kind, d, true, false), displayName)) else Raised
  }

  /** `writeMail` for a line typed by the user (src/headers/mail-box.h:343-396) */
  function Command(sequence: int, displayName: string, line: string): Result<Typed> {
    var r0 := AfterToken(line);
    var r1 := AfterToken(r0);
    var r2 := AfterToken(r1);
    match Token(line)
    case "/auth" => Checked(AUTH, AuthMessage(sequence, Token(r0), Token(r2), Token(r1)), Token(r2))
    case "/join" => Checked(JOIN, JoinMessage(sequence, Token(r0), displayName), displayName)
    case "/rename" => Ok(Typed(Local, Token(r0)))
    case "/help" => Ok(Typed(Local, displayName))
    case "/print" => Ok(Typed(Local, displayName))
    case _ => Checked(MSG, TextMessage(sequence, displayName, line, true), displayName)
  }

  /** A message off the socket: `writeMail(char**, Mail&)` */
  function Receive(box: Box, signedChar: bool, buffer: string): Parse {
    match box.protocol
    case UDP => UdpCodec.Decode(signedChar, buffer).outcome
    case TCP => TcpCodec.Decode(box.sequence, buffer)
  }

  lemma ReceiveFromSocket(box: Box, signedChar: bool, buffer: string)
    ensures Receive(box, signedChar, buffer).Parsed? ==> FromSocket(box.protocol, Receive(box, signedChar, buffer).mail)
  {
    UdpCodec.DecodedFromSocket(signedChar, buffer);
    TcpCodec.DecodedFromSocket(box.sequence, buffer);
  }

  class MailBox {
    const deliveryService: Protocol
    const signedChar: bool
    var incomingMails: seq<Mail>
    var outgoingMails: seq<Mail>
    var notifyPipe: nat
    var displayName: string
    var sequenceUDPNumber: int
    var srvMsgId: int

    function State(): Box
      reads this
    {
      Box(deliveryService, incomingMails, outgoingMails, notifyPipe, displayName, sequenceUDPNumber, srvMsgId)
    }

    constructor (protocol: Protocol, signedChar: bool)
      ensures State() == NewBox(protocol) && this.signedChar == signedChar
    {
      deliveryService, this.signedChar := protocol, signedChar;
      incomingMails, outgoingMails, notifyPipe := [], [], 0;
      displayName, sequenceUDPNumber, srvMsgId := "default", 0, -1;
    }

    method AddMail(m: Mail)
      modifies this
      ensures State() == Add(old(State()), m)
    {
      if !m.addToMailQueue {
        return;
      }
      incomingMails := incomingMails + [m];
    }

    method WaitMail() returns (m: Mail)
      requires incomingMails != []
      modifies this
      ensures m == old(incomingMails)[0] && State() == Take(old(State()))
    {
      m := incomingMails[0];
      incomingMails := incomingMails[1..];
    }

    method SendMail(m: Mail)
      modifies this
      ensures State() == Send(old(State()), m)
    {
      if !m.addToMailQueue {
        return;
      }
      var mail := m;
      if Numbered(mail.data) {
        mail := mail.(data := SetId(mail.data, sequenceUDPNumber));
        sequenceUDPNumber := (sequenceUDPNumber + 1) % 0x1_0000;
      }
      outgoingMails := outgoingMails + [mail];
      notifyPipe := notifyPipe + 1;
    }

    method GetOutgoingMail() returns (m: Mail)
      requires outgoingMails != []
      modifies this
      ensures m == old(outgoingMails)[0] && State() == Pop(old(State()))
    {
      m := outgoingMails[0];
      outgoingMails := outgoingMails[1..];
    }

    /** `writeMail(MessageType, Mail&, int)` */
    method WriteMail(kind: Kind, m: Mail, refMessageId: int) returns (r: Result<Mail>)
      ensures r == Write(State(), kind, m, refMessageId)
    {
      var mail := m;
      match kind {
        case BYE =>
          mail := mail.(kind := BYE);
          mail := mail.(data := ByeMessage(sequenceUDPNumber));
        case CONFIRM =>
          mail := mail.(kind := CONFIRM);
          mail := mail.(data := ConfirmMessage(refMessageId));
        case _ =>
          mail := mail.(kind := ERR);
          if !ValidDisplayName(displayName) {
            return Raised;
          }
          mail := mail.(data := ErrorMessage(sequenceUDPNumber, displayName, "MessageContent"));
      }
      r := Ok(mail);
    }

    /** `writeMail(std::string, Mail&)` */
    method WriteLine(line: string) returns (r: Result<Mail>)
      modifies this`displayName
      ensures var typed := Command(sequenceUDPNumber, old(displayName), line);
              if typed.Ok? then r == Ok(typed.value.mail) && displayName == typed.value.displayName
              else r == Raised && displayName == old(displayName)
    {
      var stream := new InputStream(line);
      var command := stream.Extract();
      if command == "/auth" {
        var username := stream.Extract();
        var secret := stream.Extract();
        var name := stream.Extract();
        var d := AuthMessage(sequenceUDPNumber, username, name, secret);
        if !ValidData(d) {
          return Raised;
        }
        displayName := name;
        return Ok(Mail(AUTH, d, true, false));
      } else if command == "/join" {
        var channel := stream.Extract();
        var d := JoinMessage(sequenceUDPNumber, channel, displayName);
        if !ValidData(d) {
          return Raised;
        }
        return Ok(Mail(JOIN, d, true, false));
      } else if command == "/rename" {
        var name := stream.Extract();
        displayName := name;
        return Ok(Local);
      } else if command == "/help" || command == "/print" {
        return Ok(Local);
      }
      var d := TextMessage(sequenceUDPNumber, displayName, line, true);
      if !ValidData(d) {
        return Raised;
      }
      return Ok(Mail(MSG, d, true, false));
    }

    /** `readUInt16`, which advances the cursor */
    method ReadUInt16(buffer: string, cursor: nat) returns (value: int, next: nat)
      ensures value == UdpCodec.Get16(signedChar, buffer, cursor) && next == cursor + 2
    {
      value := Words.ReadWord(signedChar, UdpCodec.At(buffer, cursor), UdpCodec.At(buffer, cursor + 1));
      next := cursor + 2;
    }

    /** `readString`, which advances the cursor past the NUL */
    method ReadString(buffer: string, cursor: nat) returns (text: string, next: nat)
      ensures text == UdpCodec.GetString(buffer, cursor) && next == UdpCodec.PastString(buffer, cursor)
    {
      text, next := "", cursor;
      while UdpCodec.At(buffer, next) != '\0'
        invariant text + UdpCodec.GetString(buffer, next) == UdpCodec.GetString(buffer, cursor)
        invariant next == cursor + |text|
        decreases |buffer| - next
      {
        var c := UdpCodec.At(buffer, next);
        assert text + ([c] + UdpCodec.GetString(buffer, next + 1)) == text + [c] + UdpCodec.GetString(buffer, next + 1);
        text := text + [c];
        next := next + 1;
      }
      next := next + 1;
    }

    method WriteUDPMail(buffer: string) returns (outcome: Parse, end: nat)
      ensures UdpCodec.Reading(outcome, end) == UdpCodec.Decode(signedChar, buffer)
    {
      var kind := UdpCodec.KindOf(Words.Octet(UdpCodec.At(buffer, 0)));
      var id, current := ReadUInt16(buffer, 1);
      var d: Data;
      match kind {
        case CONFIRM => d := ConfirmMessage(id);
        case BYE => d := ByeMessage(id);
        case UNKNOWN => d := UnknownMessage(id);
        case ERR =>
          var name, content;
          name, current := ReadString(buffer, current);
          content, current := ReadString(buffer, current);
          d := ErrorMessage(id, name, content);
        case REPLY =>
          var ref, content;
          var result := UdpCodec.At(buffer, current);
          current := current + 1;
          ref, current := ReadUInt16(buffer, current);
          content, current := ReadString(buffer, current);
          d := ReplyMessage(id, result != '\0', ref, content);
        case AUTH =>
          var username, name, secret;
          username, current := ReadString(buffer, current);
          name, current := ReadString(buffer, current);
          secret, current := ReadString(buffer, current);
          d := AuthMessage(id, username, name, secret);
        case JOIN =>
          var channel, name;
          channel, current := ReadString(buffer, current);
          name, current := ReadString(buffer, current);
          d := JoinMessage(id, channel, name);
        case MSG =>
          var name, content;
          name, current := ReadString(buffer, current);
          content, current := ReadString(buffer, current);
          d := TextMessage(id, name, content, false);
      }
      end := current;
      outcome := if ValidData(d) then Parsed(Mail(kind, d, kind != CONFIRM, false)) else Threw;
    }

    method WriteTCPMail(buffer: string) returns (outcome: Parse)
      ensures outcome == TcpCodec.Decode(sequenceUDPNumber, buffer)
    {
      var stream := new InputStream(TcpCodec.CString(buffer));
      var kind := stream.Extract();
      if kind == "BYE" {
        return Parsed(Mail(BYE, ConfirmMessage(0), true, false));
      } else if kind == "ERR" {
        var from := stream.Extract();
        var name := stream.Extract();
        var isWord := stream.Extract();
        var line := stream.ExtractLine();
        return TcpCodec.Checked(ERR, ErrorMessage(sequenceUDPNumber, name, TcpCodec.Content(line)),
                                from == "FROM" && isWord == "IS");
      } else if kind == "REPLY" {
        var response := stream.Extract();
        var isWord := stream.Extract();
        var line := stream.ExtractLine();
        return TcpCodec.Checked(REPLY, ReplyMessage(sequenceUDPNumber, response == "OK", -1, TcpCodec.Content(line)),
                                (response == "OK" || response == "NOK") && isWord == "IS");
      } else if kind == "AUTH" {
        var username := stream.Extract();
        var asWord := stream.Extract();
        var secret := stream.Extract();
        var usingWord := stream.Extract();
        var name := stream.Extract();
        return TcpCodec.Checked(AUTH, AuthMessage(sequenceUDPNumber, username, name, secret),
                                asWord == "AS" && usingWord == "USING");
      } else if kind == "JOIN" {
        var channel := stream.Extract();
        var asWord := stream.Extract();
        var name := stream.Extract();
        return TcpCodec.Checked(JOIN, JoinMessage(sequenceUDPNumber, channel, name), asWord == "AS");
      } else if kind == "MSG" {
        var from := stream.Extract();
        var name := stream.Extract();
        var isWord := stream.Extract();
        var line := stream.ExtractLine();
        return TcpCodec.Checked(MSG, TextMessage(sequenceUDPNumber, name, TcpCodec.Content(line), false),
                                from == "FROM" && isWord == "IS");
      }
      return Parsed(Mail(UNKNOWN, ConfirmMessage(0), true, false));
    }

    /** `writeMail(char**, Mail&)` */
    method WriteSocketMail(buffer: string) returns (outcome: Parse)
      ensures outcome == Receive(State(), signedChar, buffer)
    {
      if deliveryService == UDP {
        var end;
        outcome, end := WriteUDPMail(buffer);
      } else {
        outcome := WriteTCPMail(buffer);
      }
    }
  }
}
