/** The bytes that leave: what the serializer makes of each mail, written out, and that what
    stands in the connection is read back by the parsers. */
module Formats {
  import opened Mails
  import opened Streams
  import opened MailBoxes
  import opened Serializer
  import opened Console
  import opened Listeners
  import opened Systems
  import opened Accounting
  import opened StopAndWait
  import opened TcpMode
  import opened Network
  import UdpCodec
  import TcpCodec

  // ------------------------------------------------------------ the layout

  /** A number in network byte order. */
  function Word(v: int): string
    requires IsWord16(v)
  {
    [(v / 256) as char, (v % 256) as char]
  }

  const NUL: string := ['\0']

  /** Each datagram of the client, byte by byte. */
  function Datagram(m: Mail): string
    requires Matches(m.kind, m.data) && IsWord16(MessageId(m))
    requires m.data.ReplyMessage? ==> IsWord16(m.data.refMessageId)
  {
    match m.data
    case ConfirmMessage(ref) => [0x00 as char] + Word(ref)
    case ReplyMessage(id, result, ref, content) =>
      [0x01 as char] + Word(id) + Word(if result then 1 else 0) + Word(ref) + (content + NUL)
    case AuthMessage(id, username, name, secret) =>
      [0x02 as char] + Word(id) + (username + NUL) + (name + NUL) + (secret + NUL)
    case JoinMessage(id, channel, name) => [0x03 as char] + Word(id) + (channel + NUL) + (name + NUL)
    case TextMessage(id, name, content, _) => [0x04 as char] + Word(id) + (name + NUL) + (content + NUL)
    case UnknownMessage(id) => [0x05 as char] + Word(id)
    case ErrorMessage(id, name, content) => [0xFE as char] + Word(id) + (name + NUL) + (content + NUL)
    case ByeMessage(id) => [0xFF as char] + Word(id)
  }

  lemma WordIs(v: int)
    requires IsWord16(v)
    ensures UdpCodec.Put16(v) == Word(v)
  {
  }

  lemma DatagramLayout(m: Mail)
    requires Matches(m.kind, m.data) && IsWord16(MessageId(m))
    requires m.data.ReplyMessage? ==> IsWord16(m.data.refMessageId)
    ensures Encoding(true, m) == Datagram(m)
  {
    WordIs(MessageId(m));
    if m.data.ReplyMessage? {
      WordIs(m.data.refMessageId);
    }
  }

  /** A word with the space before it. */
  function Sp(w: string): string {
    " " + w
  }

  const CRLF: string := "\r\n"

  /** The line of each mail, with its line end. */
  function Line(m: Mail): string
    requires Matches(m.kind, m.data)
  {
    match m.data
    case ConfirmMessage(_) => "CONFIRM" + CRLF
    case AuthMessage(_, username, name, secret) =>
      "AUTH" + Sp(username) + Sp("AS") + Sp(name) + Sp("USING") + Sp(secret) + CRLF
    case JoinMessage(_, channel, name) => "JOIN" + Sp(channel) + Sp("AS") + Sp(name) + CRLF
    case ErrorMessage(_, name, content) => "ERR" + Sp("FROM") + Sp(name) + Sp("IS") + Sp(content) + CRLF
    case ByeMessage(_) => "BYE" + CRLF
    case TextMessage(_, name, content, _) => "MSG" + Sp("FROM") + Sp(name) + Sp("IS") + Sp(content) + CRLF
    case ReplyMessage(_, result, _, content) =>
      "REPLY" + Sp(if result then "OK" else "NOK") + Sp("IS") + Sp(content) + CRLF
    case UnknownMessage(_) => "ERR" + CRLF
  }

  /** The words of a line stand behind its header, one space before each. */
  lemma LineOfWords(m: Mail)
    ensures TcpCodec.Encode(m) == TcpCodec.Header(m.kind) + TcpCodec.Spaced(TcpCodec.Fields(m.data), CRLF)
  {
    var words := [TcpCodec.Header(m.kind)] + TcpCodec.Fields(m.data);
    TcpCodec.TrailedIsSpaced(words, CRLF);
    assert words[1..] == TcpCodec.Fields(m.data);
  }

  /** Moving the next word of a line to what stands before it. */
  lemma NextWord(before: string, w: string, more: seq<string>, tail: string)
    ensures before + TcpCodec.Spaced([w] + more, tail) == before + Sp(w) + TcpCodec.Spaced(more, tail)
  {
    assert ([w] + more)[1..] == more;
  }

  lemma OneWord(before: string, w: string, tail: string)
    ensures before + TcpCodec.Spaced([w], tail) == before + Sp(w) + tail
  {
    assert [w] + [] == [w];
    NextWord(before, w, [], tail);
  }

  lemma TwoWords(before: string, a: string, b: string, tail: string)
    ensures before + TcpCodec.Spaced([a, b], tail) == before + Sp(a) + Sp(b) + tail
  {
    assert [a] + [b] == [a, b];
    NextWord(before, a, [b], tail);
    OneWord(before + Sp(a), b, tail);
  }

  lemma ThreeWords(before: string, a: string, b: string, c: string, tail: string)
    ensures before + TcpCodec.Spaced([a, b, c], tail) == before + Sp(a) + Sp(b) + Sp(c) + tail
  {
    assert [a] + [b, c] == [a, b, c];
    NextWord(before, a, [b, c], tail);
    TwoWords(before + Sp(a), b, c, tail);
  }

  lemma FourWords(before: string, a: string, b: string, c: string, d: string, tail: string)
    ensures before + TcpCodec.Spaced([a, b, c, d], tail) == before + Sp(a) + Sp(b) + Sp(c) + Sp(d) + tail
  {
    assert [a] + [b, c, d] == [a, b, c, d];
    NextWord(before, a, [b, c, d], tail);
    ThreeWords(before + Sp(a), b, c, d, tail);
  }

  lemma FiveWords(before: string, a: string, b: string, c: string, d: string, e: string, tail: string)
    ensures before + TcpCodec.Spaced([a, b, c, d, e], tail) == before + Sp(a) + Sp(b) + Sp(c) + Sp(d) + Sp(e) + tail
  {
    assert [a] + [b, c, d, e] == [a, b, c, d, e];
    NextWord(before, a, [b, c, d, e], tail);
    FourWords(before + Sp(a), b, c, d, e, tail);
  }

  /** What the serializer makes over TCP is that line. */
  lemma LineLayout(m: Mail)
    requires Matches(m.kind, m.data)
    ensures Encoding(false, m) == Line(m)
  {
    LineOfWords(m);
    match m.data
    case AuthMessage(_, username, name, secret) => FiveWords("AUTH", username, "AS", name, "USING", secret, CRLF);
    case JoinMessage(_, channel, name) => ThreeWords("JOIN", channel, "AS", name, CRLF);
    case ErrorMessage(_, name, content) => FourWords("ERR", "FROM", name, "IS", content, CRLF);
    case TextMessage(_, name, content, _) => FourWords("MSG", "FROM", name, "IS", content, CRLF);
    case ReplyMessage(_, result, _, content) =>
      ThreeWords("REPLY", if result then "OK" else "NOK", "IS", content, CRLF);
    case _ =>
  }

  // ------------------------------------------------------------ read back by the parsers

  /** The mails that a line can stand for. */
  predicate SentAsLine(m: Mail) {
    m.kind in {AUTH, JOIN, MSG, ERR, BYE, REPLY} && Matches(m.kind, m.data) && ValidData(m.data)
  }

  /** What the client's own parser makes of a line: for an AUTH the mail with DisplayName
      and Secret exchanged, if that is valid. */
  function ReadAsLine(sequence: int, m: Mail): Parse
    requires SentAsLine(m)
  {
    match m.data
    case AuthMessage(_, username, name, secret) =>
      if ValidDisplayName(secret) && ValidSecret(name)
      then Parsed(Mail(AUTH, AuthMessage(sequence, username, secret, name), true, false)) else Threw
    case JoinMessage(_, channel, name) => Parsed(Mail(JOIN, JoinMessage(sequence, channel, name), true, false))
    case ErrorMessage(_, name, content) => Parsed(Mail(ERR, ErrorMessage(sequence, name, content), true, false))
    case TextMessage(_, name, content, _) =>
      Parsed(Mail(MSG, TextMessage(sequence, name, content, false), true, false))
    case ReplyMessage(_, result, _, content) =>
      Parsed(Mail(REPLY, ReplyMessage(sequence, result, -1, content), true, false))
    case _ => Parsed(Mail(BYE, ConfirmMessage(0), true, false))
  }

  /** One line, ended by carriage return and newline. */
  ghost predicate IsLine(bytes: string) {
    exists text: string :: OneLine(text) && bytes == text + CRLF
  }

  lemma {:induction false} SpacedIsLine(before: string, words: seq<string>)
    requires OneLine(before) && forall i :: 0 <= i < |words| ==> OneLine(words[i])
    ensures IsLine(before + TcpCodec.Spaced(words, CRLF))
    decreases |words|
  {
    if words == [] {
      assert OneLine(before) && before + TcpCodec.Spaced(words, CRLF) == before + CRLF;
    } else {
      assert [words[0]] + words[1..] == words;
      NextWord(before, words[0], words[1..], CRLF);
      SpacedIsLine(before + Sp(words[0]), words[1..]);
    }
  }

  lemma FieldsAreOneLine(m: Mail)
    requires SentAsLine(m)
    ensures OneLine(TcpCodec.Header(m.kind))
    ensures forall i :: 0 <= i < |TcpCodec.Fields(m.data)| ==> OneLine(TcpCodec.Fields(m.data)[i])
  {
  }

  lemma ReceivedIs(sequence: int, m: Mail)
    requires SentAsLine(m) && m.kind != AUTH
    ensures ReadAsLine(sequence, m) == Parsed(TcpCodec.Received(sequence, m))
  {
  }

  /** What the serializer returns over TCP is one line, and it is read back, whatever follows. */
  lemma LineReadBack(sequence: int, m: Mail, rest: string)
    requires SentAsLine(m)
    ensures IsLine(Encoding(false, m))
    ensures TcpCodec.Decode(sequence, Encoding(false, m) + rest) == ReadAsLine(sequence, m)
  {
    LineOfWords(m);
    FieldsAreOneLine(m);
    SpacedIsLine(TcpCodec.Header(m.kind), TcpCodec.Fields(m.data));
    if m.kind == AUTH {
      TcpCodec.AuthSwapped(sequence, m, rest);
    } else {
      ReceivedIs(sequence, m);
      TcpCodec.RoundTrip(sequence, m, rest);
    }
  }

  /** What it returns over UDP is read back up to its very end, whatever follows. */
  lemma DatagramReadBack(signedChar: bool, m: Mail, rest: string)
    requires UdpCodec.Sendable(m)
    ensures var bytes := Encoding(true, m);
            UdpCodec.Decode(signedChar, bytes + rest) ==
            UdpCodec.Reading(Parsed(UdpCodec.Received(signedChar, m)), |bytes|)
  {
    UdpCodec.RoundTrip(signedChar, m, rest);
  }

  // ------------------------------------------------------------ from the bytes of a line to the queue

  /** What the listener does with a text that has been read. */
  lemma TextHandled(c: Client, signedChar: bool, buffer: string, unset: Kind)
    requires c.box.protocol == TCP
    ensures Handle(c, signedChar, SocketReady(buffer, unset)) ==
            match TcpCodec.Decode(c.box.sequence, buffer)
            case Parsed(mail) => Ok(c.(box := c.box.(incoming := c.box.incoming + [mail])))
            case Rejected =>
              var mail := Mail(unset, ConfirmMessage(0), true, false);
              Ok(Client(c.box.(incoming := c.box.incoming + [mail]), c.link.(keepRunning := false)))
            case Threw => Raised
  {
    TcpCodec.DecodedFromSocket(c.box.sequence, buffer);
  }

  /** A line that arrives over TCP puts the mail it stands for into the incoming queue, and
      changes nothing else; an AUTH whose exchanged fields are not valid throws. */
  lemma LineArrives(c: Client, signedChar: bool, m: Mail, rest: string, unset: Kind)
    requires c.box.protocol == TCP && SentAsLine(m)
    ensures Handle(c, signedChar, SocketReady(Line(m) + rest, unset)) ==
            match ReadAsLine(c.box.sequence, m)
            case Parsed(mail) => Ok(c.(box := c.box.(incoming := c.box.incoming + [mail])))
            case _ => Raised
  {
    LineLayout(m);
    LineReadBack(c.box.sequence, m, rest);
    TextHandled(c, signedChar, Encoding(false, m) + rest, unset);
  }

  lemma FirstWord(word: string, rest: string)
    requires Clean(word) && NoNul(word)
    ensures Token(TcpCodec.CString(word + CRLF + rest)) == word
  {
    assert word + CRLF + rest == word + (CRLF + rest);
    TcpCodec.CStringPrefix(word, CRLF + rest);
    TcpCodec.CStringPrefix(CRLF, rest);
    TokenRead(word, TcpCodec.CString(CRLF + rest));
  }

  /** A line that begins with another word is an unknown message. */
  lemma UnknownArrives(c: Client, signedChar: bool, word: string, rest: string, unset: Kind)
    requires c.box.protocol == TCP && Clean(word) && NoNul(word) && word !in TcpCodec.KINDS
    ensures Handle(c, signedChar, SocketReady(word + CRLF + rest, unset)) ==
            Ok(c.(box := c.box.(incoming := c.box.incoming + [Mail(UNKNOWN, ConfirmMessage(0), true, false)])))
  {
    var buffer := word + CRLF + rest;
    FirstWord(word, rest);
    TcpCodec.DecodeUnknown(c.box.sequence, buffer);
    TextHandled(c, signedChar, buffer, unset);
  }

  /** A line whose fields are valid but whose fixed words are not in place is queued all the
      same, as a mail of no particular kind, and the loop is told to stop. */
  lemma MalformedArrives(c: Client, signedChar: bool, buffer: string, unset: Kind)
    requires c.box.protocol == TCP
    requires var text := TcpCodec.CString(buffer);
             && Token(text) in TcpCodec.KINDS && !TcpCodec.FixedWords(text)
             && ValidData(TcpCodec.FieldsOf(c.box.sequence, text))
    ensures var mail := Mail(unset, ConfirmMessage(0), true, false);
            Handle(c, signedChar, SocketReady(buffer, unset)) ==
            Ok(Client(c.box.(incoming := c.box.incoming + [mail]), c.link.(keepRunning := false)))
  {
    TcpCodec.DecodeMeaning(c.box.sequence, buffer);
    TextHandled(c, signedChar, buffer, unset);
  }

  // ------------------------------------------------------------ in every run

  /** Everything on the wire is a CONFIRM or a mail of the machine. */
  ghost predicate OnWire(s: System) {
    forall m :: m in s.c.link.wire ==> IsConfirm(m) || m in s.sent
  }

  lemma {:induction false} AlwaysOnWire(limit: nat, es: seq<Event>)
    ensures OnWire(After(UDP, limit, es))
  {
    if es != [] {
      var front, e := es[..|es| - 1], es[|es| - 1];
      var s := After(UDP, limit, front);
      AlwaysOnWire(limit, front);
      AlwaysWindow(limit, front);
      AlwaysGated(UDP, limit, front);
      AlwaysBalanced(UDP, limit, front);
      AlwaysComplete(UDP, limit, front);
      if Enabled(s, e) {
        WireGrows(s, e);
        SentKept(s, e);
      }
    }
  }

  /** Whatever stands on the wire of a run can be read back from its bytes. */
  lemma WireSendable(protocol: Protocol, limit: nat, es: seq<Event>, m: Mail)
    requires m in After(protocol, limit, es).c.link.wire
    ensures if protocol == UDP then UdpCodec.Sendable(m) else SentAsLine(m)
  {
    AlwaysComplete(protocol, limit, es);
    if protocol == UDP {
      AlwaysOnWire(limit, es);
    } else {
      TcpIsFifo(limit, es);
      assert m in After(protocol, limit, es).sent;
    }
  }

  /** The wire of every run, as bytes: each datagram a connection has sent is the layout of
      its mail and is read back as that mail; each text it has written is one line, and is
      read back likewise. */
  lemma DatagramsReadBack(connection: Connection, limit: nat, es: seq<Event>, i: nat, rest: string)
    requires connection.Valid() && i < |connection.wire|
    requires connection.wire == After(connection.protocol, limit, es).c.link.wire
    ensures var bytes, m := connection.datagrams[i], connection.wire[i];
            if connection.protocol == UDP then
              forall signedChar ::
                UdpCodec.Decode(signedChar, bytes + rest) ==
                UdpCodec.Reading(Parsed(UdpCodec.Received(signedChar, m)), |bytes|)
            else
              SentAsLine(m) && IsLine(bytes) && bytes == Line(m)
              && forall sequence :: TcpCodec.Decode(sequence, bytes + rest) == ReadAsLine(sequence, m)
  {
    var m := connection.wire[i];
    WireSendable(connection.protocol, limit, es, m);
    if connection.protocol == UDP {
      forall signedChar: bool
        ensures UdpCodec.Decode(signedChar, Encoding(true, m) + rest) ==
                UdpCodec.Reading(Parsed(UdpCodec.Received(signedChar, m)), |Encoding(true, m)|)
      {
        DatagramReadBack(signedChar, m, rest);
      }
    } else {
      LineLayout(m);
      LineReadBack(0, m, rest);
      forall sequence: int
        ensures TcpCodec.Decode(sequence, Encoding(false, m) + rest) == ReadAsLine(sequence, m)
      {
        LineReadBack(sequence, m, rest);
      }
    }
  }
}
