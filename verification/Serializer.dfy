/** `MailSerializer` (src/headers/mail-box.h:664-845): a byte buffer that the visits of a
    mail's payload append to, for either transport. */
module Serializer {
  import opened Mails
  import UdpCodec
  import TcpCodec

  /** What must stand in the buffer after serialising m. */
  function Encoding(isUDP: bool, m: Mail): string {
    if isUDP then UdpCodec.Encode(m) else TcpCodec.Encode(m)
  }

  function Payload(isUDP: bool, d: Data): string {
    if isUDP then UdpCodec.PutData(d) else TcpCodec.Trailed(TcpCodec.Fields(d))
  }

  lemma Associate(a: string, b: string, c: string)
    ensures a + b + c == a + (b + c)
  {
  }

  /** A word written at the end of a TCP line. */
  lemma {:induction false} TrailedSnoc(words: seq<string>, w: string)
    ensures TcpCodec.Trailed(words + [w]) == TcpCodec.Trailed(words) + (w + " ")
  {
    if words == [] {
      assert [] + [w] == [w];
    } else {
      assert (words + [w])[1..] == words[1..] + [w];
      TrailedSnoc(words[1..], w);
    }
  }

  lemma WordAppended(start: string, words: seq<string>, w: string, extended: seq<string>)
    requires extended == words + [w]
    ensures start + TcpCodec.Trailed(words) + (w + " ") == start + TcpCodec.Trailed(extended)
    ensures words == [] ==> start + (w + " ") == start + TcpCodec.Trailed(extended)
  {
    TrailedSnoc(words, w);
    assert start + "" == start;
    Associate(start, TcpCodec.Trailed(words), w + " ");
  }

  class MailSerializer {
    var buffer: string
    const isUDP: bool

    constructor (isUDP: bool)
      ensures this.isUDP == isUDP && buffer == ""
    {
      this.isUDP := isUDP;
      buffer := "";
    }

    /** `serialize(uint16_t)` */
    method PutNumber(v: int)
      modifies this
      ensures buffer == if isUDP then old(buffer) + UdpCodec.Put16(v) else old(buffer)
    {
      if isUDP {
        buffer := buffer + UdpCodec.Put16(v);
      }
    }

    /** `serialize(const std::string&)` */
    method PutText(s: string)
      modifies this
      ensures buffer == old(buffer) + (if isUDP then UdpCodec.PutString(s) else s + " ")
    {
      if isUDP {
        buffer := buffer + (s + ['\0']);
      } else {
        buffer := buffer + (s + " ");
      }
    }

    /** The fixed words, which only the text form has. */
    method PutKeyword(w: string)
      modifies this
      ensures buffer == if isUDP then old(buffer) else old(buffer) + (w + " ")
    {
      if !isUDP {
        buffer := buffer + (w + " ");
      }
    }

    method VisitAuth(d: Data)
      requires d.AuthMessage?
      modifies this
      ensures buffer == old(buffer) + Payload(isUDP, d)
    {
      ghost var start := buffer;
      PutNumber(d.messageId);
      PutText(d.username);
      PutKeyword("AS");
      PutText(d.displayName);
      PutKeyword("USING");
      PutText(d.secret);
      if isUDP {
        var id, name := UdpCodec.Put16(d.messageId), UdpCodec.PutString(d.displayName);
        Associate(start, id, UdpCodec.PutString(d.username));
        Associate(start, id + UdpCodec.PutString(d.username), name);
        Associate(start, id + UdpCodec.PutString(d.username) + name, UdpCodec.PutString(d.secret));
      } else {
        WordAppended(start, [], d.username, [d.username]);
        WordAppended(start, [d.username], "AS", [d.username, "AS"]);
        WordAppended(start, [d.username, "AS"], d.displayName, [d.username, "AS", d.displayName]);
        WordAppended(start, [d.username, "AS", d.displayName], "USING", [d.username, "AS", d.displayName, "USING"]);
        WordAppended(start, [d.username, "AS", d.displayName, "USING"], d.secret,
                     [d.username, "AS", d.displayName, "USING", d.secret]);
      }
    }

    method VisitJoin(d: Data)
      requires d.JoinMessage?
      modifies this
      ensures buffer == old(buffer) + Payload(isUDP, d)
    {
      ghost var start := buffer;
      PutNumber(d.messageId);
      PutText(d.channelId);
      PutKeyword("AS");
      PutText(d.displayName);
      if isUDP {
        Associate(start, UdpCodec.Put16(d.messageId), UdpCodec.PutString(d.channelId));
        Associate(start, UdpCodec.Put16(d.messageId) + UdpCodec.PutString(d.channelId),
                  UdpCodec.PutString(d.displayName));
      } else {
        WordAppended(start, [], d.channelId, [d.channelId]);
        WordAppended(start, [d.channelId], "AS", [d.channelId, "AS"]);
        WordAppended(start, [d.channelId, "AS"], d.displayName, [d.channelId, "AS", d.displayName]);
      }
    }

    /** The visits of ErrorMessage and of TextMessage, which are alike. */
    method VisitText(d: Data)
      requires d.ErrorMessage? || d.TextMessage?
      modifies this
      ensures buffer == old(buffer) + Payload(isUDP, d)
    {
      ghost var start := buffer;
      PutKeyword("FROM");
      PutNumber(d.messageId);
      PutText(d.displayName);
      PutKeyword("IS");
      PutText(d.content);
      if isUDP {
        var id, name := UdpCodec.Put16(d.messageId), UdpCodec.PutString(d.displayName);
        Associate(start, id, name);
        Associate(start, id + name, UdpCodec.PutString(d.content));
      } else {
        WordAppended(start, [], "FROM", ["FROM"]);
        WordAppended(start, ["FROM"], d.displayName, ["FROM", d.displayName]);
        WordAppended(start, ["FROM", d.displayName], "IS", ["FROM", d.displayName, "IS"]);
        WordAppended(start, ["FROM", d.displayName, "IS"], d.content, ["FROM", d.displayName, "IS", d.content]);
      }
    }

    method VisitReply(d: Data)
      requires d.ReplyMessage?
      modifies this
      ensures buffer == old(buffer) + Payload(isUDP, d)
    {
      ghost var start := buffer;
      var answer := if d.result then "OK" else "NOK";
      PutNumber(d.messageId);
      PutNumber(if d.result then 1 else 0);
      PutKeyword(answer);
      PutKeyword("IS");
      PutNumber(d.refMessageId);
      PutText(d.content);
      if isUDP {
        var id, ref := UdpCodec.Put16(d.messageId), UdpCodec.Put16(d.refMessageId);
        var result := UdpCodec.Put16(if d.result then 1 else 0);
        Associate(start, id, result);
        Associate(start, id + result, ref);
        Associate(start, id + result + ref, UdpCodec.PutString(d.content));
      } else {
        WordAppended(start, [], answer, [answer]);
        WordAppended(start, [answer], "IS", [answer, "IS"]);
        WordAppended(start, [answer, "IS"], d.content, [answer, "IS", d.content]);
      }
    }

    /** `std::visit(*this, mail.data)` */
    method Visit(d: Data)
      modifies this
      ensures buffer == old(buffer) + Payload(isUDP, d)
    {
      match d {
        case ConfirmMessage(ref) => PutNumber(ref);
        case AuthMessage(_, _, _, _) => VisitAuth(d);
        case JoinMessage(_, _, _) => VisitJoin(d);
        case ErrorMessage(_, _, _) => VisitText(d);
        case ByeMessage(id) => PutNumber(id);
        case TextMessage(_, _, _, _) => VisitText(d);
        case ReplyMessage(_, _, _, _) => VisitReply(d);
        case UnknownMessage(id) => PutNumber(id);
      }
    }

    /** Starts afresh, so that a serializer can be used again. */
    method Serialize(m: Mail) returns (bytes: string)
      modifies this
      ensures bytes == buffer == Encoding(isUDP, m)
    {
      buffer := "";
      if isUDP {
        buffer := buffer + [UdpCodec.Code(m.kind) as char];
      } else {
        buffer := buffer + (TcpCodec.Header(m.kind) + " ");
      }
      Visit(m.data);
      if !isUDP {
        assert ([TcpCodec.Header(m.kind)] + TcpCodec.Fields(m.data))[1..] == TcpCodec.Fields(m.data);
        buffer := buffer[..|buffer| - 1];
        buffer := buffer + "\r\n";
      }
      bytes := buffer;
    }
  }
}
