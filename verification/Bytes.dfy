/** From bytes to the protocol: what becomes of ids between two machines, given the
    signedness of `char` on the reading side. */
module Bytes {
  import opened Mails
  import opened Words
  import opened MailBoxes
  import opened Listeners
  import opened Network
  import UdpCodec

  /** The datagram that confirms a given id. */
  function ConfirmDatagram(id: int): string {
    UdpCodec.Encode(Confirmation(id))
  }

  /** The CONFIRM for the outstanding mail is accepted if and only if its id survives
      `readUInt16`; with a signed `char` mail number 128 is the first that never is. */
  lemma ConfirmAcceptedIff(c: Client, signedChar: bool, rest: string, unset: Kind)
    requires c.box.protocol == UDP && !c.link.receivedConfirm && IsWord16(c.link.refMsgId)
    ensures var id := c.link.refMsgId;
            var r := Handle(c, signedChar, SocketReady(ConfirmDatagram(id) + rest, unset));
            && r.Ok?
            && (r.value.link.receivedConfirm <==> !signedChar || id % 256 < 128 || id >= 0xFF00)
  {
    var id := c.link.refMsgId;
    UdpCodec.RoundTrip(signedChar, Confirmation(id), rest);
    ReadBackFixes(signedChar, id);
    ReceiveFromSocket(c.box, signedChar, ConfirmDatagram(id) + rest);
  }

  /** With an unsigned `char`, what the peer decodes from a mail's datagram is the mail,
      number included. */
  lemma PeerDecodes(m: Mail, rest: string)
    requires UdpCodec.Sendable(m) && IsWord16(MessageId(m))
    ensures var r := UdpCodec.Decode(false, UdpCodec.Encode(m) + rest).outcome;
            r.Parsed? && r.mail.kind == m.kind && MessageId(r.mail) == MessageId(m)
  {
    UdpCodec.RoundTrip(false, m, rest);
    UdpCodec.WireFieldsExact(m);
  }

  /** The datagram of a message of the server. */
  function ServerDatagram(m: Mail): string
    requires FromSocket(UDP, m)
  {
    if m.kind == REPLY
    then UdpCodec.EncodeServerReply(m.data.messageId, if m.data.result then 1 as char else '\0',
                                    m.data.refMessageId, m.data.content)
    else UdpCodec.Encode(m)
  }

  /** The ids of `Network.AsRead` are those that the client reads from the bytes: every
      message, sent as its datagram, arrives as that mail. */
  lemma ReadFromBytes(signedChar: bool, m: Mail, rest: string)
    requires FromSocket(UDP, m)
    ensures UdpCodec.Decode(signedChar, ServerDatagram(m) + rest).outcome == Parsed(AsRead(signedChar, m))
  {
    match m.kind
    case REPLY =>
      var ReplyMessage(id, result, ref, content) := m.data;
      UdpCodec.ServerReplyRoundTrip(signedChar, id, if result then 1 as char else '\0', ref, content, rest);
    case UNKNOWN => UdpCodec.HeaderOf(signedChar, m, rest);
    case _ => UdpCodec.RoundTrip(signedChar, m, rest);
  }

  ghost predicate ReadInOrder(signedChar: bool, n: nat) {
    forall i, j :: 0 <= i < j < n ==> ReadBack(signedChar, i) < ReadBack(signedChar, j)
  }

  /** The numbers 0, 1, ..., n-1 of a server's messages are read in increasing order, as
      the test against `srvMsgId` expects, if and only if `char` is unsigned or there are
      no more than 256 of them. */
  lemma NumbersReadInOrderIff(signedChar: bool, n: nat)
    requires n <= 0x1_0000
    ensures ReadInOrder(signedChar, n) <==> !signedChar || n <= 256
  {
    if signedChar && n > 256 {
      assert ReadBack(true, 255) == 0xFFFF && ReadBack(true, 256) == 256;
    }
  }
}
