/** The binary format of the UDP variant: what `MailSerializer` writes
    (src/headers/mail-box.h:671-844) and what `writeUDPMail` reads
    (src/headers/mail-box.h:399-488). A buffer is a string of `char`. */
module UdpCodec {
  import opened Mails
  import opened Words

  // ------------------------------------------------------------ writing

  function Code(kind: Kind): (c: int)
    ensures 0 <= c < 256
  {
    match kind
    case CONFIRM => 0x00
    case REPLY => 0x01
    case AUTH => 0x02
    case JOIN => 0x03
    case MSG => 0x04
    case UNKNOWN => 0x05
    case ERR => 0xFE
    case BYE => 0xFF
  }

  /** Big-endian, after the conversion to `uint16_t`. */
  function Put16(v: int): string {
    [Hi(v), Lo(v)]
  }

  /** A NUL-terminated string. */
  function PutString(s: string): string {
    s + ['\0']
  }

  function PutData(d: Data): string {
    match d
    case ConfirmMessage(ref) => Put16(ref)
    case AuthMessage(id, u, n, s) => Put16(id) + PutString(u) + PutString(n) + PutString(s)
    case JoinMessage(id, c, n) => Put16(id) + PutString(c) + PutString(n)
    case ErrorMessage(id, n, c) => Put16(id) + PutString(n) + PutString(c)
    case ByeMessage(id) => Put16(id)
    case TextMessage(id, n, c, _) => Put16(id) + PutString(n) + PutString(c)
    case ReplyMessage(id, r, ref, c) => Put16(id) + Put16(if r then 1 else 0) + Put16(ref) + PutString(c)
    case UnknownMessage(id) => Put16(id)
  }

  function Encode(m: Mail): string {
    [Code(m.kind) as char] + PutData(m.data)
  }

  /** The REPLY layout the parser expects, with a one-byte result (tests/server.py:87). */
  function EncodeServerReply(id: int, flag: char, ref: int, content: string): string {
    [Code(REPLY) as char] + Put16(id) + [flag] + Put16(ref) + PutString(content)
  }

  // ------------------------------------------------------------ reading

  /** The receive buffer is zeroed before each datagram is stored in it. */
  function At(buffer: string, i: nat): char {
    if i < |buffer| then buffer[i] else '\0'
  }

  function Get16(signed: bool, buffer: string, at: nat): int {
    ReadWord(signed, At(buffer, at), At(buffer, at + 1))
  }

  /** The characters from `at` up to the next NUL. */
  function GetString(buffer: string, at: nat): string
    decreases |buffer| - at
  {
    if At(buffer, at) == '\0' then "" else [At(buffer, at)] + GetString(buffer, at + 1)
  }

  function PastString(buffer: string, at: nat): nat {
    at + |GetString(buffer, at)| + 1
  }

  /** What was read, and the position of the cursor afterwards. */
  datatype Reading = Reading(outcome: Parse, next: nat)

  function Checked(kind: Kind, d: Data, next: nat): Reading {
    Reading(if ValidData(d) then Parsed(Mail(kind, d, kind != CONFIRM, false)) else Threw, next)
  }

  function KindOf(code: int): Kind {
    match code
    case 0x00 => CONFIRM
    case 0x01 => REPLY
    case 0x02 => AUTH
    case 0x03 => JOIN
    case 0x04 => MSG
    case 0xFE => ERR
    case 0xFF => BYE
    case _ => UNKNOWN
  }

  /** Every first byte but the seven codes announces an unknown message. */
  lemma KindByCode(code: int, kind: Kind)
    ensures kind != UNKNOWN ==> (KindOf(code) == kind <==> code == Code(kind))
    ensures KindOf(code) == UNKNOWN <==> code !in {0x00, 0x01, 0x02, 0x03, 0x04, 0xFE, 0xFF}
  {
  }

  function Decode(signed: bool, buffer: string): Reading {
    var kind := KindOf(Octet(At(buffer, 0)));
    var id := Get16(signed, buffer, 1);
    match kind
    case CONFIRM => Checked(kind, ConfirmMessage(id), 3)
    case BYE => Checked(kind, ByeMessage(id), 3)
    case UNKNOWN => Checked(kind, UnknownMessage(id), 3)
    case REPLY =>
      Checked(kind, ReplyMessage(id, At(buffer, 3) != '\0', Get16(signed, buffer, 4), GetString(buffer, 6)),
              PastString(buffer, 6))
    case AUTH =>
      var p := PastString(buffer, 3);
      var q := PastString(buffer, p);
      Checked(kind, AuthMessage(id, GetString(buffer, 3), GetString(buffer, p), GetString(buffer, q)),
              PastString(buffer, q))
    case JOIN =>
      var p := PastString(buffer, 3);
      Checked(kind, JoinMessage(id, GetString(buffer, 3), GetString(buffer, p)), PastString(buffer, p))
    case ERR =>
      var p := PastString(buffer, 3);
      Checked(kind, ErrorMessage(id, GetString(buffer, 3), GetString(buffer, p)), PastString(buffer, p))
    case MSG =>
      var p := PastString(buffer, 3);
      Checked(kind, TextMessage(id, GetString(buffer, 3), GetString(buffer, p), false), PastString(buffer, p))
  }

  /** Whatever arrives, an accepted datagram is a well-formed mail with 16-bit ids. */
  lemma DecodedFromSocket(signed: bool, buffer: string)
    ensures !Decode(signed, buffer).outcome.Rejected?
    ensures Decode(signed, buffer).outcome.Parsed? ==> FromSocket(UDP, Decode(signed, buffer).outcome.mail)
  {
    var kind := KindOf(Octet(At(buffer, 0)));
    assert Decode(signed, buffer).outcome.Parsed? ==> Matches(kind, Decode(signed, buffer).outcome.mail.data);
  }

  // ------------------------------------------------------------ round trips

  /** `piece` stands in the buffer at position `at`. */
  ghost predicate Holds(buffer: string, at: nat, piece: string) {
    at + |piece| <= |buffer| && buffer[at..at + |piece|] == piece
  }

  lemma HoldsParts(buffer: string, at: nat, a: string, b: string)
    requires Holds(buffer, at, a + b)
    ensures Holds(buffer, at, a) && Holds(buffer, at + |a|, b)
  {
    var whole := buffer[at..at + |a + b|];
    assert buffer[at..at + |a|] == whole[..|a|] == a;
    assert buffer[at + |a|..at + |a| + |b|] == whole[|a|..] == b;
  }

  lemma WordHeld(signed: bool, buffer: string, at: nat, v: int)
    requires Holds(buffer, at, Put16(v))
    ensures Get16(signed, buffer, at) == ReadBack(signed, v)
  {
    assert buffer[at..at + 2][0] == Hi(v) && buffer[at..at + 2][1] == Lo(v);
    WordReadBack(signed, v);
  }

  lemma {:induction false} StringHeld(buffer: string, at: nat, s: string)
    requires NoNul(s) && Holds(buffer, at, PutString(s))
    ensures GetString(buffer, at) == s && PastString(buffer, at) == at + |PutString(s)|
    decreases |s|
  {
    assert buffer[at] == buffer[at..at + |s| + 1][0];
    if s != "" {
      assert PutString(s) == [s[0]] + PutString(s[1..]);
      HoldsParts(buffer, at, [s[0]], PutString(s[1..]));
      StringHeld(buffer, at + 1, s[1..]);
    }
  }

  /** The kinds whose UDP form the client's own parser understands. */
  predicate Sendable(m: Mail) {
    m.kind in {AUTH, JOIN, MSG, ERR, BYE, CONFIRM} && Matches(m.kind, m.data) && ValidData(m.data)
  }

  /** The mail the other side makes of m: ids go through `readUInt16`; the `ToSend` flag
      and the queueing flags are local and are set afresh. */
  function Received(signed: bool, m: Mail): Mail {
    var d := match m.data
             case ConfirmMessage(ref) => ConfirmMessage(ReadBack(signed, ref))
             case TextMessage(id, n, c, _) => TextMessage(ReadBack(signed, id), n, c, false)
             case _ => SetId(m.data, ReadBack(signed, m.data.messageId));
    Mail(m.kind, d, m.kind != CONFIRM, false)
  }

  lemma TwoStringsHeld(buffer: string, at: nat, a: string, b: string)
    requires NoNul(a) && NoNul(b) && Holds(buffer, at, PutString(a) + PutString(b))
    ensures GetString(buffer, at) == a
    ensures GetString(buffer, PastString(buffer, at)) == b
    ensures PastString(buffer, PastString(buffer, at)) == at + |PutString(a)| + |PutString(b)|
  {
    HoldsParts(buffer, at, PutString(a), PutString(b));
    StringHeld(buffer, at, a);
    StringHeld(buffer, at + |PutString(a)|, b);
  }

  lemma HeaderHeld(signed: bool, buffer: string, kind: Kind, id: int, tail: string)
    requires Holds(buffer, 0, [Code(kind) as char] + (Put16(id) + tail))
    ensures KindOf(Octet(At(buffer, 0))) == kind
    ensures Get16(signed, buffer, 1) == ReadBack(signed, id)
    ensures Holds(buffer, 3, tail)
  {
    HoldsParts(buffer, 0, [Code(kind) as char], Put16(id) + tail);
    assert buffer[0] == buffer[0..1][0];
    HoldsParts(buffer, 1, Put16(id), tail);
    WordHeld(signed, buffer, 1, id);
  }

  /** The payload without its leading id. */
  function PutFields(d: Data): string {
    match d
    case AuthMessage(_, u, n, s) => PutString(u) + (PutString(n) + PutString(s))
    case JoinMessage(_, c, n) => PutString(c) + PutString(n)
    case ErrorMessage(_, n, c) => PutString(n) + PutString(c)
    case TextMessage(_, n, c, _) => PutString(n) + PutString(c)
    case ReplyMessage(_, r, ref, c) => Put16(if r then 1 else 0) + (Put16(ref) + PutString(c))
    case _ => ""
  }

  lemma EncodeShape(m: Mail)
    ensures Encode(m) == [Code(m.kind) as char] + (Put16(MessageId(m)) + PutFields(m.data))
  {
  }

  lemma HeaderOf(signed: bool, m: Mail, rest: string)
    ensures var buffer := Encode(m) + rest;
            && KindOf(Octet(At(buffer, 0))) == m.kind
            && Get16(signed, buffer, 1) == ReadBack(signed, MessageId(m))
            && Holds(buffer, 3, PutFields(m.data))
  {
    EncodeShape(m);
    assert Holds(Encode(m) + rest, 0, Encode(m));
    HeaderHeld(signed, Encode(m) + rest, m.kind, MessageId(m), PutFields(m.data));
  }

  lemma RoundTripAuth(signed: bool, m: Mail, rest: string)
    requires Sendable(m) && m.kind == AUTH
    ensures Decode(signed, Encode(m) + rest) == Reading(Parsed(Received(signed, m)), |Encode(m)|)
  {
    var buffer := Encode(m) + rest;
    var AuthMessage(_, u, n, s) := m.data;
    HeaderOf(signed, m, rest);
    HoldsParts(buffer, 3, PutString(u), PutString(n) + PutString(s));
    StringHeld(buffer, 3, u);
    TwoStringsHeld(buffer, PastString(buffer, 3), n, s);
  }

  lemma RoundTripJoin(signed: bool, m: Mail, rest: string)
    requires Sendable(m) && m.kind == JOIN
    ensures Decode(signed, Encode(m) + rest) == Reading(Parsed(Received(signed, m)), |Encode(m)|)
  {
    HeaderOf(signed, m, rest);
    TwoStringsHeld(Encode(m) + rest, 3, m.data.channelId, m.data.displayName);
  }

  lemma RoundTripText(signed: bool, m: Mail, rest: string)
    requires Sendable(m) && (m.kind == ERR || m.kind == MSG)
    ensures Decode(signed, Encode(m) + rest) == Reading(Parsed(Received(signed, m)), |Encode(m)|)
  {
    HeaderOf(signed, m, rest);
    TwoStringsHeld(Encode(m) + rest, 3, m.data.displayName, m.data.content);
  }

  /** Round trip: from the encoding of m, whatever follows it in the buffer, the parser
      recovers m and stops exactly at its end. */
  lemma RoundTrip(signed: bool, m: Mail, rest: string)
    requires Sendable(m)
    ensures Decode(signed, Encode(m) + rest) == Reading(Parsed(Received(signed, m)), |Encode(m)|)
  {
    match m.kind
    case AUTH => RoundTripAuth(signed, m, rest);
    case JOIN => RoundTripJoin(signed, m, rest);
    case ERR => RoundTripText(signed, m, rest);
    case MSG => RoundTripText(signed, m, rest);
    case _ => HeaderOf(signed, m, rest);
  }

  /** Two mails that agree on everything that is put on the wire. */
  predicate SameWire(a: Mail, b: Mail) {
    Received(false, a) == Received(false, b)
  }

  /** No encoding is a proper prefix of another, so a datagram has one reading. */
  lemma PrefixFree(a: Mail, b: Mail, x: string, y: string)
    requires Sendable(a) && Sendable(b)
    requires Encode(a) + x == Encode(b) + y
    ensures SameWire(a, b) && Encode(a) == Encode(b) && x == y
  {
    RoundTrip(false, a, x);
    RoundTrip(false, b, y);
    assert Encode(a) == (Encode(a) + x)[..|Encode(a)|];
    assert x == (Encode(a) + x)[|Encode(a)|..];
  }

  /** With ids that fit 16 bits nothing is lost between machines with unsigned `char`. */
  lemma WireFieldsExact(m: Mail)
    requires Sendable(m) && IsWord16(MessageId(m))
    ensures Received(false, m).kind == m.kind && MessageId(Received(false, m)) == MessageId(m)
    ensures Received(false, m).data == if m.data.TextMessage? then m.data.(toSend := false) else m.data
  {
  }

  /** The receiver reads back the very id of m if and only if `readUInt16` can. */
  lemma IdSurvives(signed: bool, m: Mail, rest: string)
    requires Sendable(m) && IsWord16(MessageId(m))
    ensures Decode(signed, Encode(m) + rest).outcome.Parsed?
    ensures MessageId(Decode(signed, Encode(m) + rest).outcome.mail) == MessageId(m)
            <==> (!signed || MessageId(m) % 256 < 128 || MessageId(m) >= 0xFF00)
  {
    RoundTrip(signed, m, rest);
    WordReadBack(signed, MessageId(m));
    ReadBackFixes(signed, MessageId(m));
  }

  /** The shortest and the longest datagram of each kind. */
  function Shortest(kind: Kind): nat {
    match kind
    case AUTH => 9
    case JOIN => 7
    case MSG => 7
    case ERR => 7
    case _ => 3
  }

  function Longest(kind: Kind): nat {
    match kind
    case AUTH => 174
    case JOIN => 45
    case MSG => 1425
    case ERR => 1425
    case _ => 3
  }

  /** The validators keep every datagram between these bounds. */
  lemma EncodeBound(m: Mail)
    requires Sendable(m)
    ensures Shortest(m.kind) <= |Encode(m)| <= Longest(m.kind)
  {
  }

  function Letters(n: nat): string {
    seq(n, _ => 'a')
  }

  /** A payload whose fields have these lengths. */
  function OfLengths(kind: Kind, short: nat, secret: nat, content: nat): Data {
    match kind
    case AUTH => AuthMessage(0, Letters(short), Letters(short), Letters(secret))
    case JOIN => JoinMessage(0, Letters(short), Letters(short))
    case MSG => TextMessage(0, Letters(short), Letters(content), false)
    case ERR => ErrorMessage(0, Letters(short), Letters(content))
    case BYE => ByeMessage(0)
    case _ => ConfirmMessage(0)
  }

  /** Both bounds are reached. */
  lemma EncodeBoundTight(kind: Kind)
    requires kind in {AUTH, JOIN, MSG, ERR, BYE, CONFIRM}
    ensures exists m :: Sendable(m) && m.kind == kind && |Encode(m)| == Shortest(kind)
    ensures exists m :: Sendable(m) && m.kind == kind && |Encode(m)| == Longest(kind)
  {
    var short := Mail(kind, OfLengths(kind, 1, 1, 1), true, false);
    var long := Mail(kind, OfLengths(kind, 20, 128, 1400), true, false);
    assert Sendable(short) && |Encode(short)| == Shortest(kind);
    assert Sendable(long) && |Encode(long)| == Longest(kind);
  }

  lemma ServerReplyHeader(signed: bool, id: int, flag: char, ref: int, content: string, rest: string)
    ensures var buffer := EncodeServerReply(id, flag, ref, content) + rest;
            && KindOf(Octet(At(buffer, 0))) == REPLY
            && Get16(signed, buffer, 1) == ReadBack(signed, id)
            && Holds(buffer, 3, [flag] + (Put16(ref) + PutString(content)))
  {
    var e := EncodeServerReply(id, flag, ref, content);
    var tail := [flag] + (Put16(ref) + PutString(content));
    assert e == [Code(REPLY) as char] + (Put16(id) + tail);
    assert Holds(e + rest, 0, e);
    HeaderHeld(signed, e + rest, REPLY, id, tail);
  }

  /** A REPLY in the layout of the test server is read back field by field; any result byte
      but NUL is a success. */
  lemma ServerReplyRoundTrip(signed: bool, id: int, flag: char, ref: int, content: string, rest: string)
    requires ValidContent(content)
    ensures var e := EncodeServerReply(id, flag, ref, content);
            var d := ReplyMessage(ReadBack(signed, id), flag != '\0', ReadBack(signed, ref), content);
            Decode(signed, e + rest) == Reading(Parsed(Mail(REPLY, d, true, false)), |e|)
  {
    var buffer := EncodeServerReply(id, flag, ref, content) + rest;
    ServerReplyHeader(signed, id, flag, ref, content, rest);
    HoldsParts(buffer, 3, [flag], Put16(ref) + PutString(content));
    assert buffer[3] == buffer[3..4][0];
    HoldsParts(buffer, 4, Put16(ref), PutString(content));
    WordHeld(signed, buffer, 4, ref);
    StringHeld(buffer, 6, content);
  }

  lemma OwnReplyBytes(m: Mail, rest: string)
    requires m.kind == REPLY && m.data.ReplyMessage? && ValidContent(m.data.content)
    ensures var buffer := Encode(m) + rest;
            && At(buffer, 3) == '\0'
            && GetString(buffer, 7) == m.data.content
  {
    var buffer := Encode(m) + rest;
    var result, ref := (if m.data.result then 1 else 0), m.data.refMessageId;
    HeaderOf(false, m, rest);
    HoldsParts(buffer, 3, Put16(result), Put16(ref) + PutString(m.data.content));
    assert buffer[3] == buffer[3..5][0] == '\0';
    HoldsParts(buffer, 5, Put16(ref), PutString(m.data.content));
    StringHeld(buffer, 7, m.data.content);
  }

  /** The serializer's own REPLY carries a two-byte result, which its parser reads as a
      failure followed by a shifted reference id: no such REPLY is ever read back. */
  lemma OwnReplyNeverRoundTrips(signed: bool, m: Mail, rest: string)
    requires m.kind == REPLY && m.data.ReplyMessage? && ValidData(m.data)
    ensures var p := Decode(signed, Encode(m) + rest).outcome;
            p.Parsed? ==>
              && p.mail.data.ReplyMessage?
              && !p.mail.data.result
              && |p.mail.data.content| == |m.data.content| + 1
  {
    OwnReplyBytes(m, rest);
    HeaderOf(signed, m, rest);
  }
}
