/** The messages of the client: `Mail`, its variant payload, the field validators
    and the identifier accessors (src/headers/mail-box.h:18-229). */
module Mails {

  /** Which transport the client was started with. */
  datatype Protocol = TCP | UDP

  datatype Kind = AUTH | JOIN | ERR | BYE | MSG | REPLY | CONFIRM | UNKNOWN

  /** The variant payload. Identifiers are mathematical integers; the places where the
      source keeps only 16 bits reduce them explicitly. */
  datatype Data =
    | ConfirmMessage(refMessageId: int)
    | AuthMessage(messageId: int, username: string, displayName: string, secret: string)
    | JoinMessage(messageId: int, channelId: string, displayName: string)
    | ErrorMessage(messageId: int, displayName: string, content: string)
    | ByeMessage(messageId: int)
    | TextMessage(messageId: int, displayName: string, content: string, toSend: bool)
    | ReplyMessage(messageId: int, result: bool, refMessageId: int, content: string)
    | UnknownMessage(messageId: int)

  /** `kind` and `data` are separate fields of the source, and need not agree:
      a BYE read over TCP keeps the default (CONFIRM) payload. */
  datatype Mail = Mail(kind: Kind, data: Data, addToMailQueue: bool, sigint: bool)

  // ------------------------------------------------------------ validators

  predicate Alphanumeric(c: char) {
    'A' <= c <= 'Z' || 'a' <= c <= 'z' || '0' <= c <= '9'
  }

  predicate Printable(c: char) {
    ' ' <= c <= '~'
  }

  predicate Visible(c: char) {
    '!' <= c <= '~'
  }

  predicate NoNul(s: string) {
    forall i :: 0 <= i < |s| ==> s[i] != '\0'
  }

  predicate ValidUsername(s: string) {
    1 <= |s| <= 20 && forall i :: 0 <= i < |s| ==> Alphanumeric(s[i]) || s[i] == '-'
  }

  predicate ValidChannelId(s: string) {
    1 <= |s| <= 20 && forall i :: 0 <= i < |s| ==> Alphanumeric(s[i]) || s[i] == '-' || s[i] == '.'
  }

  predicate ValidSecret(s: string) {
    1 <= |s| <= 128 && forall i :: 0 <= i < |s| ==> Alphanumeric(s[i]) || s[i] == '-'
  }

  predicate ValidDisplayName(s: string) {
    1 <= |s| <= 20 && forall i :: 0 <= i < |s| ==> Visible(s[i])
  }

  predicate ValidContent(s: string) {
    1 <= |s| <= 1400 && forall i :: 0 <= i < |s| ==> Printable(s[i])
  }

  /** What the payload constructors check; they throw when it does not hold. */
  predicate ValidData(d: Data) {
    match d
    case AuthMessage(_, u, n, s) => ValidUsername(u) && ValidDisplayName(n) && ValidSecret(s)
    case JoinMessage(_, c, n) => ValidChannelId(c) && ValidDisplayName(n)
    case ErrorMessage(_, n, c) => ValidDisplayName(n) && ValidContent(c)
    case TextMessage(_, n, c, _) => ValidDisplayName(n) && ValidContent(c)
    case ReplyMessage(_, _, _, c) => ValidContent(c)
    case _ => true
  }

  /** The characters each field of each payload allows, by their codes. */
  lemma FieldCharacters(c: char)
    ensures var k := c as int;
            var letter := 48 <= k <= 57 || 65 <= k <= 90 || 97 <= k <= 122;
            && (ValidData(AuthMessage(0, [c], "a", "a")) <==> letter || k == 45)
            && (ValidData(AuthMessage(0, "a", [c], "a")) <==> 0x21 <= k <= 0x7E)
            && (ValidData(AuthMessage(0, "a", "a", [c])) <==> letter || k == 45)
            && (ValidData(JoinMessage(0, [c], "a")) <==> letter || k == 45 || k == 46)
            && (ValidData(JoinMessage(0, "a", [c])) <==> 0x21 <= k <= 0x7E)
            && (ValidData(ErrorMessage(0, [c], "a")) <==> 0x21 <= k <= 0x7E)
            && (ValidData(ErrorMessage(0, "a", [c])) <==> 0x20 <= k <= 0x7E)
            && (ValidData(TextMessage(0, [c], "a", true)) <==> 0x21 <= k <= 0x7E)
            && (ValidData(TextMessage(0, "a", [c], true)) <==> 0x20 <= k <= 0x7E)
            && (ValidData(ReplyMessage(0, true, 0, [c])) <==> 0x20 <= k <= 0x7E)
  {
    assert [c][0] == c;
  }

  /** No field may be empty. */
  lemma NoFieldEmpty(d: Data)
    requires ValidData(d)
    ensures d.AuthMessage? ==> d.username != "" && d.displayName != "" && d.secret != ""
    ensures d.JoinMessage? ==> d.channelId != "" && d.displayName != ""
    ensures d.ErrorMessage? || d.TextMessage? ==> d.displayName != "" && d.content != ""
    ensures d.ReplyMessage? ==> d.content != ""
  {
  }

  /** The fields nest: a user name is a channel name, that a display name, that a content. */
  lemma FieldsNest(s: string)
    ensures ValidUsername(s) ==> ValidChannelId(s) && ValidSecret(s)
    ensures ValidChannelId(s) ==> ValidDisplayName(s)
    ensures ValidDisplayName(s) ==> ValidContent(s)
    ensures ValidSecret(s) && |s| <= 20 ==> ValidUsername(s)
  {
  }

  /** The payload is the alternative that belongs to the kind. */
  predicate Matches(kind: Kind, d: Data) {
    match kind
    case AUTH => d.AuthMessage?
    case JOIN => d.JoinMessage?
    case ERR => d.ErrorMessage?
    case BYE => d.ByeMessage?
    case MSG => d.TextMessage?
    case REPLY => d.ReplyMessage?
    case CONFIRM => d.ConfirmMessage?
    case UNKNOWN => d.UnknownMessage?
  }

  /** The payload is the alternative that `std::get` asks for, or that is sent on. */
  predicate Shaped(m: Mail) {
    m.kind in {AUTH, JOIN, ERR, MSG, REPLY} ==> Matches(m.kind, m.data)
  }

  /** What the state machine can be given. */
  predicate Handled(m: Mail) {
    m.addToMailQueue && Shaped(m) && ValidData(m.data)
  }

  /** What may stand in the incoming queue. */
  predicate Queued(m: Mail) {
    Handled(m) && m.kind != CONFIRM
  }

  // ------------------------------------------------------------ identifiers

  /** `getMessageID`: a CONFIRM answers with the id it refers to. */
  function MessageId(m: Mail): int {
    if m.data.ConfirmMessage? then m.data.refMessageId else m.data.messageId
  }

  /** `getRefMessageID`: -1 when the payload has none. */
  function RefMessageId(m: Mail): int {
    if m.data.ConfirmMessage? || m.data.ReplyMessage? then m.data.refMessageId else -1
  }

  /** A positive REPLY. */
  predicate IsSuccess(m: Mail) {
    m.kind == REPLY && m.data.ReplyMessage? && m.data.result
  }

  /** The payloads to which `sendMail` gives a number. */
  predicate Numbered(d: Data) {
    !d.ConfirmMessage? && !d.UnknownMessage?
  }

  /** The same alternative, and the same in every field but the number. */
  predicate SameButNumber(d: Data, e: Data) {
    match d
    case ConfirmMessage(ref) => e.ConfirmMessage? && e.refMessageId == ref
    case AuthMessage(_, u, n, s) => e.AuthMessage? && e.username == u && e.displayName == n && e.secret == s
    case JoinMessage(_, c, n) => e.JoinMessage? && e.channelId == c && e.displayName == n
    case ErrorMessage(_, n, c) => e.ErrorMessage? && e.displayName == n && e.content == c
    case ByeMessage(_) => e.ByeMessage?
    case TextMessage(_, n, c, t) => e.TextMessage? && e.displayName == n && e.content == c && e.toSend == t
    case ReplyMessage(_, r, ref, c) => e.ReplyMessage? && e.result == r && e.refMessageId == ref && e.content == c
    case UnknownMessage(_) => e.UnknownMessage?
  }

  /** The same payload under another number; a CONFIRM has none of its own. */
  function SetId(d: Data, id: int): (r: Data)
    ensures SameButNumber(d, r)
    ensures !d.ConfirmMessage? ==> !r.ConfirmMessage? && r.messageId == id
  {
    match d
    case ConfirmMessage(_) => d
    case AuthMessage(_, u, n, s) => AuthMessage(id, u, n, s)
    case JoinMessage(_, c, n) => JoinMessage(id, c, n)
    case ErrorMessage(_, n, c) => ErrorMessage(id, n, c)
    case ByeMessage(_) => ByeMessage(id)
    case TextMessage(_, n, c, t) => TextMessage(id, n, c, t)
    case ReplyMessage(_, r, ref, c) => ReplyMessage(id, r, ref, c)
    case UnknownMessage(_) => UnknownMessage(id)
  }

  predicate IsWord16(v: int) {
    0 <= v < 0x1_0000
  }

  function Confirmation(id: int): Mail {
    Mail(CONFIRM, ConfirmMessage(id), true, false)
  }

  // ------------------------------------------------------------ what a parser delivers

  /** The outcome of reading a message: a mail, the exception of a validator, or `false`. */
  datatype Parse = Parsed(mail: Mail) | Threw | Rejected

  /** Every mail that `writeUDPMail` (src/headers/mail-box.h:399-488) or a `writeTCPMail`
      (src/headers/mail-box.h:490-618) that succeeds can produce. */
  predicate FromSocket(protocol: Protocol, m: Mail) {
    && !m.sigint
    && ValidData(m.data)
    && (m.data.TextMessage? ==> !m.data.toSend)
    && match protocol
       case UDP =>
         && Matches(m.kind, m.data)
         && IsWord16(MessageId(m))
         && (m.data.ReplyMessage? ==> IsWord16(m.data.refMessageId))
         && (m.addToMailQueue <==> m.kind != CONFIRM)
       case TCP =>
         && m.kind != CONFIRM
         && m.addToMailQueue
         && (if m.kind == BYE || m.kind == UNKNOWN then m.data == ConfirmMessage(0) else Matches(m.kind, m.data))
         && (m.data.ReplyMessage? ==> m.data.refMessageId == -1)
  }
}
