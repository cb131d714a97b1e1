/** The text format of the TCP variant: what `MailSerializer` writes
    (src/headers/mail-box.h:671-844) and what `writeTCPMail` reads
    (src/headers/mail-box.h:490-618). */
module TcpCodec {
  import opened Mails
  import opened Streams

  // ------------------------------------------------------------ writing

  function Header(kind: Kind): string {
    match kind
    case CONFIRM => "CONFIRM"
    case AUTH => "AUTH"
    case JOIN => "JOIN"
    case ERR => "ERR"
    case BYE => "BYE"
    case MSG => "MSG"
    case REPLY => "REPLY"
    case UNKNOWN => "ERR"
  }

  /** The words of the line after the header; numbers are not written. */
  function Fields(d: Data): seq<string> {
    match d
    case AuthMessage(_, u, n, s) => [u, "AS", n, "USING", s]
    case JoinMessage(_, c, n) => [c, "AS", n]
    case ErrorMessage(_, n, c) => ["FROM", n, "IS", c]
    case TextMessage(_, n, c, _) => ["FROM", n, "IS", c]
    case ReplyMessage(_, r, _, c) => [if r then "OK" else "NOK", "IS", c]
    case _ => []
  }

  /** Every word followed by one space. */
  function Trailed(words: seq<string>): (r: string)
    ensures words != [] ==> r != ""
  {
    if words == [] then "" else words[0] + " " + Trailed(words[1..])
  }

  /** The last space is replaced by the line end. */
  function Encode(m: Mail): string {
    var text := Trailed([Header(m.kind)] + Fields(m.data));
    text[..|text| - 1] + "\r\n"
  }

  // ------------------------------------------------------------ reading

  /** A `char*` ends at its first NUL. */
  function CString(buffer: string): string {
    if buffer == "" || buffer[0] == '\0' then "" else [buffer[0]] + CString(buffer[1..])
  }

  /** Drop a final carriage return, then one leading space. */
  function Content(line: string): string {
    var l := if line != "" && line[|line| - 1] == '\r' then line[..|line| - 1] else line;
    if l != "" && l[0] == ' ' then l[1..] else l
  }

  /** Validation comes first, then the check of the fixed words. */
  function Checked(kind: Kind, d: Data, wellFormed: bool): Parse {
    if !ValidData(d) then Threw
    else if !wellFormed then Rejected
    else Parsed(Mail(kind, d, true, false))
  }

  /** The reading of a line from its first words; c2 and c3 are the contents that follow
      the second and the third word after the kind. */
  function Interpret(sequence: int, kind: string, w1: string, w2: string, w3: string, w4: string, w5: string,
                     c2: string, c3: string): Parse
  {
    if kind == "BYE" then Parsed(Mail(BYE, ConfirmMessage(0), true, false))
    else if kind == "ERR" then Checked(ERR, ErrorMessage(sequence, w2, c3), w1 == "FROM" && w3 == "IS")
    else if kind == "REPLY" then
      Checked(REPLY, ReplyMessage(sequence, w1 == "OK", -1, c2), (w1 == "OK" || w1 == "NOK") && w2 == "IS")
    else if kind == "AUTH" then Checked(AUTH, AuthMessage(sequence, w1, w5, w3), w2 == "AS" && w4 == "USING")
    else if kind == "JOIN" then Checked(JOIN, JoinMessage(sequence, w1, w3), w2 == "AS")
    else if kind == "MSG" then Checked(MSG, TextMessage(sequence, w2, c3, false), w1 == "FROM" && w3 == "IS")
    else Parsed(Mail(UNKNOWN, ConfirmMessage(0), true, false))
  }

  lemma InterpretedFromSocket(sequence: int, kind: string, w1: string, w2: string, w3: string, w4: string, w5: string,
                              c2: string, c3: string)
    ensures var p := Interpret(sequence, kind, w1, w2, w3, w4, w5, c2, c3);
            p.Parsed? ==> FromSocket(TCP, p.mail)
  {
  }

  function Decode(sequence: int, buffer: string): Parse {
    var text := CString(buffer);
    var r0 := AfterToken(text);
    var r1 := AfterToken(r0);
    var r2 := AfterToken(r1);
    var r3 := AfterToken(r2);
    var r4 := AfterToken(r3);
    Interpret(sequence, Token(text), Token(r0), Token(r1), Token(r2), Token(r3), Token(r4),
              Content(LineOf(r2)), Content(LineOf(r3)))
  }

  /** Whatever arrives, an accepted line is a well-formed mail. */
  lemma DecodedFromSocket(sequence: int, buffer: string)
    ensures Decode(sequence, buffer).Parsed? ==> FromSocket(TCP, Decode(sequence, buffer).mail)
  {
    var text := CString(buffer);
    var r0 := AfterToken(text);
    var r1 := AfterToken(r0);
    var r2 := AfterToken(r1);
    var r3 := AfterToken(r2);
    InterpretedFromSocket(sequence, Token(text), Token(r0), Token(r1), Token(r2), Token(r3), Token(AfterToken(r3)),
                          Content(LineOf(r2)), Content(LineOf(r3)));
  }

  // ------------------------------------------------------------ the grammar of a line

  const KINDS: set<string> := {"BYE", "ERR", "REPLY", "AUTH", "JOIN", "MSG"}

  /** The text behind the first n words, and the word that follows. */
  function Behind(text: string, n: nat): string
    decreases n, text
  {
    if n == 0 then text else AfterToken(Behind(text, n - 1))
  }

  function WordAt(text: string, n: nat): string {
    Token(Behind(text, n))
  }

  /** The fixed words of each kind of line, by their positions. */
  predicate Fixed(kind: string, w1: string, w2: string, w3: string, w4: string) {
    match kind
    case "ERR" => w1 == "FROM" && w3 == "IS"
    case "MSG" => w1 == "FROM" && w3 == "IS"
    case "REPLY" => (w1 == "OK" || w1 == "NOK") && w2 == "IS"
    case "AUTH" => w2 == "AS" && w4 == "USING"
    case "JOIN" => w2 == "AS"
    case _ => true
  }

  /** The payload that words and contents spell, where `after2` and `after3` are the contents
      behind the second and the third word after the kind. */
  function Spelled(sequence: int, kind: string, w1: string, w2: string, w3: string, w5: string,
                   after2: string, after3: string): Data
  {
    match kind
    case "ERR" => ErrorMessage(sequence, w2, after3)
    case "MSG" => TextMessage(sequence, w2, after3, false)
    case "REPLY" => ReplyMessage(sequence, w1 == "OK", -1, after2)
    case "AUTH" => AuthMessage(sequence, w1, w5, w3)
    case "JOIN" => JoinMessage(sequence, w1, w3)
    case _ => ConfirmMessage(0)
  }

  predicate FixedWords(text: string) {
    Fixed(Token(text), WordAt(text, 1), WordAt(text, 2), WordAt(text, 3), WordAt(text, 4))
  }

  function FieldsOf(sequence: int, text: string): Data {
    Spelled(sequence, Token(text), WordAt(text, 1), WordAt(text, 2), WordAt(text, 3), WordAt(text, 5),
            Content(LineOf(Behind(text, 3))), Content(LineOf(Behind(text, 4))))
  }

  function KindOf(word: string): Kind {
    match word
    case "BYE" => BYE
    case "ERR" => ERR
    case "REPLY" => REPLY
    case "AUTH" => AUTH
    case "JOIN" => JOIN
    case "MSG" => MSG
    case _ => UNKNOWN
  }

  lemma BehindUpTo5(text: string)
    ensures Behind(text, 1) == AfterToken(text)
    ensures Behind(text, 2) == AfterToken(Behind(text, 1))
    ensures Behind(text, 3) == AfterToken(Behind(text, 2))
    ensures Behind(text, 4) == AfterToken(Behind(text, 3))
    ensures Behind(text, 5) == AfterToken(Behind(text, 4))
  {
  }

  lemma InterpretMeaning(sequence: int, kind: string, w1: string, w2: string, w3: string, w4: string, w5: string,
                         after2: string, after3: string)
    ensures var d := Spelled(sequence, kind, w1, w2, w3, w5, after2, after3);
            Interpret(sequence, kind, w1, w2, w3, w4, w5, after2, after3) ==
            if !ValidData(d) then Threw
            else if !Fixed(kind, w1, w2, w3, w4) then Rejected
            else Parsed(Mail(KindOf(kind), d, true, false))
  {
  }

  /** What a line means: an invalid field throws; else a fixed word out of place rejects it;
      else it is the mail that its words spell. */
  lemma DecodeMeaning(sequence: int, buffer: string)
    ensures var text := CString(buffer);
            Decode(sequence, buffer) ==
            if !ValidData(FieldsOf(sequence, text)) then Threw
            else if !FixedWords(text) then Rejected
            else Parsed(Mail(KindOf(Token(text)), FieldsOf(sequence, text), true, false))
  {
    var text := CString(buffer);
    BehindUpTo5(text);
    InterpretMeaning(sequence, Token(text), WordAt(text, 1), WordAt(text, 2), WordAt(text, 3), WordAt(text, 4),
                     WordAt(text, 5), Content(LineOf(Behind(text, 3))), Content(LineOf(Behind(text, 4))));
  }

  lemma DecodeUnknown(sequence: int, buffer: string)
    requires Token(CString(buffer)) !in KINDS
    ensures Decode(sequence, buffer) == Parsed(Mail(UNKNOWN, ConfirmMessage(0), true, false))
  {
    DecodeMeaning(sequence, buffer);
  }

  lemma InterpretAnyNumber(sequence: int, kind: string, w1: string, w2: string, w3: string, w4: string, w5: string,
                           c2: string, c3: string)
    ensures Interpret(sequence, kind, w1, w2, w3, w4, w5, c2, c3).Rejected?
            <==> Interpret(0, kind, w1, w2, w3, w4, w5, c2, c3).Rejected?
  {
  }

  /** A line whose fixed words are in place. */
  predicate WellFormed(buffer: string) {
    !Decode(0, buffer).Rejected?
  }

  /** The number given to a mail does not decide whether its line is accepted. */
  lemma WellFormedAnyNumber(sequence: int, buffer: string)
    ensures Decode(sequence, buffer).Rejected? <==> !WellFormed(buffer)
  {
    var text := CString(buffer);
    var r0 := AfterToken(text);
    var r1 := AfterToken(r0);
    var r2 := AfterToken(r1);
    var r3 := AfterToken(r2);
    InterpretAnyNumber(sequence, Token(text), Token(r0), Token(r1), Token(r2), Token(r3), Token(AfterToken(r3)),
                       Content(LineOf(r2)), Content(LineOf(r3)));
  }

  // ------------------------------------------------------------ round trips

  lemma {:induction false} CStringPrefix(s: string, rest: string)
    requires NoNul(s)
    ensures CString(s + rest) == s + CString(rest)
  {
    if s == "" {
      assert s + rest == rest;
    } else {
      assert (s + rest)[1..] == s[1..] + rest;
      CStringPrefix(s[1..], rest);
      assert [s[0]] + (s[1..] + CString(rest)) == s + CString(rest);
    }
  }

  /** The rest of a line that carries message content comes back unchanged, whatever
      spaces it begins or ends with. */
  lemma ContentRead(content: string, tail: string)
    requires ValidContent(content)
    ensures Content(LineOf(" " + content + "\r\n" + tail)) == content
  {
    var l := " " + content + "\r";
    assert " " + content + "\r\n" + tail == l + "\n" + tail;
    LineRead(l, tail);
    assert l[..|l| - 1] == " " + content;
    assert (" " + content)[1..] == content;
  }

  /** A line end without carriage return, or none at all, is as good; and without the space
      the content is whole. */
  lemma ContentReadBare(content: string, tail: string)
    requires ValidContent(content)
    ensures Content(LineOf(" " + content + "\n" + tail)) == content
    ensures Content(LineOf(" " + content)) == content
    ensures content[0] != ' ' ==> Content(LineOf(content)) == content
  {
    LineRead(" " + content, tail);
    LastLineRead(" " + content);
    LastLineRead(content);
    assert (" " + content)[1..] == content;
  }

  /** The text kinds whose line the client's own parser understands. */
  predicate Sendable(m: Mail) {
    m.kind in {JOIN, MSG, ERR, REPLY, BYE} && Matches(m.kind, m.data) && ValidData(m.data)
  }

  /** The mail made of m at the other end: numbers are local to each side. */
  function Received(sequence: int, m: Mail): Mail {
    var d := match m.data
             case JoinMessage(_, c, n) => JoinMessage(sequence, c, n)
             case ErrorMessage(_, n, c) => ErrorMessage(sequence, n, c)
             case TextMessage(_, n, c, _) => TextMessage(sequence, n, c, false)
             case ReplyMessage(_, r, _, c) => ReplyMessage(sequence, r, -1, c)
             case _ => ConfirmMessage(0);
    Mail(m.kind, d, true, false)
  }

  /** Every word preceded by one space, then the tail. */
  function Spaced(words: seq<string>, tail: string): string {
    if words == [] then tail else " " + words[0] + Spaced(words[1..], tail)
  }

  lemma {:induction false} TrailedIsSpaced(words: seq<string>, tail: string)
    requires words != []
    ensures Trailed(words)[..|Trailed(words)| - 1] + tail == words[0] + Spaced(words[1..], tail)
  {
    var head, more := words[0] + " ", Trailed(words[1..]);
    assert Trailed(words) == head + more;
    if |words| == 1 {
      assert Trailed(words)[..|Trailed(words)| - 1] == words[0];
    } else {
      TrailedIsSpaced(words[1..], tail);
      DropLast(head, more, tail);
    }
  }

  lemma DropLast(head: string, more: string, tail: string)
    requires more != ""
    ensures (head + more)[..|head + more| - 1] + tail == head + (more[..|more| - 1] + tail)
  {
    assert (head + more)[..|head + more| - 1] == head + more[..|more| - 1];
  }

  lemma {:induction false} CStringSpaced(words: seq<string>, tail: string)
    requires forall i :: 0 <= i < |words| ==> NoNul(words[i])
    ensures CString(Spaced(words, tail)) == Spaced(words, CString(tail))
  {
    if words != [] {
      CStringPrefix(" " + words[0], Spaced(words[1..], tail));
      CStringSpaced(words[1..], tail);
    }
  }

  /** The text in the buffer is the header, the fields each after a space, and the line end. */
  lemma LineShape(m: Mail, rest: string)
    requires forall i :: 0 <= i < |Fields(m.data)| ==> NoNul(Fields(m.data)[i])
    ensures CString(Encode(m) + rest) == Header(m.kind) + Spaced(Fields(m.data), "\r\n" + CString(rest))
  {
    var words := [Header(m.kind)] + Fields(m.data);
    var text := Trailed(words);
    TrailedIsSpaced(words, "\r\n" + rest);
    assert words[1..] == Fields(m.data);
    assert text[..|text| - 1] + "\r\n" + rest == text[..|text| - 1] + ("\r\n" + rest);
    CStringPrefix(Header(m.kind), Spaced(Fields(m.data), "\r\n" + rest));
    CStringSpaced(Fields(m.data), "\r\n" + rest);
    CStringPrefix("\r\n", rest);
  }

  /** Extracting the next word of a spaced line. */
  lemma SpacedToken(w: string, more: seq<string>, tail: string)
    requires Clean(w) && tail != "" && IsSpace(tail[0])
    ensures Token(Spaced([w] + more, tail)) == w
    ensures AfterToken(Spaced([w] + more, tail)) == Spaced(more, tail)
  {
    assert ([w] + more)[1..] == more;
    NextToken(w, Spaced(more, tail));
  }

  lemma HeaderToken(kind: Kind, more: seq<string>, tail: string)
    requires tail != "" && IsSpace(tail[0])
    ensures Token(Header(kind) + Spaced(more, tail)) == Header(kind)
    ensures AfterToken(Header(kind) + Spaced(more, tail)) == Spaced(more, tail)
  {
    TokenRead(Header(kind), Spaced(more, tail));
  }

  lemma RoundTripText(sequence: int, m: Mail, rest: string)
    requires Sendable(m) && (m.kind == MSG || m.kind == ERR)
    ensures Decode(sequence, Encode(m) + rest) == Parsed(Received(sequence, m))
  {
    LineShape(m, rest);
    HeaderToken(m.kind, Fields(m.data), "\r\n" + CString(rest));
    assert Fields(m.data) == ["FROM", m.data.displayName, "IS", m.data.content];
    TextTokens(m.data.displayName, m.data.content, rest);
  }

  lemma TextTokens(n: string, c: string, rest: string)
    requires ValidDisplayName(n) && ValidContent(c)
    ensures var r0 := Spaced(["FROM", n, "IS", c], "\r\n" + CString(rest));
            var r1 := AfterToken(r0);
            var r2 := AfterToken(r1);
            && Token(r0) == "FROM" && Token(r1) == n && Token(r2) == "IS"
            && Content(LineOf(AfterToken(r2))) == c
  {
    var end := "\r\n" + CString(rest);
    assert ["FROM", n, "IS", c] == ["FROM"] + ([n] + (["IS"] + [c]));
    SpacedToken("FROM", [n] + (["IS"] + [c]), end);
    SpacedToken(n, ["IS"] + [c], end);
    SpacedToken("IS", [c], end);
    assert Spaced([c], end) == " " + c + "\r\n" + CString(rest);
    ContentRead(c, CString(rest));
  }

  lemma RoundTripReply(sequence: int, m: Mail, rest: string)
    requires Sendable(m) && m.kind == REPLY
    ensures Decode(sequence, Encode(m) + rest) == Parsed(Received(sequence, m))
  {
    var answer := if m.data.result then "OK" else "NOK";
    LineShape(m, rest);
    HeaderToken(REPLY, Fields(m.data), "\r\n" + CString(rest));
    assert Fields(m.data) == [answer, "IS", m.data.content];
    ReplyTokens(answer, m.data.content, rest);
  }

  lemma ReplyTokens(answer: string, c: string, rest: string)
    requires Clean(answer) && ValidContent(c)
    ensures var r0 := Spaced([answer, "IS", c], "\r\n" + CString(rest));
            var r1 := AfterToken(r0);
            && Token(r0) == answer && Token(r1) == "IS"
            && Content(LineOf(AfterToken(r1))) == c
  {
    var end := "\r\n" + CString(rest);
    assert [answer, "IS", c] == [answer] + (["IS"] + [c]);
    SpacedToken(answer, ["IS"] + [c], end);
    SpacedToken("IS", [c], end);
    assert Spaced([c], end) == " " + c + "\r\n" + CString(rest);
    ContentRead(c, CString(rest));
  }

  lemma RoundTripJoin(sequence: int, m: Mail, rest: string)
    requires Sendable(m) && m.kind == JOIN
    ensures Decode(sequence, Encode(m) + rest) == Parsed(Received(sequence, m))
  {
    var end := "\r\n" + CString(rest);
    var c, n := m.data.channelId, m.data.displayName;
    LineShape(m, rest);
    HeaderToken(JOIN, Fields(m.data), end);
    assert Fields(m.data) == [c] + (["AS"] + ([n] + []));
    SpacedToken(c, ["AS"] + ([n] + []), end);
    SpacedToken("AS", [n] + [], end);
    SpacedToken(n, [], end);
  }

  lemma RoundTripBye(sequence: int, m: Mail, rest: string)
    requires Sendable(m) && m.kind == BYE
    ensures Decode(sequence, Encode(m) + rest) == Parsed(Received(sequence, m))
  {
    LineShape(m, rest);
    HeaderToken(BYE, Fields(m.data), "\r\n" + CString(rest));
  }

  /** Round trip: the line of m, followed by anything at all, is read back as m. */
  lemma RoundTrip(sequence: int, m: Mail, rest: string)
    requires Sendable(m)
    ensures Decode(sequence, Encode(m) + rest) == Parsed(Received(sequence, m))
  {
    match m.kind
    case JOIN => RoundTripJoin(sequence, m, rest);
    case REPLY => RoundTripReply(sequence, m, rest);
    case BYE => RoundTripBye(sequence, m, rest);
    case _ => RoundTripText(sequence, m, rest);
  }

  /** AUTH is read with DisplayName and Secret exchanged: the swapped mail if that is
      valid, an exception otherwise. */
  lemma AuthSwapped(sequence: int, m: Mail, rest: string)
    requires m.kind == AUTH && m.data.AuthMessage? && ValidData(m.data)
    ensures Decode(sequence, Encode(m) + rest) ==
            if ValidDisplayName(m.data.secret) && ValidSecret(m.data.displayName)
            then Parsed(Mail(AUTH, AuthMessage(sequence, m.data.username, m.data.secret, m.data.displayName),
                             true, false))
            else Threw
  {
    var AuthMessage(_, u, n, s) := m.data;
    LineShape(m, rest);
    HeaderToken(AUTH, Fields(m.data), "\r\n" + CString(rest));
    assert Fields(m.data) == [u, "AS", n, "USING", s];
    AuthTokens(u, n, s, rest);
  }

  lemma AuthTokens(u: string, n: string, s: string, rest: string)
    requires Clean(u) && Clean(n) && Clean(s)
    ensures var r0 := Spaced([u, "AS", n, "USING", s], "\r\n" + CString(rest));
            var r1 := AfterToken(r0);
            var r2 := AfterToken(r1);
            var r3 := AfterToken(r2);
            && Token(r0) == u && Token(r1) == "AS" && Token(r2) == n && Token(r3) == "USING"
            && Token(AfterToken(r3)) == s
  {
    var end := "\r\n" + CString(rest);
    assert [u, "AS", n, "USING", s] == [u] + (["AS"] + ([n] + (["USING"] + ([s] + []))));
    SpacedToken(u, ["AS"] + ([n] + (["USING"] + ([s] + []))), end);
    SpacedToken("AS", [n] + (["USING"] + ([s] + [])), end);
    SpacedToken(n, ["USING"] + ([s] + []), end);
    SpacedToken("USING", [s] + [], end);
    SpacedToken(s, [], end);
  }

  /** Hence an AUTH survives exactly when its two exchanged fields are equal. */
  lemma AuthRoundTripsIff(sequence: int, m: Mail, rest: string)
    requires m.kind == AUTH && m.data.AuthMessage? && ValidData(m.data)
    ensures Decode(sequence, Encode(m) + rest) == Parsed(Mail(AUTH, SetId(m.data, sequence), true, false))
            <==> m.data.displayName == m.data.secret
  {
    AuthSwapped(sequence, m, rest);
  }

  /** A concrete AUTH that does not survive. */
  lemma AuthCounterexample(sequence: int, rest: string)
    ensures var m := Mail(AUTH, AuthMessage(sequence, "user", "name", "pass"), true, false);
            ValidData(m.data) && Decode(sequence, Encode(m) + rest) != Parsed(m)
  {
    AuthRoundTripsIff(sequence, Mail(AUTH, AuthMessage(sequence, "user", "name", "pass"), true, false), rest);
  }
}
