/** The user's input: how `listenStdin` (src/listeners.cpp:80-99) cuts a chunk of
    characters into lines and what the lines put into the incoming queue. */
module Console {
  import opened Mails
  import opened Streams
  import opened MailBoxes

  // ------------------------------------------------------------ lines

  /** The characters after the last newline. */
  function Pending(chunk: string): string {
    if chunk == "" || chunk[|chunk| - 1] == '\n' then ""
    else Pending(chunk[..|chunk| - 1]) + [chunk[|chunk| - 1]]
  }

  /** The lines that a newline ends, without the empty ones. */
  function Lines(chunk: string): seq<string> {
    if chunk == "" then []
    else
      var before := chunk[..|chunk| - 1];
      if chunk[|chunk| - 1] == '\n' && Pending(before) != "" then Lines(before) + [Pending(before)] else Lines(before)
  }

  predicate OneLine(s: string) {
    forall i :: 0 <= i < |s| ==> s[i] != '\n'
  }

  /** The text of some lines, each ended by a newline. */
  function Typescript(lines: seq<string>): string {
    if lines == [] then "" else Typescript(lines[..|lines| - 1]) + lines[|lines| - 1] + "\n"
  }

  function NonEmpty(lines: seq<string>): seq<string> {
    if lines == [] then []
    else
      var l := lines[|lines| - 1];
      NonEmpty(lines[..|lines| - 1]) + (if l == "" then [] else [l])
  }

  lemma {:induction false} OneLinePending(s: string)
    requires OneLine(s)
    ensures Lines(s) == [] && Pending(s) == s
  {
    if s != "" {
      OneLinePending(s[..|s| - 1]);
    }
  }

  lemma {:induction false} PendingIsOneLine(s: string)
    ensures OneLine(Pending(s))
  {
    if s != "" && s[|s| - 1] != '\n' {
      PendingIsOneLine(s[..|s| - 1]);
    }
  }

  lemma LinesSnoc(s: string, c: char)
    ensures Lines(s + [c]) == Lines(s) + (if c == '\n' && Pending(s) != "" then [Pending(s)] else [])
    ensures Pending(s + [c]) == if c == '\n' then "" else Pending(s) + [c]
  {
    assert (s + [c])[..|s|] == s;
  }

  lemma LastApart(a: string, b: string)
    requires b != ""
    ensures a + b == (a + b[..|b| - 1]) + [b[|b| - 1]]
  {
  }

  /** Reading on after a: what is pending of a belongs to the next line. */
  lemma {:induction false} ReadOn(a: string, b: string)
    ensures Lines(a + b) == Lines(a) + Lines(Pending(a) + b)
    ensures Pending(a + b) == Pending(Pending(a) + b)
    decreases |b|
  {
    var p := Pending(a);
    if b == "" {
      PendingIsOneLine(a);
      assert a + b == a && p + b == p;
      OneLinePending(p);
    } else {
      var front, c := b[..|b| - 1], b[|b| - 1];
      ReadOn(a, front);
      LastApart(a, b);
      LastApart(p, b);
      LinesSnoc(a + front, c);
      LinesSnoc(p + front, c);
    }
  }

  lemma LineAdded(before: string, l: string)
    requires Pending(before) == "" && OneLine(l)
    ensures Lines(before + l + "\n") == Lines(before) + (if l == "" then [] else [l])
    ensures Pending(before + l + "\n") == ""
  {
    ReadOn(before, l);
    OneLinePending(l);
    assert "" + l == l;
    NewlineEnds(before + l);
  }

  lemma NewlineEnds(s: string)
    ensures Lines(s + "\n") == Lines(s) + (if Pending(s) == "" then [] else [Pending(s)])
    ensures Pending(s + "\n") == ""
  {
    LinesSnoc(s, '\n');
  }

  /** Every non-empty line of a text of whole lines is found, in order, and nothing remains. */
  lemma {:induction false} LinesOfTypescript(lines: seq<string>)
    requires forall i :: 0 <= i < |lines| ==> OneLine(lines[i])
    ensures Lines(Typescript(lines)) == NonEmpty(lines) && Pending(Typescript(lines)) == ""
  {
    if lines != [] {
      LinesOfTypescript(lines[..|lines| - 1]);
      LineAdded(Typescript(lines[..|lines| - 1]), lines[|lines| - 1]);
    }
  }

  lemma LineThenRest(x: string, y: string)
    requires OneLine(x)
    ensures Lines(x + "\n" + y) == (if x == "" then [] else [x]) + Lines(y)
  {
    OneLinePending(x);
    NewlineEnds(x);
    ReadOn(x + "\n", y);
    assert "" + y == y;
  }

  lemma FirstNewline(b: string) returns (i: nat)
    requires !OneLine(b)
    ensures i < |b| && b[i] == '\n' && OneLine(b[..i]) && b == b[..i] + "\n" + b[i + 1..]
  {
    i := 0;
    while b[i] != '\n'
      invariant 0 <= i < |b| && OneLine(b[..i])
      invariant exists k :: i <= k < |b| && b[k] == '\n'
      decreases |b| - i
    {
      i := i + 1;
    }
  }

  lemma LineExtended(p: string, b: string)
    requires p != "" && OneLine(p) && !OneLine(b)
    ensures Lines(p + b) != Lines(b)
  {
    var i := FirstNewline(b);
    var x, y := b[..i], b[i + 1..];
    assert p + b == (p + x) + "\n" + y;
    LineExtendedAt(p, x, y);
  }

  lemma LineExtendedAt(p: string, x: string, y: string)
    requires p != "" && OneLine(p) && OneLine(x)
    ensures Lines((p + x) + "\n" + y) != Lines(x + "\n" + y)
  {
    LineThenRest(x, y);
    LineThenRest(p + x, y);
    assert |p + x| > |x|;
    OtherHead(p + x, x, Lines(y));
  }

  lemma OtherHead(x: string, y: string, rest: seq<string>)
    requires x != y && x != ""
    ensures [x] + rest != (if y == "" then [] else [y]) + rest
  {
    if y == "" {
      assert |[x] + rest| == |rest| + 1;
    } else {
      assert ([x] + rest)[0] == x && ([y] + rest)[0] == y;
    }
  }

  lemma Cancel<T>(a: seq<T>, x: seq<T>, y: seq<T>)
    ensures a + x == a + y <==> x == y
  {
    if a + x == a + y {
      assert x == (a + x)[|a|..] == (a + y)[|a|..] == y;
    }
  }

  /** The unfinished line of a read is forgotten. Two reads give the lines of the joined
      text if and only if nothing was pending or nothing was finished later. */
  lemma SplitRead(a: string, b: string)
    ensures Lines(a + b) == Lines(a) + Lines(b) <==> Pending(a) == "" || OneLine(b)
  {
    var p := Pending(a);
    ReadOn(a, b);
    PendingIsOneLine(a);
    Cancel(Lines(a), Lines(p + b), Lines(b));
    if OneLine(b) {
      OneLinePending(b);
      OneLinePending(p + b);
    } else if p == "" {
      assert p + b == b;
    } else {
      LineExtended(p, b);
    }
  }

  // ------------------------------------------------------------ what the lines do

  /** `writeMail` and `addMail` for one line. */
  function Enter(box: Box, line: string): Result<Box> {
    var typed := Command(box.sequence, box.displayName, line);
    if typed.Raised? then Raised
    else Ok(Add(box.(displayName := typed.value.displayName), typed.value.mail))
  }

  /** The lines one after the other, each under the display name its predecessors left. */
  function Feed(box: Box, lines: seq<string>): Result<Box> {
    if lines == [] then Ok(box)
    else
      var before := Feed(box, lines[..|lines| - 1]);
      if before.Raised? then Raised else Enter(before.value, lines[|lines| - 1])
  }

  /** An exception is not undone by the lines after it. */
  lemma {:induction false} FeedRaised(box: Box, lines: seq<string>, n: nat)
    requires n <= |lines| && Feed(box, lines[..n]).Raised?
    ensures Feed(box, lines).Raised?
  {
    if n == |lines| {
      assert lines[..n] == lines;
    } else {
      assert lines[..|lines| - 1][..n] == lines[..n];
      FeedRaised(box, lines[..|lines| - 1], n);
    }
  }

  /** One more character of a chunk: a newline ends the pending line, if there is one. */
  lemma FeedCharacter(box: Box, chunk: string, i: nat)
    requires i < |chunk| && Feed(box, Lines(chunk[..i])).Ok?
    ensures var line, c := Pending(chunk[..i]), chunk[i];
            && Pending(chunk[..i + 1]) == (if c == '\n' then "" else line + [c])
            && Feed(box, Lines(chunk[..i + 1])) ==
               if c == '\n' && line != "" then Enter(Feed(box, Lines(chunk[..i])).value, line)
               else Feed(box, Lines(chunk[..i]))
  {
    assert chunk[..i + 1][..i] == chunk[..i];
    var lines := Lines(chunk[..i]);
    assert (lines + [Pending(chunk[..i])])[..|lines|] == lines;
  }

  lemma FeedRaisedEarly(box: Box, chunk: string, i: nat)
    requires i <= |chunk| && Feed(box, Lines(chunk[..i])).Raised?
    ensures Feed(box, Lines(chunk)).Raised?
  {
    ReadOn(chunk[..i], chunk[i..]);
    assert chunk[..i] + chunk[i..] == chunk;
    assert Lines(chunk)[..|Lines(chunk[..i])|] == Lines(chunk[..i]);
    FeedRaised(box, Lines(chunk), |Lines(chunk[..i])|);
  }

  function Word1(line: string): string {
    Token(AfterToken(line))
  }

  function Word2(line: string): string {
    Token(AfterToken(AfterToken(line)))
  }

  function Word3(line: string): string {
    Token(AfterToken(AfterToken(AfterToken(line))))
  }

  /** The display name before line i: that of the last `/auth` or `/rename` above it. */
  function NameAt(start: string, lines: seq<string>, i: nat): string
    requires i <= |lines|
  {
    if i == 0 then start
    else if Token(lines[i - 1]) == "/auth" then Word3(lines[i - 1])
    else if Token(lines[i - 1]) == "/rename" then Word1(lines[i - 1])
    else NameAt(start, lines, i - 1)
  }

  predicate IsLocal(line: string) {
    Token(line) == "/rename" || Token(line) == "/help" || Token(line) == "/print"
  }

  // ------------------------------------------------------------ the commands

  /** `/auth` with its three words: user name, secret and display name, in this order. */
  lemma AuthTyped(sequence: int, name: string, username: string, secret: string, newName: string)
    requires Clean(username) && Clean(secret) && Clean(newName)
    ensures var d := AuthMessage(sequence, username, newName, secret);
            Command(sequence, name, "/auth" + (" " + username + (" " + secret + (" " + newName + "")))) ==
            if ValidData(d) then Ok(Typed(Mail(AUTH, d, true, false), newName)) else Raised
  {
    var r2 := " " + newName + "";
    var r1 := " " + secret + r2;
    var r0 := " " + username + r1;
    TokenRead("/auth", r0);
    NextToken(username, r1);
    NextToken(secret, r2);
    NextToken(newName, "");
  }

  /** `/join` takes the channel, under the display name in force. */
  lemma JoinTyped(sequence: int, name: string, channel: string)
    requires Clean(channel)
    ensures var d := JoinMessage(sequence, channel, name);
            Command(sequence, name, "/join" + (" " + channel + "")) ==
            if ValidData(d) then Ok(Typed(Mail(JOIN, d, true, false), name)) else Raised
  {
    TokenRead("/join", " " + channel + "");
    NextToken(channel, "");
  }

  /** `/rename` stores the word, whatever it is, and sends nothing. */
  lemma RenameTyped(sequence: int, name: string, newName: string)
    requires Clean(newName)
    ensures var typed := Command(sequence, name, "/rename" + (" " + newName + ""));
            typed.Ok? && !typed.value.mail.addToMailQueue && typed.value.displayName == newName
  {
    TokenRead("/rename", " " + newName + "");
    NextToken(newName, "");
  }

  /** Any other line is a message as it stands, spaces included. */
  lemma TextTyped(sequence: int, name: string, line: string)
    requires Token(line) !in {"/auth", "/join", "/rename", "/help", "/print"}
    ensures var d := TextMessage(sequence, name, line, true);
            Command(sequence, name, line) ==
            if ValidData(d) then Ok(Typed(Mail(MSG, d, true, false), name)) else Raised
  {
  }

  /** The payload a line stands for under a display name. */
  function Meaning(sequence: int, name: string, line: string): Mail {
    if Token(line) == "/auth" then
      Mail(AUTH, AuthMessage(sequence, Word1(line), Word3(line), Word2(line)), true, false)
    else if Token(line) == "/join" then
      Mail(JOIN, JoinMessage(sequence, Word1(line), name), true, false)
    else
      Mail(MSG, TextMessage(sequence, name, line, true), true, false)
  }

  /** The mails of the lines that are not local, in order. */
  function Mailed(sequence: int, start: string, lines: seq<string>): seq<Mail> {
    if lines == [] then []
    else
      var n := |lines| - 1;
      Mailed(sequence, start, lines[..n])
      + (if IsLocal(lines[n]) then [] else [Meaning(sequence, NameAt(start, lines, n), lines[n])])
  }

  lemma {:induction false} NameOfPrefix(start: string, lines: seq<string>, n: nat, i: nat)
    requires i <= n <= |lines|
    ensures NameAt(start, lines[..n], i) == NameAt(start, lines, i)
  {
    if i > 0 {
      NameOfPrefix(start, lines, n, i - 1);
    }
  }

  /** The display name after one more line. */
  function NameAfter(name: string, line: string): string {
    if Token(line) == "/auth" then Word3(line) else if Token(line) == "/rename" then Word1(line) else name
  }

  lemma CommandMeaning(sequence: int, name: string, line: string)
    ensures var typed := Command(sequence, name, line);
            && (typed.Raised? <==> !IsLocal(line) && !ValidData(Meaning(sequence, name, line).data))
            && (typed.Ok? ==>
                  && typed.value.mail == (if IsLocal(line) then Local else Meaning(sequence, name, line))
                  && typed.value.displayName == NameAfter(name, line))
  {
  }

  /** Line i makes no mail, or a valid one. */
  predicate Acceptable(sequence: int, start: string, lines: seq<string>, i: nat)
    requires i < |lines|
  {
    IsLocal(lines[i]) || ValidData(Meaning(sequence, NameAt(start, lines, i), lines[i]).data)
  }

  predicate AllAcceptable(sequence: int, start: string, lines: seq<string>) {
    forall i :: 0 <= i < |lines| ==> Acceptable(sequence, start, lines, i)
  }

  lemma AcceptableSnoc(sequence: int, start: string, lines: seq<string>)
    requires lines != []
    ensures var n := |lines| - 1;
            AllAcceptable(sequence, start, lines) <==>
            AllAcceptable(sequence, start, lines[..n]) && Acceptable(sequence, start, lines, n)
  {
    var n := |lines| - 1;
    forall i | 0 <= i < n
      ensures Acceptable(sequence, start, lines[..n], i) <==> Acceptable(sequence, start, lines, i)
    {
      NameOfPrefix(start, lines, n, i);
    }
  }

  /** The fold: a chunk of lines is accepted exactly when every line that makes a mail
      makes a valid one; then the mails of those lines, and no others, are appended in
      order, each under the name given by the last `/auth` or `/rename` above it. */
  lemma {:induction false} FeedMeaning(box: Box, lines: seq<string>)
    ensures Feed(box, lines).Ok? <==> AllAcceptable(box.sequence, box.displayName, lines)
    ensures Feed(box, lines).Ok? ==>
            Feed(box, lines).value == box.(incoming := box.incoming + Mailed(box.sequence, box.displayName, lines),
                                           displayName := NameAt(box.displayName, lines, |lines|))
  {
    if lines != [] {
      var n := |lines| - 1;
      FeedMeaning(box, lines[..n]);
      AcceptableSnoc(box.sequence, box.displayName, lines);
      NameOfPrefix(box.displayName, lines, n, n);
      CommandMeaning(box.sequence, NameAt(box.displayName, lines, n), lines[n]);
    }
  }
}
