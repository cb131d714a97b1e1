/** The client's state machine: `FSM::run` (src/fsm.cpp:7-134). */
module Fsm {
  import opened Mails
  import opened MailBoxes

  datatype State = StartState | AuthState | OpenState | ErrorState | EndState

  /** The effect of handling one mail: the next state, the contents of the field `mail`
      and whether that mail is handed to `sendMail`. */
  datatype Action = Action(next: State, mail: Mail, send: bool)

  function Answer(box: Box, kind: Kind, m: Mail, next: State): Result<Action> {
    var r := Write(box, kind, m, -1);
    if r.Raised? then Raised else Ok(Action(next, r.value, true))
  }

  /** One pass through the switch, once `mail` has been fetched. */
  function Act(state: State, box: Box, m: Mail): Result<Action>
    requires state != EndState
    requires state != ErrorState ==> Shaped(m)
  {
    match state
    case StartState =>
      (match m.kind
       case AUTH => Ok(Action(AuthState, m, true))
       case ERR => if m.sigint then Answer(box, BYE, m, EndState) else Answer(box, ERR, m, ErrorState)
       case MSG => Ok(Action(StartState, m, false))
       case JOIN => Ok(Action(StartState, m, false))
       case _ => Answer(box, ERR, m, ErrorState))
    case AuthState =>
      (match m.kind
       case REPLY => Ok(Action(if m.data.result then OpenState else AuthState, m, false))
       case AUTH => Ok(Action(AuthState, m, true))
       case ERR => Answer(box, BYE, m, EndState)
       case MSG => Ok(Action(AuthState, m, false))
       case JOIN => Ok(Action(AuthState, m, false))
       case _ => Answer(box, ERR, m, ErrorState))
    case OpenState =>
      (match m.kind
       case MSG => Ok(Action(OpenState, m, m.data.toSend))
       case REPLY => Ok(Action(OpenState, m, false))
       case ERR => Answer(box, BYE, m, EndState)
       case BYE => Ok(Action(EndState, m, false))
       case JOIN => Ok(Action(OpenState, m, true))
       case AUTH => Ok(Action(OpenState, m, false))
       case _ => Answer(box, ERR, m, ErrorState))
    case ErrorState => Answer(box, BYE, m, EndState)
  }

  /** Only the client's own five kinds are ever sent, complete and valid. */
  predicate Outgoing(m: Mail) {
    m.kind in {AUTH, JOIN, ERR, BYE, MSG} && Matches(m.kind, m.data) && ValidData(m.data) && m.addToMailQueue
  }

  /** A mail handed to `sendMail` is always one that `sendMail` accepts. */
  lemma ActSendsOutgoing(state: State, box: Box, m: Mail)
    requires state != EndState && m.addToMailQueue
    requires state != ErrorState ==> Handled(m)
    ensures var a := Act(state, box, m);
            a.Ok? ==> a.value.mail.addToMailQueue && (a.value.send ==> Outgoing(a.value.mail))
  {
  }

  // ------------------------------------------------------------ the language of what is sent

  function Kinds(mails: seq<Mail>): (r: seq<Kind>)
    ensures |r| == |mails| && forall i :: 0 <= i < |r| ==> r[i] == mails[i].kind
  {
    seq(|mails|, i requires 0 <= i < |mails| => mails[i].kind)
  }

  ghost predicate OnlyAuth(ks: seq<Kind>) {
    forall i :: 0 <= i < |ks| ==> ks[i] == AUTH
  }

  ghost predicate OnlyChat(ks: seq<Kind>) {
    forall i :: 0 <= i < |ks| ==> ks[i] == MSG || ks[i] == JOIN
  }

  ghost predicate BodyAt(ks: seq<Kind>, i: nat) {
    i <= |ks| && OnlyAuth(ks[..i]) && OnlyChat(ks[i..]) && (i < |ks| ==> i > 0)
  }

  /** Nothing, or at least one AUTH and then any mixture of MSG and JOIN. */
  ghost predicate Body(ks: seq<Kind>) {
    exists i: nat :: BodyAt(ks, i)
  }

  ghost predicate EndsWith(ks: seq<Kind>, k: Kind) {
    |ks| > 0 && ks[|ks| - 1] == k
  }

  function Front(ks: seq<Kind>): seq<Kind>
    requires |ks| > 0
  {
    ks[..|ks| - 1]
  }

  /** A body followed by nothing, ERR, BYE, or ERR and BYE. */
  ghost predicate Language(ks: seq<Kind>) {
    || Body(ks)
    || (EndsWith(ks, ERR) && Body(Front(ks)))
    || (EndsWith(ks, BYE) && (Body(Front(ks)) || (EndsWith(Front(ks), ERR) && Body(Front(Front(ks))))))
  }

  /** What has been sent when the machine is in a given state. */
  ghost predicate Spoken(state: State, ks: seq<Kind>) {
    match state
    case StartState => ks == []
    case AuthState => ks != [] && OnlyAuth(ks)
    case OpenState => ks != [] && Body(ks)
    case ErrorState => EndsWith(ks, ERR) && Body(Front(ks))
    case EndState =>
      || (EndsWith(ks, BYE) && (Body(Front(ks)) || (EndsWith(Front(ks), ERR) && Body(Front(Front(ks))))))
      || (ks != [] && Body(ks))
  }

  lemma AuthIsBody(ks: seq<Kind>)
    requires OnlyAuth(ks)
    ensures Body(ks)
  {
    assert BodyAt(ks, |ks|);
  }

  lemma BodyGrows(ks: seq<Kind>, k: Kind)
    requires ks != [] && Body(ks) && (k == MSG || k == JOIN)
    ensures Body(ks + [k])
  {
    var i: nat :| BodyAt(ks, i);
    assert (ks + [k])[..i] == ks[..i] && (ks + [k])[i..] == ks[i..] + [k];
    assert BodyAt(ks + [k], i);
  }

  lemma SpokenIsLanguage(state: State, ks: seq<Kind>)
    requires Spoken(state, ks)
    ensures Language(ks)
  {
    if state == StartState || state == AuthState {
      AuthIsBody(ks);
    }
  }

  function Said(ks: seq<Kind>, a: Action): seq<Kind> {
    if a.send then ks + [a.mail.kind] else ks
  }

  lemma OnlyAuthGrows(ks: seq<Kind>)
    requires OnlyAuth(ks)
    ensures OnlyAuth(ks + [AUTH])
  {
  }

  /** What is said on the way between the states that wait for mails. */
  lemma ActSays(state: State, box: Box, m: Mail)
    requires state != EndState && (state != ErrorState ==> Shaped(m))
    requires Act(state, box, m).Ok? && Act(state, box, m).value.next in {AuthState, OpenState, StartState}
    ensures var a := Act(state, box, m).value;
            match state
            case StartState => if a.send then a.next == AuthState && a.mail.kind == AUTH else a.next == StartState
            case AuthState => a.next != StartState && (a.send ==> a.next == AuthState && a.mail.kind == AUTH)
            case OpenState => a.next == OpenState && (a.send ==> a.mail.kind == MSG || a.mail.kind == JOIN)
            case _ => false
  {
  }

  lemma SaidWhileOpen(state: State, a: Action, ks: seq<Kind>)
    requires Spoken(state, ks)
    requires match state
             case StartState => if a.send then a.next == AuthState && a.mail.kind == AUTH else a.next == StartState
             case AuthState =>
               a.next in {AuthState, OpenState} && (a.send ==> a.next == AuthState && a.mail.kind == AUTH)
             case OpenState => a.next == OpenState && (a.send ==> a.mail.kind == MSG || a.mail.kind == JOIN)
             case _ => false
    ensures Spoken(a.next, Said(ks, a))
  {
    if state == OpenState {
      if a.send {
        BodyGrows(ks, a.mail.kind);
      }
    } else {
      AuthIsBody(ks);
      OnlyAuthGrows(ks);
    }
  }

  /** Every pass through the switch keeps what was sent in step with the state. */
  lemma ActSpeaks(state: State, box: Box, m: Mail, ks: seq<Kind>)
    requires state != EndState && (state != ErrorState ==> Shaped(m))
    requires Spoken(state, ks)
    requires Act(state, box, m).Ok?
    ensures Spoken(Act(state, box, m).value.next, Said(ks, Act(state, box, m).value))
  {
    var a := Act(state, box, m).value;
    SpokenIsLanguage(state, ks);
    if a.next in {AuthState, OpenState, StartState} {
      ActSays(state, box, m);
      SaidWhileOpen(state, a, ks);
    } else if a.send {
      assert Front(Said(ks, a)) == ks;
    }
  }

  /** In the language BYE is last, ERR is last but for BYE, and no other kind occurs. */
  lemma LanguageOrder(ks: seq<Kind>, i: nat)
    requires Language(ks) && i < |ks|
    ensures ks[i] in {AUTH, MSG, JOIN, ERR, BYE}
    ensures ks[i] == BYE ==> i == |ks| - 1
    ensures ks[i] == ERR ==> i == |ks| - 1 || (i == |ks| - 2 && ks[i + 1] == BYE)
    ensures i == 0 ==> ks[i] != MSG && ks[i] != JOIN
  {
    if Body(ks) {
      BodyKinds(ks);
    } else if Body(Front(ks)) {
      BodyKinds(Front(ks));
    } else {
      BodyKinds(Front(Front(ks)));
    }
  }

  lemma BodyKinds(ks: seq<Kind>)
    requires Body(ks)
    ensures forall j :: 0 <= j < |ks| ==> ks[j] in {AUTH, MSG, JOIN}
    ensures ks != [] ==> ks[0] == AUTH
  {
    var n: nat :| BodyAt(ks, n);
    forall j | 0 <= j < |ks|
      ensures ks[j] in {AUTH, MSG, JOIN}
    {
      assert if j < n then ks[j] == ks[..n][j] else ks[j] == ks[n..][j - n];
    }
    if ks != [] {
      assert ks[0] == ks[..n][0];
    }
  }

  // ------------------------------------------------------------ the loop

  /** The machine with its mailbox, while no other thread runs. */
  datatype Machine = Machine(state: State, mail: Mail, box: Box)

  ghost predicate Sound(m: Machine) {
    m.mail.addToMailQueue && forall i :: 0 <= i < |m.box.incoming| ==> Handled(m.box.incoming[i])
  }

  predicate Blocked(m: Machine) {
    m.state != ErrorState && m.state != EndState && m.box.incoming == []
  }

  /** One iteration of the loop. */
  function Iterate(m: Machine): Result<Machine>
    requires m.state != EndState && !Blocked(m) && Sound(m)
  {
    var waits := m.state != ErrorState;
    var mail := if waits then m.box.incoming[0] else m.mail;
    var box := if waits then Take(m.box) else m.box;
    var a := Act(m.state, box, mail);
    if a.Raised? then Raised
    else Ok(Machine(a.value.next, a.value.mail, if a.value.send then Send(box, a.value.mail) else box))
  }

  lemma IterateSound(m: Machine)
    requires m.state != EndState && !Blocked(m) && Sound(m)
    ensures Iterate(m).Ok? ==> Sound(Iterate(m).value)
  {
    var waits := m.state != ErrorState;
    ActSendsOutgoing(m.state, if waits then Take(m.box) else m.box, if waits then m.box.incoming[0] else m.mail);
  }

  datatype Outcome = Returned(machine: Machine) | Waiting(machine: Machine) | Aborted | Unfinished

  /** The run of the loop, cut off after n iterations. */
  function RunFor(m: Machine, n: nat): Outcome
    requires Sound(m)
    decreases n
  {
    if n == 0 then Unfinished
    else if m.state == EndState then Returned(m)
    else if Blocked(m) then Waiting(m)
    else
      var next := Iterate(m);
      if next.Raised? then Aborted else
        IterateSound(m);
        RunFor(next.value, n - 1)
  }

  function Rank(s: State): nat {
    match s
    case EndState => 0
    case ErrorState => 1
    case _ => 2
  }

  /** Enough iterations for any queue: the loop ends, or waits for another mail. */
  function Enough(m: Machine): nat {
    |m.box.incoming| + Rank(m.state) + 1
  }

  lemma {:induction false} RunsOut(m: Machine, n: nat)
    requires Sound(m) && n >= Enough(m)
    ensures !RunFor(m, n).Unfinished?
    decreases n
  {
    if m.state != EndState && !Blocked(m) {
      RunForStep(m, n);
      if Iterate(m).Ok? {
        RunsOut(Iterate(m).value, n - 1);
      }
    }
  }

  lemma RunForStep(m: Machine, n: nat)
    requires Sound(m) && n > 0 && m.state != EndState && !Blocked(m)
    ensures Iterate(m).Raised? ==> RunFor(m, n) == Aborted
    ensures Iterate(m).Ok? ==> Sound(Iterate(m).value) && RunFor(m, n) == RunFor(Iterate(m).value, n - 1)
  {
    IterateSound(m);
  }

  lemma RunForStopped(m: Machine, n: nat)
    requires Sound(m) && n > 0 && (m.state == EndState || Blocked(m))
    ensures RunFor(m, n) == if m.state == EndState then Returned(m) else Waiting(m)
  {
  }

  /** More iterations change nothing once the run has ended. */
  lemma {:induction false} RunForStable(m: Machine, n: nat, more: nat)
    requires Sound(m) && n <= more && !RunFor(m, n).Unfinished?
    ensures RunFor(m, more) == RunFor(m, n)
    decreases n
  {
    if m.state != EndState && !Blocked(m) {
      RunForStep(m, n);
      RunForStep(m, more);
      if Iterate(m).Ok? {
        RunForStable(Iterate(m).value, n - 1, more - 1);
      }
    }
  }

  /** The whole run on the mails at hand. */
  function Execute(m: Machine): Outcome
    requires Sound(m)
  {
    RunFor(m, Enough(m))
  }

  // ------------------------------------------------------------ what an ERR in the queue leads to

  /** The state a mail leads to. It depends on the mail alone. */
  function NextState(state: State, m: Mail): State
    requires state in {StartState, AuthState, OpenState} && Shaped(m)
  {
    ActNext(state, NewBox(UDP), m);
    var a := Act(state, NewBox(UDP), m);
    if a.Ok? then a.value.next else ErrorState
  }

  /** A constructor throws only on the way to the state ERROR, and only for the display name. */
  lemma ActNext(state: State, box: Box, m: Mail)
    requires state in {StartState, AuthState, OpenState} && Shaped(m)
    ensures Act(state, NewBox(UDP), m).Ok?
    ensures var next := Act(state, NewBox(UDP), m).value.next;
            && (Act(state, box, m).Ok? ==> Act(state, box, m).value.next == next)
            && (Act(state, box, m).Raised? <==> next == ErrorState && !ValidDisplayName(box.displayName))
  {
    assert ValidDisplayName("default");
    assert ValidContent("MessageContent");
  }

  ghost predicate AllShaped(mails: seq<Mail>) {
    forall i :: 0 <= i < |mails| ==> Shaped(mails[i])
  }

  /** The state after some mails, or the first of ERROR and END on the way. */
  ghost function Follow(state: State, mails: seq<Mail>): State
    requires AllShaped(mails)
    decreases |mails|
  {
    if mails == [] || state !in {StartState, AuthState, OpenState} then state
    else Follow(NextState(state, mails[0]), mails[1..])
  }

  /** Mail i is a BYE that finds the machine open: the server's, for nobody else makes one. */
  ghost predicate ByeWhileOpenAt(state: State, mails: seq<Mail>, i: nat)
    requires AllShaped(mails)
  {
    i < |mails| && Follow(state, mails[..i]) == OpenState && mails[i].kind == BYE
  }

  ghost predicate ByeWhileOpen(state: State, mails: seq<Mail>)
    requires AllShaped(mails)
  {
    exists i: nat :: ByeWhileOpenAt(state, mails, i)
  }

  /** An ERR has to be made from a display name that is not valid. */
  ghost predicate Throws(state: State, displayName: string, mails: seq<Mail>)
    requires AllShaped(mails)
  {
    state != ErrorState && Follow(state, mails) == ErrorState && !ValidDisplayName(displayName)
  }

  /** Between the two machines mails were sent, the last of them a BYE. */
  predicate SaidBye(before: Machine, after: Machine) {
    var sent := after.box.outgoing;
    |sent| > |before.box.outgoing| && sent[|sent| - 1].kind == BYE
  }

  /** How the run from m ends when `mails` are the next in the queue and lead out of the
      states that wait for mails. */
  ghost predicate Concluded(m: Machine, mails: seq<Mail>, end: Outcome)
    requires AllShaped(mails)
  {
    && (end.Aborted? <==> Throws(m.state, m.box.displayName, mails))
    && (!end.Aborted? ==> end.Returned?)
    && (end.Returned? ==> m.box.outgoing <= end.machine.box.outgoing)
    && (end.Returned? && m.state != EndState ==> (SaidBye(m, end.machine) <==> !ByeWhileOpen(m.state, mails)))
  }

  lemma ByeWhileOpenStep(state: State, mails: seq<Mail>)
    requires AllShaped(mails) && mails != [] && state in {StartState, AuthState, OpenState}
    ensures ByeWhileOpen(state, mails) <==>
            (state == OpenState && mails[0].kind == BYE) || ByeWhileOpen(NextState(state, mails[0]), mails[1..])
  {
    var next, rest := NextState(state, mails[0]), mails[1..];
    forall i: nat | i < |rest|
      ensures ByeWhileOpenAt(next, rest, i) <==> ByeWhileOpenAt(state, mails, i + 1)
    {
      assert mails[..i + 1][1..] == rest[..i];
    }
    assert ByeWhileOpenAt(state, mails, 0) <==> state == OpenState && mails[0].kind == BYE;
    if i: nat :| ByeWhileOpenAt(state, mails, i) {
      assert i > 0 ==> ByeWhileOpenAt(next, rest, i - 1);
    }
    if i: nat :| ByeWhileOpenAt(next, rest, i) {
      assert ByeWhileOpenAt(state, mails, i + 1);
    }
  }

  lemma NeverOpenAgain(state: State, mails: seq<Mail>)
    requires AllShaped(mails) && (state == ErrorState || state == EndState)
    ensures !ByeWhileOpen(state, mails) && Follow(state, mails) == state
  {
  }

  /** What an iteration that waits for a mail does to state, queues and display name. */
  lemma IterateWaiting(m: Machine)
    requires m.state in {StartState, AuthState, OpenState} && !Blocked(m) && Sound(m)
    ensures Iterate(m).Raised? <==>
            NextState(m.state, m.box.incoming[0]) == ErrorState && !ValidDisplayName(m.box.displayName)
    ensures Iterate(m).Ok? ==>
            var n := Iterate(m).value;
            && n.state == NextState(m.state, m.box.incoming[0])
            && n.box.incoming == m.box.incoming[1..] && n.box.displayName == m.box.displayName
            && m.box.outgoing <= n.box.outgoing
            && |n.box.outgoing| <= |m.box.outgoing| + 1
            && (SaidBye(m, n) <==>
                  n.state == EndState && !(m.state == OpenState && m.box.incoming[0].kind == BYE))
  {
    ActNext(m.state, Take(m.box), m.box.incoming[0]);
  }

  /** A waiting machine takes one mail, and the rest of the run concludes. */
  lemma ConcludedStep(m: Machine, mails: seq<Mail>, end: Outcome)
    requires m.state in {StartState, AuthState, OpenState} && !Blocked(m) && Sound(m)
    requires AllShaped(mails) && mails != [] && mails[0] == m.box.incoming[0]
    requires Iterate(m).Ok? && Concluded(Iterate(m).value, mails[1..], end)
    requires Iterate(m).value.state == EndState ==> end == Returned(Iterate(m).value)
    ensures Concluded(m, mails, end)
  {
    var n := Iterate(m).value;
    IterateWaiting(m);
    ByeWhileOpenStep(m.state, mails);
    if n.state == ErrorState || n.state == EndState {
      NeverOpenAgain(n.state, mails[1..]);
    }
    if end.Returned? && n.state != EndState {
      SaidByeLater(m, n, end.machine);
    }
  }

  lemma SaidByeLater(m: Machine, n: Machine, end: Machine)
    requires m.box.outgoing <= n.box.outgoing <= end.box.outgoing && !SaidBye(m, n)
    ensures SaidBye(m, end) <==> SaidBye(n, end)
  {
  }

  /** An ERR behind k other mails. Within k + 3 iterations the run is over, whatever the
      state: it throws if and only if an ERR must be made with an invalid display name,
      and it returns otherwise; and then the last mail of this run is a BYE if and only
      if no BYE among the k found the machine open. */
  lemma {:induction false} ErrorEndsRun(m: Machine, k: nat)
    requires Sound(m) && k < |m.box.incoming| && m.box.incoming[k].kind == ERR
    ensures Concluded(m, m.box.incoming[..k + 1], RunFor(m, k + 3))
    decreases k
  {
    var mails := m.box.incoming[..k + 1];
    if m.state == EndState {
      NeverOpenAgain(m.state, mails);
    } else if m.state == ErrorState {
      NeverOpenAgain(m.state, mails);
      AfterErrorState(m, k + 3);
    } else {
      RunForStep(m, k + 3);
      IterateWaiting(m);
      if Iterate(m).Raised? {
        NeverOpenAgain(ErrorState, mails[1..]);
      } else {
        var n := Iterate(m).value;
        ErrorEndsRest(m, n, k);
        assert mails[1..] == n.box.incoming[..k];
        ConcludedStep(m, mails, RunFor(n, k + 2));
      }
    }
  }

  lemma {:induction false} ErrorEndsRest(m: Machine, n: Machine, k: nat)
    requires Sound(m) && k < |m.box.incoming| && m.box.incoming[k].kind == ERR
    requires m.state in {StartState, AuthState, OpenState} && Iterate(m) == Ok(n) && Sound(n)
    requires n.box.incoming == m.box.incoming[1..]
    ensures Concluded(n, n.box.incoming[..k], RunFor(n, k + 2))
    ensures n.state == EndState ==> RunFor(n, k + 2) == Returned(n)
    decreases k, 0
  {
    if n.state == ErrorState || n.state == EndState {
      NeverOpenAgain(n.state, n.box.incoming[..k]);
      if n.state == ErrorState {
        AfterErrorState(n, k + 2);
      }
    } else {
      IterateShrinks(m);
      ErrorEndsRun(n, k - 1);
    }
  }

  /** Any mail but an ERR may leave the machine where it is; that mail is gone. */
  lemma IterateShrinks(m: Machine)
    requires m.state != EndState && !Blocked(m) && Sound(m) && Iterate(m).Ok?
    ensures var n := Iterate(m).value;
            n.state !in {ErrorState, EndState} ==> m.state != ErrorState && m.box.incoming[0].kind != ERR
  {
  }

  /** Two tests on the mails alone: without a BYE among them, or without a positive REPLY
      for a machine that is not open yet, the last word is the client's own BYE. */
  lemma {:induction false} NoByeWhileOpen(state: State, mails: seq<Mail>)
    requires AllShaped(mails)
    requires || (forall i :: 0 <= i < |mails| ==> mails[i].kind != BYE)
             || (state != OpenState && forall i :: 0 <= i < |mails| ==> !IsSuccess(mails[i]))
    ensures !ByeWhileOpen(state, mails)
    decreases |mails|
  {
    if state == ErrorState || state == EndState {
      NeverOpenAgain(state, mails);
    } else if mails != [] {
      ByeWhileOpenStep(state, mails);
      ActNext(state, NewBox(UDP), mails[0]);
      NoByeWhileOpen(NextState(state, mails[0]), mails[1..]);
    }
  }

  /** ... and that is how the run ends, however many more iterations it is given. */
  lemma ErrorEndsExecution(m: Machine, k: nat, n: nat)
    requires Sound(m) && k < |m.box.incoming| && m.box.incoming[k].kind == ERR && n >= k + 3
    ensures RunFor(m, n) == RunFor(m, k + 3) == Execute(m)
    ensures Concluded(m, m.box.incoming[..k + 1], Execute(m))
  {
    ErrorEndsRun(m, k);
    RunForStable(m, k + 3, n);
    RunsOut(m, Enough(m));
    if k + 3 <= Enough(m) {
      RunForStable(m, k + 3, Enough(m));
    } else {
      RunForStable(m, Enough(m), k + 3);
    }
  }

  /** The bound is exact: in START, behind k messages that are ignored there, it is needed. */
  lemma {:induction false} ErrorBoundTight(m: Machine, k: nat)
    requires Sound(m) && m.state == StartState && ValidDisplayName(m.box.displayName)
    requires k < |m.box.incoming| && m.box.incoming[k].kind == ERR && !m.box.incoming[k].sigint
    requires forall i :: 0 <= i < k ==> m.box.incoming[i].kind == MSG
    ensures RunFor(m, k + 2).Unfinished?
    decreases k
  {
    IterateSound(m);
    var n := Iterate(m).value;
    if k == 0 {
      assert n.state == ErrorState;
      IterateSound(n);
      assert RunFor(n, 1) == RunFor(Iterate(n).value, 0);
    } else {
      assert n.box.incoming == m.box.incoming[1..];
      ErrorBoundTight(n, k - 1);
    }
  }

  lemma AfterErrorState(m: Machine, n: nat)
    requires Sound(m) && m.state == ErrorState && n >= 2
    ensures RunFor(m, n).Returned?
    ensures m.box.outgoing <= RunFor(m, n).machine.box.outgoing && SaidBye(m, RunFor(m, n).machine)
  {
    IterateSound(m);
    var next := Iterate(m).value;
    assert next.state == EndState;
    assert RunFor(next, n - 1) == Returned(next);
  }

  class FSM {
    var state: State
    var mail: Mail
    const mailbox: MailBox

    constructor (initialState: State, mailbox: MailBox)
      ensures state == initialState && mail == Fresh && this.mailbox == mailbox
    {
      state, mail, this.mailbox := initialState, Fresh, mailbox;
    }

    function Now(): Machine
      reads this, mailbox
    {
      Machine(state, mail, mailbox.State())
    }

    /** Fetch a mail where the state calls for one, act on it and send what it leads to. */
    method Turn() returns (threw: bool)
      requires Sound(Now()) && state != EndState && !Blocked(Now())
      modifies this, mailbox
      ensures threw <==> old(Iterate(Now())).Raised?
      ensures !threw ==> Now() == old(Iterate(Now())).value && Sound(Now())
    {
      IterateSound(Now());
      match state {
        case StartState =>
          mail := mailbox.WaitMail();
          match mail.kind {
            case AUTH =>
              mailbox.SendMail(mail);
              state := AuthState;
            case ERR =>
              if mail.sigint {
                threw := Reply(BYE, EndState);
              } else {
                threw := Reply(ERR, ErrorState);
              }
              return;
            case MSG =>
            case JOIN =>
            case _ =>
              threw := Reply(ERR, ErrorState);
              return;
          }
        case AuthState =>
          mail := mailbox.WaitMail();
          match mail.kind {
            case REPLY =>
              state := if mail.data.result then OpenState else AuthState;
            case AUTH =>
              mailbox.SendMail(mail);
            case ERR =>
              threw := Reply(BYE, EndState);
              return;
            case MSG =>
            case JOIN =>
            case _ =>
              threw := Reply(ERR, ErrorState);
              return;
          }
        case OpenState =>
          mail := mailbox.WaitMail();
          match mail.kind {
            case MSG =>
              if mail.data.toSend {
                mailbox.SendMail(mail);
              }
            case REPLY =>
            case ERR =>
              threw := Reply(BYE, EndState);
              return;
            case BYE =>
              state := EndState;
            case JOIN =>
              mailbox.SendMail(mail);
            case AUTH =>
            case _ =>
              threw := Reply(ERR, ErrorState);
              return;
          }
        case ErrorState =>
          threw := Reply(BYE, EndState);
          return;
      }
      threw := false;
    }

    /** `writeMail(kind, mail); sendMail(mail); state = next` */
    method Reply(kind: Kind, next: State) returns (threw: bool)
      modifies this, mailbox
      ensures var a := old(Answer(mailbox.State(), kind, mail, next));
              && (threw <==> a.Raised?)
              && (!threw ==>
                    && state == a.value.next
                    && mail == a.value.mail
                    && mailbox.State() == Send(old(mailbox.State()), a.value.mail))
    {
      var r := mailbox.WriteMail(kind, mail, -1);
      if r.Raised? {
        return true;
      }
      mail := r.value;
      mailbox.SendMail(mail);
      state := next;
      threw := false;
    }

    /** One iteration of a run that ends within n. */
    method Advance(ghost n: nat, ghost whole: Outcome) returns (threw: bool)
      requires Sound(Now()) && state != EndState && !Blocked(Now())
      requires RunFor(Now(), n) == whole && !whole.Unfinished?
      modifies this, mailbox
      ensures threw ==> whole == Aborted
      ensures !threw ==> Sound(Now()) && n > 1 && RunFor(Now(), n - 1) == whole
    {
      RunForStep(Now(), n);
      threw := Turn();
    }

    /** `run`, until it returns, throws, or would wait for a mail that is not there. */
    method RunLoop() returns (threw: bool)
      requires Sound(Now())
      modifies this, mailbox
      ensures var end := old(Execute(Now()));
              match end
              case Returned(m) => !threw && Now() == m && state == EndState
              case Waiting(m) => !threw && Now() == m && Blocked(m)
              case Aborted => threw
              case Unfinished => false
    {
      threw := false;
      ghost var n := Enough(Now());
      ghost var whole := RunFor(Now(), n);
      RunsOut(Now(), n);
      while state != EndState && (state == ErrorState || mailbox.incomingMails != [])
        invariant Sound(Now()) && n > 0
        invariant RunFor(Now(), n) == whole && !whole.Unfinished?
        decreases n
      {
        threw := Advance(n, whole);
        if threw {
          return;
        }
        n := n - 1;
      }
      RunForStopped(Now(), n);
    }
  }
}
