// How the mailer's conversations begin and end: no command before the server's greeting
// and its 8BITMIME, and nothing after a write that failed.

module MailDialogue {
  import opened Common
  import opened Mail

  /** The server's greeting and the answer to it, and then only lines that go on. */
  ghost predicate Hailed(log: Log, origin: string) {
    && |log| >= 2
    && log[0].Reply? && Starts(log[0].line, "220 ")
    && log[1] == Command("EHLO " + origin + "\n", |"EHLO " + origin + "\n"|)
    && forall j | 2 <= j < |log| :: log[j].Reply? && Starts(log[j].line, "250-")
  }

  /** The whole opening: the server said that it takes eight bits, and came to an end. */
  ghost predicate Opening(log: Log, origin: string) {
    && log != [] && log[|log| - 1].Reply? && Starts(log[|log| - 1].line, "250 ")
    && Hailed(log[..|log| - 1], origin) && Reply("250-8BITMIME") in log
  }

  /** What the mailer writes comes in its place: EHLO after the greeting, all else after
      the opening. */
  ghost predicate InPlace(log: Log, origin: string, i: nat)
    requires i < |log|
  {
    || log[i].Reply?
    || (i == 1 && log[0].Reply? && Starts(log[0].line, "220 ")
        && log[1].Command? && log[1].text == "EHLO " + origin + "\n")
    || exists k | 0 <= k <= i :: Opening(log[..k], origin)
  }

  ghost predicate Polite(log: Log, origin: string) {
    forall i: nat | i < |log| :: InPlace(log, origin, i)
  }

  /** A write that was not accepted as a whole. */
  predicate Failed(x: Event) {
    !x.Reply? && x.count != |x.text|
  }

  predicate AllWhole(log: Log) {
    forall x <- log :: !Failed(x)
  }

  /** After a failed write there are only replies. */
  ghost predicate QuietAfterFailure(log: Log) {
    forall i, j | 0 <= i < j < |log| && Failed(log[i]) :: log[j].Reply?
  }

  /** What the state says about the conversation so far. */
  ghost predicate Stage(w: World, origin: string) {
    match w.state
    case DISCONNECTED => !w.valid
    case ERR => !w.valid
    case CONNECTED => w.log == []
    case EHLO => AllWhole(w.log) && Hailed(w.log, origin)
    case EIGHTBIT => AllWhole(w.log) && Hailed(w.log, origin) && Reply("250-8BITMIME") in w.log
    case QUIT => AllWhole(w.log) && Opened(w.log, origin) && Sent(w.log, "QUIT\n")
    case _ => AllWhole(w.log) && Opened(w.log, origin)
  }

  ghost predicate Opened(log: Log, origin: string) {
    exists k | 0 <= k <= |log| :: Opening(log[..k], origin)
  }

  ghost predicate Civil(w: World, origin: string) {
    Polite(w.log, origin) && QuietAfterFailure(w.log) && Stage(w, origin)
  }

  /** Only an error is waited out. */
  predicate Waits(w: World) {
    w.pc == WAITING ==> w.state == ERR
  }

  // ---- One event more -------------------------------------------------------

  lemma OpenedOn(log: Log, x: Event, origin: string)
    requires Opened(log, origin)
    ensures Opened(log + [x], origin)
  {
    hide Opening;
    var k :| 0 <= k <= |log| && Opening(log[..k], origin);
    assert (log + [x])[..k] == log[..k];
  }

  lemma InPlaceOn(log: Log, x: Event, origin: string, i: nat)
    requires i < |log| && InPlace(log, origin, i)
    ensures InPlace(log + [x], origin, i)
  {
    hide Opening;
    if exists k | 0 <= k <= i :: Opening(log[..k], origin) {
      var k :| 0 <= k <= i && Opening(log[..k], origin);
      assert (log + [x])[..k] == log[..k];
    }
  }

  lemma PoliteOn(log: Log, x: Event, origin: string)
    requires Polite(log, origin) && InPlace(log + [x], origin, |log|)
    ensures Polite(log + [x], origin)
  {
    hide InPlace;
    forall i: nat | i < |log| + 1 ensures InPlace(log + [x], origin, i) {
      if i < |log| { InPlaceOn(log, x, origin, i); }
    }
  }

  lemma ReplyOn(log: Log, line: string, origin: string)
    requires Polite(log, origin) && QuietAfterFailure(log)
    ensures Polite(log + [Reply(line)], origin) && QuietAfterFailure(log + [Reply(line)])
    ensures AllWhole(log) ==> AllWhole(log + [Reply(line)])
  {
    PoliteOn(log, Reply(line), origin);
  }

  lemma OpenedInPlace(log: Log, x: Event, origin: string)
    requires Opened(log, origin)
    ensures InPlace(log + [x], origin, |log|)
  {
    hide Opening;
    var k :| 0 <= k <= |log| && Opening(log[..k], origin);
    assert (log + [x])[..k] == log[..k];
  }

  /** Something is written after the opening. */
  lemma WriteOn(log: Log, x: Event, origin: string)
    requires Polite(log, origin) && QuietAfterFailure(log) && AllWhole(log) && Opened(log, origin)
    ensures Polite(log + [x], origin) && QuietAfterFailure(log + [x]) && Opened(log + [x], origin)
    ensures !Failed(x) ==> AllWhole(log + [x])
  {
    OpenedOn(log, x, origin);
    OpenedInPlace(log, x, origin);
    PoliteOn(log, x, origin);
    hide Polite, Opened;
    forall i | 0 <= i < |log| ensures !Failed((log + [x])[i]) {
      assert log[i] in log;
    }
  }

  lemma SendCivil(w: World, origin: string, text: string, count: int, next: Smtp)
    requires Polite(w.log, origin) && QuietAfterFailure(w.log) && AllWhole(w.log) && Opened(w.log, origin)
    requires next in {MAIL, RCPT, DATA, DUMP} || (next == QUIT && text == "QUIT\n")
    ensures Civil(Send(w, text, count, next), origin)
  {
    hide Polite, QuietAfterFailure, Opened, Failed, AllWhole;
    var x := Command(text, count);
    WriteOn(w.log, x, origin);
    SendLog(w, text, count, next);
    assert count == |text| ==> !Failed(x) by { WholeCommand(text); }
    hide Starts;
  }

  lemma WholeCommand(text: string)
    ensures !Failed(Command(text, |text|))
  {
  }

  lemma {:induction false} SendBodyCivil(w: World, origin: string, o: Network, k: nat)
    requires k <= |w.email.body|
    requires Polite(w.log, origin) && QuietAfterFailure(w.log) && AllWhole(w.log) && Opened(w.log, origin)
    ensures Civil(SendBody(w, o, k), origin)
    decreases |w.email.body| - k
  {
    hide Polite, QuietAfterFailure, Opened, AllWhole;
    if k == |w.email.body| {
      SendCivil(w, origin, DOT, o.Count(k), DUMP);
    } else {
      var chunk := w.email.body[k];
      var x := Body(w.email, chunk, o.Count(k));
      WriteOn(w.log, x, origin);
      if o.Count(k) == |chunk| {
        SendBodyCivil(w.(log := w.log + [x]), origin, o, k + 1);
      }
    }
  }

  /** EHLO right after the greeting. */
  lemma HailCivil(w: World, line: string, origin: string, count: int)
    requires w.log == []
    ensures Civil(AfterConnecting(Heard(w, line), origin, count), origin)
  {
    hide Starts, Continues, Failed, Send, Hello, Polite, QuietAfterFailure, AllWhole, Hailed, Opened;
    var h, x := Heard(w, line), Command(Hello(origin), count);
    assert h.log == [Reply(line)];
    SendLog(h, Hello(origin), count, EHLO);
    assert h.log + [x] == [Reply(line), x];
    if Starts(line, "220 ") {
      HailPolite(line, origin, count);
      if count == |Hello(origin)| { HailWhole(line, origin); }
    } else {
      ReplyOn([], line, origin);
      assert [] + [Reply(line)] == [Reply(line)];
    }
  }

  lemma HailPolite(line: string, origin: string, count: int)
    requires Starts(line, "220 ")
    ensures var log := [Reply(line), Command(Hello(origin), count)]; Polite(log, origin) && QuietAfterFailure(log)
  {
    hide Starts, Opening;
  }

  lemma HailWhole(line: string, origin: string)
    requires Starts(line, "220 ")
    ensures var log := [Reply(line), Command(Hello(origin), |Hello(origin)|)]; AllWhole(log) && Hailed(log, origin)
  {
    hide Starts;
  }

  lemma HailedOn(log: Log, line: string, origin: string)
    requires Hailed(log, origin) && Starts(line, "250-")
    ensures Hailed(log + [Reply(line)], origin)
  {
    hide Starts;
  }

  lemma OpeningDone(log: Log, line: string, origin: string)
    requires Hailed(log, origin) && Reply("250-8BITMIME") in log && Starts(line, "250 ")
    ensures Opened(log + [Reply(line)], origin)
  {
    hide Starts, Hailed;
    var more := log + [Reply(line)];
    assert more[..|more| - 1] == log && more[..|more|] == more;
    assert Opening(more[..|more|], origin);
  }

  lemma GoesOn(line: string)
    ensures Continues(line) ==> Starts(line, "250-")
    ensures Starts("250-8BITMIME", "250-") && Continues("250-8BITMIME")
  {
  }

  lemma ProcessCivil(w: World, line: string, origin: string, o: Network)
    requires Civil(w, origin)
    ensures Civil(Process(Heard(w, line), origin, o), origin)
  {
    hide Polite, QuietAfterFailure, Opened, AllWhole, Hailed, Starts, Continues, Failed, Send, SendBody;
    ReplyOn(w.log, line, origin);
    GoesOn(line);
    var h := Heard(w, line);
    match w.state {
      case CONNECTED =>
        HailCivil(w, line, origin, o.Count(0));
      case EHLO =>
        if Starts(line, "250-") { HailedOn(w.log, line, origin); }
        assert line == "250-8BITMIME" ==> Reply("250-8BITMIME") in h.log;
      case EIGHTBIT =>
        if Starts(line, "250-") { HailedOn(w.log, line, origin); }
        if Starts(line, "250 ") {
          OpeningDone(w.log, line, origin);
          SendCivil(h, origin, MailFrom(h.email), o.Count(0), MAIL);
        }
      case MAIL =>
        OpenedOn(w.log, Reply(line), origin);
        SendCivil(h, origin, RcptTo(h.email), o.Count(0), RCPT);
      case RCPT =>
        OpenedOn(w.log, Reply(line), origin);
        SendCivil(h, origin, "DATA\n", o.Count(0), DATA);
      case DATA =>
        OpenedOn(w.log, Reply(line), origin);
        SendBodyCivil(h, origin, o, 0);
      case DUMP =>
        OpenedOn(w.log, Reply(line), origin);
        SendCivil(Purge(h), origin, "QUIT\n", o.Count(0), QUIT);
      case QUIT =>
      case ERR =>
      case DISCONNECTED =>
    }
  }

  lemma ReceiveCivil(w: World, origin: string, o: Network)
    requires Civil(w, origin)
    ensures Civil(Receive(w, origin, o), origin)
  {
    hide Polite, QuietAfterFailure, Opened, AllWhole, Hailed, Process;
    var r := if o.polled then w.(line := w.line + o.chars) else w;
    r := if o.lost then r.(valid := false) else r;
    if o.polled && o.ended {
      ProcessCivil(r, Trim(r.line), origin, o);
    }
  }

  lemma ConnectCivil(w: World, origin: string, o: Network)
    requires Civil(w, origin)
    ensures Civil(Connect(w, o), origin)
  {
    hide Opened, Hailed, Opening, InPlace;
    NothingSaid(origin);
  }

  lemma NothingSaid(origin: string)
    ensures Polite([], origin) && QuietAfterFailure([])
  {
  }

  lemma WorkCivil(w: World, origin: string, o: Network)
    requires Civil(w, origin)
    ensures Civil(Work(w, origin, o), origin) && Work(w, origin, o).pc == TOP
  {
    var c := Connect(w, o);
    ConnectCivil(w, origin, o);
    ReceiveCivil(c, origin, o);
    hide Polite, QuietAfterFailure, Opened, AllWhole, Hailed, Receive, Connect;
  }

  lemma {:induction false} StepCivil(w: World, origin: string, a: Action)
    requires Civil(w, origin) && Waits(w)
    ensures Civil(Step(w, origin, a), origin) && Waits(Step(w, origin, a))
  {
    hide Polite, QuietAfterFailure, Opened, AllWhole, Hailed, Work;
    if a.Handler? && w.pc == WORKING {
      WorkCivil(w, origin, a.network);
    }
  }

  lemma {:induction false} RunCivil(origin: string, actions: seq<Action>)
    ensures Civil(Run(origin, actions), origin) && Waits(Run(origin, actions))
  {
    if actions != [] {
      var n := |actions| - 1;
      RunCivil(origin, actions[..n]);
      StepCivil(Run(origin, actions[..n]), origin, actions[n]);
    }
  }

  // ---- Theorems -------------------------------------------------------------

  /** On every connection the mailer says EHLO with its host only after a greeting, and
      anything else only after the server has taken EHLO and offered 8BITMIME. */
  lemma NothingBeforeTheOpening(origin: string, actions: seq<Action>, i: nat)
    requires i < |Run(origin, actions).log|
    ensures var log := Run(origin, actions).log;
      || log[i].Reply?
      || (i == 1 && log[0].Reply? && Starts(log[0].line, "220 ")
          && log[1].Command? && log[1].text == "EHLO " + origin + "\n")
      || exists k | 0 <= k <= i :: Opening(log[..k], origin)
  {
    hide Stage, Opening, Run;
    RunCivil(origin, actions);
    assert InPlace(Run(origin, actions).log, origin, i);
  }

  /** After a write that failed nothing more is written on the connection. */
  lemma NothingAfterFailure(origin: string, actions: seq<Action>, i: nat, j: nat)
    requires i < j < |Run(origin, actions).log|
    ensures var log := Run(origin, actions).log;
      !log[i].Reply? && log[i].count != |log[i].text| ==> log[j].Reply?
  {
    hide Stage, Polite, Run;
    RunCivil(origin, actions);
    assert Failed(Run(origin, actions).log[i]) ==> Run(origin, actions).log[j].Reply?;
  }

  /** With no conversation under way the socket is closed, and QUIT is the last thing said
      before the server's farewell. */
  lemma IdleIsClosed(origin: string, actions: seq<Action>)
    ensures var w := Run(origin, actions);
      && (w.state == DISCONNECTED || w.state == ERR ==> !w.valid)
      && (w.state == QUIT ==> w.log != [] && w.log[|w.log| - 1] == Command("QUIT\n", 5))
  {
    hide Polite, Run, QuietAfterFailure;
    RunCivil(origin, actions);
  }
}
