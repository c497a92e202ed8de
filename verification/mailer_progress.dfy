// That the mailer gets on: a server that accepts everything gets the email, any other
// answer ends the connection, and it does not matter in which pieces a line arrives.

module MailProgress {
  import opened Common
  import opened Mail

  /** A whole line arrives, and these texts are written whole. */
  function Hears(line: string, texts: seq<string>): Network {
    Network(true, true, line + "\r", true, false, seq(|texts|, i requires 0 <= i < |texts| => |texts[i]|))
  }

  /** The handler's loop, twice: at its top, and without the mutex. */
  function Round(w: World, origin: string, o: Network): World {
    Step(Step(w, origin, Handler(o)), origin, Handler(o))
  }

  function Rounds(w: World, origin: string, os: seq<Network>): World {
    if os == [] then w else Round(Rounds(w, origin, os[..|os| - 1]), origin, os[|os| - 1])
  }

  /** In the midst of a conversation about email e. */
  predicate Under(w: World, e: Email, state: Smtp) {
    && w.pc == TOP && w.email == e && e.to != "" && w.valid && w.state == state && w.line == ""
    && !w.terminate && state !in {DISCONNECTED, ERR}
  }

  // ---- Lines ----------------------------------------------------------------

  /** A carriage return before the line feed does not count; others do. */
  lemma LineEnding(t: string)
    ensures Trim(t + "\r") == t
    ensures (t == "" || t[|t| - 1] != '\r') ==> Trim(t) == t
  {
  }

  /** A line that arrives in two pieces is as good as one that arrives at once. */
  lemma PiecesJoin(w: World, origin: string, a: string, b: string, lost: bool, counts: seq<int>)
    ensures Receive(Receive(w, origin, Network(true, true, a, false, false, [])), origin,
                    Network(true, true, b, true, lost, counts))
         == Receive(w, origin, Network(true, true, a + b, true, lost, counts))
  {
    Associate(w.line, a, b);
    hide Process;
    ProcessUses(Network(true, true, b, true, lost, counts), Network(true, true, a + b, true, lost, counts));
  }

  /** Of the network, an answer depends on what the writes return. */
  lemma ProcessUses(o: Network, p: Network)
    requires o.counts == p.counts
    ensures forall w, origin :: Process(w, origin, o) == Process(w, origin, p)
  {
    forall w: World, k: nat | k <= |w.email.body| ensures SendBody(w, o, k) == SendBody(w, p, k) {
      SendBodyUses(w, o, p, k);
    }
  }

  lemma {:induction false} SendBodyUses(w: World, o: Network, p: Network, k: nat)
    requires o.counts == p.counts && k <= |w.email.body|
    ensures SendBody(w, o, k) == SendBody(w, p, k)
    decreases |w.email.body| - k
  {
    if k < |w.email.body| {
      SendBodyUses(w.(log := w.log + [Body(w.email, w.email.body[k], o.Count(k))]), o, p, k + 1);
    }
  }

  // ---- One answer -----------------------------------------------------------

  /** The answers the mailer goes on after. */
  predicate GoesOnAfter(state: Smtp, line: string) {
    match state
    case CONNECTED => Starts(line, "220 ")
    case EHLO => Starts(line, "250-")
    case EIGHTBIT => Starts(line, "250-") || Starts(line, "250 ")
    case MAIL => Starts(line, "250 ")
    case RCPT => Starts(line, "250 ")
    case DATA => Starts(line, "354 ")
    case DUMP => Starts(line, "250 ")
    case _ => false
  }

  lemma ContinuesIs(line: string)
    ensures Continues(line) <==> Starts(line, "250-")
    ensures Starts("250-8BITMIME", "250-")
  {
    if |line| >= 4 {
      assert line[..4] == line[..3] + [line[3]];
      assert line[..4] == "250-" ==> line[..4][..3] == line[..3];
    }
  }

  lemma RoundIs(w: World, origin: string, e: Email, line: string, texts: seq<string>)
    requires Under(w, e, w.state)
    ensures Round(w, origin, Hears(line, texts))
         == Process(Heard(w.(pc := WORKING), line), origin, Hears(line, texts)).(line := "", pc := TOP)
  {
    hide Process;
    LineEnding(line);
    assert "" + (line + "\r") == line + "\r";
  }

  /** Whatever else the server answers: the connection is closed, nothing is written, and
      the email stays to be tried again. */
  lemma OtherAnswersEnd(w: World, origin: string, e: Email, line: string, texts: seq<string>)
    requires Under(w, e, w.state) && w.state != QUIT && !GoesOnAfter(w.state, line)
    ensures Round(w, origin, Hears(line, texts))
         == w.(valid := false, state := ERR, log := w.log + [Reply(line)])
  {
    RoundIs(w, origin, e, line, texts);
    ContinuesIs(line);
    hide Starts, Continues, Send, SendBody, Round;
  }

  /** After QUIT the connection is closed, in peace or not. */
  lemma Farewell(w: World, origin: string, line: string)
    requires w.pc == WORKING && w.state == QUIT && !InEmail(w)
    ensures Step(w, origin, Handler(Hears(line, [])))
         == w.(valid := false, state := if Starts(w.line + line, "221 ") then DISCONNECTED else ERR,
               line := "", pc := TOP, log := w.log + [Reply(w.line + line)])
  {
    LineEnding(w.line + line);
    Associate(w.line, line, "\r");
    hide Starts, Trim;
  }

  // ---- A server that accepts everything -------------------------------------

  datatype Answers = Answers(greeting: string, extensions: seq<string>, last: string,
                             sender: string, recipient: string, start: string, done: string)

  predicate Accepting(a: Answers) {
    && Starts(a.greeting, "220 ")
    && (forall x <- a.extensions :: Starts(x, "250-")) && "250-8BITMIME" in a.extensions
    && Starts(a.last, "250 ") && Starts(a.sender, "250 ") && Starts(a.recipient, "250 ")
    && Starts(a.start, "354 ") && Starts(a.done, "250 ")
  }

  function Silently(lines: seq<string>): seq<Network> {
    seq(|lines|, i requires 0 <= i < |lines| => Hears(lines[i], []))
  }

  function Conversation(origin: string, e: Email, a: Answers): seq<Network> {
    [Hears(a.greeting, ["EHLO " + origin + "\n"])] + Silently(a.extensions)
    + [Hears(a.last, ["MAIL FROM: <" + e.from + ">\n"]), Hears(a.sender, ["RCPT TO: <" + e.to + ">\n"]),
       Hears(a.recipient, ["DATA\n"]), Hears(a.start, e.body + ["\r\n.\r\n"]), Hears(a.done, ["QUIT\n"])]
  }

  /** The books, apart from the email in hand. */
  predicate Same(w: World, r: World) {
    r.queue == w.queue && r.delivered == w.delivered
  }

  lemma Greeted(w: World, origin: string, e: Email, line: string)
    requires w.pc == TOP && w.email == e && e.to != "" && !w.valid && w.state != ERR && !w.terminate
    requires Starts(line, "220 ")
    ensures var r := Round(w, origin, Hears(line, ["EHLO " + origin + "\n"])); Under(r, e, EHLO) && Same(w, r)
  {
    LineEnding(line);
    assert "" + (line + "\r") == line + "\r";
    hide Starts, Trim;
  }

  lemma ExtendedOnce(w: World, origin: string, e: Email, line: string)
    requires Under(w, e, w.state) && w.state in {EHLO, EIGHTBIT} && Starts(line, "250-")
    ensures var r := Round(w, origin, Hears(line, []));
      Under(r, e, if line == "250-8BITMIME" then EIGHTBIT else w.state) && Same(w, r)
  {
    RoundIs(w, origin, e, line, []);
    ContinuesIs(line);
    NotBoth(line);
    hide Starts, Continues, Round;
  }

  /** The lines of the answer to EHLO: one of them is looked for. */
  lemma {:induction false} Extended(w: World, origin: string, e: Email, lines: seq<string>)
    requires Under(w, e, EHLO) && forall x <- lines :: Starts(x, "250-")
    ensures var r := Rounds(w, origin, Silently(lines));
      Under(r, e, if "250-8BITMIME" in lines then EIGHTBIT else EHLO) && Same(w, r)
  {
    hide Starts, Round, Hears;
    if lines != [] {
      var n := |lines| - 1;
      assert lines == lines[..n] + [lines[n]] && lines[n] in lines;
      Extended(w, origin, e, lines[..n]);
      assert Silently(lines)[..n] == Silently(lines[..n]);
      ExtendedOnce(Rounds(w, origin, Silently(lines[..n])), origin, e, lines[n]);
    }
  }

  lemma NotBoth(line: string)
    requires Starts(line, "250-")
    ensures !Starts(line, "250 ")
  {
    assert line[..4][3] == '-';
  }

  /** The state after the next, while the server accepts. */
  function After(state: Smtp): Smtp {
    match state case EIGHTBIT => MAIL case MAIL => RCPT case RCPT => DATA case _ => ERR
  }

  function TextIn(state: Smtp, e: Email): string {
    match state
    case EIGHTBIT => "MAIL FROM: <" + e.from + ">\n"
    case MAIL => "RCPT TO: <" + e.to + ">\n"
    case _ => "DATA\n"
  }

  lemma Accepted(w: World, origin: string, e: Email, line: string)
    requires Under(w, e, w.state) && w.state in {EIGHTBIT, MAIL, RCPT} && Starts(line, "250 ")
    ensures var r := Round(w, origin, Hears(line, [TextIn(w.state, e)])); Under(r, e, After(w.state)) && Same(w, r)
  {
    RoundIs(w, origin, e, line, [TextIn(w.state, e)]);
    hide Starts, Continues, Round;
  }

  lemma {:induction false} BodyGoesOut(w: World, o: Network, k: nat)
    requires k <= |w.email.body| && forall i | k <= i < |w.email.body| :: o.Count(i) == |w.email.body[i]|
    requires o.Count(|w.email.body|) == 5
    ensures var r := SendBody(w, o, k); r == w.(state := DUMP, log := r.log)
    decreases |w.email.body| - k
  {
    if k < |w.email.body| {
      BodyGoesOut(w.(log := w.log + [Body(w.email, w.email.body[k], o.Count(k))]), o, k + 1);
    }
  }

  lemma Started(w: World, origin: string, e: Email, line: string)
    requires Under(w, e, DATA) && Starts(line, "354 ")
    ensures var r := Round(w, origin, Hears(line, e.body + ["\r\n.\r\n"])); Under(r, e, DUMP) && Same(w, r)
  {
    var o := Hears(line, e.body + ["\r\n.\r\n"]);
    RoundIs(w, origin, e, line, e.body + ["\r\n.\r\n"]);
    BodyGoesOut(Heard(w.(pc := WORKING), line), o, 0);
    hide Starts, SendBody, Round;
  }

  lemma Done(w: World, origin: string, e: Email, line: string)
    requires Under(w, e, DUMP) && Starts(line, "250 ")
    ensures var r := Round(w, origin, Hears(line, ["QUIT\n"]));
      && r.state == QUIT && r.queue == w.queue && !InEmail(r)
      && r.delivered == w.delivered + [Delivery(e, w.log + [Reply(line)])]
  {
    RoundIs(w, origin, e, line, ["QUIT\n"]);
    hide Starts, Round;
  }

  lemma {:induction false} RoundsAppend(w: World, origin: string, a: seq<Network>, b: seq<Network>)
    ensures Rounds(w, origin, a + b) == Rounds(Rounds(w, origin, a), origin, b)
    decreases |b|
  {
    hide Round;
    if b == [] {
      assert a + b == a;
    } else {
      var n := |b| - 1;
      RoundsAppend(w, origin, a, b[..n]);
      assert (a + b)[..|a + b| - 1] == a + b[..n];
    }
  }

  lemma RoundsNext(w: World, origin: string, os: seq<Network>, o: Network, all: seq<Network>)
    requires all == os + [o]
    ensures Rounds(w, origin, all) == Round(Rounds(w, origin, os), origin, o)
  {
    hide Round;
    assert all[..|all| - 1] == os;
  }

  lemma RoundsFive(w: World, origin: string, o: Network, p: Network, q: Network, r: Network, s: Network)
    ensures Rounds(w, origin, [o, p, q, r, s])
         == Round(Round(Round(Round(Round(w, origin, o), origin, p), origin, q), origin, r), origin, s)
  {
    RoundsOne(w, origin, o);
    hide Round, Rounds;
    RoundsNext(w, origin, [o], p, [o, p]);
    RoundsNext(w, origin, [o, p], q, [o, p, q]);
    RoundsNext(w, origin, [o, p, q], r, [o, p, q, r]);
    RoundsNext(w, origin, [o, p, q, r], s, [o, p, q, r, s]);
  }

  lemma RoundsOne(w: World, origin: string, o: Network)
    ensures Rounds(w, origin, [o]) == Round(w, origin, o)
  {
    hide Round;
  }

  /** A server that accepts everything gets the email in hand, text by text, and the email
      is delivered; the queue is left as it was. */
  lemma CooperativeServer(w: World, origin: string, e: Email, a: Answers)
    requires w.pc == TOP && w.email == e && e.to != "" && !w.valid && w.state != ERR && !w.terminate
    requires Accepting(a)
    ensures var r := Rounds(w, origin, Conversation(origin, e, a));
      && r.state == QUIT && r.queue == w.queue && !InEmail(r)
      && |r.delivered| == |w.delivered| + 1 && w.delivered <= r.delivered
      && r.delivered[|w.delivered|].email == e
  {
    hide Round, Starts, Hears, Rounds, Silently;
    var first := [Hears(a.greeting, ["EHLO " + origin + "\n"])];
    var more := Silently(a.extensions);
    var o, p := Hears(a.last, [TextIn(EIGHTBIT, e)]), Hears(a.sender, [TextIn(MAIL, e)]);
    var q, s := Hears(a.recipient, [TextIn(RCPT, e)]), Hears(a.start, e.body + ["\r\n.\r\n"]);
    var t := Hears(a.done, ["QUIT\n"]);
    assert Conversation(origin, e, a) == first + more + [o, p, q, s, t];
    RoundsAppend(w, origin, first + more, [o, p, q, s, t]);
    RoundsAppend(w, origin, first, more);
    RoundsOne(w, origin, first[0]);
    Greeted(w, origin, e, a.greeting);
    var greeted := Round(w, origin, first[0]);
    Extended(greeted, origin, e, a.extensions);
    var open := Rounds(greeted, origin, more);
    RoundsFive(open, origin, o, p, q, s, t);
    Accepted(open, origin, e, a.last);
    var sender := Round(open, origin, o);
    Accepted(sender, origin, e, a.sender);
    var recipient := Round(sender, origin, p);
    Accepted(recipient, origin, e, a.recipient);
    var start := Round(recipient, origin, q);
    Started(start, origin, e, a.start);
    Done(Round(start, origin, s), origin, e, a.done);
  }

  // ---- Errors ---------------------------------------------------------------

  /** An error is waited out, and then the email is tried again on a new connection; a
      connection that cannot be made is an error too. */
  lemma ErrorsAreWaitedOut(w: World, origin: string, o: Network, p: Network)
    requires w.pc == TOP && w.state == ERR && w.email.to != "" && !w.valid && !w.terminate
    ensures var waiting := Step(w, origin, Handler(o));
      && waiting == w.(pc := WAITING)
      && Step(waiting, origin, Handler(o)) == w.(pc := WORKING, state := DISCONNECTED)
    ensures !p.connects ==>
      Step(w.(pc := WORKING, state := DISCONNECTED), origin, Handler(p)) == w.(line := "")
  {
    hide Receive;
  }

  // ---- The end --------------------------------------------------------------

  /** When it comes to look, the handler stops exactly if terminate() was called, or stop()
      was and every email enqueued was acknowledged. */
  lemma StopsExactly(origin: string, actions: seq<Action>, o: Network)
    requires Run(origin, actions).pc in {TOP, WAITING}
    ensures var w := Run(origin, actions);
      Step(w, origin, Handler(o)).pc == EXITED
      <==> w.terminate || (w.stop && w.queue == [] && Emails(w.delivered) == Real(w.enqueued))
  {
    var w := Run(origin, actions);
    MailConserved(origin, actions);
    assert w.queue == [] ==> Real(w.queue) == [];
    assert Current(w) + [] == Current(w);
    hide Run, Real, Emails, Work;
    if w.queue == [] && InEmail(w) {
      assert |Emails(w.delivered) + Current(w)| == |Emails(w.delivered)| + 1;
    }
    if w.queue == [] && !InEmail(w) {
      assert Emails(w.delivered) + [] == Emails(w.delivered);
    }
  }

  /** terminate() ends it at once, stop() only when nothing is left to do, and start()
      begins again after either. */
  lemma CallsHeeded(w: World, origin: string, o: Network)
    requires w.pc == TOP
    ensures Step(Step(w, origin, Terminate), origin, Handler(o)).pc == EXITED
    ensures Step(Step(w, origin, Stop), origin, Handler(o)).pc == EXITED
       <==> w.terminate || (w.queue == [] && w.email.to == "")
    ensures Step(Step(w.(pc := EXITED), origin, Start), origin, Handler(o)).pc != EXITED
    ensures Step(w, origin, Start) == w
  {
  }
}
