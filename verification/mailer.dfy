// The SMTP client (src/mailer.cpp, include/fastcgi++/mailer.hpp) against any server,
// any network and any callers of queue(), stop(), terminate() and start().

module Mail {
  import opened Common

  /** The body is a list of chunks. */
  datatype Email = Email(to: string, from: string, body: seq<string>)

  const NO_EMAIL := Email("", "", [])

  datatype Smtp =
    | DISCONNECTED | CONNECTED | EHLO | EIGHTBIT | MAIL | RCPT | DATA | DUMP | QUIT | ERR

  /** What happened on a connection; a write gives the number of bytes that were
      accepted, -1 for an error. */
  datatype Event =
    | Reply(line: string)
    | Command(text: string, count: int)
    | Body(email: Email, text: string, count: int)

  type Log = seq<Event>

  /** An email that left the mailer, and what happened on the connection up to then. */
  datatype Delivery = Delivery(email: Email, log: Log)

  /** Where the handler thread is: at the top of its loop holding the mutex, in the
      retry sleep, after the mutex was released, or not running. */
  datatype Pc = TOP | WAITING | WORKING | EXITED

  datatype World = World(
    pc: Pc, queue: seq<Email>, email: Email, state: Smtp, line: string, valid: bool,
    stop: bool, terminate: bool,
    enqueued: seq<Email>, delivered: seq<Delivery>, log: Log)

  /** What the network does in one round of the loop: whether connecting succeeds,
      whether the poll returns this socket, the characters read and whether the last
      one was a line feed, whether the connection is lost, and what each write returns. */
  datatype Network = Network(
    connects: bool, polled: bool, chars: string, ended: bool, lost: bool, counts: seq<int>)
  {
    function Count(k: nat): int {
      if k < |counts| then counts[k] else -1
    }
  }

  predicate InEmail(w: World) {
    w.email.to != ""
  }

  predicate Starts(line: string, code: string) {
    |line| >= |code| && line[..|code|] == code
  }

  predicate Finished(w: World) {
    w.terminate || (w.stop && w.queue == [] && !InEmail(w))
  }

  // ---- The loop -------------------------------------------------------------

  /** Taking the next email, and giving up the mutex. */
  function Take(w: World): World {
    if !InEmail(w) && w.queue != [] then w.(email := w.queue[0], queue := w.queue[1..], pc := WORKING)
    else w.(pc := WORKING)
  }

  function Top(w: World): World {
    if Finished(w) then w.(pc := EXITED)
    else if w.state == ERR then w.(pc := WAITING)
    else Take(w)
  }

  function AfterWait(w: World): World {
    var w := w.(state := DISCONNECTED);
    if Finished(w) then w.(pc := EXITED) else Take(w)
  }

  function Fail(w: World): World {
    w.(valid := false, state := ERR)
  }

  /** A command: the next state if all of it was written. */
  function Send(w: World, text: string, count: int, next: Smtp): World {
    var w := w.(log := w.log + [Command(text, count)]);
    if count == |text| then w.(state := next) else Fail(w)
  }

  const DOT := "\r\n.\r\n"

  function Hello(origin: string): string {
    "EHLO " + origin + "\n"
  }

  function MailFrom(e: Email): string {
    "MAIL FROM: <" + e.from + ">\n"
  }

  function RcptTo(e: Email): string {
    "RCPT TO: <" + e.to + ">\n"
  }

  /** The chunks from k on, then the final dot. */
  function SendBody(w: World, o: Network, k: nat): World
    requires k <= |w.email.body|
    decreases |w.email.body| - k
  {
    if k == |w.email.body| then Send(w, DOT, o.Count(k), DUMP)
    else
      var chunk := w.email.body[k];
      var w := w.(log := w.log + [Body(w.email, chunk, o.Count(k))]);
      if o.Count(k) == |chunk| then SendBody(w, o, k + 1) else Fail(w)
  }

  /** The current email is given up as delivered. */
  function Purge(w: World): World {
    w.(email := NO_EMAIL, delivered := w.delivered + [Delivery(w.email, w.log)])
  }

  /** The reply to EHLO is going on. */
  predicate Continues(line: string) {
    |line| >= 4 && line[..3] == "250" && line[3] == '-'
  }

  // The answer to a line from the server, which is in the log already.

  function AfterConnecting(w: World, origin: string, count: int): World {
    if Starts(w.line, "220 ") then Send(w, Hello(origin), count, EHLO) else Fail(w)
  }

  function AfterHello(w: World): World {
    if w.line == "250-8BITMIME" then w.(state := EIGHTBIT)
    else if Continues(w.line) then w
    else Fail(w)
  }

  function AfterEightBit(w: World, count: int): World {
    if Starts(w.line, "250 ") then Send(w, MailFrom(w.email), count, MAIL)
    else if Continues(w.line) then w
    else Fail(w)
  }

  function AfterMail(w: World, count: int): World {
    if Starts(w.line, "250 ") then Send(w, RcptTo(w.email), count, RCPT) else Fail(w)
  }

  function AfterRcpt(w: World, count: int): World {
    if Starts(w.line, "250 ") then Send(w, "DATA\n", count, DATA) else Fail(w)
  }

  function AfterData(w: World, o: Network): World {
    if Starts(w.line, "354 ") then SendBody(w, o, 0) else Fail(w)
  }

  function AfterDot(w: World, count: int): World {
    if Starts(w.line, "250 ") then Send(Purge(w), "QUIT\n", count, QUIT) else Fail(w)
  }

  function AfterQuit(w: World): World {
    w.(valid := false, state := if Starts(w.line, "221 ") then DISCONNECTED else ERR)
  }

  function Process(w: World, origin: string, o: Network): World {
    match w.state
    case CONNECTED => AfterConnecting(w, origin, o.Count(0))
    case EHLO => AfterHello(w)
    case EIGHTBIT => AfterEightBit(w, o.Count(0))
    case MAIL => AfterMail(w, o.Count(0))
    case RCPT => AfterRcpt(w, o.Count(0))
    case DATA => AfterData(w, o)
    case DUMP => AfterDot(w, o.Count(0))
    case QUIT => AfterQuit(w)
    case ERR => w
    case DISCONNECTED => w
  }

  /** A carriage return before the line feed is dropped. */
  function Trim(line: string): string {
    if line != "" && line[|line| - 1] == '\r' then line[..|line| - 1] else line
  }

  function Connect(w: World, o: Network): World {
    if InEmail(w) && !w.valid then
      if o.connects then w.(line := "", valid := true, state := CONNECTED, log := [])
      else w.(line := "", state := ERR)
    else w
  }

  /** Reading, and the line if it is complete. */
  function Receive(w: World, origin: string, o: Network): World {
    var w := if o.polled then w.(line := w.line + o.chars) else w;
    var w := if o.lost then w.(valid := false) else w;
    if o.polled && o.ended then
      var line := Trim(w.line);
      Process(w.(line := line, log := w.log + [Reply(line)]), origin, o).(line := "")
    else w
  }

  /** One round without the mutex. */
  function Work(w: World, origin: string, o: Network): World {
    var c := Connect(w, o);
    if InEmail(w) && !c.valid then c.(pc := TOP) else Receive(c, origin, o).(pc := TOP)
  }

  // ---- The system -----------------------------------------------------------

  datatype Action =
    | Handler(network: Network)
    | Queue(email: Email)
    | Stop
    | Terminate
    | Start

  /** Every step is taken with the mutex or touches nothing it protects. */
  function Step(w: World, origin: string, a: Action): World {
    match a
    case Queue(email) => w.(queue := w.queue + [email], enqueued := w.enqueued + [email])
    case Stop => w.(stop := true)
    case Terminate => w.(terminate := true)
    case Start => if w.pc == EXITED then w.(pc := TOP, stop := false, terminate := false) else w
    case Handler(o) =>
      match w.pc
      case TOP => Top(w)
      case WAITING => AfterWait(w)
      case WORKING => Work(w, origin, o)
      case EXITED => w
  }

  const INIT := World(EXITED, [], NO_EMAIL, DISCONNECTED, "", false, false, false, [], [], [])

  function Run(origin: string, actions: seq<Action>): World {
    if actions == [] then INIT
    else Step(Run(origin, actions[..|actions| - 1]), origin, actions[|actions| - 1])
  }

  // ---- What a conversation looks like ---------------------------------------

  predicate Replied(log: Log, code: string) {
    log != [] && log[|log| - 1].Reply? && Starts(log[|log| - 1].line, code)
  }

  function Before(log: Log, n: nat): Log
    requires n <= |log|
  {
    log[..|log| - n]
  }

  /** The command was just sent, all of it. */
  predicate Sent(log: Log, text: string) {
    log != [] && log[|log| - 1] == Command(text, |text|)
  }

  /** MAIL for this email was sent. */
  predicate MailSent(log: Log, e: Email) {
    Sent(log, "MAIL FROM: <" + e.from + ">\n")
  }

  /** And accepted, and RCPT sent. */
  predicate RcptSent(log: Log, e: Email) {
    Sent(log, "RCPT TO: <" + e.to + ">\n") && Replied(Before(log, 1), "250 ") && MailSent(Before(log, 2), e)
  }

  predicate DataSent(log: Log, e: Email) {
    Sent(log, "DATA\n") && Replied(Before(log, 1), "250 ") && RcptSent(Before(log, 2), e)
  }

  /** And the server asked for the body. */
  predicate BodyAskedFor(log: Log, e: Email) {
    Replied(log, "354 ") && DataSent(Before(log, 1), e)
  }

  /** The chunks, each written whole. */
  function Chunks(e: Email, k: nat): Log
    requires k <= |e.body|
  {
    seq(k, i requires 0 <= i < |e.body| => Body(e, e.body[i], |e.body[i]|))
  }

  predicate BodySent(log: Log, e: Email, k: nat)
    requires k <= |e.body|
  {
    k <= |log| && log[|log| - k..] == Chunks(e, k) && BodyAskedFor(Before(log, k), e)
  }

  predicate DotSent(log: Log, e: Email) {
    Sent(log, "\r\n.\r\n") && BodySent(Before(log, 1), e, |e.body|)
  }

  /** The whole transaction of one email on one connection, to its last reply. */
  predicate Delivered(d: Delivery) {
    Replied(d.log, "250 ") && DotSent(Before(d.log, 1), d.email)
  }

  /** The server asked for the body of this chunk's email at j, and only chunks followed. */
  predicate AskedAt(log: Log, k: nat, j: nat)
    requires j < k < |log| && log[k].Body?
  {
    BodyAskedFor(log[..j + 1], log[k].email) && forall i | j < i < k :: log[i].Body?
  }

  ghost predicate Asked(log: Log, k: nat)
    requires k < |log| && log[k].Body?
  {
    exists j: nat | j < k :: AskedAt(log, k, j)
  }

  /** Every chunk on the wire follows, on this connection, a 354 for its email, with
      only chunks in between. */
  ghost predicate BodiesAsked(log: Log) {
    forall k: nat | k < |log| && log[k].Body? :: Asked(log, k)
  }

  // ---- Invariants -----------------------------------------------------------

  /** An email is kept if it has a recipient. */
  function Kept(e: Email): seq<Email> {
    if e.to != "" then [e] else []
  }

  /** The emails with a recipient; the others are dropped. */
  function Real(q: seq<Email>): seq<Email> {
    if q == [] then [] else Kept(q[0]) + Real(q[1..])
  }

  function Emails(d: seq<Delivery>): seq<Email> {
    if d == [] then [] else [d[0].email] + Emails(d[1..])
  }

  function Current(w: World): seq<Email> {
    if InEmail(w) then [w.email] else []
  }

  predicate Conserved(w: World) {
    Real(w.enqueued) == Emails(w.delivered) + (Current(w) + Real(w.queue))
  }

  predicate AllDelivered(w: World) {
    forall d <- w.delivered :: Delivered(d)
  }

  /** What the state says about the conversation. */
  predicate Talking(w: World) {
    match w.state
    case MAIL => InEmail(w) && MailSent(w.log, w.email)
    case RCPT => InEmail(w) && RcptSent(w.log, w.email)
    case DATA => InEmail(w) && DataSent(w.log, w.email)
    case DUMP => InEmail(w) && DotSent(w.log, w.email)
    case CONNECTED => InEmail(w)
    case EHLO => InEmail(w)
    case EIGHTBIT => InEmail(w)
    case QUIT => true
    case ERR => true
    case DISCONNECTED => true
  }

  predicate Books(w: World) {
    Conserved(w) && AllDelivered(w)
  }

  ghost predicate Talk(w: World) {
    Talking(w) && BodiesAsked(w.log)
  }

  ghost predicate Inv(w: World) {
    Books(w) && Talk(w)
  }

  predicate SameBooks(w: World, r: World) {
    r.enqueued == w.enqueued && r.delivered == w.delivered && r.email == w.email && r.queue == w.queue
  }

  lemma BooksKept(w: World, r: World)
    requires Books(w) && SameBooks(w, r)
    ensures Books(r)
  {
  }

  lemma {:induction false} RealAppend(q: seq<Email>, r: seq<Email>)
    ensures Real(q + r) == Real(q) + Real(r)
  {
    hide Kept;
    if q == [] {
      assert q + r == r;
    } else {
      RealAppend(q[1..], r);
      assert (q + r)[0] == q[0] && (q + r)[1..] == q[1..] + r;
      Associate(Kept(q[0]), Real(q[1..]), Real(r));
    }
  }

  lemma {:induction false} EmailsAppend(d: seq<Delivery>, one: Delivery)
    ensures Emails(d + [one]) == Emails(d) + [one.email]
  {
    if d == [] {
      assert d + [one] == [one];
      assert [one][1..] == [];
    } else {
      EmailsAppend(d[1..], one);
      assert (d + [one])[1..] == d[1..] + [one];
    }
  }

  lemma AskedOn(log: Log, x: Event, k: nat)
    requires k < |log| && log[k].Body? && Asked(log, k)
    ensures Asked(log + [x], k)
  {
    hide BodyAskedFor;
    var more := log + [x];
    var j: nat :| j < k && AskedAt(log, k, j);
    assert more[..j + 1] == log[..j + 1];
    assert AskedAt(more, k, j);
  }

  lemma TalkOn(log: Log, x: Event)
    requires BodiesAsked(log) && (x.Body? ==> Asked(log + [x], |log|))
    ensures BodiesAsked(log + [x])
  {
    hide Asked;
    forall k: nat | k < |log| && log[k].Body? ensures Asked(log + [x], k) {
      AskedOn(log, x, k);
    }
  }

  lemma SendKeeps(w: World, text: string, count: int, next: Smtp)
    requires BodiesAsked(w.log)
    ensures var r := Send(w, text, count, next);
      && BodiesAsked(r.log) && (r.state == next || r.state == ERR)
      && (r.state != ERR ==> Sent(r.log, text) && Before(r.log, 1) == w.log)
  {
    hide BodiesAsked;
    var x := Command(text, count);
    TalkOn(w.log, x);
    OneOff(w.log, x);
    SendLog(w, text, count, next);
    hide Send, Before;
  }

  lemma SendLog(w: World, text: string, count: int, next: Smtp)
    ensures var r := Send(w, text, count, next);
      && r.log == w.log + [Command(text, count)] && SameBooks(w, r)
      && r.state == (if count == |text| then next else ERR) && (count != |text| ==> !r.valid)
  {
  }

  lemma OneOff(log: Log, x: Event)
    ensures Before(log + [x], 1) == log && (log + [x])[|log|] == x
  {
  }

  lemma ChunkAsked(log: Log, e: Email, k: nat, x: Event)
    requires k < |e.body| && BodySent(log, e, k) && x.Body? && x.email == e
    ensures Asked(log + [x], |log|)
    ensures x == Body(e, e.body[k], |e.body[k]|) ==> BodySent(log + [x], e, k + 1)
  {
    FirstOfChunks(log, e, k, x);
    if x == Body(e, e.body[k], |e.body[k]|) {
      ChunkSent(log, e, k);
    }
  }

  lemma FirstOfChunks(log: Log, e: Email, k: nat, x: Event)
    requires k < |e.body| && BodySent(log, e, k) && x.Body? && x.email == e
    ensures Asked(log + [x], |log|)
  {
    var more, n := log + [x], |log|;
    assert BodyAskedFor(Before(log, k), e) && log[n - k..] == Chunks(e, k);
    assert n - k > 0;
    hide BodyAskedFor, BodySent;
    var j := n - k - 1;
    assert more[..j + 1] == Before(log, k);
    forall i | j < i < n ensures more[i].Body? {
      assert log[n - k..][i - (n - k)] == Chunks(e, k)[i - (n - k)];
    }
    assert AskedAt(more, n, j);
  }

  lemma ChunkSent(log: Log, e: Email, k: nat)
    requires k < |e.body| && BodySent(log, e, k)
    ensures BodySent(log + [Body(e, e.body[k], |e.body[k]|)], e, k + 1)
  {
    hide BodyAskedFor;
    var x, n := Body(e, e.body[k], |e.body[k]|), |log|;
    var more := log + [x];
    assert Chunks(e, k + 1) == Chunks(e, k) + [x];
    assert more[n - k..] == log[n - k..] + [x];
    assert Before(more, k + 1) == Before(log, k);
  }

  lemma {:induction false} SendBodyKeeps(w: World, o: Network, k: nat)
    requires k <= |w.email.body| && BodySent(w.log, w.email, k) && BodiesAsked(w.log)
    ensures var r := SendBody(w, o, k);
      && BodiesAsked(r.log) && (r.state == DUMP || r.state == ERR)
      && (r.state == DUMP ==> DotSent(r.log, w.email))
      && r.email == w.email && r.queue == w.queue && r.enqueued == w.enqueued && r.delivered == w.delivered
    decreases |w.email.body| - k
  {
    hide BodiesAsked, BodySent, Asked;
    if k == |w.email.body| {
      SendKeeps(w, DOT, o.Count(k), DUMP);
    } else {
      hide DotSent;
      var x := Body(w.email, w.email.body[k], o.Count(k));
      ChunkAsked(w.log, w.email, k, x);
      TalkOn(w.log, x);
      if o.Count(k) == |w.email.body[k]| {
        SendBodyKeeps(w.(log := w.log + [x]), o, k + 1);
      }
    }
  }

  /** The line was read, with the log as it was before. */
  function Heard(w: World, line: string): World {
    w.(line := line, log := w.log + [Reply(line)])
  }

  lemma HeardLog(w: World, line: string)
    requires BodiesAsked(w.log)
    ensures BodiesAsked(Heard(w, line).log) && Before(Heard(w, line).log, 1) == w.log
    ensures Heard(w, line).log[|w.log|] == Reply(line)
  {
    TalkOn(w.log, Reply(line));
  }

  lemma TwoOff(log: Log, x: Event, y: Event)
    ensures Before(log + [x] + [y], 1) == log + [x] && Before(log + [x] + [y], 2) == log
    ensures (log + [x])[|log|] == x
  {
  }

  /** A command sent in answer to an accepting reply. */
  lemma AnswerKeeps(w: World, line: string, text: string, count: int, next: Smtp)
    requires BodiesAsked(w.log)
    ensures var r := Send(Heard(w, line), text, count, next);
      && BodiesAsked(r.log) && (r.state == next || r.state == ERR) && SameBooks(w, r)
      && (r.state != ERR ==> r.log == w.log + [Reply(line)] + [Command(text, |text|)])
  {
    hide BodiesAsked, Send;
    TalkOn(w.log, Reply(line));
    SendLog(Heard(w, line), text, count, next);
    SendKeeps(Heard(w, line), text, count, next);
  }

  lemma ConnectingKeeps(w: World, line: string, origin: string, count: int)
    requires Talk(w) && w.state == CONNECTED
    ensures var r := AfterConnecting(Heard(w, line), origin, count); Talk(r) && SameBooks(w, r)
  {
    hide BodiesAsked, Send, Hello;
    TalkOn(w.log, Reply(line));
    AnswerKeeps(w, line, Hello(origin), count, EHLO);
  }

  lemma EightBitKeeps(w: World, line: string, count: int)
    requires Talk(w) && w.state == EIGHTBIT
    ensures var r := AfterEightBit(Heard(w, line), count); Talk(r) && SameBooks(w, r)
  {
    hide BodiesAsked, Send, Starts, Continues;
    TalkOn(w.log, Reply(line));
    AnswerKeeps(w, line, MailFrom(w.email), count, MAIL);
  }

  lemma MailKeeps(w: World, line: string, count: int)
    requires Talk(w) && w.state == MAIL
    ensures var r := AfterMail(Heard(w, line), count); Talk(r) && SameBooks(w, r)
  {
    hide BodiesAsked, Send, MailSent;
    AnswerKeeps(w, line, RcptTo(w.email), count, RCPT);
    TwoOff(w.log, Reply(line), Command(RcptTo(w.email), |RcptTo(w.email)|));
    TalkOn(w.log, Reply(line));
  }

  lemma RcptKeeps(w: World, line: string, count: int)
    requires Talk(w) && w.state == RCPT
    ensures var r := AfterRcpt(Heard(w, line), count); Talk(r) && SameBooks(w, r)
  {
    hide BodiesAsked, Send, RcptSent;
    AnswerKeeps(w, line, "DATA\n", count, DATA);
    TwoOff(w.log, Reply(line), Command("DATA\n", 5));
    TalkOn(w.log, Reply(line));
  }

  lemma DataKeeps(w: World, line: string, o: Network)
    requires Talk(w) && w.state == DATA
    ensures var r := AfterData(Heard(w, line), o); Talk(r) && SameBooks(w, r)
  {
    hide BodiesAsked, DataSent, DotSent, SendBody;
    var h := Heard(w, line);
    HeardLog(w, line);
    if Starts(line, "354 ") {
      assert h.log[|h.log| - 0..] == [] == Chunks(w.email, 0);
      assert Before(h.log, 0) == h.log;
      SendBodyKeeps(h, o, 0);
    }
  }

  lemma PurgeKeeps(w: World, line: string)
    requires Inv(w) && w.state == DUMP && Starts(line, "250 ")
    ensures var r := Purge(Heard(w, line));
      Books(r) && BodiesAsked(r.log)
  {
    var h := Heard(w, line);
    HeardLog(w, line);
    var d := Delivery(w.email, h.log);
    EmailsAppend(w.delivered, d);
    hide Emails, Real, BodiesAsked, DotSent;
    Associate(Emails(w.delivered), [w.email], Real(w.queue));
    assert [] + Real(w.queue) == Real(w.queue);
    assert Delivered(d);
  }

  lemma {:induction false} DotKeeps(w: World, line: string, count: int)
    requires Inv(w) && w.state == DUMP
    ensures Inv(AfterDot(Heard(w, line), count))
  {
    hide BodiesAsked, Send, Purge, Starts, Conserved, AllDelivered, DotSent;
    TalkOn(w.log, Reply(line));
    if Starts(line, "250 ") {
      PurgeKeeps(w, line);
      QuitKeeps(Purge(Heard(w, line)), count);
    } else {
      BooksKept(w, AfterDot(Heard(w, line), count));
    }
  }

  lemma QuitKeeps(w: World, count: int)
    requires Books(w) && BodiesAsked(w.log)
    ensures Inv(Send(w, "QUIT\n", count, QUIT))
  {
    hide BodiesAsked, Conserved, AllDelivered;
    var r := Send(w, "QUIT\n", count, QUIT);
    SendKeeps(w, "QUIT\n", count, QUIT);
    BooksKept(w, r);
  }

  lemma HelloKeeps(w: World, line: string)
    requires Talk(w) && w.state == EHLO
    ensures var r := AfterHello(Heard(w, line)); Talk(r) && SameBooks(w, r)
  {
    hide BodiesAsked, Starts, Continues;
    TalkOn(w.log, Reply(line));
  }

  /** Where no email is in transfer. */
  lemma IdleKeeps(w: World, line: string, origin: string, o: Network)
    requires Talk(w) && (w.state == QUIT || w.state == ERR || w.state == DISCONNECTED)
    ensures var r := Process(Heard(w, line), origin, o); Talk(r) && SameBooks(w, r)
  {
    hide BodiesAsked, Starts;
    TalkOn(w.log, Reply(line));
  }

  lemma ProcessKeeps(w: World, line: string, origin: string, o: Network)
    requires Inv(w)
    ensures Inv(Process(Heard(w, line), origin, o))
  {
    if w.state == DUMP {
      DotKeeps(w, line, o.Count(0));
    } else {
      TalkKept(w, line, origin, o);
      BooksKept(w, Process(Heard(w, line), origin, o));
    }
  }

  lemma TalkKept(w: World, line: string, origin: string, o: Network)
    requires Talk(w) && w.state != DUMP
    ensures var r := Process(Heard(w, line), origin, o); Talk(r) && SameBooks(w, r)
  {
    match w.state {
      case CONNECTED => ConnectingKeeps(w, line, origin, o.Count(0));
      case EIGHTBIT => EightBitKeeps(w, line, o.Count(0));
      case MAIL => MailKeeps(w, line, o.Count(0));
      case RCPT => RcptKeeps(w, line, o.Count(0));
      case DATA => DataKeeps(w, line, o);
      case EHLO => HelloKeeps(w, line);
      case QUIT => IdleKeeps(w, line, origin, o);
      case ERR => IdleKeeps(w, line, origin, o);
      case DISCONNECTED => IdleKeeps(w, line, origin, o);
    }
  }

  lemma ConnectKeeps(w: World, o: Network)
    requires Inv(w)
    ensures Inv(Connect(w, o))
  {
  }

  lemma ReceiveKeeps(w: World, origin: string, o: Network)
    requires Inv(w)
    ensures Inv(Receive(w, origin, o))
  {
    var r := if o.polled then w.(line := w.line + o.chars) else w;
    r := if o.lost then r.(valid := false) else r;
    assert Inv(r);
    if o.polled && o.ended {
      ProcessKeeps(r, Trim(r.line), origin, o);
    }
  }

  lemma {:induction false} WorkKeeps(w: World, origin: string, o: Network)
    requires Inv(w)
    ensures Inv(Work(w, origin, o))
  {
    ConnectKeeps(w, o);
    ReceiveKeeps(Connect(w, o), origin, o);
  }

  lemma TakeKeeps(w: World)
    requires Inv(w)
    ensures Inv(Take(w))
  {
    if !InEmail(w) && w.queue != [] {
      assert [] + Real(w.queue) == Real(w.queue);
    }
  }

  lemma QueueKeeps(w: World, email: Email)
    requires Conserved(w)
    ensures Conserved(w.(queue := w.queue + [email], enqueued := w.enqueued + [email]))
  {
    RealAppend(w.queue, [email]);
    RealAppend(w.enqueued, [email]);
    var e := Real([email]);
    Associate(Emails(w.delivered), Current(w) + Real(w.queue), e);
    Associate(Current(w), Real(w.queue), e);
  }

  lemma {:induction false} HandlerKeeps(w: World, origin: string, o: Network)
    requires Inv(w)
    ensures Inv(Step(w, origin, Handler(o)))
  {
    match w.pc {
      case TOP => TakeKeeps(w);
      case WAITING => TakeKeeps(w.(state := DISCONNECTED));
      case WORKING => WorkKeeps(w, origin, o);
      case EXITED =>
    }
  }

  lemma {:induction false} StepKeeps(w: World, origin: string, a: Action)
    requires Inv(w)
    ensures Inv(Step(w, origin, a))
  {
    match a {
      case Queue(email) => QueueKeeps(w, email);
      case Handler(o) => HandlerKeeps(w, origin, o);
      case Stop =>
      case Terminate =>
      case Start =>
    }
  }

  lemma {:induction false} RunKeeps(origin: string, actions: seq<Action>)
    ensures Inv(Run(origin, actions))
  {
    if actions != [] {
      var n := |actions| - 1;
      RunKeeps(origin, actions[..n]);
      StepKeeps(Run(origin, actions[..n]), origin, actions[n]);
    }
  }

  // ---- Theorems -------------------------------------------------------------

  /** Whatever the server and the network do: the emails that were acknowledged, then
      the current one, then the queue, are the emails that were enqueued, in order
      (those without a recipient left out). */
  lemma {:induction false} MailConserved(origin: string, actions: seq<Action>)
    ensures var w := Run(origin, actions);
      Real(w.enqueued) == Emails(w.delivered) + (Current(w) + Real(w.queue))
  {
    RunKeeps(origin, actions);
  }

  /** An email left only after the server answered 250 to its final dot, everything of
      its transaction having been written on that connection and accepted. */
  lemma {:induction false} MailDelivered(origin: string, actions: seq<Action>)
    ensures forall d <- Run(origin, actions).delivered :: Delivered(d)
  {
    RunKeeps(origin, actions);
  }

  /** Bytes of a body are written only after a 354 on the same connection, to the
      server that accepted this email's sender and recipient. */
  lemma {:induction false} BodyOnlyWhenAsked(origin: string, actions: seq<Action>)
    ensures BodiesAsked(Run(origin, actions).log)
  {
    RunKeeps(origin, actions);
  }

  lemma WorkGoesOn(w: World, origin: string, o: Network)
    ensures Work(w, origin, o).pc == TOP
  {
    hide Connect, Receive;
  }

  lemma NothingLeft(w: World)
    requires w.queue == [] && !InEmail(w)
    ensures Emails(w.delivered) + (Current(w) + Real(w.queue)) == Emails(w.delivered)
  {
    hide Emails;
  }

  /** The handler stops of its own accord, without terminate(), only when every email
      enqueued was acknowledged. */
  lemma {:induction false} StopsWhenDone(origin: string, actions: seq<Action>, o: Network)
    requires var w := Run(origin, actions);
      w.pc != EXITED && Step(w, origin, Handler(o)).pc == EXITED && !w.terminate
    ensures var w := Step(Run(origin, actions), origin, Handler(o));
      w.queue == [] && !InEmail(w) && Emails(w.delivered) == Real(w.enqueued)
  {
    MailConserved(origin, actions);
    var w := Run(origin, actions);
    WorkGoesOn(w, origin, o);
    hide Run, Real, Emails, Work;
    assert Finished(w);
    NothingLeft(w);
  }
}

/** The class that takes these steps. */
module Mailing {
  import opened Mail

  class Mailer {
    const origin: string
    var emails: seq<Email>  // m_queue
    var email: Email
    var state: Smtp
    var line: string
    var valid: bool         // m_socket.valid()
    var stopping: bool
    var terminating: bool
    var pc: Pc              // m_thread
    ghost var enqueued: seq<Email>
    ghost var delivered: seq<Delivery>
    ghost var log: Log

    ghost function Abs(): World
      reads this
    {
      World(pc, emails, email, state, line, valid, stopping, terminating, enqueued, delivered, log)
    }

    constructor (o: string)
      ensures Abs() == INIT && origin == o
    {
      origin := o;
      emails, email, state, line, valid := [], NO_EMAIL, DISCONNECTED, "", false;
      stopping, terminating := false, false;
      pc, enqueued, delivered, log := EXITED, [], [], [];
    }

    method Queue(e: Email)
      modifies this
      ensures Abs() == Step(old(Abs()), origin, Action.Queue(e))
    {
      emails := emails + [e];
      enqueued := enqueued + [e];
    }

    method Stop()
      modifies this
      ensures Abs() == Step(old(Abs()), origin, Action.Stop)
    {
      stopping := true;
    }

    method Terminate()
      modifies this
      ensures Abs() == Step(old(Abs()), origin, Action.Terminate)
    {
      terminating := true;
    }

    method Start()
      modifies this
      ensures Abs() == Step(old(Abs()), origin, Action.Start)
    {
      if pc == EXITED {
        stopping, terminating := false, false;
        pc := TOP;
      }
    }

    predicate InEmail()
      reads this
    {
      email.to != ""
    }

    /** The next email; the mutex is given up. */
    method Take()
      modifies this
      ensures Abs() == Mail.Take(old(Abs()))
    {
      if !InEmail() && emails != [] {
        email := emails[0];
        emails := emails[1..];
      }
      pc := WORKING;
    }

    /** The top of the handler's loop. */
    method LoopTop()
      modifies this
      ensures Abs() == Top(old(Abs()))
    {
      if terminating || (stopping && emails == [] && !InEmail()) {
        pc := EXITED;
      } else if state == ERR {
        pc := WAITING;
      } else {
        Take();
      }
    }

    /** After the retry sleep. */
    method Wake()
      modifies this
      ensures Abs() == AfterWait(old(Abs()))
    {
      state := DISCONNECTED;
      if terminating || (stopping && emails == [] && !InEmail()) {
        pc := EXITED;
      } else {
        Take();
      }
    }

    method Fail()
      modifies this
      ensures Abs() == Mail.Fail(old(Abs()))
    {
      valid := false;
      state := ERR;
    }

    method Send(text: string, count: int, next: Smtp)
      modifies this
      ensures Abs() == Mail.Send(old(Abs()), text, count, next)
    {
      log := log + [Command(text, count)];
      if count != |text| {
        Fail();
      } else {
        state := next;
      }
    }

    method SendBody(o: Network)
      modifies this
      ensures Abs() == Mail.SendBody(old(Abs()), o, 0)
    {
      var success, k := true, 0;
      while k < |email.body|
        invariant 0 <= k <= |email.body| && success
        invariant Mail.SendBody(old(Abs()), o, 0) == Mail.SendBody(Abs(), o, k)
      {
        log := log + [Body(email, email.body[k], o.Count(k))];
        if o.Count(k) != |email.body[k]| {
          success := false;
          break;
        }
        k := k + 1;
      }
      if success {
        Send(DOT, o.Count(k), DUMP);
      } else {
        Fail();
      }
    }

    method Purge()
      modifies this
      ensures Abs() == Mail.Purge(old(Abs()))
    {
      delivered := delivered + [Delivery(email, log)];
      email := NO_EMAIL;
    }

    /** The answer to a line, by state. */
    method Process(o: Network)
      modifies this
      ensures Abs() == Mail.Process(old(Abs()), origin, o)
    {
      match state {
        case CONNECTED =>
          if Starts(line, "220 ") { Send(Hello(origin), o.Count(0), EHLO); } else { Fail(); }
        case EHLO =>
          if line == "250-8BITMIME" {
            state := EIGHTBIT;
          } else if !Continues(line) {
            Fail();
          }
        case EIGHTBIT =>
          if Starts(line, "250 ") {
            Send(MailFrom(email), o.Count(0), MAIL);
          } else if !Continues(line) {
            Fail();
          }
        case MAIL =>
          if Starts(line, "250 ") { Send(RcptTo(email), o.Count(0), RCPT); } else { Fail(); }
        case RCPT =>
          if Starts(line, "250 ") { Send("DATA\n", o.Count(0), DATA); } else { Fail(); }
        case DATA =>
          if Starts(line, "354 ") { SendBody(o); } else { Fail(); }
        case DUMP =>
          if Starts(line, "250 ") {
            Purge();
            Send("QUIT\n", o.Count(0), QUIT);
          } else {
            Fail();
          }
        case QUIT =>
          state := if Starts(line, "221 ") then DISCONNECTED else ERR;
          valid := false;
        case ERR =>
        case DISCONNECTED =>
      }
    }

    method Receive(o: Network)
      modifies this
      ensures Abs() == Mail.Receive(old(Abs()), origin, o)
    {
      if o.polled { line := line + o.chars; }
      if o.lost { valid := false; }
      if o.polled && o.ended {
        line := Trim(line);
        log := log + [Reply(line)];
        Process(o);
        line := "";
      }
    }

    /** A round of the loop without the mutex. */
    method Work(o: Network)
      modifies this
      ensures Abs() == Mail.Work(old(Abs()), origin, o)
    {
      hide Mail.Receive;
      if InEmail() && !valid {
        line := "";
        if !o.connects {
          state := ERR;
          pc := TOP;
          return;
        }
        valid := true;
        log := [];
        state := CONNECTED;
      }
      Receive(o);
      pc := TOP;
    }
  }
}
