// The life of one FastCGI request (src/request.cpp, include/fastcgi++/request.hpp):
// a state machine PARAMS -> INPUT -> OUTPUT driven by the messages queued for it.

module RequestMachine {
  import opened BigEndian

  datatype RecordKind =
    | BeginRequest | AbortRequest | EndRequestRecord | Params | Input | Output
    | Err | Data | GetValues | GetValuesResult | UnknownType | Unlisted(code: byte)

  datatype Role = Responder | Authorizer | Filter | UnlistedRole(code: nat)

  datatype Status = RequestComplete | UnknownRole

  /** A message of type 0 carries a FastCGI record; any other type comes from a callback. */
  datatype Message = Record(kind: RecordKind, content: bytes) | Callback(tag: int)

  /** What the request hands to m_send: an error page, other output, or END_REQUEST. */
  datatype Sent = Page(code: nat) | Stream(data: bytes) | EndRequest(status: Status)

  /** What code outside the library decides while one message is handled: the
      CONTENT_LENGTH a PARAMS record sets, the verdicts of the virtual functions,
      whether the post data has a type the library parses, and the output written. */
  datatype Choice = Choice(
    contentLength: nat,
    paramsContinue: bool,
    inProcessor: bool,
    knownContentType: bool,
    responseDone: bool,
    output: seq<bytes>)

  datatype Req = Req(
    role: Role,
    maxPostSize: nat,
    state: RecordKind,
    status: Status,
    contentLength: nat,
    postBuffer: bytes,
    sent: seq<Sent>)

  function Fresh(role: Role, maxPostSize: nat): Req {
    Req(role, maxPostSize, Params, RequestComplete, 0, [], [])
  }

  function Streams(output: seq<bytes>): (s: seq<Sent>)
    ensures forall x <- s :: x.Stream?
  {
    if output == [] then [] else [Stream(output[0])] + Streams(output[1..])
  }

  function Write(q: Req, more: seq<Sent>): Req {
    q.(sent := q.sent + more)
  }

  /** complete(): flush, then one END_REQUEST carrying the status. */
  function Finish(q: Req, more: seq<Sent>): (Req, bool) {
    (Write(q, more + [EndRequest(q.status)]), true)
  }

  function Respond(q: Req, c: Choice): (Req, bool) {
    if c.responseDone then Finish(q, Streams(c.output)) else (Write(q, Streams(c.output)), false)
  }

  function HandleParams(q: Req, content: bytes, c: Choice): (Req, bool) {
    if q.role != Responder && q.role != Authorizer then
      Finish(q.(status := UnknownRole), [Page(500)])
    else if content != [] then
      (q.(contentLength := c.contentLength), false)
    else if q.contentLength > q.maxPostSize then
      Finish(q, [Page(413)])
    else if c.paramsContinue then
      (Write(q.(state := Input), Streams(c.output)), false)
    else
      Finish(q.(state := Input), Streams(c.output))
  }

  function HandleInput(q: Req, content: bytes, c: Choice): (Req, bool) {
    if content == [] then
      if c.inProcessor || q.postBuffer == [] || c.knownContentType then
        Respond(q.(postBuffer := [], state := Output), c)
      else
        Finish(q, [Page(415)])
    else if |q.postBuffer| + |content| > q.contentLength then
      Finish(q, [Page(413)])
    else
      (Write(q.(postBuffer := q.postBuffer + content), Streams(c.output)), false)
  }

  /** The loop body of handler(): the new request and whether it jumped to exit
      with the queue lock released. */
  function Handle(q: Req, m: Message, c: Choice): (Req, bool) {
    match m
    case Callback(_) => Respond(q, c)
    case Record(kind, content) =>
      if kind == AbortRequest then Finish(q, [])
      else if kind != q.state then Finish(q, [Page(500)])
      else if q.state == Params then HandleParams(q, content, c)
      else if q.state == Input then HandleInput(q, content, c)
      else Finish(q, [Page(500)])
  }

  /** The request after a run of messages; handling stops with the request. */
  function Life(q: Req, ms: seq<Message>, cs: seq<Choice>): (Req, bool)
    requires |ms| == |cs|
  {
    if ms == [] then (q, false)
    else
      var n := |ms| - 1;
      var (q', ended) := Life(q, ms[..n], cs[..n]);
      if ended then (q', true) else Handle(q', ms[n], cs[n])
  }

  // ---- What a request keeps -------------------------------------------------

  predicate NoEnd(sent: seq<Sent>) {
    forall x <- sent :: !x.EndRequest?
  }

  /** END_REQUEST was sent, once, and nothing after it. */
  predicate EndsOnce(sent: seq<Sent>) {
    sent != [] && sent[|sent| - 1].EndRequest? && NoEnd(sent[..|sent| - 1])
  }

  function Rank(k: RecordKind): int {
    match k case Params => 0 case Input => 1 case Output => 2 case _ => -1
  }

  predicate Bounded(q: Req) {
    && Rank(q.state) >= 0
    && (q.state != Params ==> |q.postBuffer| <= q.contentLength <= q.maxPostSize)
    && (q.state == Params ==> q.postBuffer == [])
  }

  predicate Open(q: Req) {
    Bounded(q) && NoEnd(q.sent)
  }

  predicate Closed(q: Req) {
    Bounded(q) && EndsOnce(q.sent)
  }

  lemma FinishCloses(q: Req, more: seq<Sent>)
    requires Open(q) && NoEnd(more)
    ensures Closed(Finish(q, more).0)
  {
    var s := q.sent + (more + [EndRequest(q.status)]);
    assert s[..|s| - 1] == q.sent + more;
  }

  /** What handling one message does to q: END_REQUEST goes out exactly when the
      handler gives the lock up, as the last record; the state never moves back. */
  ghost predicate Keeps(q: Req, q': Req, ended: bool) {
    && (if ended then Closed(q') else Open(q'))
    && Rank(q.state) <= Rank(q'.state) <= Rank(q.state) + 1
    && q'.role == q.role && q'.maxPostSize == q.maxPostSize
    && (q.state != Params ==> q'.contentLength == q.contentLength)
    && q.sent <= q'.sent
  }

  lemma RespondKeeps(q: Req, c: Choice)
    requires Open(q)
    ensures Keeps(q, Respond(q, c).0, Respond(q, c).1)
  {
    if c.responseDone {
      FinishCloses(q, Streams(c.output));
    }
  }

  lemma HandleParamsKeeps(q: Req, content: bytes, c: Choice)
    requires Open(q) && q.state == Params
    ensures Keeps(q, HandleParams(q, content, c).0, HandleParams(q, content, c).1)
  {
    if q.role != Responder && q.role != Authorizer {
      FinishCloses(q.(status := UnknownRole), [Page(500)]);
    } else if content != [] {
    } else if q.contentLength > q.maxPostSize {
      FinishCloses(q, [Page(413)]);
    } else if !c.paramsContinue {
      FinishCloses(q.(state := Input), Streams(c.output));
    }
  }

  lemma HandleInputKeeps(q: Req, content: bytes, c: Choice)
    requires Open(q) && q.state == Input
    ensures Keeps(q, HandleInput(q, content, c).0, HandleInput(q, content, c).1)
  {
    if content == [] {
      if c.inProcessor || q.postBuffer == [] || c.knownContentType {
        RespondKeeps(q.(postBuffer := [], state := Output), c);
      } else {
        FinishCloses(q, [Page(415)]);
      }
    } else if |q.postBuffer| + |content| > q.contentLength {
      FinishCloses(q, [Page(413)]);
    }
  }

  lemma HandleKeeps(q: Req, m: Message, c: Choice)
    requires Open(q)
    ensures Keeps(q, Handle(q, m, c).0, Handle(q, m, c).1)
  {
    if m.Callback? {
      RespondKeeps(q, c);
    } else if m.kind == AbortRequest {
      FinishCloses(q, []);
    } else if m.kind != q.state {
      FinishCloses(q, [Page(500)]);
    } else if q.state == Params {
      HandleParamsKeeps(q, m.content, c);
    } else if q.state == Input {
      HandleInputKeeps(q, m.content, c);
    } else {
      FinishCloses(q, [Page(500)]);
    }
  }

  /** Over a whole life, for any messages and any behaviour of user code:
      END_REQUEST is sent at most once, it is the last record, and it is there
      exactly when some message ended the request. */
  lemma {:induction false} LifeOfRequest(role: Role, maxPostSize: nat, ms: seq<Message>, cs: seq<Choice>)
    requires |ms| == |cs|
    ensures var (q, ended) := Life(Fresh(role, maxPostSize), ms, cs);
      if ended then Closed(q) else Open(q)
  {
    if ms != [] {
      var n := |ms| - 1;
      LifeOfRequest(role, maxPostSize, ms[..n], cs[..n]);
      var (q, ended) := Life(Fresh(role, maxPostSize), ms[..n], cs[..n]);
      if !ended {
        HandleKeeps(q, ms[n], cs[n]);
      }
    }
  }

  /** late is a later point of the life early is a point of. */
  ghost predicate Forward(early: (Req, bool), late: (Req, bool)) {
    && Rank(early.0.state) <= Rank(late.0.state)
    && early.0.sent <= late.0.sent
    && (early.0.state != Params ==> early.0.contentLength == late.0.contentLength)
    && (early.0.state != Params ==> late.0.state != Params)
    && (early.1 ==> late == early)
  }

  lemma {:induction false} LifeStep(role: Role, maxPostSize: nat, ms: seq<Message>, cs: seq<Choice>)
    requires |ms| == |cs| && ms != []
    ensures
      var q, n := Fresh(role, maxPostSize), |ms| - 1;
      Forward(Life(q, ms[..n], cs[..n]), Life(q, ms, cs))
  {
    var n := |ms| - 1;
    LifeOfRequest(role, maxPostSize, ms[..n], cs[..n]);
    var (q, ended) := Life(Fresh(role, maxPostSize), ms[..n], cs[..n]);
    if !ended {
      HandleKeeps(q, ms[n], cs[n]);
    }
  }

  /** The state only moves PARAMS -> INPUT -> OUTPUT, records once sent stay sent,
      and after the request ended nothing changes any more. */
  lemma {:induction false} LifeMovesForward(role: Role, maxPostSize: nat, ms: seq<Message>, cs: seq<Choice>, i: nat)
    requires |ms| == |cs| && i <= |ms|
    ensures
      var q := Fresh(role, maxPostSize);
      Forward(Life(q, ms[..i], cs[..i]), Life(q, ms, cs))
    decreases |ms|
  {
    if i == |ms| {
      assert ms[..i] == ms && cs[..i] == cs;
    } else {
      var n := |ms| - 1;
      LifeMovesForward(role, maxPostSize, ms[..n], cs[..n], i);
      assert ms[..n][..i] == ms[..i] && cs[..n][..i] == cs[..i];
      LifeStep(role, maxPostSize, ms, cs);
    }
  }

  // ---- What the messages alone say ------------------------------------------

  /** The kind of record that is expected after these messages. */
  function Expected(ms: seq<Message>): RecordKind {
    if Record(Input, []) in ms then Output else if Record(Params, []) in ms then Input else Params
  }

  /** The contents of all INPUT records, in order. */
  function Posted(ms: seq<Message>): bytes {
    if ms == [] then []
    else
      var last := ms[|ms| - 1];
      Posted(ms[..|ms| - 1]) + (if last.Record? && last.kind == Input then last.content else [])
  }

  /** The content length that the last PARAMS record with content set. */
  function Announced(ms: seq<Message>, cs: seq<Choice>): nat
    requires |ms| == |cs|
  {
    if ms == [] then 0
    else
      var n := |ms| - 1;
      if ms[n].Record? && ms[n].kind == Params && ms[n].content != [] then cs[n].contentLength
      else Announced(ms[..n], cs[..n])
  }

  /** Why a message ends the request. */
  datatype Cause = Aborted | OutOfOrder | RoleUnknown | TooBig | Declined | TypeUnknown | Answered

  /** Does message m, after messages ms, end the request for this reason? */
  predicate EndsBy(cause: Cause, role: Role, maxPostSize: nat, ms: seq<Message>, cs: seq<Choice>, m: Message, c: Choice)
    requires |ms| == |cs|
  {
    match cause
    case Aborted => m.Record? && m.kind == AbortRequest
    case OutOfOrder => m.Record? && m.kind != AbortRequest && (m.kind != Expected(ms) || m.kind == Output)
    case RoleUnknown => m.Record? && m.kind == Params == Expected(ms) && role !in {Responder, Authorizer}
    case TooBig =>
      || (m == Record(Params, []) && Expected(ms) == Params && role in {Responder, Authorizer}
          && Announced(ms, cs) > maxPostSize)
      || (m.Record? && m.kind == Input == Expected(ms) && m.content != []
          && |Posted(ms + [m])| > Announced(ms, cs))
    case Declined =>
      m == Record(Params, []) && Expected(ms) == Params && role in {Responder, Authorizer}
      && Announced(ms, cs) <= maxPostSize && !c.paramsContinue
    case TypeUnknown =>
      m == Record(Input, []) && Expected(ms) == Input && Posted(ms) != [] && !c.inProcessor && !c.knownContentType
    case Answered =>
      c.responseDone
      && (m.Callback?
          || (m == Record(Input, []) && Expected(ms) == Input
              && (Posted(ms) == [] || c.inProcessor || c.knownContentType)))
  }

  /** What goes out before END_REQUEST: a page for a mistake of the client, else what
      user code wrote. */
  function LastWords(cause: Cause, c: Choice): seq<Sent> {
    match cause
    case Aborted => []
    case OutOfOrder => [Page(500)]
    case RoleUnknown => [Page(500)]
    case TooBig => [Page(413)]
    case TypeUnknown => [Page(415)]
    case Declined => Streams(c.output)
    case Answered => Streams(c.output)
  }

  function StatusOf(cause: Cause): Status {
    if cause == RoleUnknown then UnknownRole else RequestComplete
  }

  /** What goes out for a message that does not end the request. */
  function Meanwhile(m: Message, c: Choice): seq<Sent> {
    if m.Record? && m.kind == Params && m.content != [] then [] else Streams(c.output)
  }

  /** The request holds what the messages say. */
  predicate Remembers(q: Req, role: Role, maxPostSize: nat, ms: seq<Message>, cs: seq<Choice>)
    requires |ms| == |cs|
  {
    && q.role == role && q.maxPostSize == maxPostSize && q.status == RequestComplete
    && q.state == Expected(ms) && q.contentLength == Announced(ms, cs)
    && q.postBuffer == if Expected(ms) == Output then [] else Posted(ms)
  }

  lemma OneMoreMessage(ms: seq<Message>, cs: seq<Choice>, m: Message, c: Choice)
    requires |ms| == |cs|
    ensures Posted(ms + [m]) == Posted(ms) + if m.Record? && m.kind == Input then m.content else []
    ensures Announced(ms + [m], cs + [c])
         == if m.Record? && m.kind == Params && m.content != [] then c.contentLength else Announced(ms, cs)
    ensures Expected(ms + [m]) == if m == Record(Input, []) then Output
      else if m == Record(Params, []) && Expected(ms) != Output then Input else Expected(ms)
  {
    assert (ms + [m])[..|ms|] == ms && (cs + [c])[..|ms|] == cs;
    assert forall x :: x in ms + [m] <==> x in ms || x == m;
  }

  /** One message: which ones end the request, and what goes out. */
  lemma HandleDecides(q: Req, role: Role, maxPostSize: nat, ms: seq<Message>, cs: seq<Choice>, m: Message, c: Choice)
    requires |ms| == |cs| && Remembers(q, role, maxPostSize, ms, cs)
    ensures var (q', ended) := Handle(q, m, c);
      && (ended <==> exists cause :: EndsBy(cause, role, maxPostSize, ms, cs, m, c))
      && (!ended ==> q'.sent == q.sent + Meanwhile(m, c))
      && (forall cause | EndsBy(cause, role, maxPostSize, ms, cs, m, c) ::
            q'.sent == q.sent + (LastWords(cause, c) + [EndRequest(StatusOf(cause))]))
  {
    forall cause | EndsBy(cause, role, maxPostSize, ms, cs, m, c) ensures cause == CauseOf(q, m, c) {
      CauseIs(q, role, maxPostSize, ms, cs, m, c, cause);
    }
    HandleEnds(q, role, maxPostSize, ms, cs, m, c);
    hide EndsBy, Handle, CauseOf, LastWords, Meanwhile, Remembers;
    if Handle(q, m, c).1 {
      assert EndsBy(CauseOf(q, m, c), role, maxPostSize, ms, cs, m, c);
    }
  }

  lemma CauseIs(q: Req, role: Role, maxPostSize: nat, ms: seq<Message>, cs: seq<Choice>, m: Message, c: Choice,
                cause: Cause)
    requires |ms| == |cs| && Remembers(q, role, maxPostSize, ms, cs)
    requires EndsBy(cause, role, maxPostSize, ms, cs, m, c)
    ensures cause == CauseOf(q, m, c)
  {
    hide Expected, Posted, Announced;
  }

  /** The message is answered and ends the request exactly if its cause says so. */
  ghost predicate Answers(q: Req, role: Role, maxPostSize: nat, ms: seq<Message>, cs: seq<Choice>, m: Message,
                          c: Choice, r: (Req, bool))
    requires |ms| == |cs|
  {
    var cause := CauseOf(q, m, c);
    && (r.1 <==> EndsBy(cause, role, maxPostSize, ms, cs, m, c))
    && r.0.sent == q.sent + if r.1 then LastWords(cause, c) + [EndRequest(StatusOf(cause))] else Meanwhile(m, c)
  }

  lemma ParamsAnswers(q: Req, role: Role, maxPostSize: nat, ms: seq<Message>, cs: seq<Choice>, m: Message, c: Choice)
    requires |ms| == |cs| && Remembers(q, role, maxPostSize, ms, cs)
    requires m.Record? && m.kind == Params == q.state
    ensures Answers(q, role, maxPostSize, ms, cs, m, c, HandleParams(q, m.content, c))
  {
    hide Expected, Posted, Announced, Streams;
    assert q.sent + [] == q.sent;
  }

  lemma InputGoesOn(q: Req, role: Role, maxPostSize: nat, ms: seq<Message>, cs: seq<Choice>, m: Message, c: Choice)
    requires |ms| == |cs| && Remembers(q, role, maxPostSize, ms, cs)
    requires m.Record? && m.kind == Input == q.state && m.content != []
    ensures Answers(q, role, maxPostSize, ms, cs, m, c, HandleInput(q, m.content, c))
  {
    OneMoreMessage(ms, cs, m, c);
    assert |Posted(ms + [m])| == |q.postBuffer| + |m.content|;
    hide Expected, Posted, Announced, Streams;
  }

  lemma InputIsOver(q: Req, role: Role, maxPostSize: nat, ms: seq<Message>, cs: seq<Choice>, m: Message, c: Choice)
    requires |ms| == |cs| && Remembers(q, role, maxPostSize, ms, cs)
    requires m.Record? && m.kind == Input == q.state && m.content == []
    ensures Answers(q, role, maxPostSize, ms, cs, m, c, HandleInput(q, m.content, c))
  {
    assert m == Record(Input, []) && q.postBuffer == Posted(ms);
    hide Expected, Posted, Announced, Streams;
  }

  lemma InputAnswers(q: Req, role: Role, maxPostSize: nat, ms: seq<Message>, cs: seq<Choice>, m: Message, c: Choice)
    requires |ms| == |cs| && Remembers(q, role, maxPostSize, ms, cs)
    requires m.Record? && m.kind == Input == q.state
    ensures Answers(q, role, maxPostSize, ms, cs, m, c, HandleInput(q, m.content, c))
  {
    hide Answers, HandleInput, Remembers;
    if m.content == [] {
      InputIsOver(q, role, maxPostSize, ms, cs, m, c);
    } else {
      InputGoesOn(q, role, maxPostSize, ms, cs, m, c);
    }
  }

  lemma OthersAnswer(q: Req, role: Role, maxPostSize: nat, ms: seq<Message>, cs: seq<Choice>, m: Message, c: Choice)
    requires |ms| == |cs| && Remembers(q, role, maxPostSize, ms, cs)
    requires m.Record? ==> m.kind == AbortRequest || m.kind != q.state || q.state == Output
    ensures Answers(q, role, maxPostSize, ms, cs, m, c, Handle(q, m, c))
  {
    hide Posted, Announced, Streams;
  }

  lemma HandleEnds(q: Req, role: Role, maxPostSize: nat, ms: seq<Message>, cs: seq<Choice>, m: Message, c: Choice)
    requires |ms| == |cs| && Remembers(q, role, maxPostSize, ms, cs)
    ensures Answers(q, role, maxPostSize, ms, cs, m, c, Handle(q, m, c))
  {
    hide Answers, HandleParams, HandleInput;
    if m.Callback? || m.kind == AbortRequest || m.kind != q.state || q.state == Output {
      OthersAnswer(q, role, maxPostSize, ms, cs, m, c);
    } else if q.state == Params {
      ParamsAnswers(q, role, maxPostSize, ms, cs, m, c);
    } else {
      InputAnswers(q, role, maxPostSize, ms, cs, m, c);
    }
  }

  /** The reason, read off the request. */
  ghost function CauseOf(q: Req, m: Message, c: Choice): Cause {
    if m.Callback? then Answered
    else if m.kind == AbortRequest then Aborted
    else if m.kind != q.state || m.kind == Output then OutOfOrder
    else if m.kind == Params then
      if q.role !in {Responder, Authorizer} then RoleUnknown
      else if q.contentLength > q.maxPostSize then TooBig else Declined
    else if m.content != [] then TooBig
    else if c.inProcessor || q.postBuffer == [] || c.knownContentType then Answered
    else TypeUnknown
  }

  /** What a message adds to what is remembered. */
  predicate Adds(q: Req, m: Message, c: Choice, r: Req) {
    && r.role == q.role && r.maxPostSize == q.maxPostSize && r.status == q.status
    && r.contentLength == (if m.Record? && m.kind == Params && m.content != [] then c.contentLength
                           else q.contentLength)
    && match m
       case Callback(_) => r.state == q.state && r.postBuffer == q.postBuffer
       case Record(kind, content) =>
         && kind == q.state && kind in {Params, Input}
         && if content == [] then r.state == (if kind == Params then Input else Output)
                                  && r.postBuffer == if kind == Params then q.postBuffer else []
            else r.state == kind && r.postBuffer == if kind == Params then q.postBuffer else q.postBuffer + content
  }

  lemma HandleAdds(q: Req, m: Message, c: Choice)
    requires !Handle(q, m, c).1
    ensures Adds(q, m, c, Handle(q, m, c).0)
  {
    hide Streams;
    if m.Record? && m.kind == Params {
      ParamsRemembered(q, m.content, c);
      hide HandleParams;
    } else if m.Record? {
      InputRemembered(q, m.content, c);
      hide HandleInput;
    }
  }

  lemma AddsRemembered(q: Req, role: Role, maxPostSize: nat, ms: seq<Message>, cs: seq<Choice>, m: Message, c: Choice,
                       r: Req)
    requires |ms| == |cs| && Remembers(q, role, maxPostSize, ms, cs) && Adds(q, m, c, r)
    ensures Remembers(r, role, maxPostSize, ms + [m], cs + [c])
  {
    OneMoreMessage(ms, cs, m, c);
    assert Posted(ms) + [] == Posted(ms);
    hide Expected, Posted, Announced;
  }

  lemma HandleRemembers(q: Req, role: Role, maxPostSize: nat, ms: seq<Message>, cs: seq<Choice>, m: Message, c: Choice)
    requires |ms| == |cs| && Remembers(q, role, maxPostSize, ms, cs) && !Handle(q, m, c).1
    ensures Remembers(Handle(q, m, c).0, role, maxPostSize, ms + [m], cs + [c])
  {
    HandleAdds(q, m, c);
    hide Handle, Adds, Remembers;
    AddsRemembered(q, role, maxPostSize, ms, cs, m, c, Handle(q, m, c).0);
  }

  lemma ParamsRemembered(q: Req, content: bytes, c: Choice)
    requires !HandleParams(q, content, c).1
    ensures var r := HandleParams(q, content, c).0;
      r == if content != [] then q.(contentLength := c.contentLength)
           else q.(state := Input, sent := q.sent + Streams(c.output))
  {
    hide Streams;
  }

  lemma InputRemembered(q: Req, content: bytes, c: Choice)
    requires !HandleInput(q, content, c).1
    ensures HandleInput(q, content, c).0 == q.(
        postBuffer := if content == [] then [] else q.postBuffer + content,
        state := if content == [] then Output else q.state,
        sent := q.sent + Streams(c.output))
  {
    hide Streams;
  }

  /** As long as the request is open it is in the state the messages say, and in INPUT
      its post buffer holds the contents of all INPUT records, one after the other. */
  lemma {:induction false} LifeRemembers(role: Role, maxPostSize: nat, ms: seq<Message>, cs: seq<Choice>)
    requires |ms| == |cs| && !Life(Fresh(role, maxPostSize), ms, cs).1
    ensures var q := Life(Fresh(role, maxPostSize), ms, cs).0;
      && q.state == Expected(ms) && q.contentLength == Announced(ms, cs)
      && q.postBuffer == (if Expected(ms) == Output then [] else Posted(ms))
      && Remembers(q, role, maxPostSize, ms, cs)
  {
    if ms != [] {
      var n := |ms| - 1;
      LifeRemembers(role, maxPostSize, ms[..n], cs[..n]);
      var q := Life(Fresh(role, maxPostSize), ms[..n], cs[..n]).0;
      HandleRemembers(q, role, maxPostSize, ms[..n], cs[..n], ms[n], cs[n]);
      assert ms == ms[..n] + [ms[n]] && cs == cs[..n] + [cs[n]];
    }
  }

  /** A request has ended if and only if one of its messages is an ABORT_REQUEST, is a
      record of the wrong kind, comes for an unknown role, announces or carries too much,
      or is the one at which user code or the content type put an end to it. */
  lemma {:induction false} LifeEnds(role: Role, maxPostSize: nat, ms: seq<Message>, cs: seq<Choice>)
    requires |ms| == |cs|
    ensures Life(Fresh(role, maxPostSize), ms, cs).1
       <==> exists n: nat, cause | n < |ms| :: EndsBy(cause, role, maxPostSize, ms[..n], cs[..n], ms[n], cs[n])
  {
    hide EndsBy;
    if ms != [] {
      var n := |ms| - 1;
      var q := Fresh(role, maxPostSize);
      LifeEnds(role, maxPostSize, ms[..n], cs[..n]);
      forall k: nat | k < n ensures ms[..n][..k] == ms[..k] && cs[..n][..k] == cs[..k] {
      }
      if Life(q, ms[..n], cs[..n]).1 {
        var k: nat, cause :|
          k < n && EndsBy(cause, role, maxPostSize, ms[..n][..k], cs[..n][..k], ms[..n][k], cs[..n][k]);
        assert EndsBy(cause, role, maxPostSize, ms[..k], cs[..k], ms[k], cs[k]);
      } else {
        LifeRemembers(role, maxPostSize, ms[..n], cs[..n]);
        HandleDecides(Life(q, ms[..n], cs[..n]).0, role, maxPostSize, ms[..n], cs[..n], ms[n], cs[n]);
        forall k: nat, cause | k < n ensures !EndsBy(cause, role, maxPostSize, ms[..k], cs[..k], ms[k], cs[k]) {
          assert !EndsBy(cause, role, maxPostSize, ms[..n][..k], cs[..n][..k], ms[..n][k], cs[..n][k]);
        }
      }
    }
  }

  /** And what goes out for its last message is then the page or the output of the
      reason, followed by END_REQUEST with the status of the reason. */
  lemma LifeAnswers(role: Role, maxPostSize: nat, ms: seq<Message>, cs: seq<Choice>, m: Message, c: Choice)
    requires |ms| == |cs| && !Life(Fresh(role, maxPostSize), ms, cs).1
    ensures
      var q := Life(Fresh(role, maxPostSize), ms, cs).0;
      var (q', ended) := Life(Fresh(role, maxPostSize), ms + [m], cs + [c]);
      && (ended <==> exists cause :: EndsBy(cause, role, maxPostSize, ms, cs, m, c))
      && (!ended ==> q'.sent == q.sent + Meanwhile(m, c))
      && (forall cause | EndsBy(cause, role, maxPostSize, ms, cs, m, c) ::
            q'.sent == q.sent + (LastWords(cause, c) + [EndRequest(StatusOf(cause))]))
  {
    hide EndsBy, LastWords, Meanwhile, Handle;
    assert (ms + [m])[..|ms|] == ms && (cs + [c])[..|ms|] == cs;
    LifeRemembers(role, maxPostSize, ms, cs);
    HandleDecides(Life(Fresh(role, maxPostSize), ms, cs).0, role, maxPostSize, ms, cs, m, c);
  }

  // ---- The object -----------------------------------------------------------

  /** One stretch of handler() with the queue lock released: what user code does
      with the message, and what other threads push meanwhile. */
  datatype Window = Window(choice: Choice, arrivals: seq<Message>)

  function At(ws: seq<Window>, rest: Choice, i: nat): Window {
    if i < |ws| then ws[i] else Window(rest, [])
  }

  function Choices(ws: seq<Window>, rest: Choice, n: nat): (cs: seq<Choice>)
    ensures |cs| == n
  {
    seq(n, i requires 0 <= i => At(ws, rest, i).choice)
  }

  function Arrivals(ws: seq<Window>, rest: Choice, n: nat): seq<Message> {
    if n == 0 then [] else Arrivals(ws, rest, n - 1) + At(ws, rest, n - 1).arrivals
  }

  lemma Outset(q: Req, waiting: seq<Message>, ws: seq<Window>, rest: Choice)
    ensures Life(q, [], Choices(ws, rest, 0)) == (q, false)
    ensures [] + waiting == waiting + Arrivals(ws, rest, 0)
  {
  }

  /** One more message in the life of a request, and what arrives meanwhile. */
  lemma OneTurn(start: Req, q: Req, consumed: seq<Message>, m: Message, ws: seq<Window>, rest: Choice)
    requires (q, false) == Life(start, consumed, Choices(ws, rest, |consumed|))
    ensures var n := |consumed|;
      && Life(start, consumed + [m], Choices(ws, rest, n + 1)) == Handle(q, m, At(ws, rest, n).choice)
      && Arrivals(ws, rest, n + 1) == Arrivals(ws, rest, n) + At(ws, rest, n).arrivals
  {
    hide Handle, At;
    var n, more := |consumed|, consumed + [m];
    assert more[..n] == consumed && more[n] == m;
    assert Choices(ws, rest, n + 1)[..n] == Choices(ws, rest, n);
  }

  lemma Arrived(before: seq<Message>, waiting: seq<Message>, more: seq<Message>,
                first: seq<Message>, arrived: seq<Message>)
    requires waiting != [] && before + waiting == first + arrived
    ensures (before + [waiting[0]]) + (waiting[1..] + more) == first + (arrived + more)
  {
    assert waiting == [waiting[0]] + waiting[1..];
    assert (before + [waiting[0]]) + (waiting[1..] + more) == (before + waiting) + more;
    assert first + (arrived + more) == (first + arrived) + more;
  }

  class Request {
    const m_role: Role
    const m_maxPostSize: nat
    var m_state: RecordKind
    var m_status: Status
    var contentLength: nat
    var m_postBuffer: bytes
    var m_messages: seq<Message>
    var sent: seq<Sent>  // every record passed to m_send

    ghost function View(): Req
      reads this
    {
      Req(m_role, m_maxPostSize, m_state, m_status, contentLength, m_postBuffer, sent)
    }

    constructor (role: Role, maxPostSize: nat)
      ensures View() == Fresh(role, maxPostSize) && m_messages == []
    {
      m_role, m_maxPostSize := role, maxPostSize;
      m_state, m_status := Params, RequestComplete;
      contentLength, m_postBuffer, m_messages, sent := 0, [], [], [];
    }

    method Push(m: Message)
      modifies this`m_messages
      ensures m_messages == old(m_messages) + [m]
    {
      m_messages := m_messages + [m];
    }

    method Complete(output: seq<Sent>)
      modifies this`sent
      ensures (View(), true) == Finish(old(View()), output)
    {
      sent := sent + output + [EndRequest(m_status)];
      assert sent == old(sent) + (output + [EndRequest(m_status)]);
    }

    method ResponseProcess(c: Choice) returns (ended: bool)
      modifies this`sent
      ensures (View(), ended) == Respond(old(View()), c)
    {
      ended := c.responseDone;
      if ended {
        Complete(Streams(c.output));
      } else {
        sent := sent + Streams(c.output);
      }
    }

    /** inputRecordProcess, followed by what handler() does with its verdict. */
    method InputRecord(content: bytes, c: Choice) returns (ended: bool)
      modifies this`sent, this`m_postBuffer, this`m_state
      ensures (View(), ended) == HandleInput(old(View()), content, c)
    {
      if content == [] {
        if !c.inProcessor && !(m_postBuffer == [] || c.knownContentType) {
          Complete([Page(415)]);
          return true;
        }
        m_postBuffer := [];
        m_state := Output;
        ended := ResponseProcess(c);
        return;
      }
      if |m_postBuffer| + |content| > contentLength {
        Complete([Page(413)]);
        return true;
      }
      m_postBuffer := m_postBuffer + content;
      sent := sent + Streams(c.output);
      return false;
    }

    method ParamsRecord(content: bytes, c: Choice) returns (ended: bool)
      modifies this`sent, this`m_state, this`m_status, this`contentLength
      ensures (View(), ended) == HandleParams(old(View()), content, c)
    {
      if !(m_role == Responder || m_role == Authorizer) {
        m_status := UnknownRole;
        Complete([Page(500)]);
        return true;
      }
      if content == [] {
        if contentLength > m_maxPostSize {
          Complete([Page(413)]);
          return true;
        }
        m_state := Input;
        if !c.paramsContinue {
          Complete(Streams(c.output));
          return true;
        }
        sent := sent + Streams(c.output);
        return false;
      }
      contentLength := c.contentLength;
      return false;
    }

    method HandleMessage(m: Message, c: Choice) returns (ended: bool)
      modifies this`sent, this`m_state, this`m_status, this`contentLength, this`m_postBuffer
      ensures (View(), ended) == Handle(old(View()), m, c)
    {
      if m.Callback? {
        ended := ResponseProcess(c);
      } else if m.kind == AbortRequest {
        Complete([]);
        ended := true;
      } else if m.kind != m_state {
        Complete([Page(500)]);
        ended := true;
      } else {
        if m_state == Params {
          ended := ParamsRecord(m.content, c);
        } else if m_state == Input {
          ended := InputRecord(m.content, c);
        } else {
          Complete([Page(500)]);
          ended := true;
        }
      }
    }

    /** handler(): returns owning the queue lock exactly when it found the queue
        empty with the request still open. Nothing pushed is skipped or reordered. */
    method Handler(ws: seq<Window>, rest: Choice) returns (owned: bool, ghost consumed: seq<Message>)
      modifies this
      ensures consumed + m_messages == old(m_messages) + Arrivals(ws, rest, |consumed|)
      ensures (View(), !owned) == Life(old(View()), consumed, Choices(ws, rest, |consumed|))
      ensures owned ==> m_messages == []
    {
      hide Handle, Choices, Arrivals, Life;
      var i: nat := 0;
      consumed := [];
      Outset(View(), m_messages, ws, rest);
      while m_messages != []
        invariant |consumed| == i
        invariant consumed + m_messages == old(m_messages) + Arrivals(ws, rest, i)
        invariant (View(), false) == Life(old(View()), consumed, Choices(ws, rest, i))
        decreases if i < |ws| then |ws| - i else 0, |m_messages|
      {
        var message := m_messages[0];
        ghost var before, waiting := consumed, m_messages;
        OneTurn(old(View()), View(), before, message, ws, rest);
        m_messages := m_messages[1..];
        consumed := consumed + [message];
        var w := At(ws, rest, i);
        m_messages := m_messages + w.arrivals;
        Arrived(before, waiting, w.arrivals, old(m_messages), Arrivals(ws, rest, i));
        var ended := HandleMessage(message, w.choice);
        i := i + 1;
        if ended {
          return false, consumed;
        }
      }
      return true, consumed;
    }
  }
}
