/** The dashboard endpoint. A POST runs validate, build context, call, persist, respond;
    the completion endpoint is abstracted as the outcome it returns, and the handler reports
    the payload it sends so that "no call was made" can be stated. A GET shows the history. */
module Dashboard {
  import opened Wrappers
  import opened Seqs
  import opened Store
  import opened Context

  /** The JSON body of a POST: both fields may be missing. */
  datatype Request = Request(message: Option<string>, chatType: Option<string>)

  /** What the completion endpoint answers: a reply, a rate-limit rejection, or any other
      API failure with its description. */
  datatype Outcome = Completed(reply: string) | RateLimited | ApiError(detail: string)

  datatype Body = Chat(msg: Msg) | Error(error: string)

  /** An HTTP status with its JSON body. */
  datatype Response = Response(status: nat, body: Body)

  /** The result of one request: the store afterwards, the response, and the payload sent
      to the completion endpoint, if any was sent. */
  datatype Effect = Effect(table: Table, response: Response, sent: Option<seq<Msg>>)

  const InvalidInputError := "Invalid input. Ensure message and chat_type are provided."
  const RateLimitError := "Rate limit reached. Retry later."
  const ApiErrorPrefix := "Error communicating with OpenAI API: "

  /** The check `not message or chat_type not in [...]` negated: the message is present
      and non-empty, and the chat type is one of the two variants. */
  predicate WellFormed(req: Request)
    ensures WellFormed(req) ==> req.message.Some? && |req.message.value| > 0 && ParseChatType(req.chatType).Some?
    ensures req.message.None? ==> !WellFormed(req)
  {
    req.message.Some? && req.message.value != "" && KnownChatType(req.chatType)
  }

  /** The validation step, handing on the message and the chat variant it selects. */
  function Validate(req: Request): (r: Option<(string, ChatType)>)
    ensures r.Some? <==> WellFormed(req)
    ensures r.Some? ==> r.value.0 == req.message.value &&
                        req.chatType == Some(ChatTypeName(r.value.1))
  {
    match req.message
    case None => None
    case Some(m) =>
      if m == "" then None
      else match ParseChatType(req.chatType)
        case None => None
        case Some(c) => Some((m, c))
  }

  /** A POST to the dashboard by user `u` on store `t`, when the completion endpoint would
      answer `outcome`. */
  function Post(t: Table, u: UserId, req: Request, outcome: Outcome): (e: Effect)
    ensures e.response.status in {200, 400, 429, 500}
    ensures e.response.status == 400 <==> !WellFormed(req)
    // rejected input: no write and no completion call
    ensures e.response.status == 400 ==>
              e.table == t && e.sent.None? && e.response.body == Error(InvalidInputError)
    // accepted input: exactly the assembled payload goes out
    ensures e.response.status != 400 ==>
              e.sent == Some(Payload(t, u, req.message.value, ParseChatType(req.chatType).value))
    // success: one new row for `u`, and the reply comes back as the assistant's message
    ensures e.response.status != 400 && outcome.Completed? ==>
              e.response == Response(200, Chat(Msg(Assistant, outcome.reply))) &&
              e.table == t + [Row(u, req.message.value, outcome.reply)]
    // failed call: mapped to its status, nothing written
    ensures e.response.status != 400 && outcome.RateLimited? ==>
              e.response == Response(429, Error(RateLimitError)) && e.table == t
    ensures e.response.status != 400 && outcome.ApiError? ==>
              e.response == Response(500, Error(ApiErrorPrefix + outcome.detail)) && e.table == t
  {
    match Validate(req)
    case None => Effect(t, Response(400, Error(InvalidInputError)), None)
    case Some((message, c)) =>
      var payload := Payload(t, u, message, c);
      match outcome
      case Completed(reply) =>
        Effect(t + [Row(u, message, reply)], Response(200, Chat(Msg(Assistant, reply))), Some(payload))
      case RateLimited => Effect(t, Response(429, Error(RateLimitError)), Some(payload))
      case ApiError(detail) =>
        Effect(t, Response(500, Error(ApiErrorPrefix + detail)), Some(payload))
  }

  /** The two ways a POST can leave the store: one appended row for a valid request the
      endpoint answered, and no change otherwise. */
  lemma PostOutcome(t: Table, u: UserId, req: Request, outcome: Outcome)
    ensures var e := Post(t, u, req, outcome);
      if e.response.status == 200 then
        WellFormed(req) && outcome.Completed? &&
        e.table == t + [Row(u, req.message.value, outcome.reply)]
      else e.table == t
  {
  }

  /** A POST never rewrites history: the old store is a prefix of the new one, and the store
      grows by one row exactly when the response is 200. */
  lemma PostAppendOnly(t: Table, u: UserId, req: Request, outcome: Outcome)
    ensures var e := Post(t, u, req, outcome);
      |t| <= |e.table| <= |t| + 1 && e.table[..|t|] == t &&
      (|e.table| == |t| + 1 <==> e.response.status == 200)
  {
    PostOutcome(t, u, req, outcome);
    var e := Post(t, u, req, outcome);
    if e.response.status == 200 {
      assert e.table[..|t|] == t;
    }
  }

  /** A row written by a POST always decodes as the user's message, and other users'
      histories are untouched. */
  lemma PostRowIsUserTurn(t: Table, u: UserId, req: Request, outcome: Outcome)
    ensures var e := Post(t, u, req, outcome);
      e.response.status == 200 ==>
        DecodeRow(e.table[|e.table| - 1]) == Msg(User, req.message.value)
    ensures var e := Post(t, u, req, outcome);
      forall v :: v != u ==> Owned(e.table, v) == Owned(t, v)
  {
    PostOutcome(t, u, req, outcome);
    var e := Post(t, u, req, outcome);
    if e.response.status == 200 {
      var row := Row(u, req.message.value, outcome.reply);
      forall v | v != u
        ensures Owned(e.table, v) == Owned(t, v)
      {
        OwnedSnoc(t, row, v);
      }
    }
  }

  /** A store written only by POSTs keeps every input text non-empty. */
  lemma PostKeepsInputsPresent(t: Table, u: UserId, req: Request, outcome: Outcome)
    requires AllInputsPresent(t)
    ensures AllInputsPresent(Post(t, u, req, outcome).table)
  {
    PostOutcome(t, u, req, outcome);
    var e := Post(t, u, req, outcome);
    if e.response.status == 200 {
      AppendKeepsInputs(t, Row(u, req.message.value, outcome.reply));
    }
  }

  lemma AppendKeepsInputs(t: Table, row: Row)
    requires AllInputsPresent(t) && row.inputText != ""
    ensures AllInputsPresent(t + [row])
  {
    var t' := t + [row];
    forall j | 0 <= j < |t'|
      ensures t'[j].inputText != ""
    {
      if j < |t| {
        assert t'[j] == t[j];
      }
    }
  }

  /** After a successful POST the message just sent is the newest turn replayed into the
      user's next request, directly before the next message. */
  lemma NextPayloadReplaysMessage(t: Table, u: UserId, req: Request, reply: string,
                                  next: string, c: ChatType)
    requires Post(t, u, req, Completed(reply)).response.status == 200
    ensures var p := Payload(Post(t, u, req, Completed(reply)).table, u, next, c);
      |p| >= 3 && p[|p| - 2] == Msg(User, req.message.value)
  {
    PostOutcome(t, u, req, Completed(reply));
    var row := Row(u, req.message.value, reply);
    NewestRowIsLastInHistory(t, row);
    PayloadPenultimate(t + [row], u, next, c);
  }

  /** The newest row of a user is the last entry of that user's history. */
  lemma NewestRowIsLastInHistory(t: Table, row: Row)
    ensures |History(t + [row], row.userId)| >= 1
    ensures History(t + [row], row.userId)[|History(t + [row], row.userId)| - 1] == DecodeRow(row)
  {
    var u := row.userId;
    var t' := t + [row];
    OwnedSnoc(t, row, u);
    var o := Owned(t', u);
    assert |o| >= 1 && o[|o| - 1] == row;
    var w := Window(t', u);
    assert w == Last(o, HistoryLimit);
    assert |w| >= 1 && w[|w| - 1] == row;
    var h := History(t', u);
    assert |h| == |w|;
    assert h[|h| - 1] == DecodeRow(w[|w| - 1]);
  }

  /** One request of a session with the answer the endpoint gives it. */
  datatype Exchange = Exchange(request: Request, outcome: Outcome)

  /** The store after user `u` makes the POSTs of `xs` in order. */
  function Replay(t: Table, u: UserId, xs: seq<Exchange>): Table
    decreases |xs|
  {
    if |xs| == 0 then t
    else Replay(Post(t, u, xs[0].request, xs[0].outcome).table, u, xs[1..])
  }

  /** Whether an exchange is a valid request answered with a reply. */
  predicate Succeeds(x: Exchange) {
    Validate(x.request).Some? && x.outcome.Completed?
  }

  /** Number of successful exchanges in a session. */
  function Successes(xs: seq<Exchange>): nat
    decreases |xs|
  {
    if |xs| == 0 then 0 else (if Succeeds(xs[0]) then 1 else 0) + Successes(xs[1..])
  }

  /** After a session the user owns exactly one more row per successful completion, and
      every other user owns exactly what they owned before. */
  lemma {:induction false} ReplayCounts(t: Table, u: UserId, xs: seq<Exchange>)
    ensures Count(Replay(t, u, xs), u) == Count(t, u) + Successes(xs)
    ensures forall v :: v != u ==> Owned(Replay(t, u, xs), v) == Owned(t, v)
    decreases |xs|
  {
    if |xs| > 0 {
      var e := Post(t, u, xs[0].request, xs[0].outcome);
      ReplayCounts(e.table, u, xs[1..]);
      PostRowIsUserTurn(t, u, xs[0].request, xs[0].outcome);
      if e.table != t {
        OwnedSnoc(t, e.table[|e.table| - 1], u);
      }
    }
  }

  /** A session of POSTs on a store whose rows all carry input text keeps it so. */
  lemma {:induction false} ReplayKeepsInputsPresent(t: Table, u: UserId, xs: seq<Exchange>)
    requires AllInputsPresent(t)
    ensures AllInputsPresent(Replay(t, u, xs))
    decreases |xs|
  {
    if |xs| > 0 {
      PostKeepsInputsPresent(t, u, xs[0].request, xs[0].outcome);
      ReplayKeepsInputsPresent(Post(t, u, xs[0].request, xs[0].outcome).table, u, xs[1..]);
    }
  }

  /** Replies stored by the chat handler never reach the model again: after any session of
      POSTs on a store written only by POSTs, every replayed entry is a user message holding
      a stored input. */
  lemma ChatRepliesNotReplayed(t: Table, u: UserId, xs: seq<Exchange>)
    requires AllInputsPresent(t)
    ensures var t' := Replay(t, u, xs);
      forall j :: 0 <= j < |History(t', u)| ==>
        History(t', u)[j] == Msg(User, Window(t', u)[j].inputText)
  {
    var t' := Replay(t, u, xs);
    ReplayKeepsInputsPresent(t, u, xs);
    OwnedKeepsInputs(t', u);
    HistoryAllUser(t', u);
  }

  /** A GET of the dashboard: the page shows the same window the next POST would replay. */
  function View(t: Table, u: UserId): (h: seq<Msg>)
    ensures forall message, c :: h == Payload(t, u, message, c)[1..|Payload(t, u, message, c)| - 1]
    ensures |h| == Min(HistoryLimit, Count(t, u))
  {
    History(t, u)
  }

  /** A user's first message: with no stored turns the payload is the system prompt and the
      message alone; on success the store gains that one turn and the reply is returned. */
  lemma FirstMessage(t: Table, u: UserId, req: Request, reply: string)
    requires Count(t, u) == 0 && WellFormed(req)
    ensures var e := Post(t, u, req, Completed(reply));
      e.sent == Some([Msg(System, SystemPrompt(ParseChatType(req.chatType).value)),
                      Msg(User, req.message.value)]) &&
      e.table == t + [Row(u, req.message.value, reply)] &&
      e.response == Response(200, Chat(Msg(Assistant, reply)))
  {
    var c := ParseChatType(req.chatType).value;
    EmptyHistoryPayload(t, u, req.message.value, c);
    PostOutcome(t, u, req, Completed(reply));
  }

  const CounselorScenarioUser: UserId := 1

  /** A first private message on an empty store: the counselor prompt and the message go
      out, and the exchange is stored as one row. */
  lemma FirstPrivateMessage()
    ensures var req := Request(Some("I feel unheard"), Some("private"));
      var e := Post([], CounselorScenarioUser, req, Completed("Let's explore that feeling together."));
      e.sent == Some([Msg(System, SystemPrompt(Private)), Msg(User, "I feel unheard")]) &&
      e.table == [Row(CounselorScenarioUser, "I feel unheard", "Let's explore that feeling together.")] &&
      e.response == Response(200, Chat(Msg(Assistant, "Let's explore that feeling together.")))
  {
    var req := Request(Some("I feel unheard"), Some("private"));
    assert ParseChatType(req.chatType) == Some(Private);
    FirstMessage([], CounselorScenarioUser, req, "Let's explore that feeling together.");
  }
}
