/** Assembly of the message list sent to the completion endpoint: decoding stored turns
    into role-tagged messages, choosing the system prompt by chat variant, and putting the
    replay window between the system prompt and the new user message. */
module Context {
  import opened Wrappers
  import opened Seqs
  import opened Store

  datatype Role = System | User | Assistant

  /** One `{"role": ..., "content": ...}` entry of the completion payload. */
  datatype Msg = Msg(role: Role, content: string)

  /** The two chat variants a POST may ask for. */
  datatype ChatType = Private | Mediator

  /** The `chat_type` value that selects each variant. */
  function ChatTypeName(c: ChatType): string {
    match c
    case Private => "private"
    case Mediator => "mediator"
  }

  /** The membership test `chat_type in ["private", "mediator"]`. */
  predicate KnownChatType(v: Option<string>) {
    v == Some("private") || v == Some("mediator")
  }

  /** Reads the `chat_type` field; anything but the two variant names is rejected. */
  function ParseChatType(v: Option<string>): (r: Option<ChatType>)
    ensures r.Some? ==> v == Some(ChatTypeName(r.value))
    ensures forall c :: v == Some(ChatTypeName(c)) ==> r == Some(c)
    ensures r.Some? <==> KnownChatType(v)
  {
    if v == Some("private") then Some(Private)
    else if v == Some("mediator") then Some(Mediator)
    else None
  }

  /** The persona prompt of the private (counselor) variant. */
  const CounselorPrompt: string :=
    "You are a professional couples counselor inspired by Abraham Hicks. Provide compassionate guidance."

  /** The persona prompt of the mediator variant. */
  const MediatorPrompt: string :=
    "You are a neutral mediator helping couples communicate effectively. Provide constructive feedback."

  /** The `system_prompts` dictionary, looked up by `chat_type` value; a missing key is
      `None`. Its keys are exactly the names the membership test accepts, so the lookup of a
      validated chat type cannot fail. */
  function PromptFor(name: string): (r: Option<string>)
    ensures r.Some? <==> KnownChatType(Some(name))
  {
    if name == "private" then Some(CounselorPrompt)
    else if name == "mediator" then Some(MediatorPrompt)
    else None
  }

  /** The system prompt of a variant: the dictionary entry under the variant's name. */
  function SystemPrompt(c: ChatType): (r: string)
    ensures PromptFor(ChatTypeName(c)) == Some(r)
  {
    match c
    case Private => CounselorPrompt
    case Mediator => MediatorPrompt
  }

  /** The decode rule: a stored turn is a user message when its input text is non-empty,
      and otherwise an assistant message carrying the stored reply. */
  function DecodeRow(row: Row): (m: Msg)
    ensures m.role != System
    ensures m.role == User <==> row.inputText != ""
    ensures m.role == User ==> m.content == row.inputText
    ensures m.role == Assistant ==> m.content == row.gptResponse
  {
    if row.inputText != "" then Msg(User, row.inputText) else Msg(Assistant, row.gptResponse)
  }

  function DecodeAll(rows: seq<Row>): (ms: seq<Msg>)
    ensures |ms| == |rows|
    ensures forall j :: 0 <= j < |rows| ==> ms[j] == DecodeRow(rows[j])
  {
    seq(|rows|, j requires 0 <= j < |rows| => DecodeRow(rows[j]))
  }

  /** Decoding the newest `n` rows gives the newest `n` decoded messages. */
  lemma DecodeAllLast(rows: seq<Row>, n: nat)
    ensures DecodeAll(Last(rows, n)) == Last(DecodeAll(rows), n)
  {
  }

  /** A row that decodes back to a given message, used to state the upload round trip: a
      user message goes in the input column, anything else in the reply column with an
      empty input. */
  function EncodeMsg(u: UserId, m: Msg): (row: Row)
    ensures row.userId == u
  {
    if m.role == User then Row(u, m.content, "") else Row(u, "", m.content)
  }

  /** A message survives storage when it is not a system entry and, if from the user, is
      not empty (an empty user message would come back as an assistant one). */
  predicate Storable(m: Msg) {
    m.role != System && (m.role == User ==> m.content != "")
  }

  /** Storing then decoding a storable message gives it back, and every decoded row is
      storable: the storable messages are exactly those the decode rule can produce. */
  lemma DecodeEncode(u: UserId, m: Msg, row: Row)
    ensures Storable(m) ==> DecodeRow(EncodeMsg(u, m)) == m
    ensures Storable(DecodeRow(row))
  {
  }

  /** The chat history shown on the dashboard page and replayed into the completion
      request: the decoded replay window. */
  function History(t: Table, u: UserId): (h: seq<Msg>)
    ensures |h| == Min(HistoryLimit, Count(t, u))
    ensures forall j :: 0 <= j < |h| ==> h[j].role != System
    ensures forall j :: 0 <= j < |h| ==> h[j] == DecodeRow(Window(t, u)[j])
  {
    DecodeAll(RecentRows(t, u))
  }

  /** The completion payload: the system prompt of the chat variant, the decoded window of
      the user's newest turns (oldest first), then the new message. */
  function Payload(t: Table, u: UserId, message: string, c: ChatType): (p: seq<Msg>)
    ensures |p| == 1 + Min(HistoryLimit, Count(t, u)) + 1
    ensures p[0] == Msg(System, SystemPrompt(c))
    ensures p[|p| - 1] == Msg(User, message)
    ensures forall j :: 0 < j < |p| ==> p[j].role != System
    ensures p[1..|p| - 1] == DecodeAll(Window(t, u))
  {
    var h := History(t, u);
    var p := [Msg(System, SystemPrompt(c))] + h + [Msg(User, message)];
    assert p[1..|p| - 1] == h;
    assert h == DecodeAll(Window(t, u));
    FramedRoles(Msg(System, SystemPrompt(c)), h, Msg(User, message));
    p
  }

  /** The entry before the new message is the newest replayed turn, when there is one. */
  lemma PayloadPenultimate(t: Table, u: UserId, message: string, c: ChatType)
    requires |History(t, u)| >= 1
    ensures var p := Payload(t, u, message, c);
      |p| >= 3 && p[|p| - 2] == History(t, u)[|History(t, u)| - 1]
  {
    var h := History(t, u);
    var p := Payload(t, u, message, c);
    assert p == [Msg(System, SystemPrompt(c))] + h + [Msg(User, message)];
    assert p[|p| - 2] == h[|h| - 1];
  }

  /** With no stored turns, the payload is the system prompt followed by the message. */
  lemma EmptyHistoryPayload(t: Table, u: UserId, message: string, c: ChatType)
    requires Count(t, u) == 0
    ensures Payload(t, u, message, c) == [Msg(System, SystemPrompt(c)), Msg(User, message)]
  {
    FrameEmpty(Msg(System, SystemPrompt(c)), History(t, u), Msg(User, message));
  }

  lemma FrameEmpty(head: Msg, h: seq<Msg>, tail: Msg)
    requires |h| == 0
    ensures [head] + h + [tail] == [head, tail]
  {
  }

  /** Between a system head and a user tail, decoded messages bring no further system entry. */
  lemma FramedRoles(head: Msg, h: seq<Msg>, tail: Msg)
    requires tail.role != System
    requires forall j :: 0 <= j < |h| ==> h[j].role != System
    ensures forall j :: 0 < j < |[head] + h + [tail]| ==> ([head] + h + [tail])[j].role != System
  {
    var p := [head] + h + [tail];
    forall j | 0 < j < |p|
      ensures p[j].role != System
    {
      if j < |p| - 1 {
        assert p[j] == h[j - 1];
      }
    }
  }

  /** The payload depends on the store only through the asking user's own rows: rows of
      other users, wherever they sit, change nothing. */
  lemma PayloadIsolated(t1: Table, t2: Table, u: UserId, message: string, c: ChatType)
    requires Owned(t1, u) == Owned(t2, u)
    ensures Payload(t1, u, message, c) == Payload(t2, u, message, c)
  {
  }

  /** Every row whose input text is non-empty, as every row written by the chat handler is. */
  predicate AllInputsPresent(rows: seq<Row>) {
    forall j :: 0 <= j < |rows| ==> rows[j].inputText != ""
  }

  /** The newest rows of a list whose rows all carry input text carry input text too. */
  lemma LastKeepsInputs(rows: seq<Row>, n: nat)
    requires AllInputsPresent(rows)
    ensures AllInputsPresent(Last(rows, n))
  {
    var l := Last(rows, n);
    forall j | 0 <= j < |l|
      ensures l[j].inputText != ""
    {
      assert l[j] == rows[|rows| - |l| + j];
    }
  }

  /** Filtering a table whose rows all carry input text keeps only such rows. */
  lemma {:induction false} OwnedKeepsInputs(t: Table, u: UserId)
    requires AllInputsPresent(t)
    ensures AllInputsPresent(Owned(t, u))
    decreases |t|
  {
    if |t| > 0 {
      var init := t[..|t| - 1];
      var row := t[|t| - 1];
      assert t == init + [row];
      assert AllInputsPresent(init) by {
        forall j | 0 <= j < |init|
          ensures init[j].inputText != ""
        {
          assert init[j] == t[j];
        }
      }
      OwnedKeepsInputs(init, u);
      OwnedSnoc(init, row, u);
      var o := Owned(t, u);
      forall j | 0 <= j < |o|
        ensures o[j].inputText != ""
      {
        if j < |Owned(init, u)| {
          assert o[j] == Owned(init, u)[j];
        }
      }
    }
  }

  /** When every stored turn of the user carries input text, the replayed history consists
      of user messages only, each the stored input: stored replies never reach the model. */
  lemma HistoryAllUser(t: Table, u: UserId)
    requires AllInputsPresent(Owned(t, u))
    ensures forall j :: 0 <= j < |History(t, u)| ==>
              History(t, u)[j] == Msg(User, Window(t, u)[j].inputText)
  {
    var w := Window(t, u);
    LastKeepsInputs(Owned(t, u), HistoryLimit);
    var h := History(t, u);
    forall j | 0 <= j < |h|
      ensures h[j] == Msg(User, w[j].inputText)
    {
      assert h[j] == DecodeRow(w[j]);
    }
  }
}
