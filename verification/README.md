# Couples-counseling chat: context assembly and request handling

A Dafny model of the chat core of the couples-counseling web application. Two users log in and
send chat messages. Each message is forwarded to a chat-completion endpoint together with the
user's recent history and a system prompt chosen by the chat variant. Each completed exchange
is stored as one row of an append-only conversation table.

The model covers:

- **Store** (`store.dfy`): the `GPTData` row (owner, `input_text`, `gpt_response`). The table
  is a `seq<Row>` whose index order is the auto-increment id order. The module defines the
  user filter and the history query `order_by(id desc).limit(10)`, scanned from the highest
  id down. It proves that the reversed query result is the user's newest `min(10, k)` rows,
  oldest first, and that every row of the user it leaves out has a smaller id than every row
  it keeps.
- **Context** (`context.dfy`): roles and messages, and the decode rule. A row is a `user`
  message when `input_text` is non-empty, and otherwise an `assistant` message carrying
  `gpt_response`. The module also holds the two chat variants, their fixed system prompts,
  and the completion payload: system prompt, decoded window, new message.
- **Dashboard** (`dashboard.dfy`): the POST handler as a total function
  `(store, user, request, outcome) -> (store', response, payload sent)`. The completion call
  is an input `Outcome` (`Completed(reply) | RateLimited | ApiError(detail)`). The handler
  reports the payload it would send, so "no call was made" can be stated. The module also
  holds the GET view and a replay of a whole session of POSTs.
- **Upload** (`upload.dfy`): the history import. An already-decoded JSON array becomes one
  row per entry, with missing fields as `""`. The import is all or nothing: an entry that is
  not an object, or a `null` field (which violates the NOT NULL text columns at commit),
  imports nothing.
- `seqs.dfy` and `wrappers.dfy` hold generic helpers (`Last`, `Reverse`, `Option`).

One consequence of the code is worth stating. Line 128 stores the message and its reply in
one row, but the decode rule at lines 105-106 looks only at `input_text`, and the POST path
stores only non-empty messages. So every row written by a POST replays as a `user` message:
replies stored by the chat handler never reach the model again (`Context.OwnedKeepsInputs`,
`Context.HistoryAllUser`, `Dashboard.ReplayKeepsInputsPresent`,
`Dashboard.ChatRepliesNotReplayed`). Rows imported with an empty or missing `user_input` are
different: they replay as `assistant` messages carrying `gpt_response`. The model follows the
code. When both text fields are empty, the code yields an `assistant` message with empty
content, and so does the model.

## Model

| member | source | states |
|---|---|---|
| Store.Owned | GPT_Couples_therapy.py:103 | the `filter_by(user_id)` result is no longer than the table and holds only rows of the user; `Store.OwnedIndicesMatch` adds that it is exactly the user's rows in id order |
| Store.OwnedIndices | GPT_Couples_therapy.py:103 | the ids of a user's rows, ascending, each naming a row of that user, one per owned row |
| Store.OwnedIndicesMatch | GPT_Couples_therapy.py:103 | the owned ids name exactly the user's rows, position by position, and every row of the user has its id listed |
| Store.OwnedConcat | GPT_Couples_therapy.py:156-162 | appending a batch extends each user's history by that user's rows of the batch, in batch order |
| Store.NewestFirst | GPT_Couples_therapy.py:103 | the descending query with limit n returns min(n, k) rows, all of the user, where k is the user's row count |
| Store.QueryStep | GPT_Couples_therapy.py:103 | one step of the descending scan: the highest row is taken when the user owns it and skipped otherwise, keeping the reversed result equal to the user's newest rows |
| Store.ReversedQueryIsLast | GPT_Couples_therapy.py:103-107 | reversing the descending query with limit n gives the user's newest n rows in ascending id order, for every n |
| Store.RecentRows | GPT_Couples_therapy.py:103-107 | the reversed query result is the replay window: min(10, k) rows, all owned by the user, the newest ones, oldest first |
| Store.WindowIsNewest | GPT_Couples_therapy.py:103-108 | window ids ascend, each names the window row of the user at that position, and every omitted row of the user has a smaller id than every kept one |
| Context.ParseChatType | GPT_Couples_therapy.py:98 | a chat type is accepted exactly when it is "private" or "mediator", and parsing is the inverse of the variant's name |
| Context.PromptFor | GPT_Couples_therapy.py:112-118 | the `system_prompts` lookup has an entry exactly for the two names the request check at :98 accepts, so a validated chat type never misses |
| Context.SystemPrompt | GPT_Couples_therapy.py:112-115 | a variant's system prompt is the dictionary entry under the variant's `chat_type` name |
| Context.DecodeRow | GPT_Couples_therapy.py:105-106 | a row decodes to a user message iff its input text is non-empty, carrying that text, and otherwise to an assistant message carrying the reply; never to a system entry |
| Context.DecodeEncode | GPT_Couples_therapy.py:159-160 | storing a storable message then decoding it gives the message back, and every decoded row is storable |
| Context.History | GPT_Couples_therapy.py:104-108 | the replayed history has min(10, k) entries, none a system entry, each the decoded window row at its position |
| Context.Payload | GPT_Couples_therapy.py:103-118 | the payload has 1 + min(10, k) + 1 entries: the chat variant's system prompt first, the decoded window oldest first, the new user message last, and no other system entry |
| Context.PayloadIsolated | GPT_Couples_therapy.py:103 | rows of other users never change a user's payload |
| Context.EmptyHistoryPayload | GPT_Couples_therapy.py:104-118 | with no stored turns the payload is exactly the system prompt followed by the message |
| Context.PayloadPenultimate | GPT_Couples_therapy.py:107-109 | the entry before the new message is the newest replayed turn |
| Context.OwnedKeepsInputs | GPT_Couples_therapy.py:103 | when every row of the table has input text, so does every row of a user's filtered history |
| Context.HistoryAllUser | GPT_Couples_therapy.py:105-106 | when every stored row of the user has input text, every replayed entry is a user message holding that input |
| Dashboard.WellFormed | GPT_Couples_therapy.py:98 | a well-formed request has a present, non-empty message and a chat type that parses to a variant; a missing message is never well formed |
| Dashboard.Validate | GPT_Couples_therapy.py:94-99 | a request passes exactly when the message is present and non-empty and the chat type is one of the two variants, and it hands on that message and variant |
| Dashboard.Post | GPT_Couples_therapy.py:91-137 | status 400 iff the request is malformed, with no write and no call; otherwise the payload goes out; a reply appends one row and returns it as the assistant's message with 200; a rate limit gives 429 and any other API failure 500, both without a write |
| Dashboard.PostAppendOnly | GPT_Couples_therapy.py:121-137 | the old store is a prefix of the new one, which grows by at most one row, and by one exactly when the status is 200 |
| Dashboard.PostRowIsUserTurn | GPT_Couples_therapy.py:128-130 | the row a POST writes decodes as the user's message, and no other user's rows change |
| Dashboard.PostKeepsInputsPresent | GPT_Couples_therapy.py:98 | a store whose rows all have input text keeps that property under any POST |
| Dashboard.NextPayloadReplaysMessage | GPT_Couples_therapy.py:103-130 | after a successful POST, the user's next payload replays the message just sent, directly before the next message |
| Dashboard.ReplayKeepsInputsPresent | GPT_Couples_therapy.py:98-130 | a store whose rows all have input text keeps that property over any session of POSTs |
| Dashboard.ChatRepliesNotReplayed | GPT_Couples_therapy.py:103-130 | after any session of POSTs on a store written only by POSTs, every replayed history entry is a user message holding the stored input of its window row, never a stored reply |
| Dashboard.ReplayCounts | GPT_Couples_therapy.py:127-130 | after a session of POSTs the user owns one more row per successful completion, and other users own what they owned before |
| Dashboard.View | GPT_Couples_therapy.py:140-145 | the GET page shows min(10, k) entries, exactly the history part of any payload the user could send next |
| Dashboard.FirstMessage | GPT_Couples_therapy.py:103-132 | a user's first valid message sends only the system prompt and the message, stores one row and returns the reply |
| Dashboard.FirstPrivateMessage | GPT_Couples_therapy.py:109-132 | the worked example "I feel unheard" on an empty store: counselor prompt plus message go out, one row is stored, the reply comes back |
| Upload.Importable | GPT_Couples_therapy.py:40-41 | only a JSON object can be committed, and an object with a `null` text field never can, because both text columns are NOT NULL |
| Upload.FieldText | GPT_Couples_therapy.py:159-160 | `entry.get(key, "")` gives "" for a missing field and the string itself for a present one |
| Upload.EntryRow | GPT_Couples_therapy.py:157-161 | an importable entry becomes a row of the uploader, with each string field copied and each missing field "" |
| Upload.ImportRows | GPT_Couples_therapy.py:156-161 | a batch yields rows iff every entry is importable, one row per entry in list order |
| Upload.UploadHistory | GPT_Couples_therapy.py:151-168 | a missing, unnamed or non-JSON file is refused; success iff the file parses and every entry is importable; any failure leaves the store unchanged; success appends one row per entry, in order, after the existing rows |
| Upload.UploadCounts | GPT_Couples_therapy.py:156-162 | a successful upload of K entries gives the uploader exactly K more rows, and other users' rows are unchanged |
| Upload.HistoryAfterBatch | GPT_Couples_therapy.py:140-145 | after a batch of a user's rows is appended, the newest history entries are the decoded newest rows of the batch |
| Upload.EncodeEntry | GPT_Couples_therapy.py:159-160 | the upload entry that encodes a message is always importable: an object with no `null` field |
| Upload.UploadViewRoundTrip | GPT_Couples_therapy.py:155-162 | uploading entries that encode storable messages and reopening the dashboard shows the newest of them in upload order |

## Left out

- Flask routing, redirects, templates, `flash` text and `jsonify` formatting: only the status
  code, the role/content pair and the kind of flash message are modelled.
- The OpenAI client, API key and model name: the completion call is the `Outcome` parameter.
- SQLAlchemy sessions, commit and rollback: the table is an in-memory sequence, and a failed
  import leaves it unchanged, as the uncommitted session is discarded.
- Login, logout, the user loader, the `SECRET_KEY` check and environment loading: fixed
  credential checks and process setup with no logic to verify. The current user is a parameter.
- Concurrent requests: the model is one request at a time.
- Dashboard.Post: the message and chat type are optional strings, because the model does not
  cover other JSON kinds for these fields (a truthy non-string message passes the source's
  check). A body that is not a JSON object, which makes `data.get` fail, is not modelled.
- Dashboard.Post: the reply is a string, because the model does not cover a `None` reply
  content, which would fail the NOT NULL insert outside the handled exceptions. Database
  errors raised outside the two caught API errors are not modelled either.
- Dashboard.Post: the error body carries the API failure's description as a string. Python's
  rendering of the exception into that text is not modelled.
- Upload.UploadHistory: the decoded document is an array of entries or a parse failure. A
  top-level JSON value that is not an array is not modelled. Field values are missing, null
  or strings; numbers, booleans and nested values as field values are not modelled.
- Upload.UploadHistory: a failure is one flash kind, because the exception text in the flash
  message is not modelled.
