# Save-URL pipeline of a chat-to-bookmark bot, modelled in Dafny

The bot reads chat updates. It extracts every URL from messages sent by permitted users and archives each URL on a remote bookmarking service. Between the chat and the service sits a durable pipeline:

- a **request store** (one SQLite table `Requests(id, URL, ChatID, MessageID, saved)`), which
  - persists each incoming request once per URL,
  - marks it saved when the service confirms it,
  - and re-emits every unsaved row on a periodic **recovery scan**;
- a **dispatcher**, which keeps a cached bearer token with its expiry, refreshes it when it is empty or stale, and POSTs each request, forwarding it only on HTTP 200;
- the **polling loop**, which advances the update offset, drops senders outside the filter and queues one request per extracted URL;
- a startup **configuration check** on six required credentials.

Each concurrent worker is modelled as a step that takes one input and returns the sequence it would push onto its output queue. The table and the token cache are state that the steps update in place.

- `requests.dfy` (module `Requests`): the request and the table row.
- `table.dfy` (module `Table`): what the SQL statements compute on the rows (count by URL, mark saved, select unsaved), and the invariants:
  - at most one row per URL;
  - ids increasing and below the next autoincrement id;
  - rows only appended, and a saved flag never cleared.
- `store.dfy` (module `Store`): class `RequestStore`, with `rows: seq<Record>` and the counter `nextId`. Its methods are the three store workers plus a run of the persist worker over a whole intake sequence.
- `dispatch.dfy` (module `Dispatch`): class `Dispatcher`, with fields `bearer` and `bearerExpire`, and the step that handles one request.
- `polling.dfy` (module `Polling`): building the sender filter and processing one batch of updates.
- `config.dfy` (module `Config`): the required-field check.
- `scenarios.dfy` (module `Scenarios`): stages wired together on fresh state for the end-to-end cases:
  - a duplicate URL;
  - a rejected submission that the next scan recovers;
  - a delivered request;
  - a repeated acknowledgment;
  - an expired token;
  - token reuse within its lifetime;
  - a failed token exchange.

Failures of the outside world are inputs to each step:
- for the store, a `Fault` names the first SQL step that fails (the COUNT query, preparing the write, executing it);
- for a recovery scan, a flag says the query fails, and a set gives the ids of rows whose columns cannot be read;
- for the dispatcher, `TokenReply` and `SubmitReply` values stand for what the HTTP exchanges returned.

Time is an integer number of seconds passed in as `now`. The URL regular expression is a function parameter `extract`.

Three behaviours of the code that a reader may not expect, all followed by the model:
- the acknowledgment sets `saved = 1` on every row with the URL (main.go:228);
- a failing recovery-scan query ends the process through `log.Fatalf` (main.go:142);
- the polling loop never sets MessageID, so every request it queues carries 0 (main.go:399).

## Model

| member | source | states |
|---|---|---|
| Table.CountUrl | main.go:176-177 | the count of rows with a URL is zero exactly when no row has that URL, and never exceeds the row count |
| Table.CountTwoRows | main.go:176-177 | two rows with the same URL make its count at least two |
| Table.UniqueCountAtMostOne | main.go:184-187 | under the one-row-per-URL invariant every URL is counted at most once |
| Table.UniqueIffCountsAtMostOne | main.go:175-196 | the table has at most one row per URL if and only if no URL counts more than once |
| Table.InsertKeepsInvariant | main.go:191-196 | inserting a row, with the next id and saved = 0, for a URL that has none keeps one row per URL, keeps ids increasing and below the advanced counter, and changes no existing row |
| Table.AppendOne | main.go:191-196 | appending a row keeps the earlier rows, adds exactly its request to the appended ones, and raises only its own URL's count, by one |
| Table.EvolvesTrans | main.go:191-233 | "rows only appended, identities kept, saved never cleared" composes across steps |
| Table.AppendedDistinct | main.go:175-201 | under the invariant, the requests of the rows appended since an earlier table name distinct URLs, none of which had a row in it |
| Table.MarkSavedRows | main.go:228-233 | the UPDATE sets saved on every row with the URL and leaves every other row as it was |
| Table.MarkSavedIdempotent | main.go:228-233 | marking a URL twice gives the same table as marking it once |
| Table.MarkSavedKeepsInvariant | main.go:228-233 | marking keeps every row's id, URL, ChatID and MessageID, never clears a saved flag, and keeps the dedup and id invariants |
| Table.MarkSavedMissingIsNoOp | main.go:224-233 | marking a URL that has no row leaves the table unchanged |
| Table.MarkSavedClearsPending | main.go:137-141 | after marking a URL, no request for it is pending in any scan |
| Table.Pending | main.go:137-156 | a scan emits at most one request per row |
| Table.PendingSound | main.go:137-156 | every request a scan emits is the URL, ChatID and MessageID of a row with saved = 0 whose columns could be read |
| Table.PendingComplete | main.go:149-156 | every unsaved readable row is emitted by the scan |
| Table.PendingExactly | main.go:137-156 | a request is emitted if and only if it is that of an unsaved readable row |
| Table.PendingDistinct | main.go:137-156 | under the one-row-per-URL invariant, a scan emits each URL at most once |
| Table.PendingEmptyWhenAllSaved | main.go:137-141 | a table with every row saved has nothing to recover |
| Requests.RequestOfNewRecord | main.go:191-196 | the row inserted for a request has saved = 0, the given id and columns from which the scan rebuilds exactly that request |
| Requests.NewRecord | main.go:191 | the inserted row holds the request's URL, ChatID and MessageID with `saved = 0` (VALUES (?, ?, ?, 0)); stated by Requests.RequestOfNewRecord, and used by Store.RequestStore.Persist for the row it appends |
| Store.RequestStore.Open | main.go:110-129 | a fresh table is empty, satisfies the invariant, and hands out ids from 1 |
| Store.RequestStore.Persist | main.go:166-203 | when no row has the URL and no SQL step fails, one row with the next id and saved = 0 is appended and the request is forwarded; otherwise (duplicate or any SQL failure) table and counter are unchanged and nothing is forwarded; the new id exceeds every existing id; the invariant is kept |
| Store.RequestStore.MarkSaved | main.go:205-240 | without a failure the table becomes the marked table and the request is forwarded to the notification queue; on a failure nothing changes and nothing is forwarded; a URL without a row is reported, leaves the table unchanged and is still forwarded |
| Store.RequestStore.RecoveryScan | main.go:131-164 | a failing query is fatal and emits nothing; otherwise it emits, in table order, exactly the requests of the unsaved readable rows, and changes nothing |
| Store.RequestStore.PersistAll | main.go:166-203 | over a run of intake requests, the forwarded requests are exactly those of the appended rows; they are inputs with distinct URLs that had no row before; new rows are unsaved and old rows keep their flags; with no SQL failures every input URL ends with exactly one row |
| Store.PersistAllStep | main.go:184-201 | one turn of the persist worker keeps the run's forwarded-equals-appended and one-row-per-input facts |
| Dispatch.RefreshWindow | main.go:260 | for a cached non-empty token expiring at t + e, a refresh is needed exactly when the clock is past t + e |
| Dispatch.NeedsRefresh | main.go:260 | the refresh condition: the token is empty or the clock is strictly after its expiry; stated by Dispatch.RefreshWindow and Dispatch.Dispatcher.Handle (a token GET is made if and only if it holds) |
| Dispatch.TokenAccepted | main.go:269-290 | a token reply is used only when it arrived (no transport error), has status 200, and its body reads and decodes; Dispatch.Dispatcher.Handle states that only such a reply changes the cache and lets the request go on |
| Dispatch.Dispatcher.constructor | main.go:249-250 | the cache starts empty, with its expiry at the start time |
| Dispatch.Dispatcher.Handle | main.go:252-324 | a token GET is made if and only if the token is empty or expired; an accepted reply (200, readable, decodable) sets the token and expiry to now + expires_in, any other reply leaves the cache and abandons the request; the entry POST carries the current token; the request is forwarded only on status 200 |
| Polling.BuildFilter | main.go:340-343 | the filter holds exactly the configured user names |
| Polling.ProcessUpdates | main.go:383-401 | after a batch the offset is one past the last update's id, even when that update was skipped, and is unchanged for an empty batch; the queued requests are those the batch yields |
| Polling.NextOffset | main.go:384 | the offset after a batch is 1 + the UpdateID of its last update, whatever that update holds; Polling.ProcessUpdates states it as its first two ensures |
| Polling.RequestsOfUpdate | main.go:386-400 | a non-message update and a message from a sender outside the filter yield nothing, and an accepted message yields one request per extracted URL with its chat id; stated by Polling.BatchRequestsSound and Polling.BatchRequestsComplete |
| Polling.BatchRequests | main.go:383-401 | the requests of a batch, in order; Polling.BatchRequestsSound and Polling.BatchRequestsComplete state what it holds, and Polling.ProcessUpdates is proved equal to it |
| Polling.UrlRequestsExactly | main.go:397-400 | a message's requests are exactly its extracted URLs with its chat id and message id 0 |
| Polling.BatchRequestsSound | main.go:386-400 | every queued request comes from a message update whose sender is in the filter, and carries that chat's id and a URL extracted from its text |
| Polling.BatchRequestsComplete | main.go:392-400 | every URL extracted from a message of a permitted sender is queued with that chat's id |
| Polling.NoPermittedSenderQueuesNothing | main.go:386-395 | a batch with no message from a permitted sender queues nothing |
| Config.Complete | main.go:87-89 | the configuration is accepted if and only if none of the token, site, client id, client secret, username or password is empty |
| Config.EmptyFieldRejected | main.go:87-89 | emptying any one of the six required fields makes the check reject |
| Config.FilterUsersIrrelevant | main.go:87-89 | the permitted-sender list does not affect the check |
| Scenarios.DuplicatePersist | main.go:175-201 | persisting the same URL twice leaves one unsaved row with id 1 and forwards only the first request |
| Scenarios.RejectedSubmitIsRecovered | main.go:317-320 | a non-200 submission is not acknowledged, its row stays unsaved, and the next scan emits the request again |
| Scenarios.DeliveredRequest | main.go:201-238 | persist, 200 submission and acknowledgment hand the request to notification and leave its row saved |
| Scenarios.RepeatedAck | main.go:228-238 | a second acknowledgment leaves the saved table as it is and is notified again; the scan then emits nothing |
| Scenarios.ExpiredTokenRefreshed | main.go:260-301 | with the expiry in the past the dispatch first fetches a token; with reply "T"/3600 it caches "T" until one hour after the call and posts with it |
| Scenarios.CredentialReused | main.go:260-296 | a second submission within the token's lifetime makes no token call and posts with the cached token; one after the expiry makes exactly one token call before its post |
| Scenarios.CredentialReuseWindow | main.go:260-296 | from any cache state that needs a refresh, after a dispatch at t accepts the token (tok, e), a later dispatch makes a token call exactly when its clock is past t + e |
| Scenarios.FailedTokenAbandons | main.go:269-290 | a failed token exchange makes only the token call, forwards nothing and leaves the cache empty |

## Left out

- The SQLite driver, SQL text and prepared statements. The table is a sequence; a failure of the COUNT query, of preparing the write or of executing it is the `Fault` input. A failing statement is taken to change nothing.
- The fatal start-up failures of the store: `sql.Open` and the creation of the table and its URL index end the process through `log.Fatalf` (main.go:104-129). `Store.RequestStore.Open` cannot fail.
- Reopening a database file left by an earlier run: the model starts from an empty table. The one-row-per-URL and id invariants of a reopened file are taken to be those the previous run kept.
- The order of the recovery scan: the model emits in rowid order. A query without ORDER BY does not promise an order.
- Goroutines, channels, bounded queue capacity (100), `ctx` cancellation and the hourly rescan timer. Each worker is one step.
- The race in which a scan re-emits a request whose dispatch is still in flight is a concurrency effect and is not modelled.
- HTTP requests, the OAuth query string, JSON encoding of the entry body (the URL is pasted into the body unescaped), JSON decoding of the token reply and closing response bodies. The body is closed by `defer` inside an endless loop. All of these are replaced by the reply values.
- The clock: `now` is integer seconds, and one `now` serves a whole dispatch step. The code reads the clock once for the expiry test and again when it computes the new expiry. Local-time conversion and overflow of a huge `expires_in` in the duration arithmetic are not modelled.
- Integer widths: ChatID (64-bit), MessageID, UpdateID and `1 + UpdateID` are unbounded integers, so wrap-around is not modelled.
- The chat API:
  - `GetUpdates` (a failed poll is an empty batch);
  - sending the confirmation message from the notification queue;
  - messages without a sender: main.go:392 reads `update.Message.From.UserName`, so a message whose `From` is nil makes the polling loop panic and stops the process; the model gives every message a sender name and does not model that crash.
- The URL regular expression is the parameter `extract`.
- Reading, locating and decoding the configuration file, signal handling, `os.Exit` and logging. The two logged conditions that matter are results: `missing` from `MarkSaved` and `fatal` from `RecoveryScan`.
