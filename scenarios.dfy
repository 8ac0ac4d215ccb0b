/**
 * The pipeline stages wired by hand on fresh state: intake to store, store to
 * dispatcher, dispatcher back to store, and the recovery scan. Each method
 * follows one request through the queues and states what the stages promise.
 */
module Scenarios {
  import opened Requests
  import opened Table
  import opened Store
  import opened Dispatch

  /** The same URL persisted twice: one row with `saved = 0`, one forwarded request. */
  method DuplicatePersist(r: SaveRequest, again: SaveRequest)
    returns (first: seq<SaveRequest>, second: seq<SaveRequest>, table: seq<Record>)
    requires again.url == r.url
    ensures first == [r] && second == []
    ensures table == [Record(1, r.url, r.chatID, r.messageID, false)]
  {
    var store := new RequestStore.Open();
    first := store.Persist(r, NoFault);
    second := store.Persist(again, NoFault);
    table := store.rows;
  }

  /**
   * A request whose submission gets a non-200 status (503, say): nothing is
   * acknowledged, its row stays unsaved, and the next recovery scan emits it again.
   */
  method RejectedSubmitIsRecovered(r: SaveRequest, now: int, tok: string, expiresIn: int, status: int)
    returns (acked: seq<SaveRequest>, table: seq<Record>, rescanned: seq<SaveRequest>)
    requires status != StatusOK
    ensures acked == []
    ensures table == [NewRecord(1, r)]
    ensures rescanned == [r]
  {
    var store := new RequestStore.Open();
    var dispatched := store.Persist(r, NoFault);
    var dispatcher := new Dispatcher(now);
    var calls;
    calls, acked := dispatcher.Handle(dispatched[0], now, TokenResponse(StatusOK, Parsed(tok, expiresIn)),
                                      SubmitResponse(status));
    table := store.rows;
    var fatal;
    fatal, rescanned := store.RecoveryScan(false, {});
  }

  /**
   * A request that goes all the way: persisted, submitted with 200, marked saved
   * and handed to the notification queue; afterwards its row is saved.
   */
  method DeliveredRequest(r: SaveRequest, now: int, tok: string, expiresIn: int)
    returns (notified: seq<SaveRequest>, table: seq<Record>)
    ensures notified == [r]
    ensures table == [NewRecord(1, r).(saved := true)]
  {
    var store := new RequestStore.Open();
    var dispatched := store.Persist(r, NoFault);
    var dispatcher := new Dispatcher(now);
    var calls, acked := dispatcher.Handle(dispatched[0], now, TokenResponse(StatusOK, Parsed(tok, expiresIn)),
                                          SubmitResponse(StatusOK));
    var missing;
    missing, notified := store.MarkSaved(acked[0], NoFault);
    table := store.rows;
  }

  /**
   * Once a request is acknowledged, a second acknowledgment leaves the table as
   * it is (and is notified again), and the recovery scan has nothing to emit.
   */
  method RepeatedAck(r: SaveRequest)
    returns (table: seq<Record>, tableAfterSecondAck: seq<Record>, renotified: seq<SaveRequest>,
             rescanned: seq<SaveRequest>)
    ensures table == [NewRecord(1, r).(saved := true)]
    ensures tableAfterSecondAck == table && renotified == [r]
    ensures rescanned == []
  {
    var store := new RequestStore.Open();
    var dispatched := store.Persist(r, NoFault);
    var missing, notified := store.MarkSaved(r, NoFault);
    table := store.rows;
    missing, renotified := store.MarkSaved(r, NoFault);
    MarkSavedIdempotent(table, r.url);
    tableAfterSecondAck := store.rows;
    var fatal;
    fatal, rescanned := store.RecoveryScan(false, {});
  }

  /**
   * An expired credential: the dispatch fetches a token first, caches "T" until one
   * hour after the call, and posts the entry with it.
   */
  method ExpiredTokenRefreshed(r: SaveRequest, start: int, now: int)
    returns (calls: seq<Call>, bearer: string, bearerExpire: int)
    requires now > start
    ensures calls == [TokenGet, EntryPost(r.url, "T")]
    ensures bearer == "T" && bearerExpire == now + 3600
  {
    var dispatcher := new Dispatcher(start);
    dispatcher.bearer := "old";
    var forwarded;
    calls, forwarded := dispatcher.Handle(r, now, TokenResponse(StatusOK, Parsed("T", 3600)), SubmitResponse(StatusOK));
    bearer, bearerExpire := dispatcher.bearer, dispatcher.bearerExpire;
  }

  /**
   * Two submissions within the token's lifetime: the first fetches a token, the
   * second reuses it without any token call; a third after the expiry fetches again.
   */
  method CredentialReused(r1: SaveRequest, r2: SaveRequest, r3: SaveRequest,
                          now1: int, now2: int, now3: int, tok: string, expiresIn: int)
    returns (calls1: seq<Call>, calls2: seq<Call>, calls3: seq<Call>)
    requires tok != "" && now1 <= now2 <= now1 + expiresIn < now3
    ensures calls1 == [TokenGet, EntryPost(r1.url, tok)]
    ensures calls2 == [EntryPost(r2.url, tok)]
    ensures calls3 == [TokenGet, EntryPost(r3.url, tok)]
  {
    var dispatcher := new Dispatcher(now1);
    var reply := TokenResponse(StatusOK, Parsed(tok, expiresIn));
    var forwarded;
    calls1, forwarded := dispatcher.Handle(r1, now1, reply, SubmitResponse(StatusOK));
    calls2, forwarded := dispatcher.Handle(r2, now2, TokenTransportError, SubmitResponse(StatusOK));
    calls3, forwarded := dispatcher.Handle(r3, now3, reply, SubmitResponse(StatusOK));
  }

  /**
   * Credential reuse from any cache state: once a dispatch at `t` has refreshed
   * and accepted the reply (tok, e), a later dispatch makes a token call exactly
   * when its clock is past `t + e`.
   */
  method CredentialReuseWindow(bearer0: string, expire0: int, r1: SaveRequest, r2: SaveRequest,
                               t: int, later: int, tok: string, e: int,
                               submit1: SubmitReply, token2: TokenReply, submit2: SubmitReply)
    returns (calls1: seq<Call>, calls2: seq<Call>)
    requires NeedsRefresh(bearer0, expire0, t) && tok != ""
    ensures TokenGet in calls1
    ensures TokenGet in calls2 <==> later > t + e
  {
    var dispatcher := new Dispatcher(expire0);
    dispatcher.bearer := bearer0;
    var forwarded;
    calls1, forwarded := dispatcher.Handle(r1, t, TokenResponse(StatusOK, Parsed(tok, e)), submit1);
    RefreshWindow(tok, t, e, later);
    calls2, forwarded := dispatcher.Handle(r2, later, token2, submit2);
  }

  /** A failed token exchange abandons the request and leaves the cache as it was. */
  method FailedTokenAbandons(r: SaveRequest, now: int, token: TokenReply, submit: SubmitReply)
    returns (calls: seq<Call>, forwarded: seq<SaveRequest>, bearer: string)
    requires !TokenAccepted(token)
    ensures calls == [TokenGet] && forwarded == [] && bearer == ""
  {
    var dispatcher := new Dispatcher(now);
    calls, forwarded := dispatcher.Handle(r, now, token, submit);
    bearer := dispatcher.bearer;
  }
}
