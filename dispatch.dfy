/**
 * The dispatcher (wallabagHandler): a cached bearer token with its expiry, a
 * token exchange when the cache is empty or stale, and one authenticated POST
 * per request. HTTP exchanges are replaced by the replies they produce, and
 * wall-clock time by an integer number of seconds.
 */
module Dispatch {
  import opened Requests

  const StatusOK: int := 200

  /** The body of a token response, as reading and JSON-decoding it turns out. */
  datatype TokenBody = Unreadable | Malformed | Parsed(accessToken: string, expiresIn: int)

  /** What the token endpoint GET produced. */
  datatype TokenReply = TokenTransportError | TokenResponse(status: int, body: TokenBody)

  /** What building and sending the entry POST produced. */
  datatype SubmitReply = SubmitBuildError | SubmitTransportError | SubmitResponse(status: int)

  /** The calls made to the remote service. */
  datatype Call = TokenGet | EntryPost(url: string, bearer: string)

  /** The cached credential is unusable: empty, or its expiry is strictly in the past. */
  predicate NeedsRefresh(bearer: string, bearerExpire: int, now: int)
  {
    now > bearerExpire || bearer == ""
  }

  /** A token reply the dispatcher accepts: status 200 and a body that reads and decodes. */
  predicate TokenAccepted(reply: TokenReply)
  {
    reply.TokenResponse? && reply.status == StatusOK && reply.body.Parsed?
  }

  /**
   * The refresh condition on a cached non-empty token `tok` expiring at
   * `now + expiresIn`: a refresh is needed exactly when the clock is past that expiry.
   */
  lemma RefreshWindow(tok: string, now: int, expiresIn: int, later: int)
    requires tok != ""
    ensures NeedsRefresh(tok, now + expiresIn, later) <==> later > now + expiresIn
  {
  }

  class Dispatcher {
    /** The cached access token ("" until the first successful exchange). */
    var bearer: string
    /** When the cached token expires, in seconds. */
    var bearerExpire: int

    /** The cache as the handler starts it: no token, expiry at the start time. */
    constructor (now: int)
      ensures bearer == "" && bearerExpire == now
    {
      bearer := "";
      bearerExpire := now;
    }

    /**
     * One request from the dispatch queue. A token exchange is attempted exactly
     * when the cache needs refreshing; an accepted reply replaces the cache with
     * its token and `now + expires_in`; any other reply leaves the cache as it was
     * and abandons the request. The request is forwarded to the acknowledgment
     * queue only when the POST returns 200.
     */
    method Handle(r: SaveRequest, now: int, token: TokenReply, submit: SubmitReply)
      returns (calls: seq<Call>, forwarded: seq<SaveRequest>)
      modifies this
      ensures var refresh := NeedsRefresh(old(bearer), old(bearerExpire), now);
        && (refresh && TokenAccepted(token) ==>
              bearer == token.body.accessToken && bearerExpire == now + token.body.expiresIn)
        && (!(refresh && TokenAccepted(token)) ==>
              bearer == old(bearer) && bearerExpire == old(bearerExpire))
        && (TokenGet in calls <==> refresh)
        && calls == (if refresh then [TokenGet] else [])
                    + (if (!refresh || TokenAccepted(token)) && !submit.SubmitBuildError?
                       then [EntryPost(r.url, bearer)] else [])
        && forwarded == (if (!refresh || TokenAccepted(token)) && submit == SubmitResponse(StatusOK)
                         then [r] else [])
    {
      calls, forwarded := [], [];
      if NeedsRefresh(bearer, bearerExpire, now) {
        calls := [TokenGet];
        match token
        case TokenTransportError =>
          return;
        case TokenResponse(status, body) =>
          if status != StatusOK {
            return;
          }
          match body
          case Unreadable =>
            return;
          case Malformed =>
            return;
          case Parsed(accessToken, expiresIn) =>
            bearerExpire := now + expiresIn;
            bearer := accessToken;
      }
      match submit
      case SubmitBuildError =>
        return;
      case SubmitTransportError =>
        calls := calls + [EntryPost(r.url, bearer)];
        return;
      case SubmitResponse(status) =>
        calls := calls + [EntryPost(r.url, bearer)];
        if status != StatusOK {
          return;
        }
        forwarded := [r];
    }
  }
}
