/**
 * The update-polling loop of the bot: the offset bookkeeping, the sender filter
 * and the turning of every URL of an accepted message into a request. The chat
 * API and the URL regular expression are outside the model; `extract` stands
 * for the expression's "find all matches" on a message text.
 */
module Polling {
  import opened Requests

  datatype Option<T> = None | Some(value: T)

  /** The parts of a chat message the loop reads. */
  datatype Message = Message(text: string, fromUserName: string, chatID: int)

  /** One update of a batch; updates that are not messages carry no message. */
  datatype Update = Update(updateID: int, message: Option<Message>)

  /** The requests one update yields: one per extracted URL of a message from a permitted sender. */
  function RequestsOfUpdate(u: Update, filter: set<string>, extract: string -> seq<string>): seq<SaveRequest>
  {
    if u.message.None? || u.message.value.fromUserName !in filter then []
    else UrlRequests(extract(u.message.value.text), u.message.value.chatID)
  }

  /** The requests for a list of URLs of one chat; the message id is left at its zero value. */
  function UrlRequests(urls: seq<string>, chatID: int): seq<SaveRequest>
  {
    if urls == [] then [] else UrlRequests(urls[..|urls| - 1], chatID) + [SaveRequest(urls[|urls| - 1], chatID, 0)]
  }

  /** The requests a batch of updates yields, in order. */
  function BatchRequests(updates: seq<Update>, filter: set<string>, extract: string -> seq<string>): seq<SaveRequest>
  {
    if updates == [] then []
    else BatchRequests(updates[..|updates| - 1], filter, extract) + RequestsOfUpdate(updates[|updates| - 1], filter, extract)
  }

  /** The offset the next poll asks for after a batch. */
  function NextOffset(offset: int, updates: seq<Update>): int
  {
    if updates == [] then offset else 1 + updates[|updates| - 1].updateID
  }

  /** Building the set of permitted senders from the configured list. */
  method BuildFilter(users: seq<string>) returns (filter: set<string>)
    ensures forall s :: s in filter <==> s in users
  {
    filter := {};
    var i := 0;
    while i < |users|
      invariant 0 <= i <= |users|
      invariant forall s :: s in filter <==> s in users[..i]
    {
      assert users[..i + 1] == users[..i] + [users[i]];
      filter := filter + {users[i]};
      i := i + 1;
    }
    assert users[..i] == users;
  }

  /**
   * One batch of updates: every update moves the offset to one past its id, even
   * when it is skipped; non-message updates and messages from senders outside the
   * filter yield nothing; every URL found in an accepted message is queued.
   */
  method ProcessUpdates(offset: int, updates: seq<Update>, filter: set<string>, extract: string -> seq<string>)
    returns (next: int, queued: seq<SaveRequest>)
    ensures updates != [] ==> next == 1 + updates[|updates| - 1].updateID
    ensures updates == [] ==> next == offset
    ensures queued == BatchRequests(updates, filter, extract)
  {
    next, queued := offset, [];
    var k := 0;
    while k < |updates|
      invariant 0 <= k <= |updates|
      invariant next == NextOffset(offset, updates[..k])
      invariant queued == BatchRequests(updates[..k], filter, extract)
    {
      assert updates[..k + 1][..k] == updates[..k];
      var u := updates[k];
      next := 1 + u.updateID;
      if u.message.None? {
        k := k + 1;
        continue;
      }
      var m := u.message.value;
      if m.fromUserName !in filter {
        k := k + 1;
        continue;
      }
      var urls := extract(m.text);
      var j := 0;
      while j < |urls|
        invariant 0 <= j <= |urls|
        invariant queued == BatchRequests(updates[..k], filter, extract) + UrlRequests(urls[..j], m.chatID)
      {
        assert urls[..j + 1][..j] == urls[..j];
        queued := queued + [SaveRequest(urls[j], m.chatID, 0)];
        j := j + 1;
      }
      assert urls[..j] == urls;
      k := k + 1;
    }
    assert updates[..k] == updates;
  }

  /** Every request for a list of URLs carries one of those URLs, the chat's id and message id 0. */
  lemma {:induction false} UrlRequestsExactly(urls: seq<string>, chatID: int, x: SaveRequest)
    ensures x in UrlRequests(urls, chatID) <==> x.url in urls && x.chatID == chatID && x.messageID == 0
  {
    if urls != [] {
      var p := urls[..|urls| - 1];
      UrlRequestsExactly(p, chatID, x);
      assert urls == p + [urls[|urls| - 1]];
    }
  }

  /**
   * Soundness of the filter: every queued request comes from a message update
   * whose sender is permitted, carries that message's chat id and message id 0,
   * and names a URL extracted from its text.
   */
  lemma {:induction false} BatchRequestsSound(updates: seq<Update>, filter: set<string>,
                                             extract: string -> seq<string>, x: SaveRequest) returns (k: nat)
    requires x in BatchRequests(updates, filter, extract)
    ensures k < |updates| && updates[k].message.Some?
    ensures updates[k].message.value.fromUserName in filter
    ensures x.chatID == updates[k].message.value.chatID && x.messageID == 0
    ensures x.url in extract(updates[k].message.value.text)
  {
    var p := updates[..|updates| - 1];
    var last := updates[|updates| - 1];
    if x in BatchRequests(p, filter, extract) {
      k := BatchRequestsSound(p, filter, extract, x);
      assert p[k] == updates[k];
    } else {
      k := |updates| - 1;
      UrlRequestsExactly(extract(last.message.value.text), last.message.value.chatID, x);
    }
  }

  /** Completeness: every URL of a message from a permitted sender is queued with that chat's id. */
  lemma {:induction false} BatchRequestsComplete(updates: seq<Update>, filter: set<string>,
                                                extract: string -> seq<string>, k: nat, url: string)
    requires k < |updates| && updates[k].message.Some?
    requires updates[k].message.value.fromUserName in filter
    requires url in extract(updates[k].message.value.text)
    ensures SaveRequest(url, updates[k].message.value.chatID, 0) in BatchRequests(updates, filter, extract)
  {
    var p := updates[..|updates| - 1];
    if k < |updates| - 1 {
      assert p[k] == updates[k];
      BatchRequestsComplete(p, filter, extract, k, url);
    } else {
      var m := updates[k].message.value;
      UrlRequestsExactly(extract(m.text), m.chatID, SaveRequest(url, m.chatID, 0));
    }
  }

  /** A batch in which no sender is permitted queues nothing. */
  lemma {:induction false} NoPermittedSenderQueuesNothing(updates: seq<Update>, filter: set<string>,
                                                         extract: string -> seq<string>)
    requires forall k :: 0 <= k < |updates| && updates[k].message.Some? ==>
      updates[k].message.value.fromUserName !in filter
    ensures BatchRequests(updates, filter, extract) == []
  {
    if updates != [] {
      var p := updates[..|updates| - 1];
      assert forall k :: 0 <= k < |p| ==> p[k] == updates[k];
      NoPermittedSenderQueuesNothing(p, filter, extract);
    }
  }
}
