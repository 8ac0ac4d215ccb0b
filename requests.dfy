/** The unit of work that flows through the save-URL pipeline, and its row in the Requests table. */
module Requests {

  /** A request to archive one URL on behalf of one chat (saveURLRequest). */
  datatype SaveRequest = SaveRequest(url: string, chatID: int, messageID: int)

  /** One row of the Requests table: id, URL, ChatID, MessageID and the saved flag (0 or 1). */
  datatype Record = Record(id: int, url: string, chatID: int, messageID: int, saved: bool)

  /** The request a row stands for, as the recovery scan rebuilds it from the three selected columns. */
  function RequestOf(rec: Record): SaveRequest
  {
    SaveRequest(rec.url, rec.chatID, rec.messageID)
  }

  /** The row an insert creates for `r`: the given id and `saved = 0`. */
  function NewRecord(id: int, r: SaveRequest): Record
  {
    Record(id, r.url, r.chatID, r.messageID, false)
  }

  /** Rebuilding the request from a freshly inserted row gives back the request itself. */
  lemma RequestOfNewRecord(id: int, r: SaveRequest)
    ensures RequestOf(NewRecord(id, r)) == r
    ensures !NewRecord(id, r).saved && NewRecord(id, r).id == id
  {
  }
}
