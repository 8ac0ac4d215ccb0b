/**
 * The durable store (sqlite3Handler): the Requests table with its autoincrement
 * counter, and the three workers that read and write it. Each worker is one
 * step that consumes one input and returns what it forwards to the next queue.
 */
module Store {
  import opened Requests
  import opened Table

  /**
   * Which SQL step of a store operation fails, if any: the COUNT query, preparing
   * the write statement, or executing it. Each failure abandons the item at once,
   * so only the first failing step matters.
   */
  datatype Fault = NoFault | CountFault | PrepareFault | ExecFault

  class RequestStore {
    /** The rows of the Requests table, in rowid order. */
    var rows: seq<Record>
    /** The id the next INSERT receives (AUTOINCREMENT). */
    var nextId: int

    ghost predicate Valid()
      reads this
    {
      UniqueUrls(rows) && IdsIncreasing(rows) && IdsBelow(rows, nextId) && 1 <= nextId
    }

    /** CREATE TABLE IF NOT EXISTS on a fresh database: no rows, ids start at 1. */
    constructor Open()
      ensures Valid() && rows == [] && nextId == 1
    {
      rows := [];
      nextId := 1;
    }

    /**
     * The persist worker on one request from the intake queue: insert a row with
     * `saved = 0` only when no row has the URL, and forward the request to the
     * dispatch queue only after the insert succeeded.
     */
    method Persist(r: SaveRequest, fault: Fault) returns (forwarded: seq<SaveRequest>)
      requires Valid()
      modifies this
      ensures Valid()
      ensures Evolves(old(rows), rows) && NewRowsUnsaved(old(rows), rows)
      ensures CountUrl(old(rows), r.url) == 0 && fault == NoFault ==>
        && rows == old(rows) + [NewRecord(old(nextId), r)]
        && nextId == old(nextId) + 1
        && forwarded == [r]
      ensures !(CountUrl(old(rows), r.url) == 0 && fault == NoFault) ==>
        rows == old(rows) && nextId == old(nextId) && forwarded == []
      ensures |rows| > |old(rows)| ==>
        forall i :: 0 <= i < |old(rows)| ==> old(rows)[i].id < rows[|old(rows)|].id
    {
      forwarded := [];
      if fault == CountFault {
        return;
      }
      var count := CountUrl(rows, r.url);
      if count != 0 {
        return;
      }
      if fault == PrepareFault || fault == ExecFault {
        return;
      }
      InsertKeepsInvariant(rows, nextId, r);
      rows := rows + [NewRecord(nextId, r)];
      nextId := nextId + 1;
      forwarded := [r];
    }

    /**
     * The acknowledgment worker on one request the remote service accepted: set
     * `saved = 1` on every row with the URL and forward the request to the
     * notification queue. A URL without a row is reported (`missing`) but does
     * not stop the update or the forwarding.
     */
    method MarkSaved(r: SaveRequest, fault: Fault) returns (missing: bool, forwarded: seq<SaveRequest>)
      requires Valid()
      modifies this
      ensures Valid()
      ensures Evolves(old(rows), rows) && |rows| == |old(rows)| && nextId == old(nextId)
      ensures missing <==> fault != CountFault && CountUrl(old(rows), r.url) == 0
      ensures fault == NoFault ==> rows == MarkSavedRows(old(rows), r.url) && forwarded == [r]
      ensures fault != NoFault ==> rows == old(rows) && forwarded == []
      ensures missing ==> rows == old(rows)
    {
      missing, forwarded := false, [];
      if fault == CountFault {
        return;
      }
      var count := CountUrl(rows, r.url);
      if count == 0 {
        missing := true;
        MarkSavedMissingIsNoOp(rows, r.url);
      }
      if fault == PrepareFault || fault == ExecFault {
        return;
      }
      MarkSavedKeepsInvariant(rows, nextId, r.url);
      rows := MarkSavedRows(rows, r.url);
      forwarded := [r];
    }

    /**
     * One pass of the recovery worker: `SELECT URL, ChatID, MessageID FROM Requests
     * WHERE saved == 0`, emitting each row it can read. A failing query is fatal
     * (the process exits) and emits nothing.
     */
    method RecoveryScan(queryFails: bool, unreadable: set<int>) returns (fatal: bool, emitted: seq<SaveRequest>)
      ensures fatal == queryFails
      ensures queryFails ==> emitted == []
      ensures !queryFails ==> emitted == Pending(rows, unreadable)
      ensures !queryFails ==> forall x :: x in emitted <==>
        exists i :: 0 <= i < |rows| && !rows[i].saved && rows[i].id !in unreadable && x == RequestOf(rows[i])
    {
      if queryFails {
        return true, [];
      }
      fatal := false;
      emitted := [];
      var i := 0;
      while i < |rows|
        invariant 0 <= i <= |rows|
        invariant emitted == Pending(rows[..i], unreadable)
      {
        assert rows[..i + 1][..i] == rows[..i];
        var rec := rows[i];
        if !rec.saved && rec.id !in unreadable {
          emitted := emitted + [RequestOf(rec)];
        }
        i := i + 1;
      }
      assert rows[..|rows|] == rows;
      PendingExactly(rows, unreadable);
    }

    /**
     * The persist worker over a run of the intake queue, `faults[k]` being the
     * outcome of the SQL steps for `inputs[k]`. What it forwards is exactly the
     * requests of the rows it appended: distinct URLs that had no row before.
     */
    method PersistAll(inputs: seq<SaveRequest>, faults: seq<Fault>) returns (forwarded: seq<SaveRequest>)
      requires Valid() && |faults| == |inputs|
      modifies this
      ensures Valid()
      ensures Evolves(old(rows), rows) && NewRowsUnsaved(old(rows), rows)
      ensures rows[..|old(rows)|] == old(rows)
      ensures forwarded == RequestsOf(rows[|old(rows)|..])
      ensures forall i, j :: 0 <= i < j < |forwarded| ==> forwarded[i].url != forwarded[j].url
      ensures forall i :: 0 <= i < |forwarded| ==> CountUrl(old(rows), forwarded[i].url) == 0
      ensures forall i :: 0 <= i < |forwarded| ==> forwarded[i] in inputs
      ensures (forall k :: 0 <= k < |faults| ==> faults[k] == NoFault) ==>
        forall k :: 0 <= k < |inputs| ==> CountUrl(rows, inputs[k].url) == 1
    {
      forwarded := [];
      ghost var t0 := rows;
      ghost var allOk := forall m :: 0 <= m < |faults| ==> faults[m] == NoFault;
      var k := 0;
      while k < |inputs|
        invariant 0 <= k <= |inputs|
        invariant Valid()
        invariant Evolves(t0, rows) && NewRowsUnsaved(t0, rows)
        invariant rows[..|t0|] == t0
        invariant forwarded == RequestsOf(rows[|t0|..])
        invariant forall i :: 0 <= i < |forwarded| ==> forwarded[i] in inputs[..k]
        invariant allOk ==> forall m :: 0 <= m < k ==> CountUrl(rows, inputs[m].url) == 1
      {
        ghost var before := rows;
        ghost var id := nextId;
        var out := Persist(inputs[k], faults[k]);
        if out == [] && allOk {
          assert faults[k] == NoFault;
        }
        PersistAllStep(t0, before, rows, id, forwarded, out, inputs, k, allOk);
        forwarded := forwarded + out;
        k := k + 1;
      }
      assert inputs[..k] == inputs;
      AppendedDistinct(t0, rows);
    }
  }

  /** One turn of the persist worker keeps what PersistAll promises about the run so far. */
  lemma PersistAllStep(t0: Rows, before: Rows, after: Rows, id: int, forwarded: seq<SaveRequest>,
                       out: seq<SaveRequest>, inputs: seq<SaveRequest>, k: nat, allOk: bool)
    requires k < |inputs|
    requires UniqueUrls(before) && UniqueUrls(after)
    requires Evolves(t0, before) && NewRowsUnsaved(t0, before) && before[..|t0|] == t0
    requires forwarded == RequestsOf(before[|t0|..])
    requires forall i :: 0 <= i < |forwarded| ==> forwarded[i] in inputs[..k]
    requires allOk ==> forall m :: 0 <= m < k ==> CountUrl(before, inputs[m].url) == 1
    requires || (out == [] && after == before && (allOk ==> CountUrl(before, inputs[k].url) != 0))
             || (out == [inputs[k]] && after == before + [NewRecord(id, inputs[k])])
    ensures Evolves(t0, after) && NewRowsUnsaved(t0, after) && after[..|t0|] == t0
    ensures forwarded + out == RequestsOf(after[|t0|..])
    ensures forall i :: 0 <= i < |forwarded + out| ==> (forwarded + out)[i] in inputs[..k + 1]
    ensures allOk ==> forall m :: 0 <= m < k + 1 ==> CountUrl(after, inputs[m].url) == 1
  {
    assert inputs[..k + 1] == inputs[..k] + [inputs[k]];
    forall i | 0 <= i < |forwarded + out| ensures (forwarded + out)[i] in inputs[..k + 1] {
      if i < |forwarded| {
        assert (forwarded + out)[i] == forwarded[i] && forwarded[i] in inputs[..k];
      } else {
        assert (forwarded + out)[i] == inputs[k];
      }
    }
    if out == [] {
      if allOk {
        UniqueCountAtMostOne(before, inputs[k].url);
      }
    } else {
      AppendOne(t0, before, id, inputs[k]);
      EvolvesTrans(t0, before, after);
      if allOk {
        forall m | 0 <= m < k + 1 ensures CountUrl(after, inputs[m].url) == 1 {
          if inputs[m].url != inputs[k].url {
            assert CountUrl(after, inputs[m].url) == CountUrl(before, inputs[m].url);
          }
        }
      }
    }
  }
}
