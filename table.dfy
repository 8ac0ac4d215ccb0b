/**
 * The Requests table as a value: a sequence of rows in insertion (rowid) order.
 * The functions here are what the SQL statements of the store compute; the
 * store's methods are specified in terms of them.
 */
module Table {
  import opened Requests

  type Rows = seq<Record>

  /** `SELECT COUNT(*) FROM Requests WHERE URL = ?`. */
  function CountUrl(t: Rows, url: string): (n: nat)
    ensures n <= |t|
    ensures n == 0 <==> forall i :: 0 <= i < |t| ==> t[i].url != url
  {
    if t == [] then 0
    else CountUrl(t[..|t| - 1], url) + (if t[|t| - 1].url == url then 1 else 0)
  }

  /** At most one row per URL: the dedup invariant. */
  ghost predicate UniqueUrls(t: Rows)
  {
    forall i, j :: 0 <= i < j < |t| ==> t[i].url != t[j].url
  }

  /** Autoincrement ids grow along the table. */
  ghost predicate IdsIncreasing(t: Rows)
  {
    forall i, j :: 0 <= i < j < |t| ==> t[i].id < t[j].id
  }

  /** Every id in use is below `next`, the id the next insert receives. */
  ghost predicate IdsBelow(t: Rows, next: int)
  {
    forall i :: 0 <= i < |t| ==> t[i].id < next
  }

  /**
   * How the table may evolve: rows are only appended, an existing row keeps its
   * id, URL, ChatID and MessageID, and a saved flag never goes from 1 back to 0.
   */
  ghost predicate Evolves(t: Rows, t': Rows)
  {
    && |t| <= |t'|
    && (forall i :: 0 <= i < |t| ==>
          && t'[i].id == t[i].id && t'[i].url == t[i].url
          && t'[i].chatID == t[i].chatID && t'[i].messageID == t[i].messageID
          && (t[i].saved ==> t'[i].saved))
  }

  /** Rows appended between `t` and `t'` are all unsaved: only insertion creates `saved = 0`. */
  ghost predicate NewRowsUnsaved(t: Rows, t': Rows)
    requires |t| <= |t'|
  {
    forall i :: |t| <= i < |t'| ==> !t'[i].saved
  }

  /** `UPDATE Requests SET saved = 1 WHERE URL = ?`. */
  function MarkSavedRows(t: Rows, url: string): (t': Rows)
    ensures |t'| == |t|
    ensures forall i :: 0 <= i < |t| && t[i].url == url ==> t'[i] == t[i].(saved := true)
    ensures forall i :: 0 <= i < |t| && t[i].url != url ==> t'[i] == t[i]
  {
    if t == [] then []
    else
      var last := t[|t| - 1];
      MarkSavedRows(t[..|t| - 1], url) + [if last.url == url then last.(saved := true) else last]
  }

  /**
   * What one recovery scan emits: the request of every row with `saved == 0`,
   * in table order, except rows whose columns cannot be read (`unreadable` ids).
   */
  function Pending(t: Rows, unreadable: set<int>): (s: seq<SaveRequest>)
    ensures |s| <= |t|
  {
    if t == [] then []
    else
      var last := t[|t| - 1];
      Pending(t[..|t| - 1], unreadable)
        + (if !last.saved && last.id !in unreadable then [RequestOf(last)] else [])
  }

  /** The requests a sequence of rows stands for, one per row. */
  function RequestsOf(t: Rows): (s: seq<SaveRequest>)
    ensures |s| == |t|
    ensures forall i :: 0 <= i < |t| ==> s[i] == RequestOf(t[i])
  {
    if t == [] then [] else RequestsOf(t[..|t| - 1]) + [RequestOf(t[|t| - 1])]
  }

  // ---------------------------------------------------------------------------
  // Counting and uniqueness

  /** Two rows with the same URL make the count at least two. */
  lemma {:induction false} CountTwoRows(t: Rows, url: string, i: int, j: int)
    requires 0 <= i < j < |t| && t[i].url == url && t[j].url == url
    ensures CountUrl(t, url) >= 2
  {
    var p := t[..|t| - 1];
    if j < |t| - 1 {
      CountTwoRows(p, url, i, j);
    } else {
      assert p[i] == t[i];
      assert CountUrl(p, url) != 0;
    }
  }

  /** Under the dedup invariant every URL has at most one row. */
  lemma {:induction false} UniqueCountAtMostOne(t: Rows, url: string)
    requires UniqueUrls(t)
    ensures CountUrl(t, url) <= 1
  {
    if t != [] {
      var p := t[..|t| - 1];
      assert UniqueUrls(p) by {
        forall i, j | 0 <= i < j < |p| ensures p[i].url != p[j].url {
          assert p[i] == t[i] && p[j] == t[j];
        }
      }
      UniqueCountAtMostOne(p, url);
      if t[|t| - 1].url == url {
        forall i | 0 <= i < |p| ensures p[i].url != url {
          assert p[i] == t[i];
        }
      }
    }
  }

  /** The dedup invariant holds exactly when no URL is counted twice. */
  lemma UniqueIffCountsAtMostOne(t: Rows)
    ensures UniqueUrls(t) <==> forall url :: CountUrl(t, url) <= 1
  {
    if UniqueUrls(t) {
      forall url ensures CountUrl(t, url) <= 1 {
        UniqueCountAtMostOne(t, url);
      }
    }
    if !UniqueUrls(t) {
      var i, j :| 0 <= i < j < |t| && t[i].url == t[j].url;
      CountTwoRows(t, t[i].url, i, j);
    }
  }

  /** Appending a row for a URL that has none keeps the dedup invariant and the id order. */
  lemma InsertKeepsInvariant(t: Rows, next: int, r: SaveRequest)
    requires UniqueUrls(t) && IdsIncreasing(t) && IdsBelow(t, next)
    requires CountUrl(t, r.url) == 0
    ensures UniqueUrls(t + [NewRecord(next, r)])
    ensures IdsIncreasing(t + [NewRecord(next, r)])
    ensures IdsBelow(t + [NewRecord(next, r)], next + 1)
    ensures Evolves(t, t + [NewRecord(next, r)])
  {
  }

  // ---------------------------------------------------------------------------
  // Marking rows as saved

  /** Marking twice is marking once. */
  lemma MarkSavedIdempotent(t: Rows, url: string)
    ensures MarkSavedRows(MarkSavedRows(t, url), url) == MarkSavedRows(t, url)
  {
  }

  /** Marking keeps every row's identity, never clears a flag, and keeps both invariants. */
  lemma MarkSavedKeepsInvariant(t: Rows, next: int, url: string)
    ensures Evolves(t, MarkSavedRows(t, url))
    ensures UniqueUrls(t) ==> UniqueUrls(MarkSavedRows(t, url))
    ensures IdsIncreasing(t) ==> IdsIncreasing(MarkSavedRows(t, url))
    ensures IdsBelow(t, next) ==> IdsBelow(MarkSavedRows(t, url), next)
  {
  }

  /** A URL without a row leaves the table unchanged. */
  lemma MarkSavedMissingIsNoOp(t: Rows, url: string)
    requires CountUrl(t, url) == 0
    ensures MarkSavedRows(t, url) == t
  {
  }

  /** After marking, no row of the URL is pending. */
  lemma MarkSavedClearsPending(t: Rows, url: string, unreadable: set<int>)
    ensures forall x :: x in Pending(MarkSavedRows(t, url), unreadable) ==> x.url != url
  {
    var t' := MarkSavedRows(t, url);
    forall x | x in Pending(t', unreadable) ensures x.url != url {
      var i := PendingSound(t', unreadable, x);
    }
  }

  // ---------------------------------------------------------------------------
  // The recovery scan

  /** Every emitted request comes from an unsaved, readable row. */
  lemma {:induction false} PendingSound(t: Rows, unreadable: set<int>, x: SaveRequest) returns (i: nat)
    requires x in Pending(t, unreadable)
    ensures i < |t| && !t[i].saved && t[i].id !in unreadable && x == RequestOf(t[i])
  {
    var p := t[..|t| - 1];
    var last := t[|t| - 1];
    if x in Pending(p, unreadable) {
      i := PendingSound(p, unreadable, x);
      assert p[i] == t[i];
    } else {
      i := |t| - 1;
    }
  }

  /** Every unsaved, readable row is emitted. */
  lemma {:induction false} PendingComplete(t: Rows, unreadable: set<int>, i: nat)
    requires i < |t| && !t[i].saved && t[i].id !in unreadable
    ensures RequestOf(t[i]) in Pending(t, unreadable)
  {
    var p := t[..|t| - 1];
    if i < |t| - 1 {
      assert p[i] == t[i];
      PendingComplete(p, unreadable, i);
    }
  }

  /** The scan emits exactly the requests of the unsaved, readable rows. */
  lemma PendingExactly(t: Rows, unreadable: set<int>)
    ensures forall x :: x in Pending(t, unreadable) <==>
      exists i :: 0 <= i < |t| && !t[i].saved && t[i].id !in unreadable && x == RequestOf(t[i])
  {
    forall x | x in Pending(t, unreadable)
      ensures exists i :: 0 <= i < |t| && !t[i].saved && t[i].id !in unreadable && x == RequestOf(t[i])
    {
      var i := PendingSound(t, unreadable, x);
    }
    forall i | 0 <= i < |t| && !t[i].saved && t[i].id !in unreadable
      ensures RequestOf(t[i]) in Pending(t, unreadable)
    {
      PendingComplete(t, unreadable, i);
    }
  }

  /** Under the dedup invariant the scan emits each URL at most once. */
  lemma {:induction false} PendingDistinct(t: Rows, unreadable: set<int>)
    requires UniqueUrls(t)
    ensures var s := Pending(t, unreadable);
      forall i, j :: 0 <= i < j < |s| ==> s[i].url != s[j].url
  {
    if t != [] {
      var p := t[..|t| - 1];
      var last := t[|t| - 1];
      assert UniqueUrls(p) by {
        forall i, j | 0 <= i < j < |p| ensures p[i].url != p[j].url {
          assert p[i] == t[i] && p[j] == t[j];
        }
      }
      PendingDistinct(p, unreadable);
      var sp := Pending(p, unreadable);
      forall k | 0 <= k < |sp| ensures sp[k].url != last.url {
        var i := PendingSound(p, unreadable, sp[k]);
        assert p[i] == t[i];
      }
    }
  }

  /** A table whose rows are all saved has nothing to recover. */
  lemma {:induction false} PendingEmptyWhenAllSaved(t: Rows, unreadable: set<int>)
    requires forall i :: 0 <= i < |t| ==> t[i].saved
    ensures Pending(t, unreadable) == []
  {
    if t != [] {
      var p := t[..|t| - 1];
      assert forall i :: 0 <= i < |p| ==> p[i] == t[i];
      PendingEmptyWhenAllSaved(p, unreadable);
    }
  }

  // ---------------------------------------------------------------------------
  // Dedup across many inserts

  /** Appending one new row: the earlier prefix is kept, the appended requests grow by one, and only its URL's count grows. */
  lemma AppendOne(t0: Rows, t: Rows, id: int, r: SaveRequest)
    requires |t0| <= |t| && t[..|t0|] == t0
    ensures (t + [NewRecord(id, r)])[..|t0|] == t0
    ensures RequestsOf((t + [NewRecord(id, r)])[|t0|..]) == RequestsOf(t[|t0|..]) + [r]
    ensures forall u :: CountUrl(t + [NewRecord(id, r)], u) == CountUrl(t, u) + (if r.url == u then 1 else 0)
  {
    var t' := t + [NewRecord(id, r)];
    assert t'[|t0|..] == t[|t0|..] + [NewRecord(id, r)];
    assert t'[..|t'| - 1] == t;
  }

  /** Evolution composes: appending, keeping identities and never clearing a flag is closed under sequencing. */
  lemma EvolvesTrans(a: Rows, b: Rows, c: Rows)
    requires Evolves(a, b) && Evolves(b, c)
    ensures Evolves(a, c)
  {
  }

  /**
   * If the table grew from `t` to `t'` under the dedup invariant, the requests of
   * the appended rows name distinct URLs, none of which had a row before.
   */
  lemma AppendedDistinct(t: Rows, t': Rows)
    requires |t| <= |t'| && t'[..|t|] == t && UniqueUrls(t')
    ensures var s := RequestsOf(t'[|t|..]);
      && (forall i, j :: 0 <= i < j < |s| ==> s[i].url != s[j].url)
      && (forall i :: 0 <= i < |s| ==> CountUrl(t, s[i].url) == 0)
  {
    var s := RequestsOf(t'[|t|..]);
    forall i | 0 <= i < |s| ensures CountUrl(t, s[i].url) == 0 {
      assert s[i].url == t'[|t| + i].url;
      forall k | 0 <= k < |t| ensures t[k].url != s[i].url {
        assert t[k] == t'[k];
      }
    }
    forall i, j | 0 <= i < j < |s| ensures s[i].url != s[j].url {
      assert s[i].url == t'[|t| + i].url && s[j].url == t'[|t| + j].url;
    }
  }
}
