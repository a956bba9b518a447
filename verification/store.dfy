/** The conversation table (`GPTData`): one row per stored turn, never updated or deleted.
    The table is a sequence whose index order is the auto-increment id order, so a row's
    position plays the role of its primary key. */
module Store {
  import opened Seqs

  type UserId = nat

  /** A stored turn: owner, the user's text and the model's text. Both text columns are
      NOT NULL, so an absent value is the empty string. */
  datatype Row = Row(userId: UserId, inputText: string, gptResponse: string)

  type Table = seq<Row>

  /** How many stored turns are replayed into a completion request and shown on the page. */
  const HistoryLimit: nat := 10

  /** `filter_by(user_id = u)`: the rows owned by `u`, in id order. */
  function Owned(t: Table, u: UserId): (r: seq<Row>)
    ensures |r| <= |t|
    ensures forall j :: 0 <= j < |r| ==> r[j].userId == u
  {
    if |t| == 0 then []
    else
      var init := t[..|t| - 1];
      assert t == init + [t[|t| - 1]];
      Owned(init, u) + (if t[|t| - 1].userId == u then [t[|t| - 1]] else [])
  }

  /** Number of stored turns owned by `u`. */
  function Count(t: Table, u: UserId): nat {
    |Owned(t, u)|
  }

  /** The ids (positions) of the rows owned by `u`, ascending. */
  function OwnedIndices(t: Table, u: UserId): (r: seq<nat>)
    ensures |r| == Count(t, u)
    ensures forall j :: 0 <= j < |r| ==> r[j] < |t| && t[r[j]].userId == u
    ensures forall j, k :: 0 <= j < k < |r| ==> r[j] < r[k]
  {
    if |t| == 0 then []
    else
      var init := t[..|t| - 1];
      CountSnoc(init, t[|t| - 1], u);
      assert t == init + [t[|t| - 1]];
      OwnedIndices(init, u) + (if t[|t| - 1].userId == u then [|t| - 1] else [])
  }

  /** Counting the owned rows of a table one row longer. */
  lemma CountSnoc(t: Table, row: Row, u: UserId)
    ensures Count(t + [row], u) == Count(t, u) + (if row.userId == u then 1 else 0)
  {
    OwnedSnoc(t, row, u);
  }

  /** The owned ids name exactly the owned rows: position `j` of `u`'s history is the row
      with the `j`-th owned id, and every row of `u` has its id listed. */
  lemma {:induction false} OwnedIndicesMatch(t: Table, u: UserId)
    ensures forall j :: 0 <= j < |OwnedIndices(t, u)| ==>
              t[OwnedIndices(t, u)[j]] == Owned(t, u)[j]
    ensures forall i :: 0 <= i < |t| && t[i].userId == u ==> i in OwnedIndices(t, u)
    decreases |t|
  {
    if |t| > 0 {
      var init := t[..|t| - 1];
      var row := t[|t| - 1];
      assert t == init + [row];
      OwnedIndicesMatch(init, u);
      OwnedSnoc(init, row, u);
      var ri := OwnedIndices(init, u);
      var r := OwnedIndices(t, u);
      assert r == ri + (if row.userId == u then [|t| - 1] else []);
      forall j | 0 <= j < |r|
        ensures t[r[j]] == Owned(t, u)[j]
      {
        if j < |ri| {
          assert r[j] == ri[j];
          assert t[ri[j]] == init[ri[j]];
        }
      }
      forall i | 0 <= i < |t| && t[i].userId == u
        ensures i in r
      {
        if i < |t| - 1 {
          assert init[i] == t[i];
          assert i in ri;
        } else {
          assert r[|r| - 1] == i;
        }
      }
    }
  }

  /** Appending a row extends its owner's history by that row and leaves every other
      user's history as it was. */
  lemma OwnedSnoc(t: Table, row: Row, u: UserId)
    ensures Owned(t + [row], u) == Owned(t, u) + (if row.userId == u then [row] else [])
  {
    assert (t + [row])[..|t|] == t;
  }

  /** Appending a batch of rows extends each user's history by that user's rows of the
      batch, in batch order. */
  lemma {:induction false} OwnedConcat(t: Table, rows: seq<Row>, u: UserId)
    ensures Owned(t + rows, u) == Owned(t, u) + Owned(rows, u)
    decreases |rows|
  {
    if |rows| == 0 {
      assert t + rows == t;
    } else {
      var init := rows[..|rows| - 1];
      var last := rows[|rows| - 1];
      assert rows == init + [last];
      assert t + rows == (t + init) + [last];
      OwnedConcat(t, init, u);
      OwnedSnoc(t + init, last, u);
      OwnedSnoc(init, last, u);
    }
  }

  /** The query `filter_by(user_id = u).order_by(id desc).limit(limit)`: the owned rows
      met while scanning from the highest id down, stopping after `limit` of them. */
  function NewestFirst(t: Table, u: UserId, limit: nat): (r: seq<Row>)
    ensures |r| == Min(limit, Count(t, u))
    ensures forall j :: 0 <= j < |r| ==> r[j].userId == u
    decreases |t|
  {
    if |t| == 0 || limit == 0 then []
    else
      var init := t[..|t| - 1];
      CountSnoc(init, t[|t| - 1], u);
      assert t == init + [t[|t| - 1]];
      if t[|t| - 1].userId == u then [t[|t| - 1]] + NewestFirst(init, u, limit - 1)
      else NewestFirst(init, u, limit)
  }

  /** The replay window: the newest `HistoryLimit` turns of `u`, oldest first. */
  function Window(t: Table, u: UserId): seq<Row> {
    Last(Owned(t, u), HistoryLimit)
  }

  /** Ids of the rows in the window, ascending. */
  function WindowIndices(t: Table, u: UserId): seq<nat> {
    Last(OwnedIndices(t, u), HistoryLimit)
  }

  /** Reversing the descending query yields the newest `limit` owned rows in id order. */
  lemma {:induction false} ReversedQueryIsLast(t: Table, u: UserId, limit: nat)
    ensures Reverse(NewestFirst(t, u, limit)) == Last(Owned(t, u), limit)
  {
    ScanIsLast(t, u, limit);
  }

  /** The induction behind `ReversedQueryIsLast`, over the rows scanned from the top. */
  lemma {:induction false} ScanIsLast(t: Table, u: UserId, limit: nat)
    ensures QueryIsLast(t, u, limit)
    decreases |t|
  {
    if |t| == 0 || limit == 0 {
      QueryEmpty(t, u, limit);
    } else {
      ScanIsLast(t[..|t| - 1], u, RemainingLimit(t, u, limit));
      QueryStep(t, u, limit);
    }
  }


  /** The reversed query with limit `limit` is the newest `limit` rows of `u`. */
  predicate QueryIsLast(t: Table, u: UserId, limit: nat) {
    Reverse(NewestFirst(t, u, limit)) == Last(Owned(t, u), limit)
  }

  /** An empty table or a zero limit: the query and the newest rows are both empty. */
  lemma QueryEmpty(t: Table, u: UserId, limit: nat)
    requires |t| == 0 || limit == 0
    ensures QueryIsLast(t, u, limit)
  {
    assert |Last(Owned(t, u), limit)| == 0;
  }


  /** How many rows the scan still takes below the highest row. */
  function RemainingLimit(t: Table, u: UserId, limit: nat): nat
    requires |t| > 0 && limit > 0
  {
    if t[|t| - 1].userId == u then limit - 1 else limit
  }

  /** One scan step of the query: the highest row is taken when `u` owns it, else skipped. */
  lemma QueryStep(t: Table, u: UserId, limit: nat)
    requires |t| > 0 && limit > 0
    requires QueryIsLast(t[..|t| - 1], u, RemainingLimit(t, u, limit))
    ensures QueryIsLast(t, u, limit)
  {
    var init := t[..|t| - 1];
    var row := t[|t| - 1];
    if row.userId == u {
      assert NewestFirst(t, u, limit) == [row] + NewestFirst(init, u, limit - 1);
      assert Owned(t, u) == Owned(init, u) + [row];
      ReverseCons(row, NewestFirst(init, u, limit - 1));
      LastSnoc(Owned(init, u), row, limit - 1);
    } else {
      assert NewestFirst(t, u, limit) == NewestFirst(init, u, limit);
      assert Owned(t, u) == Owned(init, u) + [];
    }
  }




  /** The rows the handlers replay (lines 103 and 107, and again 140 and 144): the query
      result reversed. It is exactly the newest `min(10, k)` turns of `u`, oldest first. */
  function RecentRows(t: Table, u: UserId): (r: seq<Row>)
    ensures r == Window(t, u)
    ensures |r| == Min(HistoryLimit, Count(t, u))
    ensures forall j :: 0 <= j < |r| ==> r[j].userId == u
  {
    ReversedQueryIsLast(t, u, HistoryLimit);
    Reverse(NewestFirst(t, u, HistoryLimit))
  }

  /** The window holds the rows with the largest ids among those owned by `u`: its ids
      ascend, each names a row of `u` equal to the window entry, and every row of `u`
      left out has a smaller id than every row kept. */
  lemma WindowIsNewest(t: Table, u: UserId)
    ensures |WindowIndices(t, u)| == |Window(t, u)| == Min(HistoryLimit, Count(t, u))
    ensures forall j :: 0 <= j < |WindowIndices(t, u)| ==>
              WindowIndices(t, u)[j] < |t| && t[WindowIndices(t, u)[j]] == Window(t, u)[j]
              && t[WindowIndices(t, u)[j]].userId == u
    ensures forall j, k :: 0 <= j < k < |WindowIndices(t, u)| ==>
              WindowIndices(t, u)[j] < WindowIndices(t, u)[k]
    ensures forall i, j ::
              (0 <= i < |t| && t[i].userId == u && i !in WindowIndices(t, u) &&
               0 <= j < |WindowIndices(t, u)|) ==> i < WindowIndices(t, u)[j]
  {
    WindowIndicesAlign(t, u);
    WindowDropsOlder(t, u);
  }

  /** Each window id names the window entry at the same position, and the ids ascend. */
  lemma WindowIndicesAlign(t: Table, u: UserId)
    ensures |WindowIndices(t, u)| == |Window(t, u)|
    ensures forall j :: 0 <= j < |WindowIndices(t, u)| ==>
              WindowIndices(t, u)[j] < |t| && t[WindowIndices(t, u)[j]] == Window(t, u)[j]
  {
    OwnedIndicesMatch(t, u);
    var all := OwnedIndices(t, u);
    var o := Owned(t, u);
    var idx := WindowIndices(t, u);
    var w := Window(t, u);
    var off := |all| - |idx|;
    forall j | 0 <= j < |idx|
      ensures idx[j] < |t| && t[idx[j]] == w[j]
    {
      assert idx[j] == all[off + j];
      assert w[j] == o[off + j];
    }
  }

  /** A row of `u` outside the window is older than every row in it. */
  lemma WindowDropsOlder(t: Table, u: UserId)
    ensures forall i, j ::
              (0 <= i < |t| && t[i].userId == u && i !in WindowIndices(t, u) &&
               0 <= j < |WindowIndices(t, u)|) ==> i < WindowIndices(t, u)[j]
  {
    OwnedIndicesMatch(t, u);
    forall i | 0 <= i < |t| && t[i].userId == u && i !in WindowIndices(t, u)
      ensures forall j :: 0 <= j < |WindowIndices(t, u)| ==> i < WindowIndices(t, u)[j]
    {
      DroppedAreSmaller(OwnedIndices(t, u), HistoryLimit, i);
    }
  }

  /** In an ascending list of ids, an id outside the newest `n` is below all of them. */
  lemma DroppedAreSmaller(all: seq<nat>, n: nat, i: nat)
    requires forall j, k :: 0 <= j < k < |all| ==> all[j] < all[k]
    requires i in all && i !in Last(all, n)
    ensures forall j :: 0 <= j < |Last(all, n)| ==> i < Last(all, n)[j]
  {
    var idx := Last(all, n);
    var off := |all| - |idx|;
    forall q | off <= q < |all|
      ensures all[q] in idx
    {
      assert idx[q - off] == all[q];
    }
    var p :| 0 <= p < |all| && all[p] == i;
    assert p < off;
    forall j | 0 <= j < |idx|
      ensures i < idx[j]
    {
      assert idx[j] == all[off + j];
    }
  }
}
