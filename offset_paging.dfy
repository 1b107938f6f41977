/**
 * The first prototype's `get_saved_tracks` (main.py): offset paging over the
 * saved-tracks endpoint. It asks for pages of 50 at offsets 0, 50, 100, ...
 * and stops after the first page that does not hold exactly 50 items. The
 * endpoint is the function `respond` from `(limit, offset)` to the page's
 * items; the requests made and the sleeps between them are returned as a
 * log.
 */
module OffsetPaging {
  import opened Wrappers
  import opened PyDict
  import opened SpotifyDatatypes
  import opened Pagination

  /** `limit`: the page size asked for. */
  const LIMIT: nat := 50

  /** The items of request number `k`, made at offset `50 * k`. */
  function PageAt(respond: (nat, nat) -> seq<TrackItem>, k: nat): seq<TrackItem>
  {
    respond(LIMIT, 50 * k)
  }

  /** The items of the first `n` requests, in order. */
  function Received(respond: (nat, nat) -> seq<TrackItem>, n: nat): seq<TrackItem>
  {
    if n == 0 then [] else Received(respond, n - 1) + PageAt(respond, n - 1)
  }

  /**
   * What the loop makes of the items it processed: each stored under
   * `item["track"]["id"]`, which raises TypeError on a None track.
   */
  function OffsetSavedTracks(items: seq<TrackItem>): Result<Dict<string, TrackItem>>
  {
    if |Filter(items, HasTrack)| != |items| then Err(TypeError("'NoneType' object is not subscriptable"))
    else Ok(FetchedTracks(items))
  }

  /** A filter that drops nothing returns its input. */
  lemma {:induction false} FilterKeepsAll<T>(s: seq<T>, keep: T -> bool)
    requires |Filter(s, keep)| == |s|
    ensures Filter(s, keep) == s
  {
    if |s| > 0 {
      var init := s[..|s| - 1];
      FilterKeepsAll(init, keep);
      assert s == init + [s[|s| - 1]];
    }
  }

  /**
   * The saved tracks fail exactly when a received item has no track;
   * otherwise every received item's track id is a key, and there are at
   * most as many entries as items received.
   */
  lemma OffsetSavedTracksOutcome(items: seq<TrackItem>)
    ensures OffsetSavedTracks(items).Err? <==> exists i :: 0 <= i < |items| && items[i].track.None?
    ensures OffsetSavedTracks(items).Ok? ==>
      && OffsetSavedTracks(items).value.Len() <= |items|
      && forall i :: 0 <= i < |items| ==> items[i].track.Some? && items[i].track.value.id in OffsetSavedTracks(items).value.entries
  {
    if exists i :: 0 <= i < |items| && items[i].track.None? {
      var i :| 0 <= i < |items| && items[i].track.None?;
      FilterDrops(items, HasTrack, i);
    } else {
      if |Filter(items, HasTrack)| != |items| {
        MissingWitness(items, HasTrack);
      }
      FilterKeepsAll(items, HasTrack);
      FetchedTracksCount(items);
      forall i | 0 <= i < |items|
        ensures items[i].track.value.id in FetchedTracks(items).entries
      {
        FetchedTracksKeys(items, items[i].track.value.id);
      }
    }
  }

  /** The requests of the first `n` passes: `(limit, offset)` with the offset growing by 50 each time. */
  function RequestLog(n: nat): (log: seq<(nat, nat)>)
    ensures |log| == n
  {
    if n == 0 then [] else RequestLog(n - 1) + [(LIMIT, 50 * (n - 1))]
  }

  /** Each pass appends one request, 50 further on. */
  lemma RequestLogStep(n: nat)
    ensures RequestLog(n + 1) == RequestLog(n) + [(LIMIT, 50 * n)]
  {
  }

  /** Request `k` asks for 50 items at offset `50 * k`. */
  lemma {:induction false} RequestLogAt(n: nat, k: nat)
    requires k < n
    ensures RequestLog(n)[k] == (LIMIT, 50 * k)
  {
    if k < n - 1 {
      RequestLogAt(n - 1, k);
    }
  }

  /** The first `n` pages each held exactly `limit` items. */
  predicate FullPages(respond: (nat, nat) -> seq<TrackItem>, n: nat)
  {
    n == 0 || (FullPages(respond, n - 1) && |PageAt(respond, n - 1)| == LIMIT)
  }

  lemma {:induction false} FullPagesAt(respond: (nat, nat) -> seq<TrackItem>, n: nat, k: nat)
    requires FullPages(respond, n) && k < n
    ensures |PageAt(respond, k)| == LIMIT
  {
    if k < n - 1 {
      FullPagesAt(respond, n - 1, k);
    }
  }

  /**
   * The loop's dict after the first `n` requests: every received item has a
   * track, and each is stored under its id.
   */
  predicate StoredSoFar(respond: (nat, nat) -> seq<TrackItem>, n: nat, savedTracks: Dict<string, TrackItem>)
  {
    && |Filter(Received(respond, n), HasTrack)| == |Received(respond, n)|
    && savedTracks == InsertAll(Empty(), Filter(Received(respond, n), HasTrack), TrackId)
  }

  /**
   * One pass of the loop: request `(limit, offset)` and store the page's
   * items, stopping at the first one without a track.
   */
  method SavePage(respond: (nat, nat) -> seq<TrackItem>, savedTracks: Dict<string, TrackItem>, offset: nat, ghost n: nat)
    returns (resultItems: seq<TrackItem>, saved: Dict<string, TrackItem>, missing: bool)
    requires offset == 50 * n
    requires StoredSoFar(respond, n, savedTracks)
    ensures resultItems == PageAt(respond, n)
    ensures missing ==> OffsetSavedTracks(Received(respond, n + 1)).Err?
    ensures !missing ==> StoredSoFar(respond, n + 1, saved)
  {
    ghost var before := Received(respond, n);
    resultItems := respond(LIMIT, offset);
    assert Received(respond, n + 1) == before + resultItems;
    var at;
    saved, at := SavePageItems(savedTracks, before, resultItems, TrackId, HasTrack, RaiseOnMissing);
    missing := at.Some?;
    if missing {
      FilterDrops(before + resultItems, HasTrack, |before| + at.value);
    }
  }

  /** The loop's facts when it leaves after request `n`, restated over the request log. */
  lemma SavedTracksOnExit(respond: (nat, nat) -> seq<TrackItem>, stop: nat, r: Result<Dict<string, TrackItem>>,
                          requests: seq<(nat, nat)>, sleeps: nat, n: nat)
    requires n <= stop && requests == RequestLog(n + 1) && FullPages(respond, n) && sleeps == n
    requires r == OffsetSavedTracks(Received(respond, n + 1))
    requires r.Ok? ==> |PageAt(respond, n)| != LIMIT
    requires r.Err? ==> OffsetSavedTracks(Received(respond, n)).Ok?
    ensures 1 <= |requests| <= stop + 1
    ensures requests == RequestLog(|requests|)
    ensures forall k :: 0 <= k < |requests| - 1 ==> |PageAt(respond, k)| == LIMIT
    ensures sleeps == |requests| - 1
    ensures r == OffsetSavedTracks(Received(respond, |requests|))
    ensures r.Ok? ==> |PageAt(respond, |requests| - 1)| != LIMIT
    ensures r.Err? ==> OffsetSavedTracks(Received(respond, |requests| - 1)).Ok?
  {
    forall k | 0 <= k < |requests| - 1
      ensures |PageAt(respond, k)| == LIMIT
    {
      FullPagesAt(respond, n, k);
    }
  }

  /**
   * `get_saved_tracks`. It makes the requests of `RequestLog`, and stops
   * after the first page whose length is not 50, or raises on the first
   * item without a track; it sleeps between requests, never after the last.
   * `stop` is any request number whose page is not full: the library ends
   * somewhere, so the loop ends.
   */
  method GetSavedTracks(respond: (nat, nat) -> seq<TrackItem>, ghost stop: nat)
    returns (r: Result<Dict<string, TrackItem>>, requests: seq<(nat, nat)>, sleeps: nat)
    requires |PageAt(respond, stop)| != LIMIT
    ensures 1 <= |requests| <= stop + 1
    ensures requests == RequestLog(|requests|)
    ensures forall k :: 0 <= k < |requests| - 1 ==> |PageAt(respond, k)| == LIMIT
    ensures sleeps == |requests| - 1
    ensures r == OffsetSavedTracks(Received(respond, |requests|))
    ensures r.Ok? ==> |PageAt(respond, |requests| - 1)| != LIMIT
    ensures r.Err? ==> OffsetSavedTracks(Received(respond, |requests| - 1)).Ok?
  {
    var limit: nat := LIMIT;
    var offset: nat := 0;
    var savedTracks := Empty();
    requests, sleeps := [], 0;
    ghost var n: nat := 0;
    while true
      invariant n <= stop
      invariant offset == 50 * n
      invariant requests == RequestLog(n)
      invariant FullPages(respond, n)
      invariant sleeps == n
      invariant StoredSoFar(respond, n, savedTracks)
      decreases stop - n
    {
      var resultItems, missing;
      resultItems, savedTracks, missing := SavePage(respond, savedTracks, offset, n);
      RequestLogStep(n);
      requests := requests + [(limit, offset)];
      if missing || |resultItems| != limit {
        r := if missing then Err(TypeError("'NoneType' object is not subscriptable")) else Ok(savedTracks);
        SavedTracksOnExit(respond, stop, r, requests, sleeps, n);
        return;
      }
      assert |PageAt(respond, n)| == LIMIT;
      assert n != stop;
      offset := offset + limit;
      sleeps := sleeps + 1;
      n := n + 1;
    }
  }
}
