/**
 * Following the API's `next` cursors (spotify_snapshot/spotify.py). The API
 * is a parameter: the outcomes of the loop's successive `sp_client.next`
 * calls, in order, each a page or a read timeout. A loop that has used up
 * the given outcomes sees only timeouts.
 */
module Pagination {
  import opened Wrappers
  import opened PyDict
  import opened SpotifyDatatypes

  /** What one `sp_client.next(results)` call does. */
  datatype Outcome<T> = Fetched(page: Page<T>) | TimedOut

  function OutcomeAt<T>(api: seq<Outcome<T>>, pos: nat): (o: Outcome<T>)
    ensures o.Fetched? ==> pos < |api|
  {
    if pos < |api| then api[pos] else TimedOut
  }

  /** The pages a loop processed, and whether it stopped because the last page had no `next`. */
  datatype Walk<T> = Walk(pages: seq<Page<T>>, complete: bool)

  /** All items of the pages, page after page. */
  function Items<T>(pages: seq<Page<T>>): seq<T>
  {
    if |pages| == 0 then [] else Items(pages[..|pages| - 1]) + pages[|pages| - 1].items
  }

  lemma ItemsSnoc<T>(pages: seq<Page<T>>, p: Page<T>)
    ensures Items(pages + [p]) == Items(pages) + p.items
  {
    assert (pages + [p])[..|pages|] == pages;
  }

  lemma {:induction false} ItemsAppend<T>(a: seq<Page<T>>, b: seq<Page<T>>)
    ensures Items(a + b) == Items(a) + Items(b)
    decreases |b|
  {
    if |b| == 0 {
      assert a + b == a;
    } else {
      var init, last := b[..|b| - 1], b[|b| - 1];
      ItemsAppend(a, init);
      assert (a + b)[..|a + b| - 1] == a + init;
      calc {
        Items(a + b);
        Items(a + init) + last.items;
        (Items(a) + Items(init)) + last.items;
        Items(a) + (Items(init) + last.items);
        Items(a) + Items(b);
      }
    }
  }

  /** `[x for x in s if keep(x)]`. */
  function Filter<T>(s: seq<T>, keep: T -> bool): (r: seq<T>)
    ensures |r| <= |s|
  {
    if |s| == 0 then []
    else Filter(s[..|s| - 1], keep) + (if keep(s[|s| - 1]) then [s[|s| - 1]] else [])
  }

  lemma FilterSnoc<T>(s: seq<T>, x: T, keep: T -> bool)
    ensures Filter(s + [x], keep) == Filter(s, keep) + (if keep(x) then [x] else [])
  {
    assert (s + [x])[..|s|] == s;
  }

  /** The items before `before + items[..0]` are just `before`. */
  lemma PrefixEmpty<T>(before: seq<T>, items: seq<T>)
    ensures before + items[..0] == before
  {
  }

  /** One more item of the page. */
  lemma PrefixSnoc<T>(before: seq<T>, items: seq<T>, j: nat)
    requires j < |items|
    ensures before + items[..j + 1] == (before + items[..j]) + [items[j]]
  {
  }

  /** The whole page. */
  lemma PrefixWhole<T>(before: seq<T>, items: seq<T>)
    ensures before + items[..|items|] == before + items
  {
  }

  /** Storing one more item: a kept item is assigned under its key, any other changes nothing. */
  lemma KeptSnoc<T>(seen: seq<T>, x: T, key: T -> string, keep: T -> bool)
    ensures |Filter(seen + [x], keep)| == |Filter(seen, keep)| + (if keep(x) then 1 else 0)
    ensures InsertAll(Empty(), Filter(seen + [x], keep), key) ==
      if keep(x) then InsertAll(Empty(), Filter(seen, keep), key).Set(key(x), x) else InsertAll(Empty(), Filter(seen, keep), key)
  {
    FilterSnoc(seen, x, keep);
    if keep(x) {
      var e: Dict<string, T> := Empty();
      InsertAllSnoc(e, Filter(seen, keep), x, key);
    } else {
      assert Filter(seen + [x], keep) == Filter(seen, keep);
    }
  }

  /** Every element goes to exactly one side of a filter and its complement. */
  lemma {:induction false} FilterSplit<T>(s: seq<T>, keep: T -> bool, drop: T -> bool)
    requires forall x :: drop(x) == !keep(x)
    ensures |Filter(s, keep)| + |Filter(s, drop)| == |s|
  {
    if |s| > 0 {
      FilterSplit(s[..|s| - 1], keep, drop);
    }
  }

  /** An element the filter refuses makes the filtered sequence shorter. */
  lemma {:induction false} FilterDrops<T>(s: seq<T>, keep: T -> bool, i: nat)
    requires i < |s| && !keep(s[i])
    ensures |Filter(s, keep)| < |s|
  {
    if i < |s| - 1 {
      FilterDrops(s[..|s| - 1], keep, i);
    }
  }

  /** Every element the filter accepts is kept. */
  lemma {:induction false} FilterKeeps<T>(s: seq<T>, keep: T -> bool, x: T)
    ensures x in Filter(s, keep) <==> x in s && keep(x)
  {
    if |s| > 0 {
      FilterKeeps(s[..|s| - 1], keep, x);
      assert s == s[..|s| - 1] + [s[|s| - 1]];
    }
  }

  lemma InsertAllSnoc<V>(d: Dict<string, V>, s: seq<V>, x: V, key: V -> string)
    ensures InsertAll(d, s + [x], key) == InsertAll(d, s, key).Set(key(x), x)
  {
    assert (s + [x])[..|s|] == s;
  }

  /**
   * The retrying follow-up fetch (`for attempt in range(max_retries)`), from
   * attempt `attempt` on: the first page among the remaining attempts and the
   * position after it, or None when every remaining attempt timed out.
   */
  function RetryNext<T>(api: seq<Outcome<T>>, pos: nat, attempt: nat, maxRetries: nat): (r: Option<(Page<T>, nat)>)
    requires attempt < maxRetries
    ensures r.None? <==> forall j :: pos <= j < pos + (maxRetries - attempt) ==> OutcomeAt(api, j).TimedOut?
    ensures r.Some? ==> pos < r.value.1 <= pos + (maxRetries - attempt) && r.value.1 <= |api|
    ensures r.Some? ==> OutcomeAt(api, r.value.1 - 1) == Fetched(r.value.0)
    ensures r.Some? ==> forall j :: pos <= j < r.value.1 - 1 ==> OutcomeAt(api, j).TimedOut?
    decreases maxRetries - attempt
  {
    match OutcomeAt(api, pos)
    case Fetched(p) => Some((p, pos + 1))
    case TimedOut =>
      if attempt == maxRetries - 1 then None
      else
        var r := RetryNext(api, pos + 1, attempt + 1, maxRetries);
        assert r.None? ==> forall j :: pos <= j < pos + (maxRetries - attempt) ==> OutcomeAt(api, j).TimedOut? by {
          if r.None? {
            forall j | pos <= j < pos + (maxRetries - attempt)
              ensures OutcomeAt(api, j).TimedOut?
            {
              if j > pos {
                assert pos + 1 <= j < (pos + 1) + (maxRetries - (attempt + 1));
              }
            }
          }
        }
        r
  }

  /** The pages `_fetch_paginated_tracks` processes, starting from `page` with the API at `pos`. */
  function RetryWalk<T>(page: Page<T>, api: seq<Outcome<T>>, pos: nat, maxRetries: nat): (w: Walk<T>)
    requires maxRetries >= 1
    ensures |w.pages| >= 1 && w.pages[0] == page
    decreases |api| - pos
  {
    if !HasNext(page) then Walk([page], true)
    else
      match RetryNext(api, pos, 0, maxRetries)
      case None => Walk([page], false)
      case Some((next, pos')) =>
        var rest := RetryWalk(next, api, pos', maxRetries);
        Walk([page] + rest.pages, rest.complete)
  }

  /**
   * The walk follows cursors: every page but the last had a `next`; it is
   * complete exactly when the last page has none, and otherwise stopped
   * because every retry of the last follow-up timed out.
   */
  lemma {:induction false} RetryWalkCursors<T>(page: Page<T>, api: seq<Outcome<T>>, pos: nat, maxRetries: nat)
    requires maxRetries >= 1
    ensures var w := RetryWalk(page, api, pos, maxRetries);
      && (forall i :: 0 <= i < |w.pages| - 1 ==> HasNext(w.pages[i]))
      && (w.complete <==> !HasNext(w.pages[|w.pages| - 1]))
    decreases |api| - pos
  {
    if HasNext(page) {
      match RetryNext(api, pos, 0, maxRetries)
      case None =>
      case Some((next, pos')) =>
        RetryWalkCursors(next, api, pos', maxRetries);
        var rest := RetryWalk(next, api, pos', maxRetries);
        assert forall i :: 1 <= i < |rest.pages| + 1 ==> ([page] + rest.pages)[i] == rest.pages[i - 1];
    }
  }

  /** The walk that gave up is exactly the one where `max_retries` timeouts came in a row. */
  lemma RetryWalkGivesUp<T>(page: Page<T>, api: seq<Outcome<T>>, pos: nat, maxRetries: nat)
    requires maxRetries >= 1 && HasNext(page)
    ensures RetryWalk(page, api, pos, maxRetries) == Walk([page], false) <==>
            forall j :: pos <= j < pos + maxRetries ==> OutcomeAt(api, j).TimedOut?
  {
    var w := RetryWalk(page, api, pos, maxRetries);
    if RetryNext(api, pos, 0, maxRetries).Some? {
      assert |w.pages| > 1 || !w.complete;
      var rest := RetryWalk(RetryNext(api, pos, 0, maxRetries).value.0, api, RetryNext(api, pos, 0, maxRetries).value.1, maxRetries);
      assert |w.pages| == 1 + |rest.pages|;
    }
  }

  /** One step of the walk: a page with a `next` is followed by the walk from the page the retries fetched. */
  lemma RetryWalkStep<T>(page: Page<T>, api: seq<Outcome<T>>, pos: nat, maxRetries: nat)
    requires maxRetries >= 1
    ensures var w := RetryWalk(page, api, pos, maxRetries);
      match RetryNext(api, pos, 0, maxRetries)
      case Some((next, pos')) =>
        HasNext(page) ==> w == Walk([page] + RetryWalk(next, api, pos', maxRetries).pages, RetryWalk(next, api, pos', maxRetries).complete)
      case None => HasNext(page) ==> w == Walk([page], false)
    ensures !HasNext(page) ==> RetryWalk(page, api, pos, maxRetries) == Walk([page], true)
  {
  }

  /** What `_fetch_paginated_tracks` returns and logs, as functions of the processed items. */
  function FetchedTracks(items: seq<TrackItem>): (d: Dict<string, TrackItem>)
  {
    InsertAll(Empty(), Filter(items, HasTrack), TrackId)
  }

  predicate IsTombstone(item: TrackItem)
  {
    item.track.None?
  }

  /**
   * The body of `for item in result_items`: an item without a track is set
   * aside; any other is stored under its track id, replacing an earlier item
   * with that id.
   */
  method StorePageItems(tracksDict: Dict<string, TrackItem>, skippedTracks: seq<TrackItem>,
                        ghost before: seq<TrackItem>, resultItems: seq<TrackItem>)
    returns (tracksDict': Dict<string, TrackItem>, skippedTracks': seq<TrackItem>)
    requires tracksDict == FetchedTracks(before) && skippedTracks == Filter(before, IsTombstone)
    ensures tracksDict' == FetchedTracks(before + resultItems)
    ensures skippedTracks' == Filter(before + resultItems, IsTombstone)
  {
    tracksDict', skippedTracks' := tracksDict, skippedTracks;
    ghost var seen := before;
    PrefixEmpty(before, resultItems);
    for j := 0 to |resultItems|
      invariant seen == before + resultItems[..j]
      invariant tracksDict' == FetchedTracks(seen)
      invariant skippedTracks' == Filter(seen, IsTombstone)
    {
      var item := resultItems[j];
      PrefixSnoc(before, resultItems, j);
      StoreSnoc(seen, item);
      if item.track.None? {
        skippedTracks' := skippedTracks' + [item];
      } else {
        tracksDict' := tracksDict'.Set(item.track.value.id, item);
      }
      seen := seen + [item];
    }
    PrefixWhole(before, resultItems);
  }

  /** Storing one more item: a track is assigned under its id, an item without one is set aside. */
  lemma StoreSnoc(seen: seq<TrackItem>, item: TrackItem)
    ensures FetchedTracks(seen + [item]) ==
      if item.track.None? then FetchedTracks(seen) else FetchedTracks(seen).Set(item.track.value.id, item)
    ensures Filter(seen + [item], IsTombstone) == Filter(seen, IsTombstone) + (if item.track.None? then [item] else [])
  {
    KeptSnoc(seen, item, TrackId, HasTrack);
    FilterSnoc(seen, item, IsTombstone);
  }

  /**
   * `for attempt in range(max_retries)` around `sp_client.next(results)`: the
   * first page among `max_retries` attempts, or None (the caller then returns
   * what it has) when every attempt timed out. Also gives the API position
   * after the last attempt made.
   */
  method NextWithRetries<T>(api: seq<Outcome<T>>, pos: nat, maxRetries: nat) returns (r: Option<(Page<T>, nat)>)
    requires maxRetries >= 1
    ensures r == RetryNext(api, pos, 0, maxRetries)
  {
    var at := pos;
    var attempt := 0;
    while true
      invariant 0 <= attempt < maxRetries
      invariant at == pos + attempt
      invariant RetryNext(api, pos, 0, maxRetries) == RetryNext(api, at, attempt, maxRetries)
      decreases maxRetries - attempt
    {
      var outcome := OutcomeAt(api, at);
      at := at + 1;
      if outcome.Fetched? {
        return Some((outcome.page, at));
      }
      if attempt == maxRetries - 1 {
        return None;
      }
      attempt := attempt + 1;
    }
  }

  /** The retrying loop stops at `results`: the items of the whole walk end with that page's items. */
  lemma RetryWalkAtStop<T>(whole: Walk<T>, done: seq<Page<T>>, results: Page<T>, api: seq<Outcome<T>>, pos: nat,
                           maxRetries: nat)
    requires maxRetries >= 1
    requires !HasNext(results) || RetryNext(api, pos, 0, maxRetries).None?
    requires whole.pages == done + RetryWalk(results, api, pos, maxRetries).pages
    ensures Items(whole.pages) == Items(done) + results.items
  {
    RetryWalkStep(results, api, pos, maxRetries);
    ItemsSnoc(done, results);
  }

  /** The retrying loop goes on with the fetched page: the walk still splits into the processed pages and the walk from there. */
  lemma RetryInvariantStep<T>(whole: Walk<T>, done: seq<Page<T>>, results: Page<T>, api: seq<Outcome<T>>, pos: nat,
                              maxRetries: nat)
    requires maxRetries >= 1 && HasNext(results) && RetryNext(api, pos, 0, maxRetries).Some?
    requires whole.pages == done + RetryWalk(results, api, pos, maxRetries).pages
    requires whole.complete == RetryWalk(results, api, pos, maxRetries).complete
    ensures var next := RetryNext(api, pos, 0, maxRetries).value;
      var rest := RetryWalk(next.0, api, next.1, maxRetries);
      whole.pages == (done + [results]) + rest.pages && whole.complete == rest.complete
    ensures Items(done + [results]) == Items(done) + results.items
  {
    RetryWalkStep(results, api, pos, maxRetries);
    ItemsSnoc(done, results);
    var next := RetryNext(api, pos, 0, maxRetries).value;
    var rest := RetryWalk(next.0, api, next.1, maxRetries);
    assert done + ([results] + rest.pages) == (done + [results]) + rest.pages;
  }

  /**
   * `_fetch_paginated_tracks`: processes each page (counting its items,
   * setting aside items without a track, storing the others under their track
   * id) and follows `next`, retrying each follow-up up to `max_retries` times.
   * When every retry times out it returns what it has gathered so far.
   */
  method FetchPaginatedTracks(initialResults: Page<TrackItem>, api: seq<Outcome<TrackItem>>, maxRetries: nat)
    returns (tracksDict: Dict<string, TrackItem>, skippedTracks: seq<TrackItem>, totalTracksFetched: nat)
    requires maxRetries >= 1
    ensures var items := Items(RetryWalk(initialResults, api, 0, maxRetries).pages);
      && tracksDict == FetchedTracks(items)
      && skippedTracks == Filter(items, IsTombstone)
      && totalTracksFetched == |items|
  {
    tracksDict := Empty();
    totalTracksFetched := 0;
    skippedTracks := [];
    var results := initialResults;
    var pos: nat := 0;
    ghost var done: seq<Page<TrackItem>> := [];
    ghost var whole := RetryWalk(initialResults, api, 0, maxRetries);
    while true
      invariant pos <= |api|
      invariant whole.pages == done + RetryWalk(results, api, pos, maxRetries).pages
      invariant whole.complete == RetryWalk(results, api, pos, maxRetries).complete
      invariant tracksDict == FetchedTracks(Items(done))
      invariant skippedTracks == Filter(Items(done), IsTombstone)
      invariant totalTracksFetched == |Items(done)|
      decreases |api| - pos
    {
      var resultItems := results.items;
      totalTracksFetched := totalTracksFetched + |resultItems|;
      tracksDict, skippedTracks := StorePageItems(tracksDict, skippedTracks, Items(done), resultItems);
      if !HasNext(results) {
        RetryWalkAtStop(whole, done, results, api, pos, maxRetries);
        return;
      }
      var next := NextWithRetries(api, pos, maxRetries);
      if next.None? {
        RetryWalkAtStop(whole, done, results, api, pos, maxRetries);
        return;
      }
      RetryInvariantStep(whole, done, results, api, pos, maxRetries);
      done := done + [results];
      results, pos := next.value.0, next.value.1;
    }
  }

  /** `_fetch_paginated_tracks` never stores an item whose track is None, and stores each under its own track id. */
  lemma FetchedTracksStored(items: seq<TrackItem>)
    ensures FetchedTracks(items).Valid()
    ensures KeyedBy(FetchedTracks(items), TrackId)
    ensures forall k :: k in FetchedTracks(items).entries ==> FetchedTracks(items).entries[k].track.Some?
  {
    var kept := Filter(items, HasTrack);
    InsertAllValid(Empty(), kept, TrackId);
    InsertAllKeyedBy(Empty(), kept, TrackId);
    forall k | k in FetchedTracks(items).entries
      ensures FetchedTracks(items).entries[k].track.Some?
    {
      InsertAllValues(Empty(), kept, TrackId, k);
      FilterKeeps(items, HasTrack, FetchedTracks(items).entries[k]);
    }
  }

  /** The stored ids are exactly the ids of the items that have a track. */
  lemma FetchedTracksKeys(items: seq<TrackItem>, id: string)
    ensures id in FetchedTracks(items).entries <==>
            exists i :: 0 <= i < |items| && items[i].track.Some? && items[i].track.value.id == id
  {
    var kept := Filter(items, HasTrack);
    InsertAllKeys(Empty(), kept, TrackId, id);
    if exists i :: 0 <= i < |kept| && TrackId(kept[i]) == id {
      var i :| 0 <= i < |kept| && TrackId(kept[i]) == id;
      FilterKeeps(items, HasTrack, kept[i]);
      var j :| 0 <= j < |items| && items[j] == kept[i];
    }
    if exists i :: 0 <= i < |items| && items[i].track.Some? && items[i].track.value.id == id {
      var i :| 0 <= i < |items| && items[i].track.Some? && items[i].track.value.id == id;
      FilterKeeps(items, HasTrack, items[i]);
      var j :| 0 <= j < |kept| && kept[j] == items[i];
    }
  }

  /** A later item with the same track id overwrites an earlier one: each id holds the last item with that id. */
  lemma {:induction false} FetchedTracksLastWins(items: seq<TrackItem>, i: nat)
    requires i < |items| && items[i].track.Some?
    requires forall j :: i < j < |items| && items[j].track.Some? ==> items[j].track.value.id != items[i].track.value.id
    ensures items[i].track.value.id in FetchedTracks(items).entries
    ensures FetchedTracks(items).entries[items[i].track.value.id] == items[i]
  {
    var init := items[..|items| - 1];
    var last := items[|items| - 1];
    var id := items[i].track.value.id;
    assert items == init + [last];
    FilterSnoc(init, last, HasTrack);
    if HasTrack(last) {
      assert FetchedTracks(items).entries == FetchedTracks(init).entries[TrackId(last) := last] by {
        InsertAllSnoc(Empty(), Filter(init, HasTrack), last, TrackId);
      }
      if i < |items| - 1 {
        assert TrackId(last) != id;
        FetchedTracksLastWins(init, i);
      }
    } else {
      assert Filter(items, HasTrack) == Filter(init, HasTrack);
      FetchedTracksLastWins(init, i);
    }
  }

  /** Stored tracks and skipped items together never outnumber the items counted as fetched. */
  lemma FetchedTracksCount(items: seq<TrackItem>)
    ensures FetchedTracks(items).Len() + |Filter(items, IsTombstone)| <= |items|
  {
    InsertAllSize(Empty(), Filter(items, HasTrack), TrackId);
    FilterSplit(items, HasTrack, IsTombstone);
  }

  /**
   * The pages a plain `while True` paging loop (`get_saved_albums`,
   * `get_playlists`, and the older loops with `test_mode`) processes:
   * `complete` is false when a `next` call timed out, which raises out of the
   * loop. In test mode the loop stops right after fetching the second page,
   * without processing it.
   */
  function PlainWalk<T>(page: Page<T>, api: seq<Outcome<T>>, pos: nat, testMode: bool): (w: Walk<T>)
    ensures |w.pages| >= 1 && w.pages[0] == page
    decreases |api| - pos
  {
    if !HasNext(page) then Walk([page], true)
    else
      match OutcomeAt(api, pos)
      case TimedOut => Walk([page], false)
      case Fetched(next) =>
        if testMode then Walk([page], true)
        else
          var rest := PlainWalk(next, api, pos + 1, testMode);
          Walk([page] + rest.pages, rest.complete)
  }

  /** Every processed page but the last had a `next`; without test mode a walk that ended normally ended on a page without one. */
  lemma {:induction false} PlainWalkCursors<T>(page: Page<T>, api: seq<Outcome<T>>, pos: nat, testMode: bool)
    ensures var w := PlainWalk(page, api, pos, testMode);
      && (forall i :: 0 <= i < |w.pages| - 1 ==> HasNext(w.pages[i]))
      && (!testMode && w.complete ==> !HasNext(w.pages[|w.pages| - 1]))
      && (!w.complete ==> HasNext(w.pages[|w.pages| - 1]))
    decreases |api| - pos
  {
    if HasNext(page) && OutcomeAt(api, pos).Fetched? && !testMode {
      var next := OutcomeAt(api, pos).page;
      PlainWalkCursors(next, api, pos + 1, testMode);
      var rest := PlainWalk(next, api, pos + 1, testMode);
      assert forall i :: 1 <= i < |rest.pages| + 1 ==> ([page] + rest.pages)[i] == rest.pages[i - 1];
    }
  }

  /** In test mode only the first page is processed. */
  lemma TestModeFirstPageOnly<T>(page: Page<T>, api: seq<Outcome<T>>)
    ensures PlainWalk(page, api, 0, true).pages == [page]
  {
  }

  /** Items whose key the loop cannot read (`item["track"]` is None): skipped, or the loop raises TypeError. */
  datatype MissingPolicy = SkipMissing | RaiseOnMissing

  /** What a plain paging loop returns: the dict of the processed items under their keys, or the exception that escaped. */
  function Collected<T>(w: Walk<T>, key: T -> string, present: T -> bool, policy: MissingPolicy): (r: Result<Dict<string, T>>)
  {
    var items := Items(w.pages);
    if policy == RaiseOnMissing && |Filter(items, present)| != |items| then
      Err(TypeError("'NoneType' object is not subscriptable"))
    else if !w.complete then Err(ReadTimeout)
    else Ok(InsertAll(Empty(), Filter(items, present), key))
  }

  /** The loop fails exactly when a `next` call timed out or, under RaiseOnMissing, a processed item had no key. */
  lemma CollectedFails<T>(w: Walk<T>, key: T -> string, present: T -> bool, policy: MissingPolicy)
    ensures var items := Items(w.pages);
      Collected(w, key, present, policy).Err? <==>
        !w.complete || (policy == RaiseOnMissing && exists i :: 0 <= i < |items| && !present(items[i]))
  {
    var items := Items(w.pages);
    var hasMissing := exists i :: 0 <= i < |items| && !present(items[i]);
    if hasMissing {
      var i :| 0 <= i < |items| && !present(items[i]);
      FilterDrops(items, present, i);
    } else if |Filter(items, present)| != |items| {
      MissingWitness(items, present);
    }
    assert hasMissing <==> |Filter(items, present)| != |items|;
    assert Collected(w, key, present, policy).Err? <==>
      (policy == RaiseOnMissing && |Filter(items, present)| != |items|) || !w.complete;
    assert Collected(w, key, present, policy).Err? <==> !w.complete || (policy == RaiseOnMissing && hasMissing);
    assert items == Items(w.pages);
  }

  lemma {:induction false} MissingWitness<T>(s: seq<T>, present: T -> bool)
    requires |Filter(s, present)| != |s|
    ensures exists i :: 0 <= i < |s| && !present(s[i])
  {
    var init := s[..|s| - 1];
    if present(s[|s| - 1]) {
      MissingWitness(init, present);
      var i :| 0 <= i < |init| && !present(init[i]);
      assert s[i] == init[i];
    }
  }

  /** The result holds exactly the keys of the kept items, each under its own key, the last item with a key winning. */
  lemma CollectedKeys<T>(w: Walk<T>, key: T -> string, present: T -> bool, policy: MissingPolicy, k: string)
    requires Collected(w, key, present, policy).Ok?
    ensures var d := Collected(w, key, present, policy).value;
      var kept := Filter(Items(w.pages), present);
      k in d.entries <==> exists i :: 0 <= i < |kept| && key(kept[i]) == k
  {
    var kept := Filter(Items(w.pages), present);
    var d := Collected(w, key, present, policy).value;
    assert d == InsertAll(Empty(), kept, key);
    var e: Dict<string, T> := Empty();
    InsertAllKeys(e, kept, key, k);
    assert (k in d.entries <==> exists i :: 0 <= i < |kept| && key(kept[i]) == k);
    assert k in d.entries ==> exists i :: 0 <= i < |kept| && key(kept[i]) == k;
    assert (exists i :: 0 <= i < |kept| && key(kept[i]) == k) ==> k in d.entries;
    assert d == Collected(w, key, present, policy).value;
    assert kept == Filter(Items(w.pages), present);
  }

  /** The result is a well-formed dict, each value stored under its own key. */
  lemma CollectedKeyedBy<T>(w: Walk<T>, key: T -> string, present: T -> bool, policy: MissingPolicy)
    requires Collected(w, key, present, policy).Ok?
    ensures Collected(w, key, present, policy).value.Valid()
    ensures KeyedBy(Collected(w, key, present, policy).value, key)
  {
    var e: Dict<string, T> := Empty();
    InsertAllValid(e, Filter(Items(w.pages), present), key);
    InsertAllKeyedBy(e, Filter(Items(w.pages), present), key);
  }

  /**
   * One processed page of a plain loop: each item is stored under its key,
   * replacing an earlier one; an item without a key is skipped, or stops the
   * loop with TypeError (reported as `missing`, with its index).
   */
  method SavePageItems<T>(saved: Dict<string, T>, ghost before: seq<T>, resultItems: seq<T>,
                          key: T -> string, present: T -> bool, policy: MissingPolicy)
    returns (saved': Dict<string, T>, missing: Option<nat>)
    requires saved == InsertAll(Empty(), Filter(before, present), key)
    requires policy == RaiseOnMissing ==> |Filter(before, present)| == |before|
    ensures missing.None? ==> saved' == InsertAll(Empty(), Filter(before + resultItems, present), key)
    ensures missing.None? && policy == RaiseOnMissing ==> |Filter(before + resultItems, present)| == |before + resultItems|
    ensures missing.Some? ==> policy == RaiseOnMissing && missing.value < |resultItems| && !present(resultItems[missing.value])
  {
    saved' := saved;
    ghost var seen := before;
    PrefixEmpty(before, resultItems);
    for j := 0 to |resultItems|
      invariant seen == before + resultItems[..j]
      invariant saved' == InsertAll(Empty(), Filter(seen, present), key)
      invariant policy == RaiseOnMissing ==> |Filter(seen, present)| == |seen|
    {
      var item := resultItems[j];
      PrefixSnoc(before, resultItems, j);
      KeptSnoc(seen, item, key, present);
      if !present(item) {
        if policy == RaiseOnMissing {
          return saved', Some(j);
        }
      } else {
        saved' := saved'.Set(key(item), item);
      }
      seen := seen + [item];
    }
    PrefixWhole(before, resultItems);
    missing := None;
  }

  lemma ItemsCons<T>(pages: seq<Page<T>>)
    requires |pages| >= 1
    ensures Items(pages) == pages[0].items + Items(pages[1..])
  {
    var head := [pages[0]];
    assert Items(head) == pages[0].items by {
      assert head[..0] == [];
    }
    assert head + pages[1..] == pages;
    ItemsAppend(head, pages[1..]);
  }

  lemma FilterDropsAfter<T>(a: seq<T>, b: seq<T>, j: nat, present: T -> bool)
    requires j < |b| && !present(b[j])
    ensures |Filter(a + b, present)| != |a + b|
  {
    assert (a + b)[|a| + j] == b[j];
    FilterDrops(a + b, present, |a| + j);
  }

  /** An item without a key on the current page shows up in the items of the whole walk. */
  lemma MissingInWalk<T>(done: seq<Page<T>>, pages: seq<Page<T>>, j: nat, present: T -> bool)
    requires |pages| >= 1 && j < |pages[0].items| && !present(pages[0].items[j])
    ensures |Filter(Items(done + pages), present)| != |Items(done + pages)|
  {
    ItemsAppend(done, pages);
    ItemsCons(pages);
    assert Items(pages)[j] == pages[0].items[j];
    FilterDropsAfter(Items(done), Items(pages), j, present);
  }

  /** One more page fetched outside test mode: the walk from `page` is `page` followed by the walk from the fetched page. */
  lemma PlainWalkStep<T>(done: seq<Page<T>>, page: Page<T>, api: seq<Outcome<T>>, pos: nat, testMode: bool)
    requires HasNext(page) && OutcomeAt(api, pos).Fetched? && !testMode
    ensures var w := PlainWalk(page, api, pos, testMode);
      var rest := PlainWalk(OutcomeAt(api, pos).page, api, pos + 1, testMode);
      done + w.pages == (done + [page]) + rest.pages && w.complete == rest.complete
  {
    var rest := PlainWalk(OutcomeAt(api, pos).page, api, pos + 1, testMode);
    assert done + ([page] + rest.pages) == (done + [page]) + rest.pages;
  }

  /** The walk stops at `page`: it has no `next`, the fetch timed out, or test mode stops after one fetch. */
  lemma PlainWalkStops<T>(page: Page<T>, api: seq<Outcome<T>>, pos: nat, testMode: bool)
    requires !HasNext(page) || OutcomeAt(api, pos).TimedOut? || testMode
    ensures PlainWalk(page, api, pos, testMode).pages == [page]
    ensures PlainWalk(page, api, pos, testMode).complete <==> !HasNext(page) || OutcomeAt(api, pos).Fetched?
  {
  }

  /**
   * The paging loop's state before it processes `results`: the walk splits
   * into the pages processed so far and the walk from `results`, and the
   * dict holds the processed items.
   */
  ghost predicate Following<T>(whole: Walk<T>, done: seq<Page<T>>, results: Page<T>, api: seq<Outcome<T>>, pos: nat,
                               testMode: bool, saved: Dict<string, T>, key: T -> string, present: T -> bool,
                               policy: MissingPolicy)
  {
    && pos <= |api|
    && whole.pages == done + PlainWalk(results, api, pos, testMode).pages
    && whole.complete == PlainWalk(results, api, pos, testMode).complete
    && saved == InsertAll(Empty(), Filter(Items(done), present), key)
    && (policy == RaiseOnMissing ==> |Filter(Items(done), present)| == |Items(done)|)
  }

  /** The loop stops at `results`, after storing its items: what it returns is what the whole walk collects. */
  lemma CollectedAtStop<T>(whole: Walk<T>, done: seq<Page<T>>, results: Page<T>, api: seq<Outcome<T>>, pos: nat,
                           testMode: bool, saved: Dict<string, T>, key: T -> string, present: T -> bool,
                           policy: MissingPolicy)
    requires !HasNext(results) || OutcomeAt(api, pos).TimedOut? || testMode
    requires whole.pages == done + PlainWalk(results, api, pos, testMode).pages
    requires whole.complete == PlainWalk(results, api, pos, testMode).complete
    requires saved == InsertAll(Empty(), Filter(Items(done) + results.items, present), key)
    requires policy == RaiseOnMissing ==> |Filter(Items(done) + results.items, present)| == |Items(done) + results.items|
    ensures Collected(whole, key, present, policy) ==
      if !HasNext(results) || OutcomeAt(api, pos).Fetched? then Ok(saved) else Err(ReadTimeout)
  {
    PlainWalkStops(results, api, pos, testMode);
    ItemsSnoc(done, results);
    assert Items(whole.pages) == Items(done) + results.items;
  }

  /** The loop raises at an item of `results` without a key: the whole walk collects the same TypeError. */
  lemma CollectedAtMissing<T>(whole: Walk<T>, done: seq<Page<T>>, results: Page<T>, api: seq<Outcome<T>>, pos: nat,
                              testMode: bool, j: nat, key: T -> string, present: T -> bool)
    requires whole.pages == done + PlainWalk(results, api, pos, testMode).pages
    requires j < |results.items| && !present(results.items[j])
    ensures Collected(whole, key, present, RaiseOnMissing) == Err(TypeError("'NoneType' object is not subscriptable"))
  {
    MissingInWalk(done, PlainWalk(results, api, pos, testMode).pages, j, present);
  }

  /**
   * The loop goes on with the fetched page: the walk still splits into the
   * processed pages and the walk from there, and the dict holds the
   * processed items.
   */
  lemma FollowStep<T>(whole: Walk<T>, done: seq<Page<T>>, results: Page<T>, api: seq<Outcome<T>>, pos: nat,
                      testMode: bool, saved: Dict<string, T>, key: T -> string, present: T -> bool, policy: MissingPolicy)
    requires HasNext(results) && OutcomeAt(api, pos).Fetched? && !testMode
    requires whole.pages == done + PlainWalk(results, api, pos, testMode).pages
    requires whole.complete == PlainWalk(results, api, pos, testMode).complete
    requires saved == InsertAll(Empty(), Filter(Items(done) + results.items, present), key)
    requires policy == RaiseOnMissing ==> |Filter(Items(done) + results.items, present)| == |Items(done) + results.items|
    ensures Following(whole, done + [results], OutcomeAt(api, pos).page, api, pos + 1, testMode, saved, key, present, policy)
  {
    PlainWalkStep(done, results, api, pos, testMode);
    ItemsSnoc(done, results);
  }

  /**
   * The end of one pass, once the page's items are stored: stop with what
   * the whole walk collects when `results["next"]` is falsy, the fetch times
   * out or test mode is on; otherwise fetch the next page.
   */
  method NextPage<T>(saved: Dict<string, T>, results: Page<T>, api: seq<Outcome<T>>, pos: nat,
                     key: T -> string, present: T -> bool, policy: MissingPolicy, testMode: bool,
                     ghost whole: Walk<T>, ghost done: seq<Page<T>>)
    returns (stopped: Option<Result<Dict<string, T>>>, results': Page<T>, pos': nat, ghost done': seq<Page<T>>)
    requires pos <= |api|
    requires whole.pages == done + PlainWalk(results, api, pos, testMode).pages
    requires whole.complete == PlainWalk(results, api, pos, testMode).complete
    requires saved == InsertAll(Empty(), Filter(Items(done) + results.items, present), key)
    requires policy == RaiseOnMissing ==> |Filter(Items(done) + results.items, present)| == |Items(done) + results.items|
    ensures stopped.Some? ==> stopped.value == Collected(whole, key, present, policy)
    ensures stopped.None? ==> pos < pos' && Following(whole, done', results', api, pos', testMode, saved, key, present, policy)
  {
    if !HasNext(results) || OutcomeAt(api, pos).TimedOut? || testMode {
      CollectedAtStop(whole, done, results, api, pos, testMode, saved, key, present, policy);
      stopped := Some(if !HasNext(results) || OutcomeAt(api, pos).Fetched? then Ok(saved) else Err(ReadTimeout));
      results', pos', done' := results, pos, done;
    } else {
      FollowStep(whole, done, results, api, pos, testMode, saved, key, present, policy);
      stopped := None;
      results', pos', done' := OutcomeAt(api, pos).page, pos + 1, done + [results];
    }
  }

  /**
   * One pass of the paging loop: store the items of `results`, raising on
   * one without a key under RaiseOnMissing, then stop or fetch the next page.
   */
  method FollowOnce<T>(saved: Dict<string, T>, results: Page<T>, api: seq<Outcome<T>>, pos: nat,
                       key: T -> string, present: T -> bool, policy: MissingPolicy, testMode: bool,
                       ghost whole: Walk<T>, ghost done: seq<Page<T>>)
    returns (stopped: Option<Result<Dict<string, T>>>, saved': Dict<string, T>, results': Page<T>, pos': nat,
             ghost done': seq<Page<T>>)
    requires Following(whole, done, results, api, pos, testMode, saved, key, present, policy)
    ensures stopped.Some? ==> stopped.value == Collected(whole, key, present, policy)
    ensures stopped.None? ==> pos < pos' && Following(whole, done', results', api, pos', testMode, saved', key, present, policy)
  {
    var missing;
    saved', missing := SavePageItems(saved, Items(done), results.items, key, present, policy);
    if missing.Some? {
      CollectedAtMissing(whole, done, results, api, pos, testMode, missing.value, key, present);
      stopped := Some(Err(TypeError("'NoneType' object is not subscriptable")));
      results', pos', done' := results, pos, done;
    } else {
      stopped, results', pos', done' := NextPage(saved', results, api, pos, key, present, policy, testMode, whole, done);
    }
  }

  /**
   * The plain `while True` paging loop: process the page, then fetch the next
   * one while `results["next"]` is truthy (a timeout raises); in test mode,
   * stop right after that fetch.
   */
  method FollowPages<T>(initial: Page<T>, api: seq<Outcome<T>>, key: T -> string, present: T -> bool,
                        policy: MissingPolicy, testMode: bool)
    returns (r: Result<Dict<string, T>>)
    ensures r == Collected(PlainWalk(initial, api, 0, testMode), key, present, policy)
  {
    var saved := Empty();
    var results := initial;
    var pos: nat := 0;
    ghost var done: seq<Page<T>> := [];
    ghost var whole := PlainWalk(initial, api, 0, testMode);
    while true
      invariant Following(whole, done, results, api, pos, testMode, saved, key, present, policy)
      decreases |api| - pos
    {
      var stopped;
      stopped, saved, results, pos, done := FollowOnce(saved, results, api, pos, key, present, policy, testMode, whole, done);
      if stopped.Some? {
        return stopped.value;
      }
    }
  }

  function AlbumId(item: SavedAlbumItem): string
  {
    item.album.id
  }

  function PlaylistId(p: Playlist): string
  {
    p.id
  }

  /** Albums and playlists always have an id. */
  predicate Always<T>(x: T)
  {
    true
  }

  /** `get_saved_albums`: every saved album under its album id; a timed-out `next` raises. */
  method GetSavedAlbums(initial: Page<SavedAlbumItem>, api: seq<Outcome<SavedAlbumItem>>)
    returns (r: Result<Dict<string, SavedAlbumItem>>)
    ensures r == Collected(PlainWalk(initial, api, 0, false), AlbumId, Always, SkipMissing)
    ensures r.Err? <==> !PlainWalk(initial, api, 0, false).complete
  {
    r := FollowPages(initial, api, AlbumId, Always, SkipMissing, false);
  }

  /** `get_playlists`: every listed playlist under its id; a timed-out `next` raises. */
  method GetPlaylists(initial: Page<Playlist>, api: seq<Outcome<Playlist>>)
    returns (r: Result<Dict<string, Playlist>>)
    ensures r == Collected(PlainWalk(initial, api, 0, false), PlaylistId, Always, SkipMissing)
    ensures r.Err? <==> !PlainWalk(initial, api, 0, false).complete
  {
    r := FollowPages(initial, api, PlaylistId, Always, SkipMissing, false);
  }
}
