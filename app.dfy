/**
 * The root screen: it starts the file index, polls until it is ready, runs a
 * file search on every change of the query and pages through the results,
 * offers the player and the stopwatch for matching queries, and switches
 * between the three screens.
 */
module AppScreen {
  import opened Wrappers
  import opened Text
  import opened Modes
  import opened FileSearch
  import opened Playback
  import opened StopwatchView

  /** The fixed root given to `build_index`, as `PathBuf::from` splits `/Users/YoungDeclan/`. */
  const IndexRoot: Path := [RootDir, Normal(Utf8("Users")), Normal(Utf8("YoungDeclan"))]

  /** The initial `showCount`, and the step of "Load more". */
  const PageSize: nat := 10

  function Min(a: nat, b: nat): nat {
    if a <= b then a else b
  }

  // ================================================================ paging

  /** `results.slice(0, showCount)`. */
  function Displayed<T>(results: seq<T>, showCount: nat): (shown: seq<T>)
    ensures |shown| == Min(showCount, |results|)
    ensures shown == results[..|shown|]
  {
    results[..Min(showCount, |results|)]
  }

  /** The "Load more" button exists exactly while results are hidden. */
  predicate ShowsLoadMore<T>(results: seq<T>, showCount: nat) {
    showCount < |results|
  }

  /** The count on the "Load more" button: `results.length - showCount`. */
  function HiddenCount<T>(results: seq<T>, showCount: nat): int {
    |results| - showCount
  }

  /** While the button shows, it reports exactly the results not displayed, a positive number. */
  lemma HiddenCountIsRest<T>(results: seq<T>, showCount: nat)
    requires ShowsLoadMore(results, showCount)
    ensures HiddenCount(results, showCount) > 0
    ensures Displayed(results, showCount) + results[showCount..] == results
    ensures HiddenCount(results, showCount) == |results[showCount..]|
  {
  }

  /** Without the button, everything is displayed. */
  lemma AllDisplayedWithoutButton<T>(results: seq<T>, showCount: nat)
    requires !ShowsLoadMore(results, showCount)
    ensures Displayed(results, showCount) == results
  {
  }

  /** "Load more" extends the displayed list by the next page of results and keeps what was shown. */
  lemma LoadMoreExtends<T>(results: seq<T>, showCount: nat)
    requires ShowsLoadMore(results, showCount)
    ensures Displayed(results, showCount + PageSize)
         == Displayed(results, showCount) + results[showCount..Min(showCount + PageSize, |results|)]
  {
    var shown := Displayed(results, showCount + PageSize);
    assert Displayed(results, showCount) == results[..showCount];
    assert shown == results[..Min(showCount + PageSize, |results|)];
    assert results[..Min(showCount + PageSize, |results|)]
        == results[..showCount] + results[showCount..Min(showCount + PageSize, |results|)];
  }

  // ================================================================ screen offers

  /** The "Spotify" entry: indexing is done and the lower-cased query contains `play`. */
  predicate OffersPlayer(indexingDone: bool, search: string) {
    indexingDone && Contains(Lower(search), "play")
  }

  /** The "Stopwatch" entry: indexing is done and the lower-cased query contains `stopwatch`. */
  predicate OffersStopwatch(indexingDone: bool, search: string) {
    indexingDone && Contains(Lower(search), "stopwatch")
  }

  /** The offers ignore letter case: a query and its lower-cased form offer the same entries. */
  lemma OffersIgnoreCase(indexingDone: bool, search: string)
    ensures OffersPlayer(indexingDone, search) == OffersPlayer(indexingDone, Lower(search))
    ensures OffersStopwatch(indexingDone, search) == OffersStopwatch(indexingDone, Lower(search))
  {
    LowerIdempotent(search);
  }

  /** A query that offers the player keeps offering it as it grows on either side. */
  lemma OffersPlayerGrow(indexingDone: bool, pre: string, search: string, post: string)
    requires OffersPlayer(indexingDone, search)
    ensures OffersPlayer(indexingDone, pre + search + post)
  {
    var i: nat :| i <= |Lower(search)| && OccursAt(Lower(search), "play", i);
    var whole := pre + search + post;
    assert Lower(whole) == Lower(pre) + Lower(search) + Lower(post);
    var j: nat := |pre| + i;
    assert Lower(whole)[j..j + 4] == Lower(search)[i..i + 4];
    assert OccursAt(Lower(whole), "play", j);
  }

  // ================================================================ results the front end can receive

  /** A path serde can send to the front end: every name in it is valid Unicode. */
  predicate Sendable(p: Path) {
    forall k :: 0 <= k < |p| && p[k].Normal? ==> p[k].name.Utf8?
  }

  predicate AllSendable(ps: seq<Path>) {
    forall k :: 0 <= k < |ps| ==> Sendable(ps[k])
  }

  // ================================================================ the root component

  /** The root component's state cells, and the back-end index, the player and the stopwatch it drives. */
  class App {
    const index: IndexState
    const player: Player
    const stopwatch: StopwatchPanel
    /** `build_index` has been invoked, so the indexing thread exists. */
    var indexRequested: bool
    /** The 500 ms `is_index_done` interval is active. */
    var polling: bool
    var indexingDone: bool
    var search: string
    var results: seq<Path>
    var showCount: nat
    var mode: Mode
    /** The queries of the `search_index` calls issued and not yet answered, oldest first. */
    var lookups: seq<string>

    ghost predicate Valid()
      reads this, index
    {
      && index.Valid()
      && player.variant == InApp
      && (indexingDone ==> index.tree.Some? && !polling)
      && (polling ==> indexRequested)
    }

    constructor ()
      ensures Valid() && fresh(index) && fresh(player) && fresh(stopwatch)
      ensures index.tree == None && !indexRequested && !polling && !indexingDone
      ensures search == "" && results == [] && showCount == PageSize && mode == Search && lookups == []
      ensures player.token == "" && player.deviceId == None && !player.playerReady && !player.sdkHooked
      ensures !player.isPlaying && player.currentTrack == Some(Track("", []))
      ensures player.spotifySearch == "" && player.tracks == [] && player.playlists == []
      ensures player.sent == [] && player.pendingReads == 0
      ensures stopwatch.timeMs == 0 && !stopwatch.running
    {
      index := new IndexState();
      player := new Player(InApp);
      stopwatch := new StopwatchPanel();
      indexRequested := false;
      polling := false;
      indexingDone := false;
      search := "";
      results := [];
      showCount := PageSize;
      mode := Search;
      lookups := [];
    }

    /** `startIndex`: invoke `build_index` on the fixed root (it returns at once), then start polling. */
    method StartIndex()
      requires Valid()
      modifies this
      ensures Valid() && indexRequested && (polling || indexingDone)
      ensures indexingDone == old(indexingDone) && search == old(search) && results == old(results)
      ensures showCount == old(showCount) && mode == old(mode) && lookups == old(lookups)
    {
      indexRequested := true;
      if !indexingDone {
        polling := true;
      }
    }

    /** The indexing thread finishes: the whole tree for the fixed root is stored at once. */
    method IndexerFinishes(listing: Listing)
      requires Valid() && indexRequested
      modifies index
      ensures Valid() && index.tree == Some(TreeOf(IndexRoot, listing))
    {
      index.BuildIndex(IndexRoot, listing);
    }

    /** One firing of the polling interval: the first one that sees the tree marks indexing done and stops polling. */
    method PollIndex()
      requires Valid()
      modifies this
      ensures Valid()
      ensures old(polling) && index.tree.Some? ==> indexingDone && !polling
      ensures !(old(polling) && index.tree.Some?) ==> indexingDone == old(indexingDone) && polling == old(polling)
      ensures old(indexingDone) ==> indexingDone
      ensures search == old(search) && results == old(results) && showCount == old(showCount)
      ensures mode == old(mode) && lookups == old(lookups) && indexRequested == old(indexRequested)
    {
      if !polling {
        return;
      }
      var done := index.IsIndexDone();
      if done {
        polling := false;
        indexingDone := true;
      }
    }

    /**
     * Typing in the search field.  A new empty query clears the results at once;
     * a new non-empty query issues a `search_index` call and keeps the old results
     * until it answers.  The same text again changes nothing.
     */
    method SetSearch(text: string)
      requires Valid() && indexingDone && mode == Search
      modifies this
      ensures Valid() && search == text
      ensures text == old(search) ==> results == old(results) && showCount == old(showCount) && lookups == old(lookups)
      ensures text != old(search) && text == "" ==> results == [] && showCount == PageSize && lookups == old(lookups)
      ensures text != old(search) && text != "" ==>
                results == old(results) && showCount == old(showCount) && lookups == old(lookups) + [text]
      ensures indexingDone && mode == old(mode) && polling == old(polling) && indexRequested == old(indexRequested)
    {
      if text == search {
        return;
      }
      search := text;
      if text == "" {
        results := [];
        showCount := PageSize;
      } else {
        lookups := lookups + [text];
      }
    }

    /**
     * The `k`-th outstanding `search_index` call answers.  Its results replace
     * the list whatever the query is now: no check that it is still the
     * current one.  A path that is not valid Unicode cannot be sent back, so
     * then the call rejects and nothing changes.
     */
    method SearchResolves(k: nat)
      requires Valid() && k < |lookups|
      modifies this
      ensures Valid() && lookups == old(lookups[..k] + lookups[k + 1..])
      ensures var q := old(lookups[k]);
              var found := if index.tree.Some? then Found(index.tree.value, Lower(q)) else [];
              if AllSendable(found) then results == found && showCount == PageSize
              else results == old(results) && showCount == old(showCount)
      ensures index.tree.Some? ==> AllSendable(results) || results == old(results)
      ensures search == old(search) && mode == old(mode) && indexingDone == old(indexingDone) && polling == old(polling)
      ensures indexRequested == old(indexRequested)
    {
      var q := lookups[k];
      lookups := lookups[..k] + lookups[k + 1..];
      var r := index.SearchIndex(q);
      if AllSendable(r) {
        results := r;
        showCount := PageSize;
      }
    }

    /** "Load more": one more page, same results. */
    method LoadMore()
      requires Valid() && indexingDone && mode == Search && ShowsLoadMore(results, showCount)
      modifies this
      ensures Valid() && showCount == old(showCount) + PageSize && results == old(results)
      ensures search == old(search) && lookups == old(lookups) && mode == old(mode) && indexingDone == old(indexingDone)
      ensures polling == old(polling) && indexRequested == old(indexRequested)
    {
      showCount := showCount + PageSize;
    }

    /**
     * Switching screens.  Entering the player screen refreshes the token every
     * time; entering the stopwatch screen mounts a fresh stopwatch.  Choosing
     * the current screen again is not a change and does nothing.  The buttons
     * that lead to the player and the stopwatch are shown only on the search
     * screen, once indexing is done and the query names them.
     */
    method SetMode(m: Mode, refresh: Result<string, string>)
      requires Valid()
      requires m == Play ==> mode == Search && OffersPlayer(indexingDone, search)
      requires m == Stopwatch ==> mode == Search && OffersStopwatch(indexingDone, search)
      modifies this, player, stopwatch
      ensures Valid() && mode == m
      ensures m == old(mode) ==> unchanged(player) && unchanged(stopwatch)
      ensures m != old(mode) && m == Play ==>
                && player.sent == old(player.sent) + [RefreshToken]
                && (refresh.Success? ==> player.token == refresh.value && player.sdkHooked)
                && (refresh.Failure? ==> player.token == old(player.token) && player.sdkHooked == old(player.sdkHooked))
                && player.deviceId == old(player.deviceId) && player.playerReady == old(player.playerReady)
                && player.isPlaying == old(player.isPlaying) && player.currentTrack == old(player.currentTrack)
                && player.SearchKept() && player.pendingReads == old(player.pendingReads)
      ensures m != old(mode) && m == Stopwatch ==> stopwatch.timeMs == 0 && !stopwatch.running
      ensures m != Play ==> unchanged(player)
      ensures m != Stopwatch ==> unchanged(stopwatch)
      ensures search == old(search) && results == old(results) && showCount == old(showCount)
      ensures indexingDone == old(indexingDone) && polling == old(polling) && lookups == old(lookups)
      ensures indexRequested == old(indexRequested)
    {
      if m == mode {
        return;
      }
      mode := m;
      if m == Stopwatch {
        stopwatch.Reset();
      } else if m == Play {
        player.LoadSpotify(refresh);
      }
    }

    /** One firing of the 5 s currently-playing interval. */
    method PlaybackPoll()
      requires Valid()
      modifies player
      ensures Valid()
      ensures player.sent == old(player.sent) + (if mode == Play && old(player.token) != "" then [ReadCurrentlyPlaying(player.token)] else [])
      ensures player.pendingReads == old(player.pendingReads) + (if mode == Play && old(player.token) != "" then 1 else 0)
      ensures player.isPlaying == old(player.isPlaying) && player.currentTrack == old(player.currentTrack)
      ensures player.SessionKept() && player.SearchKept()
    {
      player.PollTick(mode == Play);
    }

    /** One firing of the stopwatch's 10 ms interval. */
    method StopwatchTick()
      modifies stopwatch
      ensures stopwatch.timeMs == old(stopwatch.timeMs) + (if stopwatch.running && mode == Stopwatch then 10 else 0)
      ensures stopwatch.running == old(stopwatch.running)
    {
      stopwatch.Tick(mode);
    }
  }

  /**
   * Without a stale-result check, an older lookup that answers last wins: after
   * typing `a` and then `ab`, the list can end up holding the matches for `a`
   * while the field says `ab`.
   */
  method StaleResultShown(app: App)
    requires app.Valid() && app.indexingDone && app.mode == Search && app.search == ""
    requires app.index.tree.Some?
    requires AllSendable(Found(app.index.tree.value, "a"))
    modifies app
    ensures app.search == "ab" && app.results == Found(app.index.tree.value, "a")
  {
    app.SetSearch("a");
    app.SetSearch("ab");
    var n := |app.lookups|;
    assert app.lookups[n - 2] == "a";
    app.SearchResolves(n - 1);
    assert app.lookups[n - 2] == "a";
    assert Lower("a") == "a";
    app.SearchResolves(n - 2);
  }
}
