/**
 * The Spotify player screen, in both of its copies: the one built into the root
 * component and the standalone player component.  They keep the same state
 * cells and issue the same Web API requests; they differ only in how they read
 * the currently-playing reply.
 *
 * The network, the token refresh command and the browser SDK are outside the
 * model: every reply and every SDK event is a parameter of the step that
 * receives it, and the requests issued are recorded in the ghost log `sent`.
 */
module Playback {
  import opened Wrappers

  /** Which copy: the root component's own player (`InApp`) or the standalone player component. */
  datatype Variant = InApp | Standalone

  /** A track as the player shows it: `{name, artists}`. */
  datatype Track = Track(name: string, artists: seq<string>)

  /** `data.item` of a currently-playing reply: its name, and the artist names when `artists` is present. */
  datatype Item = Item(name: string, artists: Option<seq<string>>)

  /** The JSON value of a currently-playing reply: `null`, or an object with an optional `item` and `is_playing`. */
  datatype NowPlaying = NullNowPlaying | NowPlaying(item: Option<Item>, isPlaying: bool)

  /** The JSON value of a `GET /me/player` reply: `null`, or an object with `is_playing`. */
  datatype PlaybackState = NullPlaybackState | PlaybackState(isPlaying: bool)

  /** A search hit: a track or a playlist, with the URI the play buttons send. */
  datatype Hit = Hit(name: string, uri: string)

  /**
   * The JSON value of a search reply: `null`, an object whose `tracks.items` /
   * `playlists.items` may be missing, or any other value (an array, a number, a
   * string, a boolean), on which both lookups give `undefined`.
   */
  datatype SearchJson = NullSearch | SearchJson(tracks: Option<seq<Hit>>, playlists: Option<seq<Hit>>) | OtherSearch

  /** What `res.json()` makes of a body: it rejects on an empty or malformed body. */
  datatype Body<T> = NoBody | BadJson | Json(value: T)

  /** The outcome of a `fetch`: the promise rejects (a network failure), or a status with a body. */
  datatype Reply<T> = Rejected | Reply(status: int, body: Body<T>)

  /** `res.ok`. */
  predicate Ok(status: int) {
    200 <= status <= 299
  }

  /** The body of a play request: `{}`, `{uris: [uri]}` or `{context_uri}`. */
  datatype PlayBody = NoContext | Uris(uris: seq<string>) | Context(contextUri: string)

  /** A request the screen issues, with the bearer token it carries. */
  datatype Request =
    | RefreshToken
    | SearchRequest(token: string, query: string)
    | PlayRequest(token: string, device: string, body: PlayBody)
    | PauseRequest(token: string, device: string)
    | NextRequest(token: string, device: string)
    | PreviousRequest(token: string, device: string)
    | ReadPlayer(token: string)
    | ReadCurrentlyPlaying(token: string)

  /** The part of the state a currently-playing reply can change. */
  datatype Snapshot = Snapshot(track: Option<Track>, playing: bool)

  /** The snapshot after `fetchCurrentTrack` reads the reply `r` (which did not reject). */
  function AfterCurrentlyPlaying(v: Variant, s: Snapshot, r: Reply<NowPlaying>): Snapshot
    requires r.Reply?
  {
    match v
    case InApp =>
      // not ok: keep; ok: `res.json()` (rejects on a 204's empty body), then `data && data.item`,
      // and `data.item.artists.map` throws when `artists` is missing
      if !Ok(r.status) then s
      else (
        match r.body
        case Json(NowPlaying(Some(item), playing)) =>
          if item.artists.Some? then Snapshot(Some(Track(item.name, item.artists.value)), playing) else s
        case _ => s)
    case Standalone =>
      if r.status == 204 then Snapshot(None, false)
      else if !Ok(r.status) then s
      else match r.body
        case NoBody => s
        case BadJson => s
        case Json(NowPlaying(Some(item), playing)) => Snapshot(Some(Track(item.name, item.artists.GetOr([]))), playing)
        case Json(_) => Snapshot(None, false)
  }

  /** A reply that is not ok leaves the snapshot alone in both copies (a 204 is ok). */
  lemma ErrorReplyKeeps(v: Variant, s: Snapshot, r: Reply<NowPlaying>)
    requires r.Reply? && !Ok(r.status)
    ensures AfterCurrentlyPlaying(v, s, r) == s
  {
  }

  /**
   * "Nothing is playing" (204 with its empty body) is where the copies differ:
   * the root component keeps the old snapshot, the standalone one clears it.
   */
  lemma NoContentDiffers(s: Snapshot, r: Reply<NowPlaying>)
    requires r == Reply(204, NoBody)
    ensures AfterCurrentlyPlaying(InApp, s, r) == s
    ensures AfterCurrentlyPlaying(Standalone, s, r) == Snapshot(None, false)
  {
  }

  /** An ok reply with an item replaces the whole snapshot by the reply's, in both copies when the artists are present. */
  lemma ItemReplaces(v: Variant, s: Snapshot, r: Reply<NowPlaying>, item: Item, playing: bool)
    requires r.Reply? && Ok(r.status) && r.status != 204 && r.body == Json(NowPlaying(Some(item), playing))
    requires v == Standalone || item.artists.Some?
    ensures AfterCurrentlyPlaying(v, s, r) == Snapshot(Some(Track(item.name, item.artists.GetOr([]))), playing)
  {
  }

  /**
   * An ok reply whose JSON is `null` or has no item is where the copies differ
   * again: the root component keeps its snapshot, the standalone one clears it.
   */
  lemma NoItemRules(s: Snapshot, r: Reply<NowPlaying>)
    requires r.Reply? && Ok(r.status) && r.status != 204 && r.body.Json?
    requires r.body.value.NullNowPlaying? || r.body.value.item.None?
    ensures AfterCurrentlyPlaying(InApp, s, r) == s
    ensures AfterCurrentlyPlaying(Standalone, s, r) == Snapshot(None, false)
  {
  }

  /** In the root component an item without `artists` makes the `map` throw, so the snapshot is kept. */
  lemma MissingArtistsKeeps(s: Snapshot, r: Reply<NowPlaying>, item: Item, playing: bool)
    requires r.Reply? && Ok(r.status) && r.body == Json(NowPlaying(Some(item), playing)) && item.artists.None?
    ensures AfterCurrentlyPlaying(InApp, s, r) == s
  {
  }

  /**
   * Either nothing changes or the snapshot is replaced as a whole by one that
   * depends on the reply alone.
   */
  lemma UnchangedOrReplaced(v: Variant, s: Snapshot, s': Snapshot, r: Reply<NowPlaying>)
    requires r.Reply?
    ensures AfterCurrentlyPlaying(v, s, r) == s
         || AfterCurrentlyPlaying(v, s, r) == AfterCurrentlyPlaying(v, s', r)
  {
  }

  /** The root component's copy never clears the track: a shown track stays some track. */
  lemma InAppNeverClears(s: Snapshot, r: Reply<NowPlaying>)
    requires r.Reply? && s.track.Some?
    ensures AfterCurrentlyPlaying(InApp, s, r).track.Some?
  {
  }

  /** What the toggle does after reading `GET /me/player`: `None` stops, `Some(true)` pauses, `Some(false)` plays. */
  function ToggleChoice(r: Reply<PlaybackState>): (c: Option<bool>)
    ensures c.Some? <==> r.Reply? && Ok(r.status) && r.body.Json? && r.body.value.PlaybackState?
    ensures c.Some? ==> c.value == r.body.value.isPlaying
  {
    if r.Rejected? || !Ok(r.status) then None
    else match r.body
      case Json(PlaybackState(playing)) => Some(playing)
      case _ => None
  }

  /** The player screen's state cells. */
  class Player {
    const variant: Variant
    var token: string
    var deviceId: Option<string>
    var playerReady: bool
    /** `window.onSpotifyWebPlaybackSDKReady` has been installed, so the SDK can create the player. */
    var sdkHooked: bool
    var isPlaying: bool
    var currentTrack: Option<Track>
    var spotifySearch: string
    var tracks: seq<Hit>
    var playlists: seq<Hit>
    /** Every request issued, in order. */
    ghost var sent: seq<Request>
    /** Currently-playing reads issued and not yet answered. */
    ghost var pendingReads: nat

    /** The gate of every playback command: `deviceId && token` are both truthy. */
    predicate CanCommand()
      reads this
    {
      deviceId.Some? && deviceId.value != "" && token != ""
    }

    /** The session (token, device, readiness) is as before. */
    twostate predicate SessionKept()
      reads this
    {
      token == old(token) && deviceId == old(deviceId) && playerReady == old(playerReady) && sdkHooked == old(sdkHooked)
    }

    /** Search text and search results are as before. */
    twostate predicate SearchKept()
      reads this
    {
      spotifySearch == old(spotifySearch) && tracks == old(tracks) && playlists == old(playlists)
    }

    /** Both copies start with no token, no device, not ready, not playing, and an empty `{name: "", artists: []}` track. */
    constructor (variant: Variant)
      ensures this.variant == variant
      ensures token == "" && deviceId == None && !playerReady && !sdkHooked
      ensures !isPlaying && currentTrack == Some(Track("", []))
      ensures spotifySearch == "" && tracks == [] && playlists == []
      ensures sent == [] && pendingReads == 0
      ensures !CanCommand()
    {
      this.variant := variant;
      token := "";
      deviceId := None;
      playerReady := false;
      sdkHooked := false;
      isPlaying := false;
      currentTrack := Some(Track("", []));
      spotifySearch := "";
      tracks := [];
      playlists := [];
      sent := [];
      pendingReads := 0;
    }

    /**
     * `loadSpotify`, run each time the screen is entered: ask the back end for a
     * fresh token; on success store it and install the SDK-ready hook, on
     * failure (the command rejects) change nothing else.
     */
    method LoadSpotify(refresh: Result<string, string>)
      modifies this
      ensures sent == old(sent) + [RefreshToken] && pendingReads == old(pendingReads)
      ensures refresh.Success? ==> token == refresh.value && sdkHooked
      ensures refresh.Failure? ==> token == old(token) && sdkHooked == old(sdkHooked)
      ensures deviceId == old(deviceId) && playerReady == old(playerReady)
      ensures isPlaying == old(isPlaying) && currentTrack == old(currentTrack) && SearchKept()
    {
      sent := sent + [RefreshToken];
      if refresh.Success? {
        token := refresh.value;
        sdkHooked := true;
      }
    }

    /** The SDK's `ready` event: remember the device and show the controls. */
    method OnReady(device: string)
      requires sdkHooked
      modifies this
      ensures deviceId == Some(device) && playerReady
      ensures token == old(token) && sdkHooked && isPlaying == old(isPlaying) && currentTrack == old(currentTrack)
      ensures SearchKept() && sent == old(sent) && pendingReads == old(pendingReads)
    {
      deviceId := Some(device);
      playerReady := true;
    }

    /** The SDK's `not_ready` event only logs: the device and the readiness stay. */
    method OnNotReady(device: string)
      ensures unchanged(this)
    {
    }

    /** Typing in the search box. */
    method SetSpotifySearch(text: string)
      modifies this
      ensures spotifySearch == text && tracks == old(tracks) && playlists == old(playlists)
      ensures SessionKept() && isPlaying == old(isPlaying) && currentTrack == old(currentTrack)
      ensures sent == old(sent) && pendingReads == old(pendingReads)
    {
      spotifySearch := text;
    }

    /**
     * `searchSpotify`: needs a token; the status is not checked, so any JSON
     * object replaces both lists, a missing list becoming empty, and any other
     * non-null JSON value empties both.  On `null` the property read throws.
     */
    method SearchSpotify(reply: Reply<SearchJson>)
      modifies this
      ensures SessionKept() && isPlaying == old(isPlaying) && currentTrack == old(currentTrack)
      ensures spotifySearch == old(spotifySearch) && pendingReads == old(pendingReads)
      ensures old(token) == "" ==> sent == old(sent) && tracks == old(tracks) && playlists == old(playlists)
      ensures old(token) != "" ==> sent == old(sent) + [SearchRequest(token, spotifySearch)]
      ensures old(token) != "" && reply.Reply? && reply.body.Json? && reply.body.value.SearchJson? ==>
                tracks == reply.body.value.tracks.GetOr([]) && playlists == reply.body.value.playlists.GetOr([])
      ensures old(token) != "" && reply.Reply? && reply.body.Json? && reply.body.value.OtherSearch? ==>
                tracks == [] && playlists == []
      ensures !(reply.Reply? && reply.body.Json? && !reply.body.value.NullSearch?) ==>
                tracks == old(tracks) && playlists == old(playlists)
    {
      if token == "" {
        return;
      }
      sent := sent + [SearchRequest(token, spotifySearch)];
      if reply.Reply? && reply.body.Json? {
        match reply.body.value
        case NullSearch =>
        case SearchJson(t, p) =>
          tracks := t.GetOr([]);
          playlists := p.GetOr([]);
        case OtherSearch =>
          tracks := [];
          playlists := [];
      }
    }

    /** `fetchCurrentTrack`, up to sending the request: needs a token. */
    method FetchCurrentTrack()
      modifies this
      ensures SessionKept() && SearchKept() && isPlaying == old(isPlaying) && currentTrack == old(currentTrack)
      ensures old(token) == "" ==> sent == old(sent) && pendingReads == old(pendingReads)
      ensures old(token) != "" ==> sent == old(sent) + [ReadCurrentlyPlaying(token)] && pendingReads == old(pendingReads) + 1
    {
      if token == "" {
        return;
      }
      sent := sent + [ReadCurrentlyPlaying(token)];
      pendingReads := pendingReads + 1;
    }

    /** The rest of `fetchCurrentTrack`, when one of its replies arrives. */
    method OnCurrentlyPlaying(reply: Reply<NowPlaying>)
      requires pendingReads > 0
      modifies this
      ensures pendingReads == old(pendingReads) - 1 && sent == old(sent)
      ensures SessionKept() && SearchKept()
      ensures reply.Rejected? ==> isPlaying == old(isPlaying) && currentTrack == old(currentTrack)
      ensures reply.Reply? ==>
                Snapshot(currentTrack, isPlaying) == AfterCurrentlyPlaying(variant, Snapshot(old(currentTrack), old(isPlaying)), reply)
    {
      pendingReads := pendingReads - 1;
      if reply.Reply? {
        var s := AfterCurrentlyPlaying(variant, Snapshot(currentTrack, isPlaying), reply);
        currentTrack := s.track;
        isPlaying := s.playing;
      }
    }

    /**
     * `apiPlay(body)`: gated on device and token; once the play request
     * resolves (whatever its status) mark playing and read the current track.
     */
    method ApiPlay(body: PlayBody, resolved: bool)
      modifies this
      ensures SessionKept() && SearchKept() && currentTrack == old(currentTrack)
      ensures !old(CanCommand()) ==> sent == old(sent) && isPlaying == old(isPlaying) && pendingReads == old(pendingReads)
      ensures old(CanCommand()) && !resolved ==>
                sent == old(sent) + [PlayRequest(token, deviceId.value, body)]
                && isPlaying == old(isPlaying) && pendingReads == old(pendingReads)
      ensures old(CanCommand()) && resolved ==>
                sent == old(sent) + [PlayRequest(token, deviceId.value, body), ReadCurrentlyPlaying(token)]
                && isPlaying && pendingReads == old(pendingReads) + 1
    {
      if !CanCommand() {
        return;
      }
      sent := sent + [PlayRequest(token, deviceId.value, body)];
      if !resolved {
        return;
      }
      isPlaying := true;
      FetchCurrentTrack();
    }

    /** `playTrack(uri)`. */
    method PlayTrack(uri: string, resolved: bool)
      modifies this
      ensures SessionKept() && SearchKept() && currentTrack == old(currentTrack)
      ensures !old(CanCommand()) ==> sent == old(sent) && isPlaying == old(isPlaying) && pendingReads == old(pendingReads)
      ensures old(CanCommand()) && !resolved ==>
                sent == old(sent) + [PlayRequest(token, deviceId.value, Uris([uri]))]
                && isPlaying == old(isPlaying) && pendingReads == old(pendingReads)
      ensures old(CanCommand()) && resolved ==>
                sent == old(sent) + [PlayRequest(token, deviceId.value, Uris([uri])), ReadCurrentlyPlaying(token)]
                && isPlaying && pendingReads == old(pendingReads) + 1
    {
      ApiPlay(Uris([uri]), resolved);
    }

    /** `playPlaylist(context_uri)`. */
    method PlayPlaylist(contextUri: string, resolved: bool)
      modifies this
      ensures SessionKept() && SearchKept() && currentTrack == old(currentTrack)
      ensures !old(CanCommand()) ==> sent == old(sent) && isPlaying == old(isPlaying) && pendingReads == old(pendingReads)
      ensures old(CanCommand()) && !resolved ==>
                sent == old(sent) + [PlayRequest(token, deviceId.value, Context(contextUri))]
                && isPlaying == old(isPlaying) && pendingReads == old(pendingReads)
      ensures old(CanCommand()) && resolved ==>
                sent == old(sent) + [PlayRequest(token, deviceId.value, Context(contextUri)), ReadCurrentlyPlaying(token)]
                && isPlaying && pendingReads == old(pendingReads) + 1
    {
      ApiPlay(Context(contextUri), resolved);
    }

    /** `skipNext`: gated; once the request resolves, read the current track. */
    method SkipNext(resolved: bool)
      modifies this
      ensures SessionKept() && SearchKept() && isPlaying == old(isPlaying) && currentTrack == old(currentTrack)
      ensures !old(CanCommand()) ==> sent == old(sent) && pendingReads == old(pendingReads)
      ensures old(CanCommand()) ==>
                sent == old(sent) + [NextRequest(token, deviceId.value)] + (if resolved then [ReadCurrentlyPlaying(token)] else [])
                && pendingReads == old(pendingReads) + (if resolved then 1 else 0)
    {
      if !CanCommand() {
        return;
      }
      sent := sent + [NextRequest(token, deviceId.value)];
      if resolved {
        FetchCurrentTrack();
      }
    }

    /** `skipPrevious`: gated; once the request resolves, read the current track. */
    method SkipPrevious(resolved: bool)
      modifies this
      ensures SessionKept() && SearchKept() && isPlaying == old(isPlaying) && currentTrack == old(currentTrack)
      ensures !old(CanCommand()) ==> sent == old(sent) && pendingReads == old(pendingReads)
      ensures old(CanCommand()) ==>
                sent == old(sent) + [PreviousRequest(token, deviceId.value)] + (if resolved then [ReadCurrentlyPlaying(token)] else [])
                && pendingReads == old(pendingReads) + (if resolved then 1 else 0)
    {
      if !CanCommand() {
        return;
      }
      sent := sent + [PreviousRequest(token, deviceId.value)];
      if resolved {
        FetchCurrentTrack();
      }
    }

    /**
     * `togglePlayPause`: gated; read the playback state, stop on a failed
     * read, then pause when it reports playing and play otherwise, and read the
     * current track.  On the play side `apiPlay` reads it too, so two reads go out.
     */
    method TogglePlayPause(read: Reply<PlaybackState>, resolved: bool)
      modifies this
      ensures SessionKept() && SearchKept() && currentTrack == old(currentTrack)
      ensures !old(CanCommand()) ==> sent == old(sent) && isPlaying == old(isPlaying) && pendingReads == old(pendingReads)
      ensures old(CanCommand()) && ToggleChoice(read).None? ==>
                sent == old(sent) + [ReadPlayer(token)] && isPlaying == old(isPlaying) && pendingReads == old(pendingReads)
      ensures old(CanCommand()) && ToggleChoice(read) == Some(true) ==>
                sent == old(sent) + [ReadPlayer(token), PauseRequest(token, deviceId.value)]
                       + (if resolved then [ReadCurrentlyPlaying(token)] else [])
                && (isPlaying <==> old(isPlaying) && !resolved)
                && pendingReads == old(pendingReads) + (if resolved then 1 else 0)
      ensures old(CanCommand()) && ToggleChoice(read) == Some(false) ==>
                sent == old(sent) + [ReadPlayer(token), PlayRequest(token, deviceId.value, NoContext)]
                       + (if resolved then [ReadCurrentlyPlaying(token), ReadCurrentlyPlaying(token)] else [])
                && (isPlaying <==> old(isPlaying) || resolved)
                && pendingReads == old(pendingReads) + (if resolved then 2 else 0)
    {
      if !CanCommand() {
        return;
      }
      sent := sent + [ReadPlayer(token)];
      var choice := ToggleChoice(read);
      if choice.None? {
        return;
      }
      if choice.value {
        sent := sent + [PauseRequest(token, deviceId.value)];
        if !resolved {
          return;
        }
        isPlaying := false;
      } else {
        ApiPlay(NoContext, resolved);
        if !resolved {
          return;
        }
      }
      FetchCurrentTrack();
    }

    /** One firing of the 5 s status interval, which exists only on the player screen. */
    method PollTick(onPlayScreen: bool)
      modifies this
      ensures SessionKept() && SearchKept() && isPlaying == old(isPlaying) && currentTrack == old(currentTrack)
      ensures sent == old(sent) + (if onPlayScreen && old(token) != "" then [ReadCurrentlyPlaying(token)] else [])
      ensures pendingReads == old(pendingReads) + (if onPlayScreen && old(token) != "" then 1 else 0)
    {
      if onPlayScreen {
        FetchCurrentTrack();
      }
    }
  }
}
