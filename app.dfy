/** The application's own logic between the UI and the engine: the filtered view of the
    playlist, the repeat-mode button, the selection keys and starting a track. Rendering, the
    event loop and the scanner thread are not part of this model. */
module App {
  import opened Utils
  import opened Scanner
  import Config
  import Playlist
  import Player

  /** The position of playlist index `idx` in the visible list, or -1 if it is filtered out. */
  method MapIndexToVisible(idx: int, visibleMap: seq<int>) returns (r: int)
    ensures -1 <= r < |visibleMap|
    ensures r >= 0 ==> visibleMap[r] == idx
    ensures forall i :: 0 <= i < |visibleMap| && (r == -1 || i < r) ==> visibleMap[i] != idx
  {
    for i := 0 to |visibleMap|
      invariant forall k :: 0 <= k < i ==> visibleMap[k] != idx
    {
      if visibleMap[i] == idx {
        return i;
      }
    }
    return -1;
  }

  /** The repeat button: Off, then One, then All, then Off again. */
  function NextRepeat(m: Config.RepeatMode): (r: Config.RepeatMode)
    ensures r != m
  {
    match m
    case Off => Config.One
    case One => Config.All
    case All => Config.Off
  }

  /** Three presses of the repeat button restore the mode, and no fewer do. */
  lemma RepeatCyclePeriod(m: Config.RepeatMode)
    ensures NextRepeat(NextRepeat(NextRepeat(m))) == m
    ensures NextRepeat(NextRepeat(m)) != m
  {
  }

  /** The indices 0, 1, ..., n - 1. */
  function Indices(n: nat): (s: seq<int>)
    ensures |s| == n && forall k :: 0 <= k < n ==> s[k] == k
  {
    seq(n, k => k)
  }

  /** The playlist indices below `n` whose display name matches `search`, in increasing order:
      the visible list's index map. */
  function VisibleIndices(items: seq<TrackEntry>, search: string, n: nat): (s: seq<int>)
    requires n <= |items|
    ensures forall k :: 0 <= k < |s| ==> 0 <= s[k] < n
    ensures forall k, l :: 0 <= k < l < |s| ==> s[k] < s[l]
    ensures forall i :: 0 <= i < n ==> (i in s <==> ContainsIgnoreCase(items[i].displayName, search))
  {
    if n == 0 then []
    else
      var prefix := VisibleIndices(items, search, n - 1);
      if ContainsIgnoreCase(items[n - 1].displayName, search) then prefix + [n - 1] else prefix
  }

  /** An empty search hides nothing: the map is the identity on the playlist. */
  lemma {:induction false} EmptySearchShowsAll(items: seq<TrackEntry>, n: nat)
    requires n <= |items|
    ensures VisibleIndices(items, [], n) == Indices(n)
  {
    if n > 0 {
      EmptySearchShowsAll(items, n - 1);
      ContainsEmptyNeedle(items[n - 1].displayName);
      assert Indices(n) == Indices(n - 1) + [n - 1];
    }
  }

  class App {
    const config: Config.Config
    const player: Player.Player
    const playlist: Playlist.Playlist

    var search: string
    var repeat: Config.RepeatMode
    var shuffle: bool
    var volume: int
    var mute: bool
    var status: string

    ghost predicate Valid()
      reads this, playlist, player, player.audioRing, player.vizRing
    {
      playlist.Valid() && player.Valid()
    }

    constructor ()
      ensures Valid() && fresh(config) && fresh(player) && fresh(playlist)
      ensures playlist.items == [] && search == [] && repeat == Config.Off && !shuffle
    {
      config := new Config.Config();
      player := new Player.Player();
      playlist := new Playlist.Playlist();
      search := [];
      repeat := Config.Off;
      shuffle := false;
      volume := 100;
      mute := false;
      status := [];
    }

    /** The tracks whose display name contains the search text, ignoring case, in playlist
        order, with each one's playlist index. */
    method BuildVisibleList() returns (tracks: seq<TrackEntry>, visibleMap: seq<int>)
      ensures visibleMap == VisibleIndices(playlist.items, search, |playlist.items|)
      ensures |tracks| == |visibleMap|
      ensures forall k :: 0 <= k < |visibleMap| ==> tracks[k] == playlist.items[visibleMap[k]]
    {
      tracks, visibleMap := [], [];
      var items := playlist.items;
      for i := 0 to |items|
        invariant visibleMap == VisibleIndices(items, search, i)
        invariant |tracks| == |visibleMap|
        invariant forall k :: 0 <= k < |visibleMap| ==> 0 <= visibleMap[k] < i && tracks[k] == items[visibleMap[k]]
      {
        if ContainsIgnoreCase(items[i].displayName, search) {
          tracks := tracks + [items[i]];
          visibleMap := visibleMap + [i];
        }
      }
    }

    /** Starts the track at `index`. An index outside the playlist is refused and nothing
        changes; otherwise the track becomes current, is requested from the engine with the
        app's volume and mute, and playback starts. */
    method PlayIndex(index: int) returns (ok: bool)
      requires Valid()
      modifies this`status, playlist`current, player`pendingPath, player`requestPending,
               player`loading, player`trackEnded, player`volume, player`mute, player`state
      ensures Valid()
      ensures ok <==> 0 <= index < |playlist.items|
      ensures !ok ==> unchanged(this, playlist, player)
      ensures ok ==> && playlist.current == index
                     && player.pendingPath == playlist.items[index].path && player.requestPending
                     && player.volume == volume && player.mute == mute
                     && player.state == Player.Playing && status == "Playing"
    {
      var items := playlist.items;
      if index < 0 || index >= |items| {
        return false;
      }
      var entry := items[index];
      // The engine's Load only queues the request and always reports success.
      var requested := player.Load(entry.path);
      playlist.SetCurrent(index);
      player.SetVolume(volume);
      player.SetMute(mute);
      player.Play();
      status := "Playing";
      return true;
    }

    /** Advances to the next track in the repeat and shuffle order, or stops with "Playlist
        ended" when there is none. */
    method PlayNext()
      requires Valid()
      modifies this`status, playlist`current, player`pendingPath, player`requestPending,
               player`loading, player`trackEnded, player`volume, player`mute, player`state,
               player`positionSamples, player.audioRing`tail, player.vizRing`tail
      ensures Valid()
      ensures !shuffle || |playlist.items| == 0 || (repeat == Config.One && old(playlist.current) >= 0) ==>
                var n := Playlist.SequentialNext(|playlist.items|, old(playlist.current), repeat);
                && (n >= 0 ==> playlist.current == n && player.state == Player.Playing
                               && player.pendingPath == playlist.items[n].path)
                && (n < 0 ==> playlist.current == old(playlist.current) && player.state == Player.Stopped
                              && player.audioRing.Contents() == [] && player.vizRing.Contents() == []
                              && player.positionSamples == 0 && status == "Playlist ended")
      ensures shuffle && |playlist.items| >= 2 && !(repeat == Config.One && old(playlist.current) >= 0) ==>
                && 0 <= playlist.current != old(playlist.current) && player.state == Player.Playing
                && player.pendingPath == playlist.items[playlist.current].path
      ensures shuffle && |playlist.items| == 1 ==>
                && playlist.current == 0 && player.state == Player.Playing
                && player.pendingPath == playlist.items[0].path
    {
      var next := playlist.NextIndex(repeat, shuffle);
      if next >= 0 {
        var ok := PlayIndex(next);
      } else {
        player.Stop();
        status := "Playlist ended";
      }
    }

    /** The Prev button: plays the track before the current one in the repeat order, and does
        nothing when there is none. */
    method PlayPrev()
      requires Valid()
      modifies this`status, playlist`current, player`pendingPath, player`requestPending,
               player`loading, player`trackEnded, player`volume, player`mute, player`state
      ensures Valid()
      ensures var p := Playlist.SequentialPrev(|playlist.items|, old(playlist.current), repeat);
              && (p >= 0 ==> playlist.current == p && player.state == Player.Playing
                             && player.pendingPath == playlist.items[p].path)
              && (p < 0 ==> unchanged(this, playlist, player))
    {
      var prev := playlist.PrevIndex(repeat);
      if prev >= 0 {
        var ok := PlayIndex(prev);
      }
    }

    /** A click on visible row `selectIndex` selects the playlist track shown there; a row
        outside the visible list is ignored. */
    method ApplySelection(selectIndex: int, visibleMap: seq<int>)
      requires Valid()
      modifies playlist`selected
      ensures Valid()
      ensures 0 <= selectIndex < |visibleMap| ==>
                playlist.selected == if 0 <= visibleMap[selectIndex] < |playlist.items| then visibleMap[selectIndex] else -1
      ensures !(0 <= selectIndex < |visibleMap|) ==> playlist.selected == old(playlist.selected)
    {
      if selectIndex >= 0 && selectIndex < |visibleMap| {
        playlist.SetSelected(visibleMap[selectIndex]);
      }
    }

    /** The repeat button advances the mode and marks the settings as changed at `now`. */
    method CycleRepeat(now: int)
      modifies this`repeat, config
      ensures repeat == NextRepeat(old(repeat))
      ensures config.dirty
      ensures config.dirtySince == if old(config.dirty) then old(config.dirtySince) else now
    {
      if repeat == Config.Off {
        repeat := Config.One;
      } else if repeat == Config.One {
        repeat := Config.All;
      } else {
        repeat := Config.Off;
      }
      config.MarkDirty(now);
    }

    /** The Up key moves the selection one track up unless it is at the top or absent. */
    method KeyUp()
      requires Valid()
      modifies playlist`selected
      ensures Valid()
      ensures playlist.selected == if old(playlist.selected) > 0 then old(playlist.selected) - 1 else old(playlist.selected)
    {
      var sel := playlist.selected;
      if sel > 0 {
        playlist.SetSelected(sel - 1);
      }
    }

    /** The Down key moves the selection one track down unless it is on the last track; with
        no selection it selects the first track. */
    method KeyDown()
      requires Valid()
      modifies playlist`selected
      ensures Valid()
      ensures playlist.selected == if old(playlist.selected) < |playlist.items| - 1 then old(playlist.selected) + 1 else old(playlist.selected)
    {
      var sel := playlist.selected;
      var count := |playlist.items|;
      if sel < count - 1 {
        playlist.SetSelected(sel + 1);
      }
    }
  }

  /** Three presses of the repeat button bring the mode back; an out-of-range play request
      changes nothing. */
  method RepeatScenario(app: App)
    requires app.Valid()
    modifies app, app.config, app.playlist`current, app.player
  {
    var before := app.repeat;
    app.CycleRepeat(0);
    app.CycleRepeat(1);
    app.CycleRepeat(2);
    RepeatCyclePeriod(before);
    assert app.repeat == before && app.config.dirty;
    var ok := app.PlayIndex(|app.playlist.items|);
    assert !ok;
  }
}
