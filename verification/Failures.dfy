/** Windows of ten minutes, one per key and one for all keys, with the history of what they let through as
    ghost state: the bound is a property of that history. */
module Failures {
  import opened Ranges

  const WINDOW: int := 600
  const RECORDED: nat := 10
  const RECORDED_ALL: nat := 100
  const TRACKED: nat := 1024

  /** A counter, valid for WINDOW seconds from `since`. */
  datatype Window = Window(since: int, recorded: nat)

  predicate Over(w: Window, now: int) {
    now >= w.since + WINDOW
  }

  /** The counter to use at `now`: a new one, of nothing, if this one is Over. */
  function At(w: Window, now: int): Window {
    if Over(w, now) then Window(now, 0) else w
  }

  // ---- What a window bounds ----

  /** An entry recorded: when, and when the window it was counted in started. */
  datatype Stamp = Stamp(time: int, since: int)

  /** The entries counted by a window and those before it: each within its own window, windows of `most`
      entries at most that start a window's length apart at least. */
  ghost predicate Counts(h: seq<Stamp>, w: Window, most: nat) {
    && w.recorded <= most && w.recorded <= |h|
    && (forall i | 0 <= i < |h| :: h[i].since <= h[i].time < h[i].since + WINDOW)
    && (forall i, j | 0 <= i <= j < |h| :: h[i].since <= h[j].since)
    && (forall i | 0 <= i < |h| :: if i < |h| - w.recorded then h[i].since + WINDOW <= w.since else h[i].since == w.since)
    && Spaced(h, most)
  }

  ghost predicate Spaced(h: seq<Stamp>, most: nat) {
    forall i, j | 0 <= i && i + most <= j < |h| :: h[i].since + WINDOW <= h[j].since
  }

  /** Every entry is in a window that has ended. */
  ghost predicate AllOver(h: seq<Stamp>, now: int, most: nat) {
    Counts(h, Window(now, 0), most)
  }

  lemma CountsAt(h: seq<Stamp>, w: Window, most: nat, now: int)
    requires Counts(h, w, most)
    ensures Counts(h, At(w, now), most)
    ensures Over(w, now) ==> AllOver(h, now, most)
  {}

  lemma CountsMore(h: seq<Stamp>, w: Window, most: nat, now: int)
    requires Counts(h, w, most) && w.recorded < most && w.since <= now && !Over(w, now)
    ensures Counts(h + [Stamp(now, w.since)], w.(recorded := w.recorded + 1), most)
  {}

  lemma OverLater(h: seq<Stamp>, most: nat, now: int, later: int)
    requires AllOver(h, now, most) && now <= later
    ensures AllOver(h, later, most)
  {}

  /** The last n entries were all made less than ten minutes ago. */
  ghost predicate Crowded(h: seq<Stamp>, now: int, n: nat) {
    n <= |h| && forall i | |h| - n <= i < |h| :: now - 600 < h[i].time
  }

  lemma FullCrowds(h: seq<Stamp>, w: Window, most: nat, now: int)
    requires Counts(h, w, most) && w.recorded >= most && !Over(w, now)
    ensures Crowded(h, now, most)
  {}

  function Within(h: seq<Stamp>, t: int): set<int> {
    set i | 0 <= i < |h| && t <= h[i].time < t + 600
  }

  /** Entries two windows' worth apart are more than a window apart. */
  lemma Apart(h: seq<Stamp>, most: nat, i: nat, j: nat)
    requires i < |h| && j < |h| && Spaced(h, most)
    requires forall k | 0 <= k < |h| :: h[k].since <= h[k].time < h[k].since + WINDOW
    ensures i + 2 * most <= j ==> h[j].time > h[i].time + WINDOW
  {
    if i + 2 * most <= j {
      var m := i + most;
      assert h[i].since + WINDOW <= h[m].since && h[m].since + WINDOW <= h[j].since;
    }
  }

  /** Any interval as long as a window holds at most two windows' entries. */
  lemma AnyInterval(h: seq<Stamp>, w: Window, most: nat, t: int)
    requires Counts(h, w, most)
    ensures |Within(h, t)| <= 2 * most
  {
    var s := Within(h, t);
    if s != {} {
      var lo := Least(s, |h|);
      forall i | i in s
        ensures lo <= i < lo + 2 * most
      {
        assert 0 <= lo < |h| && 0 <= i < |h|;
        Apart(h, most, lo, i);
      }
      RangeSize(s, lo, 2 * most);
    }
  }

  // ---- The counts ----

  /** An address's own key, already reduced to its network, or `Shared`, which stands for all the rest. */
  datatype Key = Address(name: string) | Shared

  type Windows = map<Key, Window>
  type Recorded = map<Key, seq<Stamp>>

  function Of(from: Recorded, key: Key): seq<Stamp> {
    if key in from then from[key] else []
  }

  /** Each key's window counts what was recorded under it, and what was recorded under a key not tracked
      is in windows that have ended. */
  ghost predicate Tracks(windows: Windows, from: Recorded, clock: int) {
    forall key: Key :: TracksKey(windows, from, clock, key)
  }

  ghost predicate TracksKey(windows: Windows, from: Recorded, clock: int, key: Key) {
    if key in windows then windows[key].since <= clock && Counts(Of(from, key), windows[key], RECORDED)
    else AllOver(Of(from, key), clock, RECORDED)
  }

  /** Few enough keys are tracked, beside the one the others share. */
  /** The keys whose counters are not over. */
  function Running(windows: Windows, now: int): set<Key> {
    set key | key in windows && !Over(windows[key], now)
  }

  predicate Few(windows: Windows) {
    |windows.Keys - {Shared}| <= TRACKED
  }

  lemma Ticks(windows: Windows, from: Recorded, clock: int, now: int)
    requires Tracks(windows, from, clock) && clock <= now
    ensures Tracks(windows, from, now)
  {
    hide Counts;
    forall key: Key
      ensures TracksKey(windows, from, now, key)
    {
      assert TracksKey(windows, from, clock, key);
      if key !in windows {
        OverLater(Of(from, key), RECORDED, clock, now);
      }
    }
  }

  lemma Forgets(windows: Windows, from: Recorded, now: int, key: Key)
    requires Tracks(windows, from, now) && Few(windows) && key in windows && Over(windows[key], now)
    ensures Tracks(windows - {key}, from, now) && Few(windows - {key})
  {
    hide Counts, AllOver;
    assert TracksKey(windows, from, now, key);
    CountsAt(Of(from, key), windows[key], RECORDED, now);
    forall k: Key
      ensures TracksKey(windows - {key}, from, now, k)
    {
      assert TracksKey(windows, from, now, k);
    }
    SubsetSize((windows - {key}).Keys - {Shared}, windows.Keys - {Shared});
  }

  lemma Adds(windows: Windows, from: Recorded, now: int, key: Key)
    requires Tracks(windows, from, now) && key !in windows && Few(windows) && (key == Shared || |windows| < TRACKED)
    ensures Tracks(windows[key := Window(now, 0)], from, now) && Few(windows[key := Window(now, 0)])
  {
    hide Counts;
    var next := windows[key := Window(now, 0)];
    assert TracksKey(windows, from, now, key);
    forall k: Key
      ensures TracksKey(next, from, now, k)
    {
      assert TracksKey(windows, from, now, k);
    }
    AddsFew(windows, key, Window(now, 0));
  }

  lemma AddsFew(windows: Windows, key: Key, w: Window)
    requires key !in windows && Few(windows) && (key == Shared || |windows| < TRACKED)
    ensures Few(windows[key := w])
  {
    var next, others := windows[key := w].Keys - {Shared}, windows.Keys - {Shared};
    if key == Shared {
      assert next == others;
    } else {
      SubsetSize(others, windows.Keys);
      assert next == others + {key};
    }
  }

  lemma Sets(windows: Windows, from: Recorded, from': Recorded, now: int, key: Key, w: Window)
    requires Tracks(windows, from, now) && Few(windows) && key in windows && w.since <= now && Counts(Of(from', key), w, RECORDED)
    requires from' == from || from' == from[key := Of(from', key)]
    ensures Tracks(windows[key := w], from', now) && Few(windows[key := w])
  {
    hide Counts, AllOver;
    var next := windows[key := w];
    forall k: Key
      ensures TracksKey(next, from', now, k)
    {
      assert TracksKey(windows, from, now, k);
    }
    assert next.Keys == windows.Keys;
  }

  lemma SizeBut(windows: Windows)
    ensures |windows| == |windows.Keys - {Shared}| + if Shared in windows then 1 else 0
  {
    if Shared in windows {
      assert windows.Keys == (windows.Keys - {Shared}) + {Shared};
    } else {
      assert windows.Keys == windows.Keys - {Shared};
    }
  }

  lemma Full(h: seq<Stamp>, w: Window, most: nat)
    requires Counts(h, w, most) && w.recorded >= most
    ensures w.recorded == most
  {}

  lemma CountsKey(windows: Windows, from: Recorded, now: int, key: Key)
    requires Tracks(windows, from, now) && key in windows
    ensures windows[key].since <= now && Counts(Of(from, key), windows[key], RECORDED)
  {
    assert TracksKey(windows, from, now, key);
  }

  class FailedSignIns {
    var windows: Windows
    var all: Window
    var unrecorded: nat

    /** Every entry recorded under each key and in all, what was refused, what was told, and the clock. */
    ghost var from: Recorded
    ghost var everywhere: seq<Stamp>
    ghost var refused: nat
    ghost var told: nat
    ghost var clock: int

    ghost predicate Valid()
      reads this
    {
      && Tracks(windows, from, clock) && Few(windows)
      && all.since <= clock && Counts(everywhere, all, RECORDED_ALL)
      && refused == told + unrecorded
    }

    constructor ()
      ensures Valid() && from == map[] && everywhere == [] && refused == told == 0 && clock == 0 && windows == map[]
    {
      windows, all, unrecorded := map[], Window(0, 0), 0;
      from, everywhere, refused, told, clock := map[], [], 0, 0, 0;
    }

    /** Drops every key whose counter is Over. */
    method Forget(now: int)
      requires Valid() && clock == now
      modifies this`windows
      ensures Valid()
      ensures forall key :: key in windows <==> key in old(windows) && !Over(old(windows)[key], now)
      ensures forall key | key in windows :: windows[key] == old(windows)[key]
    {
      hide Tracks, Few, Counts;
      ghost var was := windows;
      var left := windows.Keys;
      while left != {}
        invariant Valid() && left <= was.Keys
        invariant forall key :: key in windows <==> key in was && (key in left || !Over(was[key], now))
        invariant forall key | key in windows :: windows[key] == was[key]
      {
        var key :| key in left;
        if Over(windows[key], now) {
          Forgets(windows, from, now, key);
          windows := windows - {key};
        }
        left := left - {key};
      }
    }

    /** The key an address is counted under, tracked from now on: its own, or the one every address past
        those tracked shares. */
    method Track(address: Key, now: int) returns (key: Key)
      requires Valid() && clock <= now
      modifies this`windows, this`clock
      ensures Valid() && clock == now && key in windows
      ensures key == address || (key == Shared && address !in old(windows) && |Running(old(windows), now)| >= 1024)
    {
      hide Tracks, Few, Counts;
      Ticks(windows, from, clock, now);
      clock := now;
      key := address;
      if key !in windows {
        if |windows| >= TRACKED {
          Forget(now);
        }
        if |windows| >= TRACKED {
          assert windows.Keys == Running(old(windows), now) && |windows| == |windows.Keys|;
          key := Shared;
        }
        if key !in windows {
          Adds(windows, from, now, key);
          GrowsBy(windows, key, Window(now, 0));
          windows := windows[key := Window(now, 0)];
        }
      }
    }

    /** Whether a failed sign-in is recorded, and how many went unrecorded before it. It is refused only
        where its key has ten in the window or all of them a hundred. */
    method Admit(address: Key, now: int) returns (before: nat, recorded: bool, key: Key)
      requires Valid() && clock <= now
      modifies this
      ensures Valid() && clock == now && key in windows && (key == address || key == Shared)
      ensures recorded ==> before == old(unrecorded) && unrecorded == 0 && told == old(told) + before && refused == old(refused)
      ensures recorded ==> from == old(from)[key := Of(old(from), key) + [Stamp(now, windows[key].since)]]
      ensures recorded ==> everywhere == old(everywhere) + [Stamp(now, all.since)]
      ensures !recorded ==> before == 0 && unrecorded == old(unrecorded) + 1 && refused == old(refused) + 1 && told == old(told)
      ensures !recorded ==> from == old(from) && everywhere == old(everywhere)
      ensures !recorded ==> Crowded(Of(from, key), now, 10) || Crowded(everywhere, now, 100)
    {
      hide Tracks, Few, Counts;
      key := Track(address, now);
      Renew(key, now);
      if windows[key].recorded >= RECORDED {
        CountsKey(windows, from, now, key);
        FullCrowds(Of(from, key), windows[key], RECORDED, now);
        unrecorded, refused := unrecorded + 1, refused + 1;
        return 0, false, key;
      }
      CountsAt(everywhere, all, RECORDED_ALL, now);
      all := At(all, now);
      if all.recorded >= RECORDED_ALL {
        Full(everywhere, all, RECORDED_ALL);
        FullCrowds(everywhere, all, RECORDED_ALL, now);
        unrecorded, refused := unrecorded + 1, refused + 1;
        return 0, false, key;
      }
      Record(key, now);
      before := unrecorded;
      unrecorded, told := 0, told + before;
      return before, true, key;
    }

    /** Starts the key's window afresh where it has ended. */
    method Renew(key: Key, now: int)
      requires Valid() && clock == now && key in windows
      modifies this`windows
      ensures Valid() && windows == old(windows)[key := At(old(windows)[key], now)]
      ensures windows[key].recorded <= RECORDED
    {
      hide Tracks, Few;
      CountsKey(windows, from, now, key);
      CountsAt(Of(from, key), windows[key], RECORDED, now);
      Sets(windows, from, from, now, key, At(windows[key], now));
      windows := windows[key := At(windows[key], now)];
    }

    /** Counts one entry more in the key's window and in the window of all. */
    method Record(key: Key, now: int)
      requires Valid() && clock == now && key in windows && windows[key].recorded < RECORDED && all.recorded < RECORDED_ALL
      requires !Over(windows[key], now) && !Over(all, now)
      modifies this`windows, this`all, this`from, this`everywhere
      ensures Valid() && key in windows
      ensures from == old(from)[key := Of(old(from), key) + [Stamp(now, windows[key].since)]]
      ensures everywhere == old(everywhere) + [Stamp(now, all.since)]
    {
      hide Tracks, Few, Counts;
      CountsKey(windows, from, now, key);
      CountsMore(Of(from, key), windows[key], RECORDED, now);
      CountsMore(everywhere, all, RECORDED_ALL, now);
      ghost var from' := from[key := Of(from, key) + [Stamp(now, windows[key].since)]];
      Sets(windows, from, from', now, key, windows[key].(recorded := windows[key].recorded + 1));
      windows := windows[key := windows[key].(recorded := windows[key].recorded + 1)];
      everywhere := everywhere + [Stamp(now, all.since)];
      all := all.(recorded := all.recorded + 1);
      from := from';
    }

    /** Empties `unrecorded` into its answer; no window changes. */
    method RecordedAnyway() returns (before: nat)
      requires Valid()
      modifies this`unrecorded, this`told
      ensures Valid() && before == old(unrecorded) && unrecorded == 0 && told == old(told) + before
    {
      hide Tracks, Few, Counts;
      before := unrecorded;
      unrecorded, told := 0, told + before;
    }

    /** So, whatever failed when: any ten minutes hold at most two hundred entries, twenty under one key;
        no more than 1,025 keys are tracked; and what was refused is what was told or is still to be. */
    lemma Bounded(t: int, key: Key)
      requires Valid()
      ensures |Within(everywhere, t)| <= 200
      ensures |Within(Of(from, key), t)| <= 20
      ensures |windows| <= 1025
      ensures refused == told + unrecorded
    {
      AnyInterval(everywhere, all, RECORDED_ALL, t);
      assert TracksKey(windows, from, clock, key);
      AnyInterval(Of(from, key), if key in windows then windows[key] else Window(clock, 0), RECORDED, t);
      SizeBut(windows);
    }
  }

  lemma GrowsBy(windows: Windows, key: Key, w: Window)
    requires key !in windows
    ensures |windows[key := w]| == |windows| + 1
  {
    assert windows[key := w].Keys == windows.Keys + {key};
  }
}
