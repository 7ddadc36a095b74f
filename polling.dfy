/**
 * The colour poller. The mixer has no notification for a custom-colour
 * change, so on every tick the poller reads each track's colour, compares it
 * with the colour it last published for that track's identifier, and
 * publishes only the differences. The cache makes the traffic proportional
 * to what changed rather than to the number of tracks.
 */
module Polling {
  import opened Wrappers
  import opened Guids
  import opened Osc
  import opened Errors
  import opened Mixer
  import opened Lookup

  /** `PollError`: a mixer call failed, or the channel refused a packet (which it hands back). */
  datatype PollError = FromReaper(e: ReaperFunctionError) | FromSend(unsent: Message)

  /** The colour message `/track/{id}/color` with the raw packed colour. */
  function ColorMessage(id: string, color: i32): Message {
    Message(Path(["track", id, "color"]), [Int(color)])
  }

  /** The colour cache: the last published colour per track identifier. */
  type ColorCache = map<string, i32>

  /** What the poller reads from one track: its identifier text and its colour. */
  datatype ColorEntry = ColorEntry(id: string, color: i32)

  /** The entries of the tracks `ts`, in index order. */
  function Entries(ts: seq<Track>): (es: seq<ColorEntry>)
    ensures |es| == |ts|
  {
    if ts == [] then [] else Entries(ts[..|ts| - 1]) + [ColorEntry(TrackGuid(ts[|ts| - 1]), ts[|ts| - 1].color)]
  }

  /** Whether an entry must be published: its identifier is new to the cache, or its colour differs. */
  predicate Changed(cache: ColorCache, e: ColorEntry) {
    e.id !in cache || cache[e.id] != e.color
  }

  /** The cache after a poll, what it sent, and how it ended. */
  datatype PollOutcome = PollOutcome(cache: ColorCache, emitted: seq<Message>, result: Result<(), PollError>)

  /** One track's turn: record and send a changed colour, the cache first; a refused send ends the poll. */
  function PollTrack(cache: ColorCache, e: ColorEntry, open: bool): PollOutcome {
    if !Changed(cache, e) then PollOutcome(cache, [], Ok(()))
    else
      var updated := cache[e.id := e.color];
      var m := ColorMessage(e.id, e.color);
      if open then PollOutcome(updated, [m], Ok(())) else PollOutcome(updated, [], Err(FromSend(m)))
  }

  /** `poll_and_send` over entries `es` in index order, stopping at the first error. */
  function Poll(cache: ColorCache, es: seq<ColorEntry>, open: bool): PollOutcome {
    if es == [] then PollOutcome(cache, [], Ok(()))
    else
      var before := Poll(cache, es[..|es| - 1], open);
      if before.result.Err? then before
      else
        var step := PollTrack(before.cache, es[|es| - 1], open);
        PollOutcome(step.cache, before.emitted + step.emitted, step.result)
  }

  /** The colour messages of the entries whose colours differ from `cache`, in track order. */
  function ChangedMessages(cache: ColorCache, es: seq<ColorEntry>): seq<Message> {
    if es == [] then []
    else
      var e := es[|es| - 1];
      ChangedMessages(cache, es[..|es| - 1]) + (if Changed(cache, e) then [ColorMessage(e.id, e.color)] else [])
  }

  /** The index of the first entry whose colour differs from `cache`, if any. */
  function FirstChange(cache: ColorCache, es: seq<ColorEntry>): (k: Option<nat>)
    ensures k.Some? ==> k.value < |es| && Changed(cache, es[k.value])
    ensures k.Some? ==> forall j :: 0 <= j < k.value ==> !Changed(cache, es[j])
    ensures k.None? ==> forall j :: 0 <= j < |es| ==> !Changed(cache, es[j])
  {
    if es == [] then None
    else
      var k := FirstChange(cache, es[..|es| - 1]);
      assert forall j :: 0 <= j < |es| - 1 ==> es[..|es| - 1][j] == es[j];
      if k.Some? then k else if Changed(cache, es[|es| - 1]) then Some(|es| - 1) else None
  }

  /** No two entries share an identifier. */
  predicate DistinctIds(es: seq<ColorEntry>) {
    forall i, j :: 0 <= i < j < |es| ==> es[i].id != es[j].id
  }

  /** The identifiers of the entries `es`. */
  function Ids(es: seq<ColorEntry>): (ids: set<string>)
    ensures forall i :: 0 <= i < |es| ==> es[i].id in ids
    ensures forall id :: id in ids ==> exists i :: 0 <= i < |es| && es[i].id == id
  {
    if es == [] then {}
    else
      var ids := Ids(es[..|es| - 1]);
      assert forall i :: 0 <= i < |es| - 1 ==> es[..|es| - 1][i] == es[i];
      ids + {es[|es| - 1].id}
  }

  /** The cache holds the colour of every entry. */
  predicate Covers(cache: ColorCache, es: seq<ColorEntry>) {
    forall i :: 0 <= i < |es| ==> es[i].id in cache && cache[es[i].id] == es[i].color
  }

  /** The state a poll reads from one source: its cache and its mixer's tracks. */
  datatype SourceState = SourceState(cache: ColorCache, tracks: seq<Track>)

  /** How a poll from state `st` ends. */
  function Outcome(st: SourceState, open: bool): PollOutcome {
    Poll(st.cache, Entries(st.tracks), open)
  }

  /** `TrackColorPollSource`: the mixer it polls and its cache, which it updates in place. */
  class TrackColorPollSource {
    const reaper: Reaper
    var prevColors: ColorCache

    constructor (reaper: Reaper)
      ensures this.reaper == reaper && prevColors == map[]
    {
      this.reaper := reaper;
      prevColors := map[];
    }

    /** What a poll reads: the cache and the mixer's tracks. */
    function State(): SourceState
      reads this, reaper
    {
      SourceState(prevColors, reaper.project.tracks)
    }

    /** `poll_and_send`: one pass over the tracks in index order, as `Poll` describes it. */
    method PollAndSend(out: Outbox) returns (r: Result<(), PollError>)
      modifies this, out
      ensures var o := Outcome(old(State()), out.open);
        prevColors == o.cache && out.sent == old(out.sent) + o.emitted && r == o.result
    {
      var tracks := reaper.project.tracks;
      ghost var c0, s0, es := prevColors, out.sent, Entries(tracks);
      assert es[..0] == [];
      for i := 0 to |tracks|
        invariant var o := Poll(c0, es[..i], out.open);
          prevColors == o.cache && out.sent == s0 + o.emitted && o.result.Ok?
      {
        ghost var before := Poll(c0, es[..i], out.open);
        var e := ColorEntry(TrackGuid(tracks[i]), tracks[i].color);
        ghost var step := PollTrack(prevColors, e, out.open);
        r := PollEntry(e, out);
        EntryAt(tracks, i);
        TakeStep(es, i);
        PollSnoc(c0, es[..i], e, out.open);
        AppendAssoc(s0, before.emitted, step.emitted);
        if r.Err? {
          PollStopsAtError(c0, es, i + 1, out.open);
          return;
        }
      }
      assert es[..|tracks|] == es;
      return Ok(());
    }

    /** The body of the loop of `poll_and_send`: one track's turn, as `PollTrack` describes it. */
    method PollEntry(e: ColorEntry, out: Outbox) returns (r: Result<(), PollError>)
      modifies this, out
      ensures var step := PollTrack(old(prevColors), e, out.open);
        prevColors == step.cache && out.sent == old(out.sent) + step.emitted && r == step.result
    {
      r := Ok(());
      if e.id !in prevColors || prevColors[e.id] != e.color {
        prevColors := prevColors[e.id := e.color];
        var m := ColorMessage(e.id, e.color);
        var ok := out.Send(m);
        if !ok {
          r := Err(FromSend(m));
        }
      }
    }
  }

  /** Entry `i` is track `i`'s identifier and colour. */
  lemma {:induction false} EntryAt(ts: seq<Track>, i: nat)
    requires i < |ts|
    ensures Entries(ts)[i] == ColorEntry(TrackGuid(ts[i]), ts[i].color)
  {
    if i < |ts| - 1 {
      EntryAt(ts[..|ts| - 1], i);
    }
  }

  /** The entries: the `i`th is track `i`'s identifier and colour. */
  lemma {:induction false} EntriesAt(ts: seq<Track>)
    ensures forall i :: 0 <= i < |ts| ==> Entries(ts)[i] == ColorEntry(TrackGuid(ts[i]), ts[i].color)
  {
    if ts != [] {
      EntriesAt(ts[..|ts| - 1]);
    }
  }

  /** Tracks with distinct GUIDs have distinct identifiers. */
  lemma {:induction false} DistinctEntries(ts: seq<Track>)
    requires forall i, j :: 0 <= i < j < |ts| ==> ts[i].guid != ts[j].guid
    ensures DistinctIds(Entries(ts))
  {
    EntriesAt(ts);
    forall i, j | 0 <= i < j < |ts|
      ensures Entries(ts)[i].id != Entries(ts)[j].id
    {
      if GuidToString(ts[i].guid) == GuidToString(ts[j].guid) {
        GuidToStringInjective(ts[i].guid, ts[j].guid);
      }
    }
  }

  /** Polling one more entry: the earlier entries' poll, then, unless it failed, the entry's turn. */
  lemma {:induction false} PollSnoc(cache: ColorCache, es: seq<ColorEntry>, e: ColorEntry, open: bool)
    ensures var before := Poll(cache, es, open);
      var step := PollTrack(before.cache, e, open);
      Poll(cache, es + [e], open)
        == if before.result.Err? then before else PollOutcome(step.cache, before.emitted + step.emitted, step.result)
  {
    assert (es + [e])[..|es|] == es;
  }

  /** A poll that has failed on a prefix of the entries visits none of the rest. */
  lemma {:induction false} PollStopsAtError(cache: ColorCache, es: seq<ColorEntry>, n: nat, open: bool)
    requires n <= |es| && Poll(cache, es[..n], open).result.Err?
    ensures Poll(cache, es, open) == Poll(cache, es[..n], open)
  {
    if n == |es| {
      assert es[..n] == es;
    } else {
      var init := es[..|es| - 1];
      assert init[..n] == es[..n];
      PollStopsAtError(cache, init, n, open);
    }
  }

  /** With the channel open a poll never fails. */
  lemma {:induction false} PollOpenOk(cache: ColorCache, es: seq<ColorEntry>)
    ensures Poll(cache, es, true).result == Ok(())
  {
    if es != [] {
      PollOpenOk(cache, es[..|es| - 1]);
    }
  }

  /**
   * Entries are only inserted: every key the cache had stays, every new key
   * is a polled track's identifier, and keys of no polled track keep their
   * colour, whether or not the channel is open.
   */
  lemma {:induction false} PollOnlyInserts(cache: ColorCache, es: seq<ColorEntry>, open: bool)
    ensures var c := Poll(cache, es, open).cache;
      && cache.Keys <= c.Keys && c.Keys <= cache.Keys + Ids(es)
      && forall id :: id in cache && id !in Ids(es) ==> c[id] == cache[id]
  {
    if es != [] {
      PollOnlyInserts(cache, es[..|es| - 1], open);
    }
  }

  /** After a poll with the channel open, the cache holds every track's current colour. */
  lemma {:induction false} PollCovers(cache: ColorCache, es: seq<ColorEntry>)
    requires DistinctIds(es)
    ensures Covers(Poll(cache, es, true).cache, es)
  {
    if es != [] {
      var init := es[..|es| - 1];
      var e := es[|es| - 1];
      assert DistinctIds(init);
      PollCovers(cache, init);
      PollOpenOk(cache, init);
      var c1 := Poll(cache, init, true).cache;
      var c := Poll(cache, es, true).cache;
      assert c == PollTrack(c1, e, true).cache;
      forall i | 0 <= i < |es| - 1
        ensures es[i].id in c && c[es[i].id] == es[i].color
      {
        assert init[i] == es[i];
      }
    }
  }

  /** A poll against a cache that already holds every track's colour changes and sends nothing. */
  lemma {:induction false} PollNoChange(cache: ColorCache, es: seq<ColorEntry>, open: bool)
    requires Covers(cache, es)
    ensures Poll(cache, es, open) == PollOutcome(cache, [], Ok(()))
  {
    if es != [] {
      assert Covers(cache, es[..|es| - 1]) by {
        assert forall i :: 0 <= i < |es| - 1 ==> es[..|es| - 1][i] == es[i];
      }
      PollNoChange(cache, es[..|es| - 1], open);
    }
  }

  /** Idempotence: a second poll with no colour change in between sends nothing and keeps the cache. */
  lemma {:induction false} PollIdempotent(cache: ColorCache, es: seq<ColorEntry>)
    requires DistinctIds(es)
    ensures var c := Poll(cache, es, true).cache;
      Poll(c, es, true) == PollOutcome(c, [], Ok(()))
  {
    PollCovers(cache, es);
    PollNoChange(Poll(cache, es, true).cache, es, true);
  }

  /**
   * With the channel open, a poll sends exactly the colour messages of the
   * tracks that were new to the cache or whose colour changed, in track order.
   */
  lemma {:induction false} PollEmitsChanged(cache: ColorCache, es: seq<ColorEntry>)
    requires DistinctIds(es)
    ensures Poll(cache, es, true).emitted == ChangedMessages(cache, es)
  {
    if es != [] {
      var init := es[..|es| - 1];
      var e := es[|es| - 1];
      assert DistinctIds(init);
      PollEmitsChanged(cache, init);
      PollOpenOk(cache, init);
      PollOnlyInserts(cache, init, true);
      assert e.id !in Ids(init) by {
        forall i | 0 <= i < |init|
          ensures init[i].id != e.id
        {
          assert init[i] == es[i];
        }
      }
      var c1 := Poll(cache, init, true).cache;
      assert Changed(c1, e) == Changed(cache, e);
    }
  }

  /**
   * With the channel closed nothing is sent. A poll that meets no changed
   * track ends well with the cache as it was; otherwise it ends at the first
   * changed track, whose entry is already updated, and with the refused
   * message, later tracks unvisited.
   */
  lemma {:induction false} PollClosed(cache: ColorCache, es: seq<ColorEntry>)
    ensures var o := Poll(cache, es, false);
      var k := FirstChange(cache, es);
      && o.emitted == []
      && (k.None? ==> o == PollOutcome(cache, [], Ok(())))
      && (k.Some? ==> var e := es[k.value];
           o.cache == cache[e.id := e.color] && o.result == Err(FromSend(ColorMessage(e.id, e.color))))
  {
    if es != [] {
      PollClosed(cache, es[..|es| - 1]);
    }
  }

  /** Everything the polls with outcomes `os` sent, in order. */
  function AllEmitted(os: seq<PollOutcome>): seq<Message> {
    if os == [] then [] else AllEmitted(os[..|os| - 1]) + os[|os| - 1].emitted
  }

  /** One more outcome sends what the earlier ones sent, then what it sent. */
  lemma {:induction false} AllEmittedSnoc(os: seq<PollOutcome>, o: PollOutcome)
    ensures AllEmitted(os + [o]) == AllEmitted(os) + o.emitted
  {
    assert (os + [o])[..|os|] == os;
  }

  /** `PollManager`: the registered poll sources, run in registration order. */
  class PollManager {
    var sources: seq<TrackColorPollSource>
    /** The sources the manager owns. */
    ghost var Repr: set<TrackColorPollSource>

    /** The manager owns every registered source, and no source is registered twice. */
    ghost predicate Valid()
      reads this
    {
      && (forall k :: 0 <= k < |sources| ==> sources[k] in Repr)
      && (forall i, j :: 0 <= i < j < |sources| ==> sources[i] != sources[j])
    }

    constructor ()
      ensures sources == [] && Repr == {} && Valid()
    {
      sources := [];
      Repr := {};
    }

    /** `add_source`: the source joins at the end; a boxed source is owned, so it is not already registered. */
    method AddSource(source: TrackColorPollSource)
      requires Valid() && source !in Repr
      modifies this
      ensures sources == old(sources) + [source] && Repr == old(Repr) + {source} && Valid()
    {
      sources := sources + [source];
      Repr := Repr + {source};
    }

    /**
     * `poll_all`: every source polls in order; a source's error is reported
     * and dropped, so the sources after it still run.
     */
    method PollAll(out: Outbox) returns (ghost os: seq<PollOutcome>)
      requires Valid()
      modifies Repr, out
      ensures |os| == |sources|
      ensures forall k :: 0 <= k < |sources| ==>
        os[k] == Outcome(old(sources[k].State()), out.open) && sources[k].prevColors == os[k].cache
      ensures out.sent == old(out.sent) + AllEmitted(os)
    {
      var srcs := sources;
      ghost var s0 := out.sent;
      os := [];
      for i := 0 to |srcs|
        invariant |os| == i
        invariant forall k :: 0 <= k < i ==>
          os[k] == Outcome(old(srcs[k].State()), out.open) && srcs[k].prevColors == os[k].cache
        invariant forall k :: i <= k < |srcs| ==> srcs[k].prevColors == old(srcs[k].prevColors)
        invariant out.sent == s0 + AllEmitted(os)
      {
        ghost var o := Outcome(srcs[i].State(), out.open);
        assert forall k :: 0 <= k < |srcs| && k != i ==> srcs[k] != srcs[i];
        var _ := srcs[i].PollAndSend(out);
        AllEmittedSnoc(os, o);
        AppendAssoc(s0, AllEmitted(os), o.emitted);
        os := os + [o];
      }
    }
  }
}
