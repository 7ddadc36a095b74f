/**
 * The control-surface callbacks: the mixer notifies the core of changes, and
 * the core pushes the corresponding messages to the outbound channel. On a
 * track-list change every track's index and every send's destination are
 * republished, so that a controller can rebuild its address space.
 */
module Surface {
  import opened Wrappers
  import opened Guids
  import opened Osc
  import opened Mixer
  import opened Lookup
  import opened Routes
  import opened Dispatch

  /** `x as i32` for an unsigned 32-bit `x`: two's-complement wrap-around. */
  function AsI32(x: u32): (r: i32)
    ensures x < 0x8000_0000 ==> r == x
    ensures x >= 0x8000_0000 ==> r == x - 0x1_0000_0000
  {
    if x < 0x8000_0000 then x else x - 0x1_0000_0000
  }

  /** `i as i32` for a loop counter over a `u32` range. */
  function IndexAsI32(i: nat): i32 {
    AsI32(i % 0x1_0000_0000)
  }

  /** The decimal digits of `n`, most significant first, without leading zeros. */
  function DecimalDigits(n: nat): (s: string)
    ensures s != [] && forall i :: 0 <= i < |s| ==> '0' <= s[i] <= '9'
  {
    if n < 10 then [('0' as int + n) as char] else DecimalDigits(n / 10) + [('0' as int + n % 10) as char]
  }

  /** `{}` of an integer: its decimal digits, after a minus sign when negative. */
  function Decimal(n: int): (s: string)
    ensures IsSegment(s)
  {
    if n < 0 then "-" + DecimalDigits(-n) else DecimalDigits(n)
  }

  /** The index message `/track/{g}/index` with the track number. */
  function IndexMessage(g: Guid, index: i32): Message {
    Message(Path(["track", GuidToString(g), "index"]), [Int(index)])
  }

  /** The send message `/track/{g}/send/{n}/guid` with the destination's identifier. */
  function SendGuidMessage(g: Guid, n: i32, dest: string): Message {
    Message(Path(["track", GuidToString(g), "send", Decimal(n), "guid"]), [Str(dest)])
  }

  /** The text forms of a run of GUIDs, in order. */
  function GuidTexts(gs: seq<Guid>): (ds: seq<string>)
    ensures |ds| == |gs|
  {
    if gs == [] then [] else GuidTexts(gs[..|gs| - 1]) + [GuidToString(gs[|gs| - 1])]
  }

  /** The send messages of track `g` for destinations `dests`, the `j`th numbered `j`. */
  function SendMessages(g: Guid, dests: seq<string>): seq<Message> {
    if dests == [] then []
    else SendMessages(g, dests[..|dests| - 1]) + [SendGuidMessage(g, IndexAsI32(|dests| - 1), dests[|dests| - 1])]
  }

  /** What a track-list change publishes for one track: its index, then each send's destination. */
  function TrackMessages(t: Track): seq<Message> {
    [IndexMessage(t.guid, AsI32(t.number))] + SendMessages(t.guid, GuidTexts(t.sends))
  }

  /** What a track-list change publishes for a run of tracks, track by track. */
  function TrackListMessages(ts: seq<Track>): seq<Message> {
    if ts == [] then [] else TrackListMessages(ts[..|ts| - 1]) + TrackMessages(ts[|ts| - 1])
  }

  /** The number of sends of a run of tracks. */
  function SumSends(ts: seq<Track>): nat {
    if ts == [] then 0 else SumSends(ts[..|ts| - 1]) + |ts[|ts| - 1].sends|
  }

  /** The handler of the mixer's notifications; it owns the sending half of the channel. */
  class ArpadSurface {
    const reaper: Reaper
    const out: Outbox

    constructor (reaper: Reaper, out: Outbox)
      ensures this.reaper == reaper && this.out == out
    {
      this.reaper := reaper;
      this.out := out;
    }

    /** `send`: the source unwraps the result, so the channel must be open. */
    method Send(m: Message)
      requires out.open
      modifies out
      ensures out.sent == old(out.sent) + [m]
    {
      var _ := out.Send(m);
    }

    /** `set_track_list_change`: every track in index order (the master is not among them). */
    method SetTrackListChange()
      requires out.open
      modifies out
      ensures out.sent == old(out.sent) + TrackListMessages(reaper.project.tracks)
    {
      var tracks := reaper.project.tracks;
      ghost var s0 := out.sent;
      assert tracks[..0] == [];
      for i := 0 to |tracks|
        invariant out.sent == s0 + TrackListMessages(tracks[..i])
      {
        PublishTrack(tracks[i]);
        TrackListStep(tracks, i);
        AppendAssoc(s0, TrackListMessages(tracks[..i]), TrackMessages(tracks[i]));
      }
      assert tracks[..|tracks|] == tracks;
    }

    /** The body of the outer loop of `set_track_list_change`: one track's index, then its sends. */
    method PublishTrack(t: Track)
      requires out.open
      modifies out
      ensures out.sent == old(out.sent) + TrackMessages(t)
    {
      var index := IndexMessage(t.guid, AsI32(t.number));
      Send(index);
      ghost var s1 := out.sent;
      assert t.sends[..0] == [];
      for j := 0 to |t.sends|
        invariant out.sent == s1 + SendMessages(t.guid, GuidTexts(t.sends[..j]))
      {
        var m := SendGuidMessage(t.guid, IndexAsI32(j), GuidToString(t.sends[j]));
        ghost var sent := SendMessages(t.guid, GuidTexts(t.sends[..j]));
        Send(m);
        GuidTextsStep(t.guid, t.sends, j);
        AppendAssoc(s1, sent, [m]);
      }
      assert t.sends[..|t.sends|] == t.sends;
      AppendAssoc(old(out.sent), [index], SendMessages(t.guid, GuidTexts(t.sends)));
    }

    /** `set_track_title`: the track's name message with the new name. */
    method SetTrackTitle(track: TrackRef, name: string)
      requires out.open && ValidRef(reaper.project, track)
      modifies out
      ensures out.sent == old(out.sent) + [NameNotification(reaper.project, track, name)]
    {
      Send(BuildMessage(NameRoute, SendParams(TrackAt(reaper.project, track).guid, Text(name))));
    }

    /** `set_surface_volume`: the track's volume message with the new volume. */
    method SetSurfaceVolume(track: TrackRef, volume: real)
      requires out.open && ValidRef(reaper.project, track)
      modifies out
      ensures out.sent == old(out.sent) + [Notification(VolumeRoute, reaper.project, track, Level(volume))]
    {
      Send(BuildMessage(VolumeRoute, SendParams(TrackAt(reaper.project, track).guid, Level(volume))));
    }

    /** `set_surface_pan`: the track's pan message with the new pan. */
    method SetSurfacePan(track: TrackRef, pan: real)
      requires out.open && ValidRef(reaper.project, track)
      modifies out
      ensures out.sent == old(out.sent) + [Notification(PanRoute, reaper.project, track, Level(pan))]
    {
      Send(BuildMessage(PanRoute, SendParams(TrackAt(reaper.project, track).guid, Level(pan))));
    }

    /** `set_surface_mute`: the track's mute message with the new state. */
    method SetSurfaceMute(track: TrackRef, isMute: bool)
      requires out.open && ValidRef(reaper.project, track)
      modifies out
      ensures out.sent == old(out.sent) + [Notification(MuteRoute, reaper.project, track, Flag(isMute))]
    {
      Send(BuildMessage(MuteRoute, SendParams(TrackAt(reaper.project, track).guid, Flag(isMute))));
    }
  }

  /** The message a notification pushes for a track: the route's own message for the new value. */
  function Notification(r: Route, p: Project, track: TrackRef, v: Value): (m: Message)
    requires ValidRef(p, track) && Fits(r, v)
  {
    BuildMessage(r, SendParams(TrackAt(p, track).guid, v))
  }

  function NameNotification(p: Project, track: TrackRef, name: string): Message
    requires ValidRef(p, track)
  {
    Notification(NameRoute, p, track, Text(name))
  }

  /** The value of a run of decimal digits. */
  function DigitsValue(s: string): int {
    if s == [] then 0 else DigitsValue(s[..|s| - 1]) * 10 + (s[|s| - 1] as int - '0' as int)
  }

  /** The value of a decimal rendering with an optional leading minus sign. */
  function DecimalValue(s: string): int {
    if s != [] && s[0] == '-' then -DigitsValue(s[1..]) else DigitsValue(s)
  }

  lemma {:induction false} DigitsRoundTrip(n: nat)
    ensures DigitsValue(DecimalDigits(n)) == n
  {
    if n >= 10 {
      var s := DecimalDigits(n);
      assert s[..|s| - 1] == DecimalDigits(n / 10);
      DigitsRoundTrip(n / 10);
    }
  }

  /** Round trip: the decimal rendering of an integer reads back as that integer. */
  lemma {:induction false} DecimalRoundTrip(n: int)
    ensures DecimalValue(Decimal(n)) == n
  {
    if n < 0 {
      assert Decimal(n)[1..] == DecimalDigits(-n);
      DigitsRoundTrip(-n);
    } else {
      assert '0' <= DecimalDigits(n)[0] <= '9';
      DigitsRoundTrip(n);
    }
  }

  /** Distinct send indices are published under distinct address segments. */
  lemma {:induction false} DecimalInjective(m: int, n: int)
    requires Decimal(m) == Decimal(n)
    ensures m == n
  {
    DecimalRoundTrip(m);
    DecimalRoundTrip(n);
  }

  /** The index message's address parses to `["track", g, "index"]` and carries the number. */
  lemma {:induction false} IndexMessageParses(g: Guid, index: i32)
    ensures ParseAddress(IndexMessage(g, index).addr) == ["track", GuidToString(g), "index"]
    ensures IndexMessage(g, index).args == [Int(index)]
  {
    GuidIsSegment(g);
    ParsePath(["track", GuidToString(g), "index"]);
  }

  /** The send message's address parses to `["track", g, "send", n, "guid"]` and carries the destination. */
  lemma {:induction false} SendGuidMessageParses(g: Guid, n: i32, dest: string)
    ensures ParseAddress(SendGuidMessage(g, n, dest).addr) == ["track", GuidToString(g), "send", Decimal(n), "guid"]
    ensures SendGuidMessage(g, n, dest).args == [Str(dest)]
  {
    GuidIsSegment(g);
    ParsePath(["track", GuidToString(g), "send", Decimal(n), "guid"]);
  }

  /** One more track adds its messages at the end. */
  lemma {:induction false} TrackListStep(ts: seq<Track>, i: nat)
    requires i < |ts|
    ensures TrackListMessages(ts[..i + 1]) == TrackListMessages(ts[..i]) + TrackMessages(ts[i])
  {
    assert ts[..i + 1][..i] == ts[..i];
  }

  /** One more GUID adds its text at the end. */
  lemma {:induction false} GuidTextsStep(g: Guid, gs: seq<Guid>, j: nat)
    requires j < |gs|
    ensures SendMessages(g, GuidTexts(gs[..j + 1])) == SendMessages(g, GuidTexts(gs[..j])) + [SendGuidMessage(g, IndexAsI32(j), GuidToString(gs[j]))]
  {
    GuidTextsSnoc(gs, j);
    SendMessagesSnoc(g, GuidTexts(gs[..j]), GuidToString(gs[j]));
  }

  /** The texts of one GUID more: the earlier texts, then its own. */
  lemma {:induction false} GuidTextsSnoc(gs: seq<Guid>, j: nat)
    requires j < |gs|
    ensures GuidTexts(gs[..j + 1]) == GuidTexts(gs[..j]) + [GuidToString(gs[j])]
  {
    assert gs[..j + 1][..j] == gs[..j];
  }

  /** One destination more: the earlier send messages, then one numbered by its position. */
  lemma {:induction false} SendMessagesSnoc(g: Guid, ds: seq<string>, d: string)
    ensures SendMessages(g, ds + [d]) == SendMessages(g, ds) + [SendGuidMessage(g, IndexAsI32(|ds|), d)]
  {
    assert (ds + [d])[..|ds|] == ds;
  }

  /** The texts of a run of GUIDs: one per GUID, the `j`th that of GUID `j`. */
  lemma {:induction false} GuidTextsAt(gs: seq<Guid>)
    ensures forall j :: 0 <= j < |gs| ==> GuidTexts(gs)[j] == GuidToString(gs[j])
  {
    if gs != [] {
      GuidTextsAt(gs[..|gs| - 1]);
    }
  }

  /** The send messages: one per destination, the `j`th numbered `j` and carrying destination `j`. */
  lemma {:induction false} SendMessagesAt(g: Guid, dests: seq<string>)
    ensures |SendMessages(g, dests)| == |dests|
    ensures forall j :: 0 <= j < |dests| ==> SendMessages(g, dests)[j] == SendGuidMessage(g, IndexAsI32(j), dests[j])
  {
    if dests != [] {
      assert forall j :: 0 <= j < |dests| - 1 ==> dests[..|dests| - 1][j] == dests[j];
      SendMessagesAt(g, dests[..|dests| - 1]);
    }
  }

  /** A track-list change publishes one message per track and one per send. */
  lemma {:induction false} TrackListCount(ts: seq<Track>)
    ensures |TrackListMessages(ts)| == |ts| + SumSends(ts)
  {
    if ts != [] {
      TrackListCount(ts[..|ts| - 1]);
      GuidTextsAt(ts[|ts| - 1].sends);
      SendMessagesAt(ts[|ts| - 1].guid, GuidTexts(ts[|ts| - 1].sends));
    }
  }

  /** The messages for two runs of tracks are those of the first run, then those of the second. */
  lemma {:induction false} TrackListAppend(a: seq<Track>, b: seq<Track>)
    ensures TrackListMessages(a + b) == TrackListMessages(a) + TrackListMessages(b)
  {
    if b != [] {
      var b0 := b[..|b| - 1];
      assert (a + b)[..|a + b| - 1] == a + b0;
      TrackListAppend(a, b0);
      AppendAssoc(TrackListMessages(a), TrackListMessages(b0), TrackMessages(b[|b| - 1]));
    } else {
      assert a + b == a;
    }
  }

  /**
   * Order: the messages of track `i` come after those of every earlier track
   * and before those of every later one, index message first.
   */
  lemma {:induction false} TrackListOrder(ts: seq<Track>, i: nat)
    requires i < |ts|
    ensures TrackListMessages(ts) == TrackListMessages(ts[..i]) + TrackMessages(ts[i]) + TrackListMessages(ts[i + 1..])
    ensures TrackMessages(ts[i])[0] == IndexMessage(ts[i].guid, AsI32(ts[i].number))
  {
    assert ts[..i + 1] + ts[i + 1..] == ts;
    TrackListAppend(ts[..i + 1], ts[i + 1..]);
    TrackListStep(ts, i);
  }

  /**
   * A notification carries what a query of the same route answers once the
   * mixer holds the new value, provided the track's identifier resolves to it.
   */
  lemma {:induction false} NotificationAnswersQuery(rd: Reading, r: Route, p: Project, track: TrackRef, v: Value, args: seq<OscType>, accepts: bool)
    requires ValidRef(p, track) && Fits(r, v)
    requires FindTrack(p, TrackGuid(TrackAt(p, track))) == Ok(track)
    ensures var t := TrackAt(p, track);
      var q := WithTrack(p, track, Updated(r, t, v));
      var e := HandleEffect(rd, MessagePacket(Message(Address(r, TrackGuid(t)) + "/?", args)), q, accepts);
      e.project == q && !e.aborted && e.emitted == [Notification(r, p, track, v)]
  {
    var t := TrackAt(p, track);
    var g := TrackGuid(t);
    GuidIsSegment(t.guid);
    var q := WithTrack(p, track, Updated(r, t, v));
    CollectUpdated(r, t, v);
    ReplacedKeepsLookup(p, track, Updated(r, t, v));
    CollectReadsBack(r, SendParams(t.guid, v), q, track);
    QueryAnswered(rd, r, g, args, q, accepts);
  }

  /** Replacing a track by one with the same GUID keeps every lookup of that GUID where it was. */
  lemma {:induction false} ReplacedKeepsLookup(p: Project, track: TrackRef, u: Track)
    requires ValidRef(p, track) && u.guid == TrackAt(p, track).guid
    requires FindTrack(p, TrackGuid(u)) == Ok(track)
    ensures FindTrack(WithTrack(p, track, u), TrackGuid(u)) == Ok(track)
  {
    var g := TrackGuid(u);
    var q := WithTrack(p, track, u);
    assert forall i :: 0 <= i < |p.tracks| ==> HasGuid(q.tracks[i], g) == HasGuid(p.tracks[i], g);
    assert HasGuid(q.master, g) == HasGuid(p.master, g);
    SameIdentifiersSameLookup(p, q, g, track);
  }
}
