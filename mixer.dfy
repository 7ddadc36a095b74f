/**
 * The mixer as the core sees it: a master track and the project's tracks in
 * index order, each with its GUID, an optional name, numeric attributes, a
 * custom colour and the destinations of its sends. The host owns this state;
 * `Reaper` is the handle through which the core reads and writes it.
 */
module Mixer {
  import opened Wrappers
  import opened Guids
  import opened Osc
  import opened Errors

  /** The numeric track attributes the routes write. */
  datatype AttrKey = Selected | Vol | Pan | Mute | Solo | RecArm

  /**
   * One track. Attribute values are the mixer's doubles. `number` is the
   * track-number attribute as the core reads it (already converted to u32);
   * `color` is the raw custom colour; `sends` holds, per send index, the GUID
   * of the send's destination track.
   */
  datatype Track = Track(
    guid: Guid,
    name: Option<string>,
    selected: real, vol: real, pan: real, mute: real, solo: real, recArm: real,
    number: u32,
    color: i32,
    sends: seq<Guid>)

  function Attr(t: Track, k: AttrKey): real {
    match k
    case Selected => t.selected
    case Vol => t.vol
    case Pan => t.pan
    case Mute => t.mute
    case Solo => t.solo
    case RecArm => t.recArm
  }

  /** The track with attribute `k` set to `v` and everything else as it was. */
  function WithAttr(t: Track, k: AttrKey, v: real): (u: Track)
    ensures Attr(u, k) == v
    ensures forall k' :: k' != k ==> Attr(u, k') == Attr(t, k')
    ensures u.guid == t.guid && u.name == t.name && u.number == t.number && u.color == t.color && u.sends == t.sends
  {
    match k
    case Selected => t.(selected := v)
    case Vol => t.(vol := v)
    case Pan => t.(pan := v)
    case Mute => t.(mute := v)
    case Solo => t.(solo := v)
    case RecArm => t.(recArm := v)
  }

  /** A track handle: the master track, or the track at an index. */
  datatype TrackRef = Master | AtIndex(i: nat)

  datatype Project = Project(master: Track, tracks: seq<Track>)

  predicate ValidRef(p: Project, r: TrackRef) {
    r.AtIndex? ==> r.i < |p.tracks|
  }

  function TrackAt(p: Project, r: TrackRef): Track
    requires ValidRef(p, r)
  {
    if r.Master? then p.master else p.tracks[r.i]
  }

  /** The project with the track behind `r` replaced by `t` and every other track as it was. */
  function WithTrack(p: Project, r: TrackRef, t: Track): (q: Project)
    requires ValidRef(p, r)
    ensures |q.tracks| == |p.tracks| && ValidRef(q, r) && TrackAt(q, r) == t
    ensures r != Master ==> q.master == p.master
    ensures forall i :: 0 <= i < |p.tracks| && r != AtIndex(i) ==> q.tracks[i] == p.tracks[i]
  {
    if r.Master? then p.(master := t) else p.(tracks := p.tracks[r.i := t])
  }

  /** The host's mixer, as one mutable project state. */
  class Reaper {
    var project: Project

    constructor (p: Project)
      ensures project == p
    {
      project := p;
    }

    /** Sets a numeric attribute; `accepts` is the mixer's verdict, which the core cannot compute. */
    method SetMediaTrackInfoValue(r: TrackRef, k: AttrKey, v: real, accepts: bool)
      returns (res: Result<(), ReaperFunctionError>)
      requires ValidRef(project, r)
      modifies this
      ensures res == if accepts then Ok(()) else Err(AttributeRejected)
      ensures project == if accepts then WithTrack(old(project), r, WithAttr(TrackAt(old(project), r), k, v)) else old(project)
    {
      if accepts {
        project := WithTrack(project, r, WithAttr(TrackAt(project, r), k, v));
        res := Ok(());
      } else {
        res := Err(AttributeRejected);
      }
    }

    /** Sets a track's name; the mixer reports no failure for this. */
    method SetName(r: TrackRef, name: string)
      requires ValidRef(project, r)
      modifies this
      ensures project == WithTrack(old(project), r, TrackAt(old(project), r).(name := Some(name)))
    {
      project := WithTrack(project, r, TrackAt(project, r).(name := Some(name)));
    }
  }
}
