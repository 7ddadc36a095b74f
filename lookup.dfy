/** Reading a track's identifier, and finding a track by identifier. */
module Lookup {
  import opened Wrappers
  import opened Guids
  import opened Osc
  import opened Errors
  import opened Mixer

  /** `get_track_guid`: the text form of the track's GUID. */
  function TrackGuid(t: Track): string {
    GuidToString(t.guid)
  }

  /** Whether track `t` is the one identifier `q` names. */
  predicate HasGuid(t: Track, q: string) {
    TrackGuid(t) == q
  }

  /** The first track at index `i` or later whose identifier is `q`. */
  function FindFrom(ts: seq<Track>, q: string, i: nat): (r: Result<TrackRef, RouteError>)
    decreases |ts| - i
    ensures r.Ok? ==> r.value.AtIndex? && i <= r.value.i < |ts| && HasGuid(ts[r.value.i], q)
    ensures r.Ok? ==> forall j :: i <= j < r.value.i ==> !HasGuid(ts[j], q)
    ensures r.Err? ==> r.error == GuidNotFound(q) && forall j :: i <= j < |ts| ==> !HasGuid(ts[j], q)
  {
    if i >= |ts| then Err(GuidNotFound(q))
    else if HasGuid(ts[i], q) then Ok(AtIndex(i))
    else FindFrom(ts, q, i + 1)
  }

  /**
   * `get_track_by_guid`: the master if its identifier is `q`, otherwise the
   * lowest-index track whose identifier is `q`, otherwise `GuidNotFound(q)`.
   */
  function FindTrack(p: Project, q: string): (r: Result<TrackRef, RouteError>)
    ensures r.Ok? ==> ValidRef(p, r.value) && HasGuid(TrackAt(p, r.value), q)
    ensures HasGuid(p.master, q) ==> r == Ok(Master)
    ensures r.Ok? && r.value.AtIndex? ==>
      !HasGuid(p.master, q) && forall j :: 0 <= j < r.value.i ==> !HasGuid(p.tracks[j], q)
    ensures r.Err? <==> !HasGuid(p.master, q) && forall j :: 0 <= j < |p.tracks| ==> !HasGuid(p.tracks[j], q)
    ensures r.Err? ==> r.error == GuidNotFound(q)
  {
    if HasGuid(p.master, q) then Ok(Master) else FindFrom(p.tracks, q, 0)
  }

  /** The same search as the host runs it: master first, then tracks 0 .. count - 1, returning early. */
  method GetTrackByGuid(reaper: Reaper, q: string) returns (r: Result<TrackRef, RouteError>)
    ensures r == FindTrack(reaper.project, q)
  {
    var master := reaper.project.master;
    if HasGuid(master, q) {
      return Ok(Master);
    }
    var tracks := reaper.project.tracks;
    for i := 0 to |tracks|
      invariant FindTrack(reaper.project, q) == FindFrom(tracks, q, i)
    {
      if HasGuid(tracks[i], q) {
        return Ok(AtIndex(i));
      }
    }
    return Err(GuidNotFound(q));
  }

  /** Conversely, a master whose identifier is `q` is what the search returns. */
  lemma {:induction false} FindTrackIsMaster(p: Project, q: string)
    requires HasGuid(p.master, q)
    ensures FindTrack(p, q) == Ok(Master)
  {
  }

  /** Conversely, the lowest matching track index is what the search returns when the master does not match. */
  lemma {:induction false} FindTrackIsFirst(p: Project, q: string, k: nat)
    requires k < |p.tracks| && HasGuid(p.tracks[k], q) && !HasGuid(p.master, q)
    requires forall j :: 0 <= j < k ==> !HasGuid(p.tracks[j], q)
    ensures FindTrack(p, q) == Ok(AtIndex(k))
  {
  }
}
