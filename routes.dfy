/**
 * The seven track routes `/track/{guid}/LIT`, one per writable track
 * parameter, as a tagged variant. Each route has a structural matcher, a
 * message builder, a `collect` that reads the current value for a query and
 * a `receive` that writes the value a message carries.
 */
module Routes {
  import opened Wrappers
  import opened Guids
  import opened Osc
  import opened Errors
  import opened Mixer
  import opened Lookup

  datatype Route = NameRoute | SelectedRoute | VolumeRoute | PanRoute | MuteRoute | SoloRoute | RecArmRoute

  /** The last address segment of each route. */
  function Literal(r: Route): string {
    match r
    case NameRoute => "name"
    case SelectedRoute => "selected"
    case VolumeRoute => "volume"
    case PanRoute => "pan"
    case MuteRoute => "mute"
    case SoloRoute => "solo"
    case RecArmRoute => "rec-arm"
  }

  /** The routes whose parameter is a boolean on the wire and 0 / non-0 in the mixer. */
  predicate IsFlagRoute(r: Route) {
    r == SelectedRoute || r == MuteRoute || r == SoloRoute || r == RecArmRoute
  }

  /** The mixer attribute behind each numeric route. */
  function Key(r: Route): AttrKey
    requires r != NameRoute
  {
    match r
    case SelectedRoute => Selected
    case VolumeRoute => Vol
    case PanRoute => Pan
    case MuteRoute => Mute
    case SoloRoute => Solo
    case RecArmRoute => RecArm
  }

  /** What an address carries: the track identifier in its second segment. */
  datatype ReceiveParams = ReceiveParams(trackGuid: string)

  /** The current value a route reports: a name, a flag or a level. */
  datatype Value = Text(s: string) | Flag(b: bool) | Level(x: real)

  /** What a route's message is built from: the track's GUID and its value. */
  datatype SendParams = SendParams(track: Guid, value: Value)

  /** The value shape each route's send parameters have. */
  predicate Fits(r: Route, v: Value) {
    if r == NameRoute then v.Text?
    else if r == VolumeRoute || r == PanRoute then v.Level?
    else v.Flag?
  }

  /** The argument kind each route's messages carry. */
  predicate ArgFits(r: Route, a: OscType) {
    if r == NameRoute then a.Str?
    else if r == VolumeRoute || r == PanRoute then a.Float?
    else a.Bool?
  }

  /** `matcher`: accepts exactly `["track", g, LIT]` and extracts `g`. */
  function Matcher(r: Route, segs: seq<string>): Option<ReceiveParams> {
    if |segs| == 3 && segs[0] == "track" && segs[2] == Literal(r) then Some(ReceiveParams(segs[1])) else None
  }

  /** `/track/{g}/LIT`. */
  function Address(r: Route, g: string): string {
    "/track/" + g + "/" + Literal(r)
  }

  function Arg(v: Value): OscType {
    match v
    case Text(s) => Str(s)
    case Flag(b) => Bool(b)
    case Level(x) => Float(x)
  }

  /** `build_message`: the route's address for the track, with the value as its one argument. */
  function BuildMessage(r: Route, sp: SendParams): (m: Message)
    requires Fits(r, sp.value)
    ensures |m.args| == 1 && ArgFits(r, m.args[0])
  {
    Message(Address(r, GuidToString(sp.track)), [Arg(sp.value)])
  }

  /** Matcher and literal: a segment list is accepted exactly when it is `["track", g, LIT]`. */
  lemma {:induction false} MatcherExact(r: Route, segs: seq<string>)
    ensures Matcher(r, segs).Some? <==> |segs| == 3 && segs[0] == "track" && segs[2] == Literal(r)
    ensures Matcher(r, segs).Some? ==> Matcher(r, segs).value.trackGuid == segs[1]
  {
  }

  /** The seven literals are pairwise distinct. */
  lemma {:induction false} LiteralInjective(r1: Route, r2: Route)
    requires Literal(r1) == Literal(r2)
    ensures r1 == r2
  {
    var l1, l2 := Literal(r1), Literal(r2);
    assert |l1| == |l2| && l1[0] == l2[0] && l1[|l1| - 1] == l2[|l2| - 1];
  }

  /** At most one route matches any segment list. */
  lemma {:induction false} MatchersDisjoint(r1: Route, r2: Route, segs: seq<string>)
    requires Matcher(r1, segs).Some? && Matcher(r2, segs).Some?
    ensures r1 == r2
  {
    LiteralInjective(r1, r2);
  }

  /** A route's address parses to `["track", g, LIT]` for any single-segment identifier `g`. */
  lemma {:induction false} AddressParses(r: Route, g: string)
    requires IsSegment(g)
    ensures ParseAddress(Address(r, g)) == ["track", g, Literal(r)]
  {
    var segs := ["track", g, Literal(r)];
    assert IsSegment("track") && IsSegment(Literal(r));
    assert Join(segs[2..]) == Literal(r);
    assert Join(segs[1..]) == g + "/" + Literal(r);
    assert Address(r, g) == "/" + Join(segs);
    ParseSlashJoin(segs);
  }

  /**
   * Round trip: the address of a built message parses back to the route's
   * pattern for the track's identifier, the route's own matcher accepts it
   * with that identifier, and no other route does.
   */
  lemma {:induction false} MessageRoundTrip(r: Route, sp: SendParams)
    requires Fits(r, sp.value)
    ensures var segs := ParseAddress(BuildMessage(r, sp).addr);
      && segs == ["track", GuidToString(sp.track), Literal(r)]
      && Matcher(r, segs) == Some(ReceiveParams(GuidToString(sp.track)))
      && forall r' :: r' != r ==> Matcher(r', segs).None?
  {
    var g := GuidToString(sp.track);
    GuidIsSegment(sp.track);
    AddressParses(r, g);
    forall r' | r' != r ensures Matcher(r', ["track", g, Literal(r)]).None? {
      if Literal(r') == Literal(r) {
        LiteralInjective(r', r);
      }
    }
  }

  /**
   * `collect_send_params`: resolve the identifier (failing with
   * `GuidNotFound` before anything is read), then read the route's value.
   */
  function CollectSpec(r: Route, params: ReceiveParams, p: Project): (res: Result<SendParams, RouteError>)
    ensures res.Ok? ==> Fits(r, res.value.value) && GuidToString(res.value.track) == params.trackGuid
  {
    match FindTrack(p, params.trackGuid)
    case Err(e) => Err(e)
    case Ok(ref) =>
      var t := TrackAt(p, ref);
      if r == NameRoute then
        match t.name
        case None => Err(ValueNotFound("Failed to retrieve track name"))
        case Some(n) => Ok(SendParams(t.guid, Text(n)))
      else if IsFlagRoute(r) then Ok(SendParams(t.guid, Flag(Attr(t, Key(r)) != 0.0)))
      else Ok(SendParams(t.guid, Level(Attr(t, Key(r)))))
  }

  /** The read as the host runs it: look the track up, then read one attribute. */
  method Collect(r: Route, params: ReceiveParams, reaper: Reaper) returns (res: Result<SendParams, RouteError>)
    ensures res == CollectSpec(r, params, reaper.project)
  {
    var found := GetTrackByGuid(reaper, params.trackGuid);
    if found.Err? {
      return Err(found.error);
    }
    var t := TrackAt(reaper.project, found.value);
    if r == NameRoute {
      if t.name.None? {
        return Err(ValueNotFound("Failed to retrieve track name"));
      }
      return Ok(SendParams(t.guid, Text(t.name.value)));
    } else if IsFlagRoute(r) {
      return Ok(SendParams(t.guid, Flag(Attr(t, Key(r)) != 0.0)));
    }
    return Ok(SendParams(t.guid, Level(Attr(t, Key(r)))));
  }

  /** A query fails with `GuidNotFound(g)` exactly when no track, master included, has identifier `g`. */
  lemma {:induction false} CollectGuidNotFound(r: Route, params: ReceiveParams, p: Project)
    ensures CollectSpec(r, params, p) == Err(GuidNotFound(params.trackGuid)) <==> FindTrack(p, params.trackGuid).Err?
  {
  }

  /** The name query fails with `ValueNotFound` exactly when the track is found but has no name. */
  lemma {:induction false} CollectNameMissing(params: ReceiveParams, p: Project)
    ensures CollectSpec(NameRoute, params, p).Err? && CollectSpec(NameRoute, params, p).error.ValueNotFound?
      <==> FindTrack(p, params.trackGuid).Ok? && TrackAt(p, FindTrack(p, params.trackGuid).value).name.None?
  {
  }

  /** A flag route reports true exactly when the found track's attribute is non-zero. */
  lemma {:induction false} CollectFlag(r: Route, params: ReceiveParams, p: Project)
    requires IsFlagRoute(r) && FindTrack(p, params.trackGuid).Ok?
    ensures var t := TrackAt(p, FindTrack(p, params.trackGuid).value);
      CollectSpec(r, params, p).Ok? && (CollectSpec(r, params, p).value.value.b <==> Attr(t, Key(r)) != 0.0)
  {
  }

  /** A decoded write: the new name, or the new attribute value. */
  datatype Written = NewName(s: string) | NewValue(x: real)

  /**
   * The argument reads exactly as the source has them: `args[0]` must exist
   * and `.string()`, `.int()` or `.float()` must succeed; `None` stands for
   * the panic of the failing index or `unwrap`. The flag routes read an
   * integer although their messages carry a boolean.
   */
  function DecodeArgAsWritten(r: Route, args: seq<OscType>): (w: Option<Written>)
    ensures w.Some? ==> (r == NameRoute <==> w.value.NewName?)
    ensures w.None? <==> args == [] || !(if IsFlagRoute(r) then args[0].Int? else ArgFits(r, args[0]))
  {
    if args == [] then None
    else match args[0]
      case Str(s) => if r == NameRoute then Some(NewName(s)) else None
      case Int(n) => if IsFlagRoute(r) then Some(NewValue(n as real)) else None
      case Float(x) => if r == VolumeRoute || r == PanRoute then Some(NewValue(x)) else None
      case Bool(_) => None
  }

  /** A route's own message is refused by its receive as written: the flag routes' writes abort. */
  lemma {:induction false} AsWrittenRejectsOwnFlag(r: Route, sp: SendParams)
    requires IsFlagRoute(r) && Fits(r, sp.value)
    ensures DecodeArgAsWritten(r, BuildMessage(r, sp).args) == None
  {
  }

  /**
   * The corrected argument reads: as written, except that the flag routes
   * also accept the boolean their own messages carry (true as 1, false as 0).
   * A missing or mistyped argument still aborts.
   */
  function DecodeArg(r: Route, args: seq<OscType>): (w: Option<Written>)
    ensures w.Some? ==> (r == NameRoute <==> w.value.NewName?)
    ensures DecodeArgAsWritten(r, args).Some? ==> w == DecodeArgAsWritten(r, args)
    ensures w.None? <==> args == [] || !(ArgFits(r, args[0]) || (IsFlagRoute(r) && args[0].Int?))
  {
    if args != [] && IsFlagRoute(r) && args[0].Bool? then Some(NewValue(if args[0].b then 1.0 else 0.0))
    else DecodeArgAsWritten(r, args)
  }

  /** The two reads differ exactly on a flag route's boolean argument. */
  lemma {:induction false} ReadingsAgree(r: Route, args: seq<OscType>)
    ensures DecodeArgAsWritten(r, args) != DecodeArg(r, args) <==> IsFlagRoute(r) && args != [] && args[0].Bool?
  {
  }

  /** Which argument reads a write uses: the source's, or the corrected ones. */
  datatype Reading = AsWritten | Corrected

  /** The argument read that reading `rd` performs. */
  function ReadArg(rd: Reading, r: Route, args: seq<OscType>): (w: Option<Written>)
    ensures w.Some? ==> (r == NameRoute <==> w.value.NewName?)
  {
    if rd == AsWritten then DecodeArgAsWritten(r, args) else DecodeArg(r, args)
  }

  /** How a write ended: done, failed with an error, or aborted by a missing or mistyped argument. */
  datatype Receipt = Received | Failed(error: ReceiverError) | Aborted

  datatype ReceiveEffect = ReceiveEffect(receipt: Receipt, project: Project)

  /**
   * `receive`: resolve the identifier (failing with `GuidNotFound` before the
   * argument is read), read the argument (aborting if it is missing or
   * mistyped), then write; `accepts` is the mixer's verdict on a numeric write.
   * A write that does not succeed leaves the project as it was.
   */
  function ReceiveSpec(rd: Reading, r: Route, params: ReceiveParams, args: seq<OscType>, p: Project, accepts: bool): (e: ReceiveEffect)
    ensures e.receipt != Received ==> e.project == p
    ensures |e.project.tracks| == |p.tracks|
  {
    match FindTrack(p, params.trackGuid)
    case Err(e) => ReceiveEffect(Failed(Route(e)), p)
    case Ok(ref) =>
      match ReadArg(rd, r, args)
      case None => ReceiveEffect(Aborted, p)
      case Some(w) =>
        if r == NameRoute then ReceiveEffect(Received, WithTrack(p, ref, TrackAt(p, ref).(name := Some(w.s))))
        else if accepts then ReceiveEffect(Received, WithTrack(p, ref, WithAttr(TrackAt(p, ref), Key(r), w.x)))
        else ReceiveEffect(Failed(Reaper(AttributeRejected)), p)
  }

  /** The write as the host runs it, with the source's argument reads, against the mixer handle. */
  method Receive(r: Route, params: ReceiveParams, msg: Message, reaper: Reaper, accepts: bool) returns (receipt: Receipt)
    modifies reaper
    ensures receipt == ReceiveSpec(AsWritten, r, params, msg.args, old(reaper.project), accepts).receipt
    ensures reaper.project == ReceiveSpec(AsWritten, r, params, msg.args, old(reaper.project), accepts).project
  {
    var found := GetTrackByGuid(reaper, params.trackGuid);
    if found.Err? {
      return Failed(Route(found.error));
    }
    var track := found.value;
    var w := DecodeArgAsWritten(r, msg.args);
    if w.None? {
      return Aborted;
    }
    if r == NameRoute {
      reaper.SetName(track, w.value.s);
      return Received;
    }
    var res := reaper.SetMediaTrackInfoValue(track, Key(r), w.value.x, accepts);
    if res.Err? {
      return Failed(Reaper(res.error));
    }
    return Received;
  }

  /** An unknown identifier fails the write with `GuidNotFound` whatever the arguments, and writes nothing. */
  lemma {:induction false} ReceiveGuidNotFound(rd: Reading, r: Route, params: ReceiveParams, args: seq<OscType>, p: Project, accepts: bool)
    requires FindTrack(p, params.trackGuid).Err?
    ensures ReceiveSpec(rd, r, params, args, p, accepts) == ReceiveEffect(Failed(Route(GuidNotFound(params.trackGuid))), p)
  {
  }

  /**
   * An accepted flag write stores the integer argument in that track's
   * attribute; no other attribute, field or track changes.
   */
  lemma {:induction false} ReceiveFlagWrite(rd: Reading, r: Route, params: ReceiveParams, n: i32, rest: seq<OscType>, p: Project)
    requires IsFlagRoute(r) && FindTrack(p, params.trackGuid).Ok?
    ensures var ref := FindTrack(p, params.trackGuid).value;
      var e := ReceiveSpec(rd, r, params, [Int(n)] + rest, p, true);
      var t, u := TrackAt(p, ref), TrackAt(e.project, ref);
      && e.receipt == Received
      && Attr(u, Key(r)) == n as real
      && (forall k :: k != Key(r) ==> Attr(u, k) == Attr(t, k))
      && u.guid == t.guid && u.name == t.name && u.color == t.color && u.sends == t.sends
      && (ref != Master ==> e.project.master == p.master)
      && |e.project.tracks| == |p.tracks|
      && forall i :: 0 <= i < |p.tracks| && ref != AtIndex(i) ==> e.project.tracks[i] == p.tracks[i]
  {
    var ref := FindTrack(p, params.trackGuid).value;
    assert ReadArg(rd, r, [Int(n)] + rest) == Some(NewValue(n as real));
  }

  /** A numeric write the mixer rejects fails with the mixer's error and leaves the project as it was. */
  lemma {:induction false} ReceiveRejected(rd: Reading, r: Route, params: ReceiveParams, args: seq<OscType>, p: Project)
    requires r != NameRoute && FindTrack(p, params.trackGuid).Ok? && ReadArg(rd, r, args).Some?
    ensures ReceiveSpec(rd, r, params, args, p, false) == ReceiveEffect(Failed(Reaper(AttributeRejected)), p)
  {
  }

  /** What a write of value `v` through route `r` makes of a track. */
  function Updated(r: Route, t: Track, v: Value): Track
    requires Fits(r, v)
  {
    if r == NameRoute then t.(name := Some(v.s))
    else WithAttr(t, Key(r), if v.Flag? then (if v.b then 1.0 else 0.0) else v.x)
  }

  /**
   * Applying a route's own message to an existing track updates exactly that
   * track, as `Updated` says: for every route with the corrected reads, and
   * for the routes that are not flag routes with the source's.
   */
  lemma {:induction false} ApplyOwnMessage(rd: Reading, r: Route, sp: SendParams, p: Project)
    requires rd == Corrected || !IsFlagRoute(r)
    requires Fits(r, sp.value) && FindTrack(p, GuidToString(sp.track)).Ok?
    ensures var ref := FindTrack(p, GuidToString(sp.track)).value;
      var e := ReceiveSpec(rd, r, ReceiveParams(GuidToString(sp.track)), BuildMessage(r, sp).args, p, true);
      e == ReceiveEffect(Received, WithTrack(p, ref, Updated(r, TrackAt(p, ref), sp.value)))
  {
    var args := BuildMessage(r, sp).args;
    assert args == [Arg(sp.value)];
  }

  /** The value a query reads back from a track that `Updated` wrote. */
  lemma {:induction false} CollectUpdated(r: Route, t: Track, v: Value)
    requires Fits(r, v)
    ensures var u := Updated(r, t, v);
      && u.guid == t.guid
      && (r == NameRoute ==> u.name == Some(v.s))
      && (IsFlagRoute(r) ==> (Attr(u, Key(r)) != 0.0) == v.b)
      && (r == VolumeRoute || r == PanRoute ==> Attr(u, Key(r)) == v.x)
  {
  }

  /** A query reads back a value from the track that holds it. */
  lemma {:induction false} CollectReadsBack(r: Route, sp: SendParams, q: Project, ref: TrackRef)
    requires Fits(r, sp.value) && FindTrack(q, GuidToString(sp.track)) == Ok(ref)
    requires var u := TrackAt(q, ref);
      && u.guid == sp.track
      && (r == NameRoute ==> u.name == Some(sp.value.s))
      && (IsFlagRoute(r) ==> (Attr(u, Key(r)) != 0.0) == sp.value.b)
      && (r == VolumeRoute || r == PanRoute ==> Attr(u, Key(r)) == sp.value.x)
    ensures CollectSpec(r, ReceiveParams(GuidToString(sp.track)), q) == Ok(sp)
  {
  }

  /**
   * Encode, apply, collect, encode: writing a route's own message to an
   * existing track and querying the route again yields the same message
   * (for the flag routes, only with the corrected reads).
   */
  lemma {:induction false} EncodeApplyCollect(rd: Reading, r: Route, sp: SendParams, p: Project)
    requires rd == Corrected || !IsFlagRoute(r)
    requires Fits(r, sp.value) && FindTrack(p, GuidToString(sp.track)).Ok?
    ensures var m := BuildMessage(r, sp);
      var params := ReceiveParams(GuidToString(sp.track));
      var e := ReceiveSpec(rd, r, params, m.args, p, true);
      && e.receipt == Received
      && CollectSpec(r, params, e.project) == Ok(sp)
      && BuildMessage(r, CollectSpec(r, params, e.project).value) == m
  {
    var g := GuidToString(sp.track);
    var ref := FindTrack(p, g).value;
    var t := TrackAt(p, ref);
    var u := Updated(r, t, sp.value);
    var q := WithTrack(p, ref, u);
    ApplyOwnMessage(rd, r, sp, p);
    CollectUpdated(r, t, sp.value);
    assert forall i :: 0 <= i < |p.tracks| ==> HasGuid(q.tracks[i], g) == HasGuid(p.tracks[i], g);
    assert HasGuid(q.master, g) == HasGuid(p.master, g);
    SameIdentifiersSameLookup(p, q, g, ref);
    GuidToStringInjective(t.guid, sp.track);
    CollectReadsBack(r, sp, q, ref);
  }

  /** Two projects whose tracks carry the same identifiers resolve every identifier alike. */
  lemma {:induction false} SameIdentifiersSameLookup(p: Project, q: Project, g: string, ref: TrackRef)
    requires |p.tracks| == |q.tracks|
    requires HasGuid(p.master, g) == HasGuid(q.master, g)
    requires forall i :: 0 <= i < |p.tracks| ==> HasGuid(p.tracks[i], g) == HasGuid(q.tracks[i], g)
    requires FindTrack(p, g) == Ok(ref)
    ensures FindTrack(q, g) == Ok(ref)
  {
    if ref.Master? {
      FindTrackIsMaster(q, g);
    } else {
      assert forall j :: 0 <= j < ref.i ==> !HasGuid(p.tracks[j], g);
      FindTrackIsFirst(q, g, ref.i);
    }
  }
}
