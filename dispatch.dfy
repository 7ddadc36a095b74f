/**
 * The dispatcher: a message's address is parsed once, a trailing `?`
 * segment turns it into a query, and the message is offered to every route
 * of the table in order. A matching query is answered with one message on
 * the outbound channel; a matching write goes to the route's `receive`;
 * failures are dropped and nothing is sent for them.
 */
module Dispatch {
  import opened Wrappers
  import opened Guids
  import opened Osc
  import opened Errors
  import opened Mixer
  import opened Lookup
  import opened Routes

  /** A message is a query when its last segment is exactly `?`. */
  predicate IsQuery(segs: seq<string>) {
    |segs| > 0 && segs[|segs| - 1] == "?"
  }

  /** The segments the routes match against: the query marker, and only it, removed. */
  function MatchSegments(segs: seq<string>): (ms: seq<string>)
    ensures IsQuery(segs) ==> ms + ["?"] == segs
    ensures !IsQuery(segs) ==> ms == segs
  {
    if IsQuery(segs) then segs[..|segs| - 1] else segs
  }

  /** What handling does: the new project, the messages sent (in order) and whether a write aborted. */
  datatype Effect = Effect(project: Project, emitted: seq<Message>, aborted: bool)

  /** Nothing happened. */
  function Idle(p: Project): Effect {
    Effect(p, [], false)
  }

  /** `dispatch_route` for one route. */
  function DispatchEffect(rd: Reading, r: Route, segs: seq<string>, msg: Message, p: Project, accepts: bool): Effect {
    match Matcher(r, MatchSegments(segs))
    case None => Idle(p)
    case Some(params) =>
      if IsQuery(segs) then
        match CollectSpec(r, params, p)
        case Ok(sp) => Effect(p, [BuildMessage(r, sp)], false)
        case Err(_) => Idle(p)
      else
        var a := ReceiveSpec(rd, r, params, msg.args, p, accepts);
        Effect(a.project, [], a.receipt.Aborted?)
  }

  /**
   * `dispatch_route` as the host runs it, with the source's argument reads.
   * The outbound channel must be open: the source unwraps the result of the send.
   */
  method DispatchRoute(r: Route, segs: seq<string>, msg: Message, reaper: Reaper, out: Outbox, accepts: bool)
    returns (aborted: bool)
    requires out.open
    modifies reaper, out
    ensures var e := DispatchEffect(AsWritten, r, segs, msg, old(reaper.project), accepts);
      reaper.project == e.project && out.sent == old(out.sent) + e.emitted && aborted == e.aborted
  {
    var query := |segs| > 0 && segs[|segs| - 1] == "?";
    var matchSegs := if query then segs[..|segs| - 1] else segs;
    var params := Matcher(r, matchSegs);
    aborted := false;
    if params.Some? {
      if query {
        var collected := Collect(r, params.value, reaper);
        if collected.Ok? {
          var _ := out.Send(BuildMessage(r, collected.value));
        }
      } else {
        var receipt := Receive(r, params.value, msg, reaper, accepts);
        aborted := receipt.Aborted?;
      }
    }
  }

  /** A trailing `/?` adds exactly one `?` segment, which is then the one removed before matching. */
  lemma {:induction false} QueryMarker(addr: string)
    ensures ParseAddress(addr + "/?") == ParseAddress(addr) + ["?"]
    ensures IsQuery(ParseAddress(addr + "/?")) && MatchSegments(ParseAddress(addr + "/?")) == ParseAddress(addr)
  {
    assert addr + "/?" == addr + "/" + "?";
    ParseAtSlash(addr, "?");
    ParseNoSlash("?");
  }

  /** A last segment that merely ends in `?` (such as `name?`) is no query, and nothing is removed. */
  lemma {:induction false} NotAQuery(segs: seq<string>)
    requires |segs| > 0 && segs[|segs| - 1] != "?"
    ensures !IsQuery(segs) && MatchSegments(segs) == segs
  {
  }

  /**
   * A matching query whose read succeeds sends exactly the route's message
   * for the value read, and leaves the project as it was (no write happens).
   */
  lemma {:induction false} DispatchAnswersQuery(rd: Reading, r: Route, segs: seq<string>, msg: Message, p: Project, accepts: bool)
    requires IsQuery(segs) && Matcher(r, MatchSegments(segs)).Some?
    requires CollectSpec(r, Matcher(r, MatchSegments(segs)).value, p).Ok?
    ensures var sp := CollectSpec(r, Matcher(r, MatchSegments(segs)).value, p).value;
      DispatchEffect(rd, r, segs, msg, p, accepts) == Effect(p, [BuildMessage(r, sp)], false)
  {
  }

  /**
   * In every other case nothing is sent: a failed query, any write, no match.
   * A query never changes the project, and without a match nothing at all
   * happens; a write changes the project exactly as `receive` does.
   */
  lemma {:induction false} DispatchSilent(rd: Reading, r: Route, segs: seq<string>, msg: Message, p: Project, accepts: bool)
    ensures var ms := MatchSegments(segs); var e := DispatchEffect(rd, r, segs, msg, p, accepts);
      && (e.emitted != [] <==> IsQuery(segs) && Matcher(r, ms).Some? && CollectSpec(r, Matcher(r, ms).value, p).Ok?)
      && (IsQuery(segs) ==> e.project == p && !e.aborted)
      && (Matcher(r, ms).None? ==> e == Idle(p))
      && (!IsQuery(segs) && Matcher(r, ms).Some? ==>
            var a := ReceiveSpec(rd, r, Matcher(r, ms).value, msg.args, p, accepts);
            e == Effect(a.project, [], a.receipt.Aborted?))
  {
  }

  /** The routes `handle_packet` offers every message to, in its order. */
  const RouteTable: seq<Route> := [NameRoute, SelectedRoute, VolumeRoute, PanRoute, MuteRoute, SoloRoute, RecArmRoute]

  /** One more route after what went before; an abort (a panic) ends the packet. */
  function Then(rd: Reading, e: Effect, r: Route, segs: seq<string>, msg: Message, accepts: bool): Effect {
    if e.aborted then e
    else
      var d := DispatchEffect(rd, r, segs, msg, e.project, accepts);
      Effect(d.project, e.emitted + d.emitted, d.aborted)
  }

  /** The routes dispatched one after the other. */
  function DispatchAll(rd: Reading, routes: seq<Route>, segs: seq<string>, msg: Message, p: Project, accepts: bool): Effect {
    if routes == [] then Idle(p)
    else Then(rd, DispatchAll(rd, routes[..|routes| - 1], segs, msg, p, accepts), routes[|routes| - 1], segs, msg, accepts)
  }

  /** `handle_packet`: a message goes to every route of the table; a bundle is ignored. */
  function HandleEffect(rd: Reading, packet: Packet, p: Project, accepts: bool): Effect {
    match packet
    case Bundle(_) => Idle(p)
    case MessagePacket(msg) => DispatchAll(rd, RouteTable, ParseAddress(msg.addr), msg, p, accepts)
  }

  /**
   * `handle_packet` as the host runs it, with the source's argument reads;
   * `accepts` is the mixer's verdict on the one write a packet can cause. The source calls `dispatch_route` once
   * per route, in the order of `RouteTable`; here those calls are one loop
   * over the table. An aborted write ends the packet.
   */
  method HandlePacket(reaper: Reaper, packet: Packet, out: Outbox, accepts: bool) returns (aborted: bool)
    requires out.open
    modifies reaper, out
    ensures var e := HandleEffect(AsWritten, packet, old(reaper.project), accepts);
      reaper.project == e.project && out.sent == old(out.sent) + e.emitted && aborted == e.aborted
  {
    aborted := false;
    if packet.Bundle? {
      return;
    }
    var msg := packet.msg;
    var segs := ParseAddress(msg.addr);
    ghost var p0, s0 := reaper.project, out.sent;
    assert RouteTable[..0] == [];
    for k := 0 to |RouteTable|
      invariant var e := DispatchAll(AsWritten, RouteTable[..k], segs, msg, p0, accepts);
        reaper.project == e.project && out.sent == s0 + e.emitted && !e.aborted
    {
      ghost var before := DispatchAll(AsWritten, RouteTable[..k], segs, msg, p0, accepts);
      ghost var d := DispatchEffect(AsWritten, RouteTable[k], segs, msg, reaper.project, accepts);
      aborted := DispatchRoute(RouteTable[k], segs, msg, reaper, out, accepts);
      TableStep(AsWritten, k, segs, msg, p0, accepts, d);
      AppendAssoc(s0, before.emitted, d.emitted);
      if aborted {
        return;
      }
    }
    assert RouteTable[..|RouteTable|] == RouteTable;
  }

  /**
   * One step of the table: after the first `k` routes, route `k` adds its
   * effect; if it aborts, the rest of the table adds nothing.
   */
  lemma {:induction false} TableStep(rd: Reading, k: nat, segs: seq<string>, msg: Message, p0: Project, accepts: bool, d: Effect)
    requires k < |RouteTable|
    requires var before := DispatchAll(rd, RouteTable[..k], segs, msg, p0, accepts);
      !before.aborted && d == DispatchEffect(rd, RouteTable[k], segs, msg, before.project, accepts)
    ensures var before := DispatchAll(rd, RouteTable[..k], segs, msg, p0, accepts);
      DispatchAll(rd, RouteTable[..k + 1], segs, msg, p0, accepts) == Effect(d.project, before.emitted + d.emitted, d.aborted)
    ensures d.aborted ==> DispatchAll(rd, RouteTable, segs, msg, p0, accepts) == DispatchAll(rd, RouteTable[..k + 1], segs, msg, p0, accepts)
  {
    PrefixStep(rd, k + 1, segs, msg, p0, accepts);
    if d.aborted {
      AbortEndsPacket(rd, RouteTable, k + 1, segs, msg, p0, accepts);
    }
  }

  /** The table dispatch after k routes is the dispatch after k - 1 routes, then route k. */
  lemma {:induction false} PrefixStep(rd: Reading, k: nat, segs: seq<string>, msg: Message, p: Project, accepts: bool)
    requires 1 <= k <= |RouteTable|
    ensures DispatchAll(rd, RouteTable[..k], segs, msg, p, accepts)
      == Then(rd, DispatchAll(rd, RouteTable[..k - 1], segs, msg, p, accepts), RouteTable[k - 1], segs, msg, accepts)
  {
    assert RouteTable[..k][..k - 1] == RouteTable[..k - 1];
  }

  /** Once a write has aborted, the later routes are not offered the message. */
  lemma {:induction false} AbortEndsPacket(rd: Reading, routes: seq<Route>, k: nat, segs: seq<string>, msg: Message, p: Project, accepts: bool)
    requires k <= |routes| && DispatchAll(rd, routes[..k], segs, msg, p, accepts).aborted
    ensures DispatchAll(rd, routes, segs, msg, p, accepts) == DispatchAll(rd, routes[..k], segs, msg, p, accepts)
    decreases |routes|
  {
    if k < |routes| {
      var init := routes[..|routes| - 1];
      assert init[..k] == routes[..k];
      AbortEndsPacket(rd, init, k, segs, msg, p, accepts);
    } else {
      assert routes[..k] == routes;
    }
  }

  /** Every route is in the table, and no route twice. */
  lemma {:induction false} RouteTableComplete()
    ensures forall r :: r in RouteTable
    ensures forall i, j :: 0 <= i < j < |RouteTable| ==> RouteTable[i] != RouteTable[j]
  {
    forall r ensures r in RouteTable {
      match r
      case NameRoute => assert RouteTable[0] == r;
      case SelectedRoute => assert RouteTable[1] == r;
      case VolumeRoute => assert RouteTable[2] == r;
      case PanRoute => assert RouteTable[3] == r;
      case MuteRoute => assert RouteTable[4] == r;
      case SoloRoute => assert RouteTable[5] == r;
      case RecArmRoute => assert RouteTable[6] == r;
    }
  }

  /**
   * Offering a message to routes of which only `r` can match, with `r` at most
   * once among them, has the effect of dispatching to `r` alone, or none.
   */
  lemma {:induction false} DispatchAllOne(rd: Reading, routes: seq<Route>, r: Route, segs: seq<string>, msg: Message, p: Project, accepts: bool)
    requires forall i :: 0 <= i < |routes| && routes[i] != r ==> Matcher(routes[i], MatchSegments(segs)).None?
    requires forall i, j :: 0 <= i < j < |routes| ==> routes[i] != routes[j]
    ensures DispatchAll(rd, routes, segs, msg, p, accepts) == if r in routes then DispatchEffect(rd, r, segs, msg, p, accepts) else Idle(p)
  {
    if routes != [] {
      var init, last := routes[..|routes| - 1], routes[|routes| - 1];
      assert forall i :: 0 <= i < |init| ==> init[i] == routes[i];
      DispatchAllOne(rd, init, r, segs, msg, p, accepts);
      var before := DispatchAll(rd, init, segs, msg, p, accepts);
      if last == r {
        assert r !in init by {
          forall i | 0 <= i < |init| ensures init[i] != r {
            assert routes[i] != routes[|routes| - 1];
          }
        }
        ThenIdle(rd, r, segs, msg, p, accepts);
      } else {
        assert r in routes <==> r in init;
        ThenUnmatched(rd, before, last, segs, msg, accepts);
      }
    }
  }

  /** After nothing, one route's effect is that route's dispatch. */
  lemma {:induction false} ThenIdle(rd: Reading, r: Route, segs: seq<string>, msg: Message, p: Project, accepts: bool)
    ensures Then(rd, Idle(p), r, segs, msg, accepts) == DispatchEffect(rd, r, segs, msg, p, accepts)
  {
    var d := DispatchEffect(rd, r, segs, msg, p, accepts);
    assert [] + d.emitted == d.emitted;
  }

  /** A route that does not match adds nothing. */
  lemma {:induction false} ThenUnmatched(rd: Reading, e: Effect, r: Route, segs: seq<string>, msg: Message, accepts: bool)
    requires Matcher(r, MatchSegments(segs)).None?
    ensures Then(rd, e, r, segs, msg, accepts) == e
  {
    assert e.emitted + [] == e.emitted;
  }

  /**
   * `handle_packet` on a message: since at most one route matches, the
   * effect is that of dispatching to the matching route, and nothing
   * happens when no route matches. A bundle does nothing.
   */
  lemma {:induction false} HandleOneRoute(rd: Reading, packet: Packet, p: Project, accepts: bool)
    ensures packet.Bundle? ==> HandleEffect(rd, packet, p, accepts) == Idle(p)
    ensures packet.MessagePacket? ==>
      var segs := ParseAddress(packet.msg.addr);
      && (forall r :: Matcher(r, MatchSegments(segs)).Some? ==>
            HandleEffect(rd, packet, p, accepts) == DispatchEffect(rd, r, segs, packet.msg, p, accepts))
      && ((forall r :: Matcher(r, MatchSegments(segs)).None?) ==> HandleEffect(rd, packet, p, accepts) == Idle(p))
  {
    if packet.MessagePacket? {
      var msg := packet.msg;
      var segs := ParseAddress(msg.addr);
      var ms := MatchSegments(segs);
      RouteTableComplete();
      forall r | Matcher(r, ms).Some?
        ensures HandleEffect(rd, packet, p, accepts) == DispatchEffect(rd, r, segs, msg, p, accepts)
      {
        forall i | 0 <= i < |RouteTable| && RouteTable[i] != r
          ensures Matcher(RouteTable[i], ms).None?
        {
          if Matcher(RouteTable[i], ms).Some? {
            MatchersDisjoint(RouteTable[i], r, ms);
          }
        }
        DispatchAllOne(rd, RouteTable, r, segs, msg, p, accepts);
      }
      if forall r :: Matcher(r, ms).None? {
        DispatchAllOne(rd, RouteTable, NameRoute, segs, msg, p, accepts);
        assert Matcher(NameRoute, ms).None?;
      }
    }
  }

  /**
   * A query for route `r` on identifier `g` (the route's address followed by
   * `/?`) answers with the route's message for the value read, or with
   * nothing when the read fails, and never changes the project.
   */
  lemma {:induction false} QueryAnswered(rd: Reading, r: Route, g: string, args: seq<OscType>, p: Project, accepts: bool)
    requires IsSegment(g)
    ensures var e := HandleEffect(rd, MessagePacket(Message(Address(r, g) + "/?", args)), p, accepts);
      var c := CollectSpec(r, ReceiveParams(g), p);
      && e.project == p && !e.aborted
      && e.emitted == if c.Ok? then [BuildMessage(r, c.value)] else []
  {
    var msg := Message(Address(r, g) + "/?", args);
    QueryMarker(Address(r, g));
    AddressParses(r, g);
    var segs := ParseAddress(msg.addr);
    assert Matcher(r, MatchSegments(segs)) == Some(ReceiveParams(g));
    HandleOneRoute(rd, MessagePacket(msg), p, accepts);
    DispatchSilent(rd, r, segs, msg, p, accepts);
  }

  /**
   * Write, then query: sending a route's own message for an existing track
   * sends nothing back and does not abort; querying the same address
   * afterwards answers with exactly that message. With the corrected reads
   * this holds for every route; with the source's reads, only for the routes
   * that are not flag routes (see `OwnFlagMessageAborts`).
   */
  lemma {:induction false} WriteThenQuery(rd: Reading, r: Route, sp: SendParams, p: Project)
    requires rd == Corrected || !IsFlagRoute(r)
    requires Fits(r, sp.value) && FindTrack(p, GuidToString(sp.track)).Ok?
    ensures var m := BuildMessage(r, sp);
      var w := HandleEffect(rd, MessagePacket(m), p, true);
      var q := HandleEffect(rd, MessagePacket(Message(m.addr + "/?", [])), w.project, true);
      && !w.aborted && w.emitted == []
      && q.project == w.project && q.emitted == [m]
  {
    var m := BuildMessage(r, sp);
    var g := GuidToString(sp.track);
    var segs := ParseAddress(m.addr);
    MessageRoundTrip(r, sp);
    NotAQuery(segs);
    HandleOneRoute(rd, MessagePacket(m), p, true);
    EncodeApplyCollect(rd, r, sp, p);
    var w := HandleEffect(rd, MessagePacket(m), p, true);
    GuidIsSegment(sp.track);
    QueryAnswered(rd, r, g, [], w.project, true);
  }

  /**
   * As written, a flag route's own message for an existing track aborts the
   * packet: the integer read of its boolean argument panics, so nothing is
   * written and nothing is sent.
   */
  lemma {:induction false} OwnFlagMessageAborts(r: Route, sp: SendParams, p: Project, accepts: bool)
    requires IsFlagRoute(r) && Fits(r, sp.value) && FindTrack(p, GuidToString(sp.track)).Ok?
    ensures HandleEffect(AsWritten, MessagePacket(BuildMessage(r, sp)), p, accepts) == Effect(p, [], true)
  {
    var m := BuildMessage(r, sp);
    var segs := ParseAddress(m.addr);
    MessageRoundTrip(r, sp);
    NotAQuery(segs);
    HandleOneRoute(AsWritten, MessagePacket(m), p, accepts);
    AsWrittenRejectsOwnFlag(r, sp);
  }
}
