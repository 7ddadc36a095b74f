# reaper-arpad core, modelled in Dafny

reaper-arpad is a control-surface extension for the REAPER mixer. It speaks
OSC over UDP. Incoming messages are addressed `/track/{guid}/LIT`. A message
that ends in a `/?` segment is a query: it reads a track parameter and
answers with a message. Any other message is a write: it sets the
parameter. The surface also pushes changes the mixer reports, and a poller
publishes track-colour changes, which the mixer does not report.

This project models the core of that extension and proves its properties.
It covers the address parser and the per-route dispatcher, the seven track
routes (name, selected, volume, pan, mute, solo, rec-arm), the GUID text
form with the track lookup built on it, the control-surface callbacks that
republish the track list, and the colour poller with its cache.

The model has these parts:

- The mixer is an abstract state (`Mixer.Project`): a master track and the
  project's tracks in index order. Each track has a GUID, an optional name,
  six numeric attributes, a track number, a raw colour and the GUIDs of its
  sends' destinations. `Mixer.Reaper` is the mutable handle the core writes
  through.
- The outbound channel to the sender thread is `Osc.Outbox`. It holds
  everything accepted so far and only grows. Its `open` flag says whether
  the receiving half still exists.
- Each operation with a loop or a state change is a method. It is proved
  against a pure specification function, and lemmas about that function
  state what the source promises. The write's specification, and the
  dispatch built on it, take a `Routes.Reading`. `AsWritten` reads the
  argument as the source does, and `Corrected` also takes a flag route's
  Bool (see Findings). The methods run `AsWritten`:
  - `HandlePacket` and `DispatchRoute` are proved against `HandleEffect`
    and `DispatchEffect`;
  - `GetTrackByGuid` against `FindTrack`;
  - `Collect` against `CollectSpec`, and `Receive` against `ReceiveSpec`;
  - `SetTrackListChange` against `TrackListMessages`;
  - `PollAndSend` against `Poll`;
  - `PollAll` against `Outcome` and `AllEmitted`.
- Files and modules:
  - `wrappers.dfy`: `Option` and `Result`;
  - `guids.dfy`: the GUID text form and its parse;
  - `osc.dfy`: messages, address parsing and the outbox;
  - `errors.dfy`: the error types;
  - `mixer.dfy`: the mixer state;
  - `lookup.dfy`: identifiers and the track search;
  - `routes.dfy`: the seven routes;
  - `dispatch.dfy`: `dispatch_route` and `handle_packet`;
  - `surface.dfy`: the control-surface callbacks;
  - `polling.dfy`: the colour poller.

Parameters stand in for what the core reads from outside but cannot compute:

- `accepts` is the mixer's verdict on an attribute write;
- `Outbox.open` says whether the channel's receiving half is alive;
- the mixer state is whatever `Reaper.project` holds.

## Model

| member | source | states |
|---|---|---|
| Guids.Hex | src/utils.rs:7 | Exactly `w` characters, each a lowercase hexadecimal digit (`{:0Nx}` zero-padded). |
| Guids.HexRoundTrip | src/utils.rs:7 | A value below 16^w, rendered in `w` digits, reads back as itself. |
| Guids.GuidToString | src/lib.rs:22-37 | No contract of its own: `GuidTextShape`, `GuidTextGroups`, `GuidTextFields` and `ParseGuidToString` state the 8-4-4-4-12 lowercase text it renders. |
| Guids.GuidTextGroups | src/utils.rs:5-20 | The text is the five groups data1, data2, data3, data4[0..2] and data4[2..8], joined by `-`. |
| Guids.GuidTextShape | src/lib.rs:22-37 | The text has 36 characters, with `-` at 8, 13, 18 and 23 and a lowercase hex digit everywhere else. |
| Guids.GuidTextGroupsAt | src/utils.rs:5-20 | Each of the five groups sits at its fixed offset in the 36-character text. |
| Guids.GuidTextFields | src/utils.rs:7-18 | Each of the eleven fields' digits sits at its fixed offset, the eight data4 bytes two digits each. |
| Guids.ParseGuid | src/utils.rs:5-20 | The inverse reading of the 8-4-4-4-12 text; it succeeds only on 36-character input. |
| Guids.ParseGuidToString | src/utils.rs:5-20 | Round trip: parsing the text of any GUID gives back that GUID. |
| Guids.GuidToStringInjective | src/lib.rs:22-37 | Equal texts imply equal GUIDs, so distinct GUIDs have distinct texts. |
| Guids.GuidIsSegment | src/utils.rs:5-20 | The text is non-empty and holds no `/`, so it is exactly one address segment. |
| Osc.ParseAddress | src/lib.rs:260-262 | No contract of its own: `ParsedAreSegments`, `ParseAtSlash`, `ParseNoSlash`, `ParseJoin` and `ParsePath` state what `split('/')` with empty pieces dropped yields. |
| Osc.Split | src/lib.rs:261 | `split('/')` yields at least one piece, and no piece contains `/`. |
| Osc.ParsedAreSegments | src/lib.rs:260-262 | Every parsed segment is non-empty and slash-free. |
| Osc.ParseAtSlash | src/lib.rs:260-262 | A slash cuts the address: parsing `x/y` gives the segments of `x`, then those of `y`. |
| Osc.ParseNoSlash | src/lib.rs:260-262 | A slash-free text parses to itself as one segment, or to nothing if it is empty. |
| Osc.ParseJoin | src/lib.rs:260-262 | Joining valid segments with `/` and parsing gives back the same segments. |
| Osc.ParseSlashJoin | src/lib.rs:260-262 | Parsing `"/" + join(segments, "/")` gives back the same segments. |
| Osc.ParseThenJoin | src/lib.rs:260-262 | The parse is stable: joining the parsed segments and parsing again gives the same segments. |
| Osc.ParsePath | src/lib.rs:260-262 | The address `/s0/s1/…` of valid segments parses back to those segments. |
| Osc.Outbox.Send | src/lib.rs:158 | A send succeeds exactly when the channel is open, and then appends the message; otherwise nothing is appended. |
| Mixer.WithAttr | src/osc_routes.rs:111-115 | Sets one attribute; the other attributes and every other field keep their values. |
| Mixer.WithTrack | src/osc_routes.rs:44-47 | Replaces the addressed track; the master (for an indexed track) and every other track stay as they were. |
| Mixer.Reaper.SetMediaTrackInfoValue | src/osc_routes.rs:111-115 | On the mixer's acceptance it writes exactly that attribute of that track; otherwise it returns the error and writes nothing. |
| Mixer.Reaper.SetName | src/osc_routes.rs:46 | Sets that track's name and changes nothing else. |
| Lookup.TrackGuid | src/lib.rs:43-48 | No contract of its own: an identifier is the GUID's text, whose shape and injectivity the Guids lemmas state. |
| Lookup.FindFrom | src/lib.rs:55-61 | Finds the first track at index `i` or later whose identifier matches, or `GuidNotFound(q)` when none does. |
| Lookup.FindTrack | src/lib.rs:50-62 | An `Ok` result has the queried identifier. A matching master wins; otherwise the lowest matching index wins. The result is `Err(GuidNotFound(q))` exactly when nothing matches. |
| Lookup.GetTrackByGuid | src/utils.rs:33-45 | The loop with early returns computes exactly `FindTrack`. |
| Lookup.FindTrackIsMaster | src/utils.rs:34-37 | A master with the queried identifier is returned, even when a track also matches. |
| Lookup.FindTrackIsFirst | src/utils.rs:38-43 | Otherwise the lowest-index matching track is returned. |
| Routes.Matcher | src/osc_routes.rs:28-37 | No contract of its own: `MatcherExact` and `MatchersDisjoint` state what it accepts. |
| Routes.MatcherExact | src/osc_routes.rs:28-37 | A matcher accepts exactly `["track", g, LIT]` for its own literal and extracts `g`. |
| Routes.LiteralInjective | src/osc_routes.rs:30 | The seven literals are pairwise distinct. |
| Routes.MatchersDisjoint | src/osc_routes.rs:93-102 | At most one route's matcher accepts any segment list. |
| Routes.BuildMessage | src/osc_routes.rs:51-57 | Exactly one argument: a String for name, a Float for volume and pan, a Bool for the flag routes. |
| Routes.AddressParses | src/osc_routes.rs:54 | `/track/{g}/LIT` parses to `["track", g, LIT]` for any one-segment `g`. |
| Routes.MessageRoundTrip | src/osc_routes.rs:120-126 | A built message's address parses back to `["track", guid, LIT]`. Its own route accepts it with that identifier, and no other route accepts it. |
| Routes.CollectSpec | src/osc_routes.rs:59-75 | A successful read carries a value of the route's shape, for a track whose identifier is the queried one. |
| Routes.Collect | src/osc_routes.rs:128-140 | The read as the host runs it computes `CollectSpec` and changes nothing. |
| Routes.CollectGuidNotFound | src/osc_routes.rs:63 | A read fails with `GuidNotFound(g)` exactly when no track, master included, has identifier `g`. |
| Routes.CollectNameMissing | src/osc_routes.rs:65-69 | The name read fails with `ValueNotFound` exactly when the track is found but has no name. |
| Routes.CollectFlag | src/osc_routes.rs:137 | A flag route reports true exactly when the attribute is non-zero. |
| Routes.DecodeArgAsWritten | src/osc_routes.rs:114 | The source's argument read: a String for name, a Float for volume and pan and an Int for the flag routes. It fails exactly on a missing or other-typed first argument. |
| Routes.DecodeArg | src/osc_routes.rs:46 | The corrected read: it agrees with every read the source allows. It also takes a flag route's Bool. It aborts exactly on a missing or mistyped argument. |
| Routes.ReadingsAgree | src/osc_routes.rs:114 | The two reads differ exactly on a flag route given a Bool. |
| Routes.AsWrittenRejectsOwnFlag | src/osc_routes.rs:114 | As written, a flag route's receive aborts on its own message's Bool argument. |
| Routes.ReceiveSpec | src/osc_routes.rs:104-118 | A write that is not received leaves the project as it was, and no write adds or removes a track. |
| Routes.Receive | src/osc_routes.rs:104-118 | With the source's argument reads, its receipt and the new mixer state are exactly those of `ReceiveSpec(AsWritten, …)`. |
| Routes.ReceiveGuidNotFound | src/osc_routes.rs:109 | An unknown identifier fails with `Route(GuidNotFound(g))` whatever the arguments, and writes nothing. |
| Routes.ReceiveFlagWrite | src/osc_routes.rs:306-310 | An accepted flag write stores the integer argument in that attribute of that track; nothing else changes. |
| Routes.ReceiveRejected | src/osc_routes.rs:111-116 | A rejected numeric write fails with `Reaper(AttributeRejected)` and leaves the project unchanged. |
| Routes.ApplyOwnMessage | src/osc_routes.rs:169-183 | A route's own message, applied to an existing track, updates exactly that track's value: for every route with the corrected read, and for name, volume and pan as written. |
| Routes.CollectUpdated | src/osc_routes.rs:193-205 | A track after a write keeps its GUID and reads back the written value. |
| Routes.CollectReadsBack | src/osc_routes.rs:258-270 | A read of a track that holds the value returns exactly the send parameters. |
| Routes.EncodeApplyCollect | src/osc_routes.rs:234-254 | Writing a route's own message and querying again gives the same message back: for every route with the corrected read, and for name, volume and pan as written. |
| Routes.SameIdentifiersSameLookup | src/lib.rs:50-62 | Projects whose tracks carry the same identifiers resolve every identifier alike. |
| Dispatch.IsQuery | src/lib.rs:123 | No contract of its own: `QueryMarker` and `NotAQuery` state that exactly a last `?` segment makes a query. |
| Dispatch.MatchSegments | src/lib.rs:124-128 | For a query, exactly the one trailing `?` is removed; otherwise the segments are unchanged. |
| Dispatch.QueryMarker | src/lib.rs:123 | A trailing `/?` adds exactly one `?` segment. That makes a query, and stripping it gives the unmarked address's segments. |
| Dispatch.NotAQuery | src/lib.rs:123 | A last segment other than `?`, such as `name?`, is no query, and nothing is removed. |
| Dispatch.DispatchEffect | src/lib.rs:117-147 | No contract of its own: `DispatchAnswersQuery`, `DispatchSilent` and `QueryAnswered` state what one route's dispatch does. |
| Dispatch.DispatchRoute | src/lib.rs:117-147 | With the source's argument reads, the new mixer state, the messages sent and the abort flag are exactly those of `DispatchEffect(AsWritten, …)`. |
| Dispatch.DispatchAnswersQuery | src/lib.rs:130-136 | A matched query whose read succeeds sends exactly `build_message(collect(params))` and leaves the project as it was. |
| Dispatch.DispatchSilent | src/lib.rs:130-145 | Something is sent exactly when a matched query's read succeeds. Queries never write. No match means no effect. A write changes the project exactly as `receive` does. |
| Dispatch.HandleEffect | src/lib.rs:264-284 | No contract of its own: `HandleOneRoute`, `QueryAnswered`, `WriteThenQuery` and `OwnFlagMessageAborts` state what handling a packet does. |
| Dispatch.HandlePacket | src/lib.rs:264-284 | With the source's argument reads, the new mixer state, the messages sent and the abort flag are exactly those of `HandleEffect(AsWritten, …)`: every route of the table in order, and a bundle does nothing. |
| Dispatch.TableStep | src/lib.rs:269-275 | The next route in the table adds its effect to that of the routes before it; after an abort the rest of the table adds nothing. |
| Dispatch.AbortEndsPacket | src/lib.rs:269-275 | Once a write has aborted, no later route is offered the message. |
| Dispatch.RouteTableComplete | src/lib.rs:269-275 | The table holds every route exactly once. |
| Dispatch.DispatchAllOne | src/lib.rs:269-275 | Offering a message to distinct routes of which only `r` can match has the effect of dispatching to `r` alone. |
| Dispatch.HandleOneRoute | src/lib.rs:264-284 | A message has the effect of dispatching to the one route that matches, or none when no route matches. A bundle does nothing. |
| Dispatch.QueryAnswered | src/lib.rs:130-140 | The query `/track/{g}/LIT/?` answers with the route's message for the value read, or nothing when the read fails. It never writes. |
| Dispatch.WriteThenQuery | src/lib.rs:264-284 | Sending a route's own message sends nothing back and does not abort; querying its address afterwards answers with that same message. This holds for every route with the corrected read, and for name, volume and pan as written. |
| Dispatch.OwnFlagMessageAborts | src/osc_routes.rs:309 | As written, a flag route's own message, sent to an existing track, aborts the packet: nothing is written and nothing is sent. |
| Surface.AsI32 | src/lib.rs:171 | `as i32` on a u32 is two's-complement wrap-around. |
| Surface.DecimalDigits | src/lib.rs:189-198 | Helper of the `SendGuidMessage` stand-in for the send-index segment: a non-empty run of decimal digits. |
| Surface.Decimal | src/lib.rs:189-198 | Helper of the `SendGuidMessage` stand-in for the send-index segment: the rendering of an integer is one address segment. |
| Surface.DecimalRoundTrip | src/lib.rs:189-198 | Helper of the `SendGuidMessage` stand-in for the send-index segment: the decimal rendering of an integer reads back as that integer. |
| Surface.DecimalInjective | src/lib.rs:189-198 | Helper of the `SendGuidMessage` stand-in for the send-index segment: distinct send indices give distinct address segments. |
| Surface.GuidTexts | src/lib.rs:194 | One destination text per send. |
| Surface.GuidTextsAt | src/lib.rs:181-194 | The `j`th destination text is that of send `j`'s destination GUID. |
| Surface.SendMessagesAt | src/lib.rs:177-199 | One message per send, the `j`th numbered `j` and carrying destination `j`. |
| Surface.IndexMessageParses | src/lib.rs:166-175 | The index message's address parses to `["track", g, "index"]`, and its argument is the track number. |
| Surface.SendGuidMessageParses | src/lib.rs:189-198 | The send message's address parses to `["track", g, "send", n, "guid"]`, and its argument is the destination's identifier. |
| Surface.ArpadSurface.Send | src/lib.rs:157-160 | Appends exactly the message; the channel must be open, since the send is unwrapped. |
| Surface.TrackListMessages | src/lib.rs:163-202 | No contract of its own: `TrackListCount`, `TrackListAppend` and `TrackListOrder` state which messages a track-list change publishes, and in what order. |
| Surface.ArpadSurface.SetTrackListChange | src/lib.rs:163-202 | Appends exactly `TrackListMessages` of the current tracks, the master excluded. |
| Surface.ArpadSurface.PublishTrack | src/lib.rs:165-200 | Appends one track's index message, then its send messages in send order. |
| Surface.TrackListCount | src/lib.rs:163-202 | A track-list change publishes `count_tracks + Σ num_sends` messages. |
| Surface.TrackListAppend | src/lib.rs:164 | The messages of two runs of tracks are those of the first run, then those of the second. |
| Surface.TrackListOrder | src/lib.rs:163-202 | Track `i`'s messages follow those of every earlier track and precede every later one, with its index message first. |
| Surface.ArpadSurface.SetTrackTitle | src/lib.rs:203-211 | Appends the track's name message for the new name. |
| Surface.ArpadSurface.SetSurfaceVolume | src/lib.rs:212-217 | Appends the track's volume message for the new volume. |
| Surface.ArpadSurface.SetSurfacePan | src/lib.rs:218-220 | Appends the track's pan message for the new pan. |
| Surface.ArpadSurface.SetSurfaceMute | src/lib.rs:221-226 | Appends the track's mute message for the new state. |
| Surface.NotificationAnswersQuery | src/lib.rs:212-217 | Once the mixer holds a notification's new value, a query of that route answers with exactly the notification's message. |
| Surface.ReplacedKeepsLookup | src/lib.rs:50-62 | Replacing a track by one with the same GUID keeps that GUID's lookup on it. |
| Polling.Entries | src/polling.rs:76-80 | One entry per track, in index order. |
| Polling.EntryAt | src/polling.rs:77-80 | Entry `i` is track `i`'s identifier and colour. |
| Polling.EntriesAt | src/polling.rs:76-80 | Each entry is its track's identifier and colour. |
| Polling.DistinctEntries | src/polling.rs:78 | Tracks with distinct GUIDs give entries with distinct identifiers. |
| Polling.FirstChange | src/polling.rs:81-97 | Points at the first entry that is new to the cache or changed colour, or says that none is. |
| Polling.Ids | src/polling.rs:78 | Exactly the identifiers of the entries. |
| Polling.PollTrack | src/polling.rs:81-109 | No contract of its own: `PollSnoc`, `PollEmitsChanged` and `PollClosed` state one track's turn. |
| Polling.Poll | src/polling.rs:75-112 | No contract of its own: `PollSnoc`, `PollStopsAtError`, `PollOpenOk`, `PollOnlyInserts`, `PollCovers`, `PollNoChange`, `PollIdempotent`, `PollEmitsChanged` and `PollClosed` state what a poll does. |
| Polling.TrackColorPollSource.PollAndSend | src/polling.rs:75-112 | The new cache, the messages sent and the result are exactly `Poll`'s outcome for the old cache and the current tracks. |
| Polling.TrackColorPollSource.PollEntry | src/polling.rs:81-109 | One track's turn: a new or changed colour is recorded, then sent; a refused send returns `FromSend` with the message. |
| Polling.PollSnoc | src/polling.rs:76 | Polling one more track is the earlier poll, then, unless it failed, that track's turn. |
| Polling.PollStopsAtError | src/polling.rs:94 | After an error no later track is visited. |
| Polling.PollOpenOk | src/polling.rs:111 | With the channel open a poll ends `Ok`. |
| Polling.PollOnlyInserts | src/polling.rs:75-112 | Cache entries are only inserted, and only for polled identifiers; identifiers of no polled track keep their colour. |
| Polling.PollCovers | src/polling.rs:83-97 | After a successful poll the cache holds every current track's colour. |
| Polling.PollNoChange | src/polling.rs:81-82 | A poll against a cache that holds every current colour sends nothing and keeps the cache. |
| Polling.PollIdempotent | src/polling.rs:81-82 | A second poll with no colour change in between sends nothing and keeps the cache. |
| Polling.PollEmitsChanged | src/polling.rs:81-109 | With the channel open, a poll sends one message per track that was new or changed, and none for any other, in track order. |
| Polling.PollClosed | src/polling.rs:83-108 | With the channel closed nothing is sent. A poll ends at the first new or changed track, with that track's entry already updated and the refused message returned; with no such track the cache is unchanged. |
| Polling.AllEmittedSnoc | src/polling.rs:42-49 | One more source's poll adds what it sent after what the earlier sources sent. |
| Polling.TrackColorPollSource.constructor | src/polling.rs:66-71 | A new source starts with an empty cache. |
| Polling.PollManager.constructor | src/polling.rs:30-34 | A new manager has no sources. |
| Polling.PollManager.AddSource | src/polling.rs:36-38 | The source is appended at the end. |
| Polling.PollManager.PollAll | src/polling.rs:41-50 | Every source polls once, in registration order. Each leaves its cache as its own poll says, and the channel receives the sources' messages in that order. A source's error does not stop the later ones. |

## Left out

- UDP socket I/O and the non-blocking receive loop of `run` (src/lib.rs:227-246): they are I/O. The model starts from a decoded packet.
- The sender thread and the bounded channel's concurrency and back-pressure (src/lib.rs:250-258, 298): the channel is the append-only `Outbox`, whose `open` flag is a parameter.
- Plugin registration and the session singleton (src/lib.rs:289-319): they are host lifecycle.
- rosc encoding and decoding: a foreign library. Messages are values.
- Floating point: volume and pan are `real`. The `f32`/`f64` casts and the `new_panic` range checks of the volume and pan reads (src/osc_routes.rs:179, 189, 202, 244, 254, 267) are not modelled.
- `get_track_idx`'s float-to-u32 truncation: `Track.number` already holds the u32 the source computes.
- The `println!`/`eprintln!` logging. A failure the source only logs is modelled as having no effect.
- The documentation scraper `tools/oscdoc`: it is offline tooling, not runtime behaviour.
- The TrackSendVolume, TrackSendPan and TrackColor dispatches of `handle_packet` (src/lib.rs:276-278): those routes' definitions are not part of this model. `RouteTable` holds the seven routes that are.
- The TrackIndex, TrackSendGuid and TrackColor builders are not part of this model. `IndexMessage`, `SendGuidMessage` and `ColorMessage` build `/track/{g}/index`, `/track/{g}/send/{n}/guid` and `/track/{g}/color`, each with its one argument, following the repository's documented address scheme. Surface.DecimalDigits, Surface.Decimal, Surface.DecimalRoundTrip and Surface.DecimalInjective render the send-index segment for that stand-in; they model no line of the source.
- The mixer's verdict on an attribute write: the core cannot compute it, so it is the parameter `accepts`.
- `get_track_send_info_desttrack(..).unwrap()` (src/lib.rs:183-188): every send in the model has a destination, so the panic for a missing one is not modelled.
- Dispatch.HandlePacket: the source makes ten consecutive `dispatch_route` calls (src/lib.rs:269-278). The first seven (269-275) are modelled as one loop over `RouteTable`, in the same order. The last three are left out, as the TrackSendVolume line above says.
- Surface.ArpadSurface.PublishTrack and Polling.TrackColorPollSource.PollEntry are the bodies of the source's loops, split out as methods. They are not separate functions in the source.
- `ReceiverError::BadValue` and `PollError::Reaper` are declared but never produced by the modelled code, so no member returns them.
- Dispatch.WriteThenQuery and Routes.EncodeApplyCollect presume that the looked-up track carries the GUID written to. Lookup is by text, and distinct GUIDs have distinct texts (`Guids.GuidToStringInjective`).
- Polling.PollCovers, Polling.PollIdempotent and Polling.PollEmitsChanged are stated over entries with distinct identifiers. `Polling.DistinctEntries` supplies that for tracks with distinct GUIDs, which the mixer guarantees and the model does not enforce.
- Polling.PollManager.PollAll: the manager holds `TrackColorPollSource` values rather than `Box<dyn PollSource>` trait objects, because the model has no traits. Its ghost result (each source's outcome) exists only for the contract. A swallowed error is modelled, but its log line is not.
- Polling.PollManager.AddSource requires that the source is not already registered. A boxed source is owned by the manager and cannot be registered twice.
- Lookup.TrackGuid, Guids.GuidToString, Osc.ParseAddress, Routes.Matcher, Dispatch.IsQuery, Dispatch.DispatchEffect, Dispatch.HandleEffect, Surface.TrackListMessages, Polling.Poll and Polling.PollTrack carry no contract of their own. Their meaning is stated by the lemmas their rows name.
- Routes.ApplyOwnMessage, Routes.EncodeApplyCollect and Dispatch.WriteThenQuery require the corrected read for the flag routes. As written, a flag route's own message aborts instead (`Dispatch.OwnFlagMessageAborts`), so that round trip does not hold. See Findings.
- Dispatch.DispatchRoute, Dispatch.HandlePacket and the ArpadSurface methods require `out.open`. This stands for the panic of the unwrapped send (src/lib.rs:135, 158, 175, 198). The panic itself is not modelled.
- Osc.OscType has only the Int, Float, Str and Bool kinds. rosc's Long, Double, Nil, Blob and other kinds are not representable, so the abort the source takes on them as mistyped arguments is not shown.

## Findings

| source | as written | input that shows it | evidently intended | confidence | as-written member | corrected member |
|---|---|---|---|---|---|---|
| src/osc_routes.rs:114 | The receive of the selected, mute, solo and rec-arm routes reads `msg.args[0].int()` (lines 114, 309, 375, 440). Their `build_message` emits `OscType::Bool` (lines 124, 319, 385, 450), and the documented argument is a `bool`. | `/track/{g}/mute` with the single argument `Bool(true)`, which is the route's own message: `.int()` yields `None`, and the `unwrap` panics. | Accept the Bool its own messages carry (true as 1, false as 0), as well as an Int, so that a route's own message writes the value it carries. | not executed | Dispatch.OwnFlagMessageAborts | Dispatch.WriteThenQuery |
