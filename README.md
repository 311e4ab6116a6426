# LocalStream core, modelled in Dafny

LocalStream streams camera video from phones and desktops to viewers on the
same local network. It uses WebRTC for the media and a Socket.IO signaling
server for the handshake. This project models four parts of it and proves
properties about them:

- `bandwidth_manager.dfy` (module `Bandwidth`) models the bandwidth
  allocation engine `BandwidthManager`.
  - Every active streamer gets an equal share of a measured capacity,
    clipped to the ceiling of its quality tier.
  - A new streamer is admitted when the share it would get at head-count + 1
    reaches its tier's floor.
  - The class keeps the capacity and the insertion-ordered streamer map as
    fields. Each method is proved against a pure function (`AllocationOf`,
    `Reallocated`, `Admission`), and the lemmas state what those functions
    guarantee.
- `webrtc_client.dfy` (module `WebRtcClient`) models the client connection
  `WebRTCClient`.
  - The loss-driven adaptive-bitrate controller: one `checkNetworkQuality`
    tick is the pure `AbrTick`, proved to keep the cap between the floor and
    the target.
  - The three-step initial ramp and the ten-step glide to a
    server-commanded target.
  - The target choice of `optimizeForLAN`.
  - The `parseStats` summary of a statistics poll.
  - The LAN filter on outgoing ICE candidates.
  - Every cap handed to the video sender is recorded in `appliedCaps`, and
    every candidate sent is recorded in `sentCandidates`.
- `signaling_server.dfy` (module `Signaling`) models the signaling server's
  stream registry and its handlers:
  - the `streams` map and each socket's session;
  - the `register-streamer`, `register-viewer`, `stats-update` and
    `disconnect` handlers;
  - the `offer`/`answer`/`ice-candidate` relay rewrite.

  Every emitted message is recorded in `emitted`.
- `utils.dfy` (module `Utils`) models the shared formatting helpers:
  `formatDuration`, `formatResolution`, `getQualityColor`, `getBrowser`, and
  the unit choice of `formatBitrate`.
- `assoc.dfy` (module `Assoc`) holds the insertion-ordered map that stands
  for a JavaScript `Map`: a sequence of pairs with distinct keys. Updating a
  key keeps its position and inserting appends, so iteration order is the
  `Map`'s.
- `text.dfy` (module `Text`) holds the decimal rendering of numbers, its
  parser, and `startsWith`/`indexOf`.

## Modelling conventions

- JavaScript numbers are `real` (bitrates, Mbps, times in ms as `int`).
  IEEE-754 rounding is not modelled.
- A falsy default (`x || y`) is modelled with a sentinel: a bitrate of
  `0.0`, or the empty string, stands for an absent or `null` value, as
  JavaScript treats both alike.
- The clock (`Date.now()`, the ISO text of `new Date()`) and the measured
  packet loss are method parameters.
- Where the code and its own comments or naming suggest different things,
  the model follows the code:
  - Congestion steps down only when loss has lasted strictly more than
    3000 ms (`now - highLossStart > 3000`), although the comment above the
    step reads "Sustained loss for 3s". Recovery steps up only when
    strictly more than 5000 ms have passed (`> 5000`), under a comment
    reading "every 5s". See `WebRtcClient.ExactWindowDoesNotStepDown`.
  - `parseStats` computes its `packetLoss` figure under the comment
    "Calculate packet loss percentage", but divides the lost-packet sum by
    itself, so the figure is always 0 or 100. See
    `WebRtcClient.PacketLossIsAllOrNothing`.
  - The ICE filter's `172.` prefix test is wider than the private
    172.16.0.0/12 block of section 3 of RFC 1918. See
    `WebRtcClient.PublicAddressIn172Passes`.

## Model

| member | source | states |
|---|---|---|
| Assoc.Get | bandwidth-manager.js:205-208 | `Map.get`: nothing exactly when the key is absent; otherwise the value stored under it |
| Assoc.Set | bandwidth-manager.js:153-162 | `Map.set`: an existing key is overwritten at its own position with the keys and every other entry unchanged; a new key is appended at the end; keys stay distinct, the key maps to the new value, every other key keeps its value |
| Assoc.Remove | bandwidth-manager.js:169-177 | `Map.delete`: the key is gone, every other key keeps its value, and the remaining entries keep their order: those before the key stay in place, those after it move up by one |
| Assoc.RemoveAfterAppend | bandwidth-manager.js:153-177 | deleting a key that was just appended as new restores the map |
| Assoc.RemoveAfterOverwrite | bandwidth-manager.js:153-177 | deleting a key that was just overwritten gives the same map as deleting it from the original |
| Bandwidth.Share | bandwidth-manager.js:66-70 | clipping in Mbps and converting back is `min(bitrateMax, fairShare × 10^6)`, never above either bound |
| Bandwidth.Allocations | bandwidth-manager.js:59-75 | computes the allocation loop: in iteration order, each streamer with a known tier gets `min(bitrateMax, fairShare × 10^6)` and one with an unknown tier is skipped; its contents are stated by `AllocationsGet`, `AllocationsDistinct` and `AllocationsBounded` |
| Bandwidth.AllocationOf | bandwidth-manager.js:48-78 | computes `calculateAllocation`: empty with no streamers, otherwise `Allocations` at the fair share `total / count`; bounded by `AllocationWithinCapacity`, and returned by `CalculateAllocation` |
| Bandwidth.AllocationsGet | bandwidth-manager.js:57-72 | a streamer with a known tier is allocated its clipped fair share; one with an unknown tier is absent from the result |
| Bandwidth.AllocationsDistinct | bandwidth-manager.js:59-75 | the allocation names each streamer at most once |
| Bandwidth.AllocationsBounded | bandwidth-manager.js:57-70 | at most one entry per streamer and none above the fair share |
| Bandwidth.AllocationWithinCapacity | bandwidth-manager.js:48-78 | the allocation has at most `count` entries, each at most the fair share, and sums to at most the capacity × 10^6 |
| Bandwidth.SharesFit | bandwidth-manager.js:56-72 | any number of streamers up to the total, each at the fair share in bps, fits within the capacity in bps |
| Bandwidth.NoStreamersNoAllocation | bandwidth-manager.js:48-54 | with no streamers the allocation is empty and a reallocation changes nothing |
| Bandwidth.Reallocated | bandwidth-manager.js:183-198 | after a reallocation ids, order, tiers and sockets are unchanged; a streamer with a known tier holds its clipped fair share `Share(tier, total / count)`, and one with an unknown tier keeps its previous bitrate |
| Bandwidth.ReallocatedWithinCapacity | bandwidth-manager.js:183-198 | when every tier is known, the bitrates written back sum to at most the capacity |
| Bandwidth.SumAllocatedSnoc | bandwidth-manager.js:218-219 | the sum of allocated bitrates over one more streamer adds that streamer's bitrate, the step of `getStatus`'s summing loop |
| Bandwidth.ReallocatedIdempotent | bandwidth-manager.js:183-198 | reallocating twice is the same as reallocating once |
| Bandwidth.RemoveTwiceIsRemoveOnce | bandwidth-manager.js:169-177 | after a removal the id is absent and the map stays distinct; removing it again leaves the same streamers |
| Bandwidth.Admission | bandwidth-manager.js:86-144 | an unknown tier is refused with zeros. Otherwise, with `available` the share at head-count + 1 and `required` the floor in Mbps, the streamer is accepted exactly when `min(bitrateMax, share)` reaches `bitrateMin`. On accept it gets that value, within the tier's floor and ceiling; on reject it gets 0 |
| Bandwidth.AdmissionMonotoneInCapacity | bandwidth-manager.js:101-143 | more capacity at the same head-count keeps an accept an accept, with no smaller allocation |
| Bandwidth.ZeroCapacityRejects | bandwidth-manager.js:101-133 | with capacity 0 every tier with a positive floor is rejected |
| Bandwidth.AdmissionPredictsAllocation | bandwidth-manager.js:137-143 | a streamer accepted under a new id and then added is allocated exactly the promised bitrate, as the last entry |
| Bandwidth.AdmissionExampleAccepted | bandwidth-manager.js:101-143 | 10 Mbps and nobody streaming: a 4/6/8 Mbps tier is accepted at its 8 Mbps ceiling |
| Bandwidth.AdmissionExampleRejected | bandwidth-manager.js:101-133 | 5 Mbps and one streamer: the 2.5 Mbps share misses the 4 Mbps floor |
| Bandwidth.BandwidthManager.constructor | bandwidth-manager.js:12-19 | capacity 0, no streamers, the given tier catalog |
| Bandwidth.BandwidthManager.SetTotalBandwidth | bandwidth-manager.js:39-42 | replaces the capacity and nothing else |
| Bandwidth.BandwidthManager.CalculateAllocation | bandwidth-manager.js:48-78 | the loop's result is `AllocationOf` the current state, and no state changes |
| Bandwidth.BandwidthManager.CanAcceptNewStreamer | bandwidth-manager.js:86-144 | the share is computed at head-count + 1; an accepted bitrate lies within the tier's bounds; a rejection allocates 0 |
| Bandwidth.BandwidthManager.AddStreamer | bandwidth-manager.js:153-162 | inserts or overwrites the streamer with bitrate 0, then the map becomes `Reallocated` and the result `AllocationOf` of that map |
| Bandwidth.BandwidthManager.RemoveStreamer | bandwidth-manager.js:169-177 | deletes the id if present and always reallocates; afterwards the id is absent |
| Bandwidth.BandwidthManager.ReallocateBandwidth | bandwidth-manager.js:183-198 | the write-back loop leaves exactly `Reallocated` of the old map and returns the allocation it wrote |
| Bandwidth.WriteBackStep | bandwidth-manager.js:189-194 | writing one more allocation back keeps the keys, their order and their distinctness, and every streamer carries its allocation from the entries written so far, or its old value |
| Bandwidth.WrittenBackIsReallocated | bandwidth-manager.js:183-198 | once every allocation is written back, the map is exactly the reallocated map |
| Bandwidth.BandwidthManager.GetStreamerSocketId | bandwidth-manager.js:205-208 | nothing exactly when the id is not registered; otherwise the socket of that streamer |
| Bandwidth.BandwidthManager.GetStatus | bandwidth-manager.js:214-237 | used = sum of allocated bitrates / 10^6; available = max(0, total − used) ≥ 0; the count and the per-streamer rows in iteration order |
| Bandwidth.BandwidthManager.Reset | bandwidth-manager.js:242-246 | capacity 0 and no streamers |
| WebRtcClient.InitialStateInBand | public/shared/webrtc-client.js:271-283 | the first tick starts the cap at `serverTargetBitrate` or else `maxBitrate`, with the floor at half of it, and in band |
| WebRtcClient.InitialAbrState | public/shared/webrtc-client.js:271-283 | computes the first controller state: cap and target at `serverTargetBitrate` or else `maxBitrate`, floor at half, congestion timer 0, recovery time now; its band is stated by `InitialStateInBand` |
| WebRtcClient.StartState | public/shared/webrtc-client.js:271-283 | computes the state a tick starts from: the existing one, or `InitialAbrState` when there is none |
| WebRtcClient.AbrTick | public/shared/webrtc-client.js:285-324 | computes one tick of the controller, the new state and the cap to apply; stated by `TickStaysInBand`, `TickAdjustsAtMostOnce`, `StepDownAmount`, `StepUpAmount`, `LowLossClearsCongestionTimer`, `FirstHighLossTickOnlyRecords` and `ExactWindowDoesNotStepDown` |
| WebRtcClient.TickStaysInBand | public/shared/webrtc-client.js:286-324 | a tick keeps floor ≤ cap ≤ target and leaves floor and target alone |
| WebRtcClient.TickAdjustsAtMostOnce | public/shared/webrtc-client.js:286-324 | a tick either steps down under high loss, or steps up under low loss, or leaves the cap unchanged, never more than one; the cap applied is the new cap |
| WebRtcClient.StepDownAmount | public/shared/webrtc-client.js:289-302 | a step down is `max(cap × 0.85, floor)` and resets the congestion timer and the recovery time |
| WebRtcClient.StepUpAmount | public/shared/webrtc-client.js:304-323 | a step up happens only after more than 5000 ms and below target, and is `min(cap × 1.2, target)` |
| WebRtcClient.LowLossClearsCongestionTimer | public/shared/webrtc-client.js:304-305 | loss at most 5 always clears the congestion timer |
| WebRtcClient.FirstHighLossTickOnlyRecords | public/shared/webrtc-client.js:286-288 | the first high-loss tick only records its time |
| WebRtcClient.ExactWindowDoesNotStepDown | public/shared/webrtc-client.js:289 | loss lasting exactly 3000 ms does not step down yet |
| WebRtcClient.RunStaysInBand | public/shared/webrtc-client.js:263-325 | over any sequence of loss/time samples the cap stays between floor and target |
| WebRtcClient.SustainedLossStepsDownEachWindow | public/shared/webrtc-client.js:286-302 | each sustained-loss window longer than 3000 ms steps down once more by 0.85 |
| WebRtcClient.InitialRamp | public/shared/webrtc-client.js:352-356 | computes the three ramp caps, 50%, 80% and 100% of the target; stated by `InitialRampRises` |
| WebRtcClient.Glide | public/shared/webrtc-client.js:374-385 | computes the ten glide caps `current + (target − current) / 10 × i` for i = 1..10; stated by `GlideReachesTarget` and `GlidePairOrdered` |
| WebRtcClient.InitialRampRises | public/shared/webrtc-client.js:350-367 | the ramp is three rising caps ending at the target |
| WebRtcClient.GlideReachesTarget | public/shared/webrtc-client.js:373-385 | ten caps moving monotonically from the start toward the target, never leaving that interval, the last equal to the target |
| WebRtcClient.GlidePairOrdered | public/shared/webrtc-client.js:376-384 | any two steps of the glide lie in order between the start and the target: rising when the target is higher, falling when it is lower |
| WebRtcClient.IsLanCandidate | public/shared/webrtc-client.js:40-43 | the LAN filter: `host`, or an address starting `192.168.`, `10.` or `172.`; stated by `PrivateAddressesPass`, `PublicAddressIn172Passes` and `OtherAddressesDropped` |
| WebRtcClient.PrivateAddressesPass | public/shared/webrtc-client.js:40-43 | every address in the private blocks of RFC 1918 passes the LAN filter |
| WebRtcClient.PublicAddressIn172Passes | public/shared/webrtc-client.js:43 | every address 172.b.c.d with `b` outside 16..31 lies outside RFC 1918 and still passes the filter, whatever the candidate type |
| WebRtcClient.OtherAddressesDropped | public/shared/webrtc-client.js:40-43 | the converse of the filter: a candidate that is not `host`, on any dotted address outside 10.x, 172.x and 192.168.x, is dropped |
| WebRtcClient.PacketLossIsAllOrNothing | public/shared/webrtc-client.js:463-467 | the loss figure is 0 when nothing was lost and exactly 100 otherwise |
| WebRtcClient.LastInboundVideo | public/shared/webrtc-client.js:430-443 | an inbound video report of the list that no later inbound video report follows, i.e. the last one; nothing exactly when none is present |
| WebRtcClient.AbsorbReport | public/shared/webrtc-client.js:428-460 | computes one report's effect on the summary and the byte counters, one branch per report type |
| WebRtcClient.AbsorbAll | public/shared/webrtc-client.js:428-461 | folds the reports in order through `AbsorbReport`; stated by `AbsorbAllTakesLastInbound` |
| WebRtcClient.WithPacketLoss | public/shared/webrtc-client.js:463-467 | computes the loss figure as the code writes it; stated by `PacketLossIsAllOrNothing` |
| WebRtcClient.AbsorbAllTakesLastInbound | public/shared/webrtc-client.js:428-460 | the video loss counter and the received-byte counter come from the last inbound video report; audio loss stays 0 |
| WebRtcClient.AbsorbAllTakesLastOutbound | public/shared/webrtc-client.js:446-455 | the sent-bytes counter carried to the next poll is that of the last outbound video report, or the starting counter when there is none |
| WebRtcClient.AbsorbReportBitrate | public/shared/webrtc-client.js:438-453 | a video inbound (outbound) report sets the bitrate to the kbps between the previous and the new received (sent) byte counter, within 0.5 of Δbytes × 8 / 1000, only when both counters are nonzero; otherwise the bitrate is kept, so it stays 0 from the empty summary |
| WebRtcClient.Round | public/shared/webrtc-client.js:440 | `Math.round`: the result is the integer within half a unit of its argument, halves rounding up |
| WebRtcClient.WebRTCClient.constructor | public/shared/webrtc-client.js:14-15 | `maxBitrate` is the configured value or 6,000,000; no server target, no controller state |
| WebRtcClient.WebRTCClient.ApplyBitrateCap | public/shared/webrtc-client.js:330-343 | appends the cap to the caps handed to the sender |
| WebRtcClient.WebRTCClient.OnIceCandidate | public/shared/webrtc-client.js:36-51 | a candidate is sent, to the remote peer, exactly when it is present, the socket exists and it is `host` or its address starts with `192.168.`, `10.` or `172.` |
| WebRtcClient.WebRTCClient.CheckNetworkQuality | public/shared/webrtc-client.js:263-325 | without a local stream nothing changes; otherwise the state becomes `AbrTick` of the existing or freshly created state, and its cap is applied when it changed |
| WebRtcClient.WebRTCClient.ForceInitialBitrate | public/shared/webrtc-client.js:350-367 | applies 50%, 80% and 100% of the target, in that order |
| WebRtcClient.WebRTCClient.SetTargetBitrate | public/shared/webrtc-client.js:373-400 | applies the ten-step glide from the current cap (or `maxBitrate`), then sets `maxBitrate` and the server target to the target. An existing controller state gets cap = target = the target, floor = half of it, recovery time = now, and stays in band |
| WebRtcClient.WebRTCClient.OptimizeForLan | public/shared/webrtc-client.js:100-128 | caps the sender at the server target or else `maxBitrate`, then runs the initial ramp when a server target and a local stream exist |
| WebRtcClient.WebRTCClient.ParseStats | public/shared/webrtc-client.js:415-470 | the loop's result is the reports folded in order from the empty summary, with the byte counters carried to the next poll; the loss figure is 0 or 100. The bitrate and the two counters of that fold are stated by `AbsorbReportBitrate`, `AbsorbAllTakesLastInbound` and `AbsorbAllTakesLastOutbound` |
| Signaling.FirstStreamer | server.js:211-212 | the first socket registered as streamer of the stream, and nothing exactly when there is none |
| Signaling.StreamIdFor | server.js:167 | computes the id: the given one, or `stream-<now>`; stated by `RegisterStreamerDefaults` and `GeneratedIdsDiffer` |
| Signaling.NewStream | server.js:168-180 | computes the stored record; stated by `RegisterStreamerStores` and `RegisterStreamerDefaults` |
| Signaling.AfterRegisterStreamer | server.js:167-182 | computes the map after `streams.set`; stated by `RegisterStreamerStores` and `RegisterStreamerListOrder` |
| Signaling.AfterViewerJoins | server.js:204-206 | computes the map after a viewer joins; stated by `ViewerJoinCountsOne` and `JoinIsOneMore` |
| Signaling.AfterStatsUpdate | server.js:257-263 | computes the map after a stats update; stated by `StatsUpdateMerges` |
| Signaling.AfterDisconnect | server.js:266-281 | computes the map after a disconnect; stated by `DisconnectKeepsInvariant`, `StreamerLeaves` and `ViewerLeaves` |
| Signaling.RegisterStreamerStores | server.js:166-184 | the record is stored under its id with status `active`, 0 viewers, zero bitrate and fps, replacing any record with that id; other ids are untouched; the registry invariant is kept |
| Signaling.RegisterStreamerDefaults | server.js:167-178 | without an id the id is exactly `stream-` followed by the decimal digits of `now`, which read back as `now`; a given id is kept; the default name is `Camera <size + 1>`; the default resolution is `unknown` |
| Signaling.RegisterStreamerListOrder | server.js:166-196 | the `streams-updated` list after a registration: a new id is listed last after the earlier streams in their order; a reused id keeps its position with the new record and the other streams unchanged |
| Signaling.GeneratedIdsDiffer | server.js:167 | ids generated at different times differ |
| Signaling.ViewerJoinCountsOne | server.js:204-223 | a known stream gains exactly one viewer and nothing else changes; an unknown stream leaves the map as it is |
| Signaling.StatsUpdateMerges | server.js:257-263 | the payload is merged over the stream's stats, payload keys winning; without a known stream nothing changes; other entries are untouched |
| Signaling.DisconnectKeepsInvariant | server.js:266-281 | a streamer's stream is deleted; a viewer's stream loses one viewer but never goes below 0; other entries are untouched and `viewers >= 0` is kept |
| Signaling.StreamerLeaves | server.js:271-275 | dropping a streamer's stream leaves no record under its id, touches no other stream and keeps the registry well formed |
| Signaling.ViewerLeaves | server.js:271-277 | a leaving viewer lowers its stream's count by one, never below 0, touches no other stream and keeps the registry well formed |
| Signaling.JoinIsOneMore | server.js:204-206 | a viewer joining a known stream rewrites that one record with one more viewer |
| Signaling.LeaveIsOneFewer | server.js:276-277 | a viewer leaving a stream that has viewers rewrites that one record with one fewer |
| Signaling.ViewerJoinThenLeaveRestores | server.js:199-281 | a viewer that joins and leaves restores the registry exactly |
| Signaling.RegisterThenDisconnectForgets | server.js:166-281 | a streamer that registers and disconnects leaves the registry as if its id had simply been deleted |
| Signaling.RelayRoundTrip | server.js:227-254 | the relay addresses the message to `to`, stamps `from` with the sender and keeps kind and payload |
| Signaling.UnrelayRoundTrip | server.js:227-254 | every delivery is the relay of the message it carries |
| Signaling.Relay | server.js:227-254 | computes the relayed event of `offer`, `answer` and `ice-candidate`; stated by `RelayRoundTrip` |
| Signaling.Unrelay | server.js:227-254 | recovers the incoming message from a delivery, the partner that `RelayRoundTrip` and `UnrelayRoundTrip` tie to `Relay` |
| Signaling.SignalingServer.constructor | server.js:81-101 | no streams, no sockets, nothing emitted |
| Signaling.SignalingServer.Connect | server.js:162-163 | a connecting socket is added with no session |
| Signaling.SignalingServer.RegisterStreamer | server.js:166-196 | stores the record, marks the socket as its streamer, sends `registered` with the viewer URL and broadcasts the stream list |
| Signaling.SignalingServer.RegisterViewer | server.js:199-224 | marks the socket as a viewer; a known stream gains a viewer, the viewer gets the streamer's socket (or `Streamer not found`) and the list is broadcast; an unknown stream gets `Stream not found` |
| Signaling.SignalingServer.StatsUpdate | server.js:257-263 | merges the payload into the caller's stream and broadcasts the list, only when that stream exists |
| Signaling.SignalingServer.Disconnect | server.js:266-281 | applies the streamer/viewer cleanup, broadcasts when the socket had a stream, and forgets the socket |
| Utils.FormatBitratePreservesRate | public/shared/utils.js:20-25 | `Mbps` exactly from 1000 kbps on, `kbps` below; the figure read in its unit is the input rate |
| Utils.FormatBitrate | public/shared/utils.js:20-25 | computes the figure and unit `formatBitrate` renders; stated by `FormatBitratePreservesRate` |
| Utils.SizeKeyInjective | public/shared/utils.js:42 | different sizes give different `WxH` keys |
| Utils.ResolutionLabelKey | public/shared/utils.js:33-40 | each of the six listed sizes' key is in the table with its label |
| Utils.TablesAgree | public/shared/utils.js:33-40 | the string-keyed table and the size-keyed table give each of the six sizes the same label, and the string table has no other key |
| Utils.LabelledKeyIsListed | public/shared/utils.js:33-43 | a size whose `WxH` key is in the table is one of the six listed sizes |
| Utils.FormatResolutionByNumbers | public/shared/utils.js:30-44 | `Unknown` for a missing dimension; the label for exactly the six listed sizes; `WxH` otherwise |
| Utils.FormatResolution | public/shared/utils.js:30-44 | computes the resolution text; stated by `FormatResolutionByNumbers` |
| Utils.DurationParts | public/shared/utils.js:50-52 | computes hours, minutes and seconds with JavaScript's `%` and `Math.floor`; stated by `DurationPartsSplitWholeSeconds` |
| Utils.DurationPartsSplitWholeSeconds | public/shared/utils.js:50-52 | for s ≥ 0: minutes and seconds below 60 and h·3600 + m·60 + sec = ⌊s⌋ |
| Utils.ClockTextRoundTrip | public/shared/utils.js:54-57 | an `h:mm:ss` or `m:ss` reading parses back to the seconds it stands for |
| Utils.ShortClockRoundTrip | public/shared/utils.js:54-57 | below one hour, the `m:ss` text parses back to minutes × 60 + seconds |
| Utils.LongClockRoundTrip | public/shared/utils.js:54-57 | from one hour on, the `h:mm:ss` text parses back to hours × 3600 + minutes × 60 + seconds |
| Utils.FormatDurationRoundTrip | public/shared/utils.js:49-58 | the text of a non-negative duration parses back to its whole seconds |
| Utils.FormatDurationShape | public/shared/utils.js:54-57 | `m:ss` exactly below one hour, `h:mm:ss` from one hour on, with minutes and seconds padded to two digits |
| Utils.FormatDuration | public/shared/utils.js:49-58 | computes the duration text; stated by `FormatDurationRoundTrip` and `FormatDurationShape` |
| Utils.LowerIsBetterMonotone | public/shared/utils.js:63-74 | for latency and packet loss a worse metric never gets a better colour |
| Utils.FrameRateMonotone | public/shared/utils.js:76-80 | for frame rate a lower rate never gets a better colour |
| Utils.QualityThresholds | public/shared/utils.js:63-83 | the green and red bands of each type as if-and-only-ifs; latency is the default type; any other type is grey |
| Utils.GetQualityColor | public/shared/utils.js:63-83 | computes the colour; stated by `QualityThresholds`, `LowerIsBetterMonotone` and `FrameRateMonotone` |
| Utils.GetBrowserIsFirstMatch | public/shared/utils.js:102-112 | `getBrowser` is the first match over the ordered rule list Firefox, Samsung, Opera/OPR, IE, Edge, Chrome, Safari |
| Utils.GetBrowser | public/shared/utils.js:102-112 | computes the browser name; stated by `GetBrowserIsFirstMatch`, `ChromeWinsOverSafari` and `NoMarkerIsUnknown` |
| Utils.FirstMatchStep | public/shared/utils.js:102-112 | trying one rule ahead of others yields its name on a match and the others' answer otherwise |
| Utils.ChromeWinsOverSafari | public/shared/utils.js:104-110 | a user agent carrying `Chrome` and `Safari` and none of the earlier markers (`Firefox`, `SamsungBrowser`, `Opera`/`OPR`, `Trident`, `Edge`) is Chrome |
| Utils.NoMarkerIsUnknown | public/shared/utils.js:111 | a user agent with no marker is `Unknown` |

## Left out

- Logging, the `toFixed` text of bitrates and Mbps figures, and the `toFixed(2)` string that `parseStats` stores as its loss figure. The model keeps the number.
- The `Math.floor` in `applyBitrateCap`: the cap is recorded as computed, so the caps handed to the sender are reals.
- WebRTC and Socket.IO I/O: peer-connection and sender calls, `getStats`, receiver buffering in `optimizeForLAN`, the `setInterval` polling, and the `setTimeout` pauses in the ramp and the glide. These are asynchronous, so interleavings between an in-flight ramp and a controller tick are not modelled. Each method runs to completion. `optimizeForLAN` writes `maxBitrate` on the first encoding of each video sender directly, once per sender and without `applyBitrateCap`'s `Math.floor`. `OptimizeForLan` records that cap once in `appliedCaps`, as `ApplyBitrateCap` does.
- `parseFloat` of the loss figure: `CheckNetworkQuality` takes the loss as a number.
- The tier catalog is looked up by its own keys only. Names inherited from `Object.prototype` (`constructor`, `toString`, …) are treated as unknown tiers. In the source they are truthy, so `canAcceptNewStreamer` would accept such a quality with a `NaN` allocation, and `calculateAllocation` would write `NaN` for it.
- Reading the quality tiers from the configuration file (`loadQualityTiers`): the catalog is a constructor parameter. `canAcceptNewStreamer`'s unused `streamId` argument is dropped.
- The Express routes, HTTPS/HTTP servers, QR codes, mDNS, `getLocalIP` and `startServer`/`stopServer` in `server.js`.
- The bandwidth tester, the browser pages and the Electron shell.
- The other helpers in `utils.js`: `formatBytes`, `getDeviceType`, `debounce`, `throttle`, `generateId`, `showToast`, `checkWebRTCSupport` and `copyToClipboard`.
- IEEE-754 arithmetic: the glide's last step equals the target only in exact arithmetic.
- `stats-update` payloads are a map, so the key order of the merged `stats` object is not modelled.
- The server never creates a `BandwidthManager`, and nothing calls `setTargetBitrate`. Each is modelled as a component on its own.
- Utils.FormatBitratePreservesRate: states the value and unit `formatBitrate` renders, not the rounded digits of `toFixed`.
