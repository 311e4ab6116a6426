/**
 * The client side of a streaming connection (`WebRTCClient`): the
 * loss-driven adaptive-bitrate controller, the initial three-step ramp, the
 * ten-step glide to a server-commanded target, the statistics bookkeeping
 * and the LAN filter on outgoing ICE candidates.
 *
 * Peer-connection calls are abstracted: every bitrate cap handed to the
 * video sender is appended to `appliedCaps`, and every ICE candidate sent
 * to the signaling server is appended to `sentCandidates`. The clock
 * (`now`, in milliseconds) and the measured packet loss are inputs.
 * JavaScript's falsy defaults are kept: a bitrate of 0 stands for an
 * absent one, as `serverTargetBitrate || maxBitrate` treats both alike.
 */
module WebRtcClient {
  import opened Assoc
  import opened Text
  import opened Numbers

  const DefaultMaxBitrate: real := 6000000.0
  /** Packet loss, in percent, above which the link counts as congested. */
  const LossThreshold: real := 5.0
  /** How long loss must persist, in ms, before the cap steps down. */
  const CongestionWindow: int := 3000
  /** How long after the last change, in ms, the cap may step up. */
  const RecoveryInterval: int := 5000
  const StepDownFactor: real := 0.85
  const StepUpFactor: real := 1.2
  /** The congestion floor, as a fraction of the target. */
  const FloorFraction: real := 0.5
  const GlideSteps: nat := 10

  /** `serverTargetBitrate || maxBitrate`. */
  function PreferredTarget(serverTargetBitrate: real, maxBitrate: real): real {
    if serverTargetBitrate != 0.0 then serverTargetBitrate else maxBitrate
  }

  /** The controller state (`abrState`); `highLossStart == 0` means no congestion window is open. */
  datatype AbrState = AbrState(
    highLossStart: int,
    lastRecovery: int,
    currentBitrateCap: real,
    minBitrate: real,
    targetBitrate: real,
    serverTarget: real)

  /** The state created on the first tick: start at the target, floor at half of it. */
  function InitialAbrState(serverTargetBitrate: real, maxBitrate: real, now: int): AbrState {
    var targetBitrate := PreferredTarget(serverTargetBitrate, maxBitrate);
    AbrState(0, now, targetBitrate, targetBitrate * FloorFraction, targetBitrate, serverTargetBitrate)
  }

  /** The state a tick starts from: the existing one, or a fresh one on the first tick. */
  function StartState(abr: Option<AbrState>, serverTargetBitrate: real, maxBitrate: real, now: int): AbrState {
    match abr
    case Some(st) => st
    case None => InitialAbrState(serverTargetBitrate, maxBitrate, now)
  }

  /** One tick's outcome: the new state and the cap handed to the sender, if any. */
  datatype TickResult = TickResult(state: AbrState, applied: Option<real>)

  /** One control-loop tick of `checkNetworkQuality` on an existing state. */
  function AbrTick(st: AbrState, packetLoss: real, now: int): TickResult {
    if packetLoss > LossThreshold then
      if st.highLossStart == 0 then
        TickResult(st.(highLossStart := now), None)
      else if now - st.highLossStart > CongestionWindow then
        var newBitrate := Max(st.currentBitrateCap * StepDownFactor, st.minBitrate);
        if newBitrate < st.currentBitrateCap
        then TickResult(st.(currentBitrateCap := newBitrate, highLossStart := 0, lastRecovery := now), Some(newBitrate))
        else TickResult(st, None)
      else
        TickResult(st, None)
    else
      var cleared := st.(highLossStart := 0);
      var timeSinceRecovery := now - st.lastRecovery;
      var isUnderTarget := st.currentBitrateCap < st.targetBitrate;
      if timeSinceRecovery > RecoveryInterval && isUnderTarget then
        var newBitrate := Min(st.currentBitrateCap * StepUpFactor, st.targetBitrate);
        TickResult(cleared.(currentBitrateCap := newBitrate, lastRecovery := now), Some(newBitrate))
      else
        TickResult(cleared, None)
  }

  /** The cap stays between the floor and the target, and the floor is not negative. */
  ghost predicate InBand(st: AbrState) {
    0.0 <= st.minBitrate <= st.currentBitrateCap <= st.targetBitrate
  }

  /** The first tick's state is in band for any non-negative target. */
  lemma InitialStateInBand(serverTargetBitrate: real, maxBitrate: real, now: int)
    requires PreferredTarget(serverTargetBitrate, maxBitrate) >= 0.0
    ensures InBand(InitialAbrState(serverTargetBitrate, maxBitrate, now))
    ensures InitialAbrState(serverTargetBitrate, maxBitrate, now).currentBitrateCap
         == PreferredTarget(serverTargetBitrate, maxBitrate)
  {
  }

  /**
   * A tick never takes the cap below the floor nor above the target, and
   * leaves the floor and the target themselves alone.
   */
  lemma TickStaysInBand(st: AbrState, packetLoss: real, now: int)
    requires InBand(st)
    ensures var next := AbrTick(st, packetLoss, now).state;
      && InBand(next)
      && next.minBitrate == st.minBitrate
      && next.targetBitrate == st.targetBitrate
  {
  }

  /**
   * A tick adjusts the cap at most once: either it steps down (high loss,
   * strictly lower cap) or it steps up (low loss, strictly higher cap), and
   * the cap applied is the new cap; otherwise the cap is unchanged.
   */
  lemma TickAdjustsAtMostOnce(st: AbrState, packetLoss: real, now: int)
    requires st.currentBitrateCap > 0.0
    ensures var t := AbrTick(st, packetLoss, now);
      && (t.applied.None? ==> t.state.currentBitrateCap == st.currentBitrateCap)
      && (t.applied.Some? ==> t.applied.value == t.state.currentBitrateCap)
      && (t.applied.Some? ==> (
            (packetLoss > LossThreshold && t.applied.value < st.currentBitrateCap) !=
            (packetLoss <= LossThreshold && t.applied.value > st.currentBitrateCap)))
  {
  }

  /** A step down multiplies by 0.85, clamped at the floor. */
  lemma StepDownAmount(st: AbrState, packetLoss: real, now: int)
    requires AbrTick(st, packetLoss, now).applied.Some?
    requires packetLoss > LossThreshold
    ensures AbrTick(st, packetLoss, now).state.currentBitrateCap
         == Max(st.currentBitrateCap * StepDownFactor, st.minBitrate)
    ensures AbrTick(st, packetLoss, now).state.highLossStart == 0
    ensures AbrTick(st, packetLoss, now).state.lastRecovery == now
  {
  }

  /** A step up multiplies by 1.2, capped at the target, and only after 5 s without a change. */
  lemma StepUpAmount(st: AbrState, packetLoss: real, now: int)
    requires AbrTick(st, packetLoss, now).applied.Some?
    requires packetLoss <= LossThreshold
    ensures now - st.lastRecovery > RecoveryInterval && st.currentBitrateCap < st.targetBitrate
    ensures AbrTick(st, packetLoss, now).state.currentBitrateCap
         == Min(st.currentBitrateCap * StepUpFactor, st.targetBitrate)
  {
  }

  /** Low loss always closes the congestion window. */
  lemma LowLossClearsCongestionTimer(st: AbrState, packetLoss: real, now: int)
    requires packetLoss <= LossThreshold
    ensures AbrTick(st, packetLoss, now).state.highLossStart == 0
  {
  }

  /** The first high-loss tick only opens the congestion window. */
  lemma FirstHighLossTickOnlyRecords(st: AbrState, packetLoss: real, now: int)
    requires packetLoss > LossThreshold && st.highLossStart == 0
    ensures AbrTick(st, packetLoss, now) == TickResult(st.(highLossStart := now), None)
  {
  }

  /** Loss that has lasted exactly 3000 ms does not yet step down: the window must be exceeded. */
  lemma ExactWindowDoesNotStepDown(st: AbrState, packetLoss: real)
    requires packetLoss > LossThreshold && st.highLossStart != 0
    ensures AbrTick(st, packetLoss, st.highLossStart + CongestionWindow) == TickResult(st, None)
  {
  }

  /** Feeds a sequence of (packet loss, time) samples through the controller. */
  function RunTicks(st: AbrState, samples: seq<(real, int)>): AbrState
    decreases |samples|
  {
    if samples == [] then st
    else RunTicks(AbrTick(st, samples[0].0, samples[0].1).state, samples[1..])
  }

  /**
   * However the loss and the clock evolve, the cap stays between the floor
   * and the target: recovery never overshoots, congestion never undershoots.
   */
  lemma {:induction false} RunStaysInBand(st: AbrState, samples: seq<(real, int)>)
    requires InBand(st)
    ensures InBand(RunTicks(st, samples))
    ensures RunTicks(st, samples).minBitrate == st.minBitrate
    ensures RunTicks(st, samples).targetBitrate == st.targetBitrate
    decreases |samples|
  {
    if samples != [] {
      TickStaysInBand(st, samples[0].0, samples[0].1);
      RunStaysInBand(AbrTick(st, samples[0].0, samples[0].1).state, samples[1..]);
    }
  }

  /**
   * Sustained loss steps down once per window: loss seen at `t0` and again
   * more than 3000 ms later steps the cap down and closes the window, and a
   * second window of the same length steps it down again.
   */
  lemma SustainedLossStepsDownEachWindow(st: AbrState, loss: real, t0: int, t1: int, t2: int, t3: int)
    requires loss > LossThreshold && st.highLossStart == 0 && t0 != 0 && t2 != 0
    requires st.currentBitrateCap > 0.0 && st.minBitrate < st.currentBitrateCap * StepDownFactor * StepDownFactor
    requires t1 - t0 > CongestionWindow && t3 - t2 > CongestionWindow
    ensures var s1 := AbrTick(st, loss, t0).state;
      var s2 := AbrTick(s1, loss, t1).state;
      var s3 := AbrTick(s2, loss, t2).state;
      var s4 := AbrTick(s3, loss, t3).state;
      && s2.currentBitrateCap == st.currentBitrateCap * StepDownFactor
      && s2.highLossStart == 0
      && s4.currentBitrateCap == st.currentBitrateCap * StepDownFactor * StepDownFactor
  {
  }

  /** The three caps of the initial ramp: 50%, 80% and 100% of the target. */
  function InitialRamp(targetBitrate: real): seq<real> {
    [targetBitrate * 0.5, targetBitrate * 0.8, targetBitrate]
  }

  /** The ten caps of the glide from `current` to `target`, in equal steps. */
  function Glide(current: real, target: real): seq<real> {
    seq(GlideSteps, i requires 0 <= i < GlideSteps => current + (target - current) / GlideSteps as real * (i + 1) as real)
  }

  /** The ramp rises monotonically and ends exactly at the target. */
  lemma InitialRampRises(targetBitrate: real)
    requires targetBitrate >= 0.0
    ensures |InitialRamp(targetBitrate)| == 3 && InitialRamp(targetBitrate)[2] == targetBitrate
    ensures forall i, j :: 0 <= i < j < 3 ==> InitialRamp(targetBitrate)[i] <= InitialRamp(targetBitrate)[j]
  {
  }

  /** The `i`-th cap of the glide is the start plus `i + 1` equal steps. */
  lemma GlideAt(current: real, target: real, i: nat)
    requires i < GlideSteps
    ensures Glide(current, target)[i] == current + (target - current) / 10.0 * (i + 1) as real
  {
  }

  /** A non-negative multiple of a step has the step's sign. */
  lemma ScaledSign(step: real, k: real)
    requires k >= 0.0
    ensures step >= 0.0 ==> step * k >= 0.0
    ensures step <= 0.0 ==> step * k <= 0.0
  {
  }

  /** Two caps of the glide, the earlier one first, lie in order between start and target. */
  lemma GlidePairOrdered(current: real, target: real, i: nat, j: nat)
    requires i < j < GlideSteps
    ensures current <= target ==> current <= Glide(current, target)[i] <= Glide(current, target)[j] <= target
    ensures target <= current ==> target <= Glide(current, target)[j] <= Glide(current, target)[i] <= current
  {
    var step := (target - current) / 10.0;
    var a := (i + 1) as real;
    var b := (j + 1) as real;
    GlideAt(current, target, i);
    GlideAt(current, target, j);
    assert Glide(current, target)[j] - Glide(current, target)[i] == step * (b - a);
    assert target - Glide(current, target)[j] == step * (10.0 - b);
    ScaledSign(step, a);
    ScaledSign(step, b - a);
    ScaledSign(step, 10.0 - b);
  }

  /**
   * The glide ends exactly at the target and moves monotonically toward
   * it, never leaving the interval between start and target.
   */
  lemma GlideReachesTarget(current: real, target: real)
    ensures |Glide(current, target)| == GlideSteps
    ensures Glide(current, target)[GlideSteps - 1] == target
    ensures current <= target ==> forall i, j :: 0 <= i < j < GlideSteps ==>
      current <= Glide(current, target)[i] <= Glide(current, target)[j] <= target
    ensures target <= current ==> forall i, j :: 0 <= i < j < GlideSteps ==>
      target <= Glide(current, target)[j] <= Glide(current, target)[i] <= current
  {
    GlideAt(current, target, GlideSteps - 1);
    forall i, j | 0 <= i < j < GlideSteps
      ensures current <= target ==> current <= Glide(current, target)[i] <= Glide(current, target)[j] <= target
      ensures target <= current ==> target <= Glide(current, target)[j] <= Glide(current, target)[i] <= current
    {
      GlidePairOrdered(current, target, i, j);
    }
  }

  /** An ICE candidate as the browser reports it; `address` may be missing. */
  datatype Candidate = Candidate(candidateType: string, address: Option<string>)

  /** The `ice-candidate` message sent to the signaling server. */
  datatype IceMessage = IceMessage(to: string, candidate: Candidate)

  /** The LAN filter: host candidates, or addresses starting `192.168.`, `10.` or `172.`. */
  predicate IsLanCandidate(c: Candidate) {
    || c.candidateType == "host"
    || (c.address.Some? && StartsWith(c.address.value, "192.168."))
    || (c.address.Some? && StartsWith(c.address.value, "10."))
    || (c.address.Some? && StartsWith(c.address.value, "172."))
  }

  /** The dotted-quad text of an IPv4 address. */
  function Dotted(a: nat, b: nat, c: nat, d: nat): string {
    NatToString(a) + "." + NatToString(b) + "." + NatToString(c) + "." + NatToString(d)
  }

  /** The private blocks of section 3 of RFC 1918. */
  predicate IsRfc1918(a: nat, b: nat) {
    a == 10 || (a == 172 && 16 <= b <= 31) || (a == 192 && b == 168)
  }

  lemma TenDotPrefix(b: nat, c: nat, d: nat)
    ensures StartsWith(Dotted(10, b, c, d), "10.")
  {
    assert NatToString(10) == "10";
    assert Dotted(10, b, c, d)[..3] == "10.";
  }

  lemma OneSevenTwoDotPrefix(b: nat, c: nat, d: nat)
    ensures StartsWith(Dotted(172, b, c, d), "172.")
  {
    assert NatToString(172) == "172";
    assert Dotted(172, b, c, d)[..4] == "172.";
  }

  lemma OneNineTwoDotPrefix(c: nat, d: nat)
    ensures StartsWith(Dotted(192, 168, c, d), "192.168.")
  {
    assert NatToString(192) == "192";
    assert NatToString(168) == "168";
    assert Dotted(192, 168, c, d)[..8] == "192.168.";
  }

  /** Every private (RFC 1918) address passes the filter, whatever the candidate type. */
  lemma PrivateAddressesPass(candidateType: string, a: nat, b: nat, c: nat, d: nat)
    requires IsRfc1918(a, b)
    ensures IsLanCandidate(Candidate(candidateType, Some(Dotted(a, b, c, d))))
  {
    if a == 10 {
      TenDotPrefix(b, c, d);
    } else if a == 172 {
      OneSevenTwoDotPrefix(b, c, d);
    } else {
      OneNineTwoDotPrefix(c, d);
    }
  }

  /**
   * The `172.` test is wider than the private 172.16.0.0/12 block: every
   * address 172.b.c.d with `b` outside 16..31 is public, and passes the
   * filter whatever the candidate type.
   */
  lemma PublicAddressIn172Passes(candidateType: string, b: nat, c: nat, d: nat)
    requires b < 16 || b > 31
    ensures !IsRfc1918(172, b)
    ensures IsLanCandidate(Candidate(candidateType, Some(Dotted(172, b, c, d))))
  {
    OneSevenTwoDotPrefix(b, c, d);
  }

  /** A dotted address starting with the digits `p` and a dot has `p` as its whole first field. */
  lemma LeadingField(n: nat, rest: string, p: string)
    requires 1 <= |p| && AllDigits(p)
    requires StartsWith(NatToString(n) + "." + rest, p + ".")
    ensures NatToString(n) == p
  {
    var t := NatToString(n);
    var s := t + "." + rest;
    assert s[..|p| + 1] == p + ".";
    assert s[|t|] == '.' && s[|p|] == '.';
    assert |t| == |p|;
    assert s[..|p|] == t;
  }

  /** A field holding a different number does not start with that number and a dot. */
  lemma OtherLeadingField(n: nat, rest: string, m: nat)
    requires n != m
    ensures !StartsWith(NatToString(n) + "." + rest, NatToString(m) + ".")
  {
    if StartsWith(NatToString(n) + "." + rest, NatToString(m) + ".") {
      LeadingField(n, rest, NatToString(m));
      NatToStringInjective(n, m);
    }
  }

  /** A text whose first field is not `192` does not start with `192.168.`. */
  lemma FirstFieldNot192(s: string)
    requires !StartsWith(s, "192.")
    ensures !StartsWith(s, "192.168.")
  {
    if |s| >= 8 {
      assert s[..8][..4] == s[..4];
    }
  }

  /** A text `192.` followed by something not starting with `168.` does not start with `192.168.`. */
  lemma SecondFieldNot168(s: string, rest: string)
    requires s == "192." + rest && !StartsWith(rest, "168.")
    ensures !StartsWith(s, "192.168.")
  {
    if |rest| >= 4 {
      assert s[..8] == "192." + rest[..4];
      assert ("192." + rest[..4])[4..] == rest[..4];
    }
  }

  /** An address is its first field, a dot, and the rest of the address. */
  lemma DottedFields(a: nat, b: nat, c: nat, d: nat)
    ensures Dotted(a, b, c, d) == NatToString(a) + "." + (NatToString(b) + "." + (NatToString(c) + "." + NatToString(d)))
  {
  }

  /** The renderings of the numbers the filter's prefixes are made of. */
  lemma PrefixNumbers()
    ensures NatToString(10) == "10" && NatToString(172) == "172"
    ensures NatToString(192) == "192" && NatToString(168) == "168"
  {
  }

  /** An address outside 192.168.x does not start with `192.168.`. */
  lemma Not192Dot168Prefix(a: nat, b: nat, c: nat, d: nat)
    requires !(a == 192 && b == 168)
    ensures !StartsWith(Dotted(a, b, c, d), "192.168.")
  {
    var tail := NatToString(c) + "." + NatToString(d);
    var rest := NatToString(b) + "." + tail;
    DottedFields(a, b, c, d);
    PrefixNumbers();
    if a != 192 {
      OtherLeadingField(a, rest, 192);
      FirstFieldNot192(Dotted(a, b, c, d));
    } else {
      OtherLeadingField(b, tail, 168);
      SecondFieldNot168(Dotted(a, b, c, d), rest);
    }
  }

  /**
   * The converse of the prefix filter: a candidate that is not a host
   * candidate, on an address outside 10.x, 172.x and 192.168.x, is dropped.
   */
  lemma OtherAddressesDropped(candidateType: string, a: nat, b: nat, c: nat, d: nat)
    requires candidateType != "host"
    requires a != 10 && a != 172 && !(a == 192 && b == 168)
    ensures !IsLanCandidate(Candidate(candidateType, Some(Dotted(a, b, c, d))))
  {
    var rest := NatToString(b) + "." + (NatToString(c) + "." + NatToString(d));
    DottedFields(a, b, c, d);
    PrefixNumbers();
    OtherLeadingField(a, rest, 10);
    OtherLeadingField(a, rest, 172);
    Not192Dot168Prefix(a, b, c, d);
  }

  /** Which report `parseStats` is looking at; fields the browser leaves out are 0 or "". */
  datatype MediaKind = Video | Audio
  datatype Report =
    | InboundRtp(kind: MediaKind, packetsLost: int, framesPerSecond: real, frameWidth: int, frameHeight: int,
                 framesDropped: int, framesDecoded: int, bytesReceived: int)
    | OutboundRtp(kind: MediaKind, framesPerSecond: real, qualityLimitationReason: string, bytesSent: int)
    | CandidatePair(succeeded: bool, currentRoundTripTime: real)
    | OtherReport

  datatype VideoStats = VideoStats(
    bitrate: int, fps: real, width: int, height: int,
    packetsLost: int, framesDropped: int, framesDecoded: int, qualityLimitation: string)

  /** The summary `parseStats` returns; bitrate in kbps, rtt in ms, packet loss in percent. */
  datatype ParsedStats = ParsedStats(
    video: VideoStats, audioBitrate: int, audioPacketsLost: int, rtt: real, packetLoss: real)

  const EmptyStats: ParsedStats :=
    ParsedStats(VideoStats(0, 0.0, 0, 0, 0, 0, 0, "none"), 0, 0, 0.0, 0.0)

  /** `Math.round`: halves round up. */
  function Round(x: real): (r: int)
    ensures r as real - 0.5 <= x < r as real + 0.5
  {
    (x + 0.5).Floor
  }

  /** The kbps figure from two byte counters taken one poll apart. */
  function KbpsBetween(previous: int, current: int): int {
    Round((current - previous) as real * 8.0 / 1000.0)
  }

  /** The running result of `parseStats` and the two byte counters it keeps between polls. */
  datatype ParseState = ParseState(result: ParsedStats, lastBytesReceived: int, lastBytesSent: int)

  /** What one report does to the running result. */
  function AbsorbReport(ps: ParseState, report: Report): ParseState {
    match report
    case InboundRtp(kind, lost, fps, w, h, dropped, decoded, bytesReceived) =>
      if kind != Video then ps
      else
        var v := ps.result.video.(packetsLost := lost, fps := fps, width := w, height := h,
                                  framesDropped := dropped, framesDecoded := decoded);
        var v' := if bytesReceived != 0 && ps.lastBytesReceived != 0
                  then v.(bitrate := KbpsBetween(ps.lastBytesReceived, bytesReceived)) else v;
        ParseState(ps.result.(video := v'), bytesReceived, ps.lastBytesSent)
    case OutboundRtp(kind, fps, reason, bytesSent) =>
      if kind != Video then ps
      else
        var v := ps.result.video.(fps := fps, qualityLimitation := if reason != "" then reason else "none");
        var v' := if bytesSent != 0 && ps.lastBytesSent != 0
                  then v.(bitrate := KbpsBetween(ps.lastBytesSent, bytesSent)) else v;
        ParseState(ps.result.(video := v'), ps.lastBytesReceived, bytesSent)
    case CandidatePair(succeeded, roundTrip) =>
      if succeeded then ps.(result := ps.result.(rtt := roundTrip * 1000.0)) else ps
    case OtherReport => ps
  }

  /** The reports folded in order. */
  function AbsorbAll(ps: ParseState, reports: seq<Report>): ParseState {
    if reports == [] then ps else AbsorbReport(AbsorbAll(ps, reports[..|reports| - 1]), reports[|reports| - 1])
  }

  /**
   * The video bitrate one report leaves behind: a video RTP report sets it to
   * the kbps between the previous and the new byte counter, rounded to the
   * nearest integer, only when both counters are nonzero; every other report
   * and every other case keeps the bitrate as it was.
   */
  lemma AbsorbReportBitrate(ps: ParseState, report: Report)
    ensures var bitrate := AbsorbReport(ps, report).result.video.bitrate;
      if report.InboundRtp? && report.kind == Video && report.bytesReceived != 0 && ps.lastBytesReceived != 0 then
        && bitrate == KbpsBetween(ps.lastBytesReceived, report.bytesReceived)
        && bitrate as real - 0.5 <= (report.bytesReceived - ps.lastBytesReceived) as real * 8.0 / 1000.0 < bitrate as real + 0.5
      else if report.OutboundRtp? && report.kind == Video && report.bytesSent != 0 && ps.lastBytesSent != 0 then
        && bitrate == KbpsBetween(ps.lastBytesSent, report.bytesSent)
        && bitrate as real - 0.5 <= (report.bytesSent - ps.lastBytesSent) as real * 8.0 / 1000.0 < bitrate as real + 0.5
      else
        bitrate == ps.result.video.bitrate
  {
  }

  /** The packet-loss figure as `parseStats` computes it: lost packets over lost packets. */
  function WithPacketLoss(stats: ParsedStats): ParsedStats {
    var totalPackets := stats.video.packetsLost + stats.audioPacketsLost;
    if totalPackets > 0
    then stats.(packetLoss := (stats.video.packetsLost + stats.audioPacketsLost) as real / totalPackets as real * 100.0)
    else stats
  }

  /**
   * The reported packet loss is 0 when no packet was lost and exactly 100
   * otherwise, because the numerator and the denominator are the same sum.
   */
  lemma PacketLossIsAllOrNothing(stats: ParsedStats)
    requires stats.packetLoss == 0.0
    ensures WithPacketLoss(stats).packetLoss ==
      if stats.video.packetsLost + stats.audioPacketsLost > 0 then 100.0 else 0.0
  {
  }

  /** No report after position `i` is an inbound video report. */
  predicate LaterNotInboundVideo(reports: seq<Report>, i: nat) {
    forall j :: i < j < |reports| ==> !(reports[j].InboundRtp? && reports[j].kind == Video)
  }

  /** The last inbound video report among `reports`, if any. */
  function LastInboundVideo(reports: seq<Report>): (r: Option<Report>)
    ensures r.Some? ==> r.value.InboundRtp? && r.value.kind == Video
    ensures r.Some? ==> exists i :: 0 <= i < |reports| && reports[i] == r.value && LaterNotInboundVideo(reports, i)
    ensures r.None? <==> forall i :: 0 <= i < |reports| ==> !(reports[i].InboundRtp? && reports[i].kind == Video)
  {
    if reports == [] then None
    else if reports[|reports| - 1].InboundRtp? && reports[|reports| - 1].kind == Video then Some(reports[|reports| - 1])
    else LastInboundVideo(reports[..|reports| - 1])
  }

  /**
   * The video loss counter and the received-bytes counter come from the
   * last inbound video report; audio never contributes to the loss count.
   */
  lemma {:induction false} AbsorbAllTakesLastInbound(ps: ParseState, reports: seq<Report>)
    ensures var out := AbsorbAll(ps, reports);
      && out.result.audioPacketsLost == ps.result.audioPacketsLost
      && out.result.packetLoss == ps.result.packetLoss
      && match LastInboundVideo(reports)
         case None =>
           out.result.video.packetsLost == ps.result.video.packetsLost && out.lastBytesReceived == ps.lastBytesReceived
         case Some(r) =>
           out.result.video.packetsLost == r.packetsLost && out.lastBytesReceived == r.bytesReceived
  {
    if reports != [] {
      AbsorbAllTakesLastInbound(ps, reports[..|reports| - 1]);
    }
  }

  /** No report after position `i` is an outbound video report. */
  predicate LaterNotOutboundVideo(reports: seq<Report>, i: nat) {
    forall j :: i < j < |reports| ==> !(reports[j].OutboundRtp? && reports[j].kind == Video)
  }

  /**
   * The sent-bytes counter carried to the next poll comes from the last
   * outbound video report; with none, it is the counter the poll started with.
   */
  lemma {:induction false} AbsorbAllTakesLastOutbound(ps: ParseState, reports: seq<Report>)
    ensures forall i :: 0 <= i < |reports| && reports[i].OutboundRtp? && reports[i].kind == Video && LaterNotOutboundVideo(reports, i) ==>
      AbsorbAll(ps, reports).lastBytesSent == reports[i].bytesSent
    ensures (forall i :: 0 <= i < |reports| ==> !(reports[i].OutboundRtp? && reports[i].kind == Video)) ==>
      AbsorbAll(ps, reports).lastBytesSent == ps.lastBytesSent
  {
    if reports != [] {
      var n := |reports| - 1;
      AbsorbAllTakesLastOutbound(ps, reports[..n]);
      forall i | 0 <= i < n && reports[i].OutboundRtp? && reports[i].kind == Video && LaterNotOutboundVideo(reports, i)
        ensures AbsorbAll(ps, reports).lastBytesSent == reports[i].bytesSent
      {
        assert reports[..n][i] == reports[i];
        assert LaterNotOutboundVideo(reports[..n], i);
      }
    }
  }

  class WebRTCClient {
    /** Whether a camera stream is attached (only the sender runs the controller). */
    var hasLocalStream: bool
    /** Whether the signaling socket is set. */
    var hasSocket: bool
    var remotePeerId: string
    var maxBitrate: real
    var serverTargetBitrate: real
    var abrState: Option<AbrState>
    var lastBytesReceived: int
    var lastBytesSent: int
    /** Every cap handed to the video sender, oldest first. */
    var appliedCaps: seq<real>
    /** Every `ice-candidate` message sent, oldest first. */
    var sentCandidates: seq<IceMessage>

    constructor (configMaxBitrate: real)
      ensures maxBitrate == (if configMaxBitrate != 0.0 then configMaxBitrate else DefaultMaxBitrate)
      ensures serverTargetBitrate == 0.0 && abrState == None
      ensures !hasLocalStream && !hasSocket && remotePeerId == ""
      ensures lastBytesReceived == 0 && lastBytesSent == 0
      ensures appliedCaps == [] && sentCandidates == []
    {
      hasLocalStream := false;
      hasSocket := false;
      remotePeerId := "";
      maxBitrate := if configMaxBitrate != 0.0 then configMaxBitrate else DefaultMaxBitrate;
      serverTargetBitrate := 0.0;
      abrState := None;
      lastBytesReceived := 0;
      lastBytesSent := 0;
      appliedCaps := [];
      sentCandidates := [];
    }

    /** Hands a cap to the video sender (`applyBitrateCap`). */
    method ApplyBitrateCap(bitrate: real)
      modifies this`appliedCaps
      ensures appliedCaps == old(appliedCaps) + [bitrate]
    {
      appliedCaps := appliedCaps + [bitrate];
    }

    /** The `onicecandidate` handler: only LAN candidates are sent on. */
    method OnIceCandidate(candidate: Option<Candidate>)
      modifies this`sentCandidates
      ensures sentCandidates == old(sentCandidates) +
        if candidate.Some? && hasSocket && IsLanCandidate(candidate.value)
        then [IceMessage(remotePeerId, candidate.value)] else []
    {
      if candidate.Some? && hasSocket {
        var c := candidate.value;
        if c.candidateType == "host"
          || (c.address.Some? && StartsWith(c.address.value, "192.168."))
          || (c.address.Some? && StartsWith(c.address.value, "10."))
          || (c.address.Some? && StartsWith(c.address.value, "172."))
        {
          sentCandidates := sentCandidates + [IceMessage(remotePeerId, c)];
        }
      }
    }

    /** One tick of the adaptive-bitrate controller (`checkNetworkQuality`). */
    method CheckNetworkQuality(packetLoss: real, now: int)
      modifies this`abrState, this`appliedCaps
      ensures !hasLocalStream ==> abrState == old(abrState) && appliedCaps == old(appliedCaps)
      ensures hasLocalStream ==>
        var t := AbrTick(StartState(old(abrState), serverTargetBitrate, maxBitrate, now), packetLoss, now);
        && abrState == Some(t.state)
        && appliedCaps == old(appliedCaps) + (if t.applied.Some? then [t.applied.value] else [])
    {
      if !hasLocalStream {
        return;
      }
      if abrState.None? {
        var targetBitrate := if serverTargetBitrate != 0.0 then serverTargetBitrate else maxBitrate;
        abrState := Some(AbrState(0, now, targetBitrate, targetBitrate * FloorFraction, targetBitrate, serverTargetBitrate));
      }
      var st := abrState.value;
      if packetLoss > LossThreshold {
        if st.highLossStart == 0 {
          abrState := Some(st.(highLossStart := now));
        } else if now - st.highLossStart > CongestionWindow {
          var newBitrate := Max(st.currentBitrateCap * StepDownFactor, st.minBitrate);
          if newBitrate < st.currentBitrateCap {
            abrState := Some(st.(currentBitrateCap := newBitrate, highLossStart := 0, lastRecovery := now));
            ApplyBitrateCap(newBitrate);
          }
        }
      } else {
        st := st.(highLossStart := 0);
        abrState := Some(st);
        var timeSinceRecovery := now - st.lastRecovery;
        var isUnderTarget := st.currentBitrateCap < st.targetBitrate;
        if timeSinceRecovery > RecoveryInterval && isUnderTarget {
          var newBitrate := Min(st.currentBitrateCap * StepUpFactor, st.targetBitrate);
          abrState := Some(st.(currentBitrateCap := newBitrate, lastRecovery := now));
          ApplyBitrateCap(newBitrate);
        }
      }
    }

    /** The quick start: caps at 50%, 80% and 100% of the target, in that order. */
    method ForceInitialBitrate(targetBitrate: real)
      modifies this`appliedCaps
      ensures appliedCaps == old(appliedCaps) + InitialRamp(targetBitrate)
    {
      var steps := [targetBitrate * 0.5, targetBitrate * 0.8, targetBitrate];
      for i := 0 to |steps|
        invariant appliedCaps == old(appliedCaps) + steps[..i]
      {
        ApplyBitrateCap(steps[i]);
        assert steps[..i + 1] == steps[..i] + [steps[i]];
      }
      assert steps[..|steps|] == steps;
    }

    /** Where a glide starts: `abrState?.currentBitrateCap || maxBitrate`. */
    function GlideStart(): real
      reads this
    {
      if abrState.Some? && abrState.value.currentBitrateCap != 0.0 then abrState.value.currentBitrateCap else maxBitrate
    }

    /**
     * A server-commanded target (`setTargetBitrate`): glide there in ten
     * equal steps, then adopt it as the maximum, the server target and, when
     * the controller runs, its cap, target and floor (half the target),
     * restarting the recovery timer at `now`.
     */
    method SetTargetBitrate(targetBitrate: real, now: int)
      modifies this`appliedCaps, this`maxBitrate, this`serverTargetBitrate, this`abrState
      ensures appliedCaps == old(appliedCaps) + Glide(old(GlideStart()), targetBitrate)
      ensures maxBitrate == targetBitrate && serverTargetBitrate == targetBitrate
      ensures old(abrState).None? ==> abrState.None?
      ensures old(abrState).Some? ==> abrState == Some(old(abrState).value.(
        currentBitrateCap := targetBitrate, targetBitrate := targetBitrate,
        minBitrate := targetBitrate * FloorFraction, serverTarget := targetBitrate, lastRecovery := now))
      ensures targetBitrate >= 0.0 && abrState.Some? ==> InBand(abrState.value)
    {
      var currentBitrate := GlideStart();
      var steps := GlideSteps;
      var stepSize := (targetBitrate - currentBitrate) / steps as real;
      ghost var glide := Glide(currentBitrate, targetBitrate);
      for i := 1 to steps + 1
        invariant appliedCaps == old(appliedCaps) + glide[..i - 1]
        invariant abrState == old(abrState)
      {
        var newBitrate := currentBitrate + stepSize * i as real;
        assert glide[i - 1] == newBitrate;
        ApplyBitrateCap(newBitrate);
        assert glide[..i] == glide[..i - 1] + [newBitrate];
      }
      assert glide[..steps] == glide;
      maxBitrate := targetBitrate;
      serverTargetBitrate := targetBitrate;
      if abrState.Some? {
        abrState := Some(abrState.value.(
          currentBitrateCap := targetBitrate, targetBitrate := targetBitrate,
          minBitrate := targetBitrate * FloorFraction, serverTarget := targetBitrate, lastRecovery := now));
      }
    }

    /**
     * The bitrate part of `optimizeForLAN`: cap the sender at the preferred
     * target, then run the quick ramp when a server target is known and a
     * camera stream is attached.
     */
    method OptimizeForLan()
      modifies this`appliedCaps
      ensures appliedCaps == old(appliedCaps) + [PreferredTarget(serverTargetBitrate, maxBitrate)] +
        if serverTargetBitrate != 0.0 && hasLocalStream then InitialRamp(serverTargetBitrate) else []
    {
      var targetBitrate := if serverTargetBitrate != 0.0 then serverTargetBitrate else maxBitrate;
      ApplyBitrateCap(targetBitrate);
      if serverTargetBitrate != 0.0 && hasLocalStream {
        ForceInitialBitrate(serverTargetBitrate);
      }
    }

    /**
     * Summarises one poll's reports (`parseStats`) and carries the byte
     * counters over to the next poll.
     */
    method ParseStats(reports: seq<Report>) returns (result: ParsedStats)
      modifies this`lastBytesReceived, this`lastBytesSent
      ensures var out := AbsorbAll(ParseState(EmptyStats, old(lastBytesReceived), old(lastBytesSent)), reports);
        && result == WithPacketLoss(out.result)
        && lastBytesReceived == out.lastBytesReceived
        && lastBytesSent == out.lastBytesSent
      ensures result.packetLoss == 0.0 || result.packetLoss == 100.0
    {
      ghost var start := ParseState(EmptyStats, lastBytesReceived, lastBytesSent);
      result := EmptyStats;
      for i := 0 to |reports|
        invariant ParseState(result, lastBytesReceived, lastBytesSent) == AbsorbAll(start, reports[..i])
      {
        assert reports[..i + 1][..i] == reports[..i];
        var report := reports[i];
        match report {
          case InboundRtp(kind, lost, fps, w, h, dropped, decoded, bytesReceived) =>
            if kind == Video {
              result := result.(video := result.video.(packetsLost := lost, fps := fps, width := w, height := h,
                                                       framesDropped := dropped, framesDecoded := decoded));
              if bytesReceived != 0 && lastBytesReceived != 0 {
                var bytesDiff := bytesReceived - lastBytesReceived;
                result := result.(video := result.video.(bitrate := Round(bytesDiff as real * 8.0 / 1000.0)));
              }
              lastBytesReceived := bytesReceived;
            }
          case OutboundRtp(kind, fps, reason, bytesSent) =>
            if kind == Video {
              result := result.(video := result.video.(fps := fps, qualityLimitation := if reason != "" then reason else "none"));
              if bytesSent != 0 && lastBytesSent != 0 {
                var bytesDiff := bytesSent - lastBytesSent;
                result := result.(video := result.video.(bitrate := Round(bytesDiff as real * 8.0 / 1000.0)));
              }
              lastBytesSent := bytesSent;
            }
          case CandidatePair(succeeded, roundTrip) =>
            if succeeded {
              result := result.(rtt := roundTrip * 1000.0);
            }
          case OtherReport =>
        }
      }
      assert reports[..|reports|] == reports;
      AbsorbAllTakesLastInbound(start, reports);
      PacketLossIsAllOrNothing(result);
      var totalPackets := result.video.packetsLost + result.audioPacketsLost;
      if totalPackets > 0 {
        result := result.(packetLoss := (result.video.packetsLost + result.audioPacketsLost) as real / totalPackets as real * 100.0);
      }
    }
  }
}
