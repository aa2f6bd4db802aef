/** The one-shot interceptor loop of the host bridge. */
module HostInterceptor {
  import opened Basics
  import opened PythonBytes
  import opened PortFilter
  import opened CarrierRewrite
  import opened CarrierResults

  datatype Config = Config(
    peer: string, ports: seq<int>, carrier: seq<byte>, target: seq<byte>, deadline: int, observe: int)

  /**
   * One packet as the driver hands it over, with what its iteration meets: the stop flag, the clock when the
   * replacement is recorded and at the end of the iteration, and whether the first and the repeated send succeed.
   */
  datatype Arrival = Arrival(
    packet: Packet, stop: bool, replacedAt: int, endedAt: int, sendWorks: bool, resendWorks: bool)

  datatype Ending =
    | Confirmed | StoppedWithoutCarrier | CarrierNotRewritten | AwaitingSave
    | StoppedByOperator
    | Raised

  datatype Telemetry = Telemetry(
    inbound: nat, outbound: nat, carrierSeen: bool, rewritten: bool, confirmed: bool)

  type Rewriter = seq<byte> -> Option<seq<byte>>

  // ---------------------------------------------------------------------------------------------
  // What the loop is meant to do with packet `i`

  predicate IsInbound(c: Config, a: Arrival) {
    GameInbound(a.packet, c.peer, c.ports)
  }

  predicate IsOutbound(c: Config, a: Arrival) {
    GameOutbound(a.packet, c.peer, c.ports)
  }

  predicate IsCarrier(c: Config, a: Arrival) {
    IsInbound(c, a) && Contains(a.packet.payload, c.carrier)
  }

  /** The first of the first `n` packets that is a carrier. */
  function FirstCarrier(c: Config, arrivals: seq<Arrival>, n: nat): (k: Option<nat>)
    requires n <= |arrivals|
    ensures k.Some? ==> k.value < n && IsCarrier(c, arrivals[k.value])
    ensures forall i | 0 <= i < (if k.Some? then k.value else n) :: !IsCarrier(c, arrivals[i])
  {
    if n == 0 then None
    else
      var earlier := FirstCarrier(c, arrivals, n - 1);
      if earlier.Some? then earlier
      else if IsCarrier(c, arrivals[n - 1]) then Some(n - 1)
      else None
  }

  /** What a complete iteration puts on the wire: the first carrier rewritten, everything else as it came. */
  function Forwarded(c: Config, rewrite: Rewriter, arrivals: seq<Arrival>, i: nat): seq<byte>
    requires i < |arrivals|
  {
    var payload := arrivals[i].packet.payload;
    if FirstCarrier(c, arrivals, i).None? && IsCarrier(c, arrivals[i]) && rewrite(payload).Some?
    then rewrite(payload).value
    else payload
  }

  /** A packet that answers the rewritten command. */
  predicate Confirms(c: Config, arrivals: seq<Arrival>, i: nat)
    requires i < |arrivals|
  {
    && FirstCarrier(c, arrivals, i).Some?
    && IsOutbound(c, arrivals[i]) && Contains(arrivals[i].packet.payload, c.target)
  }

  /** The time condition that ends the loop after packet `i`. */
  predicate TimeIsUp(c: Config, arrivals: seq<Arrival>, i: nat)
    requires i < |arrivals|
  {
    match ReplacementTime(c, arrivals, i + 1)
    case None => arrivals[i].endedAt >= c.deadline
    case Some(replaced) => arrivals[i].endedAt - replaced >= c.observe
  }

  /** Iteration `i` runs to its end: no stop, no failed rewrite, no failed send. */
  predicate Completes(c: Config, rewrite: Rewriter, arrivals: seq<Arrival>, i: nat)
    requires i < |arrivals|
  {
    && !arrivals[i].stop && arrivals[i].sendWorks
    && (FirstCarrier(c, arrivals, i).None? && IsCarrier(c, arrivals[i]) ==> rewrite(arrivals[i].packet.payload).Some?)
  }

  /** Iteration `i` completes and the loop goes on behind it. */
  predicate Continues(c: Config, rewrite: Rewriter, arrivals: seq<Arrival>, i: nat)
    requires i < |arrivals|
  {
    Completes(c, rewrite, arrivals, i) && !Confirms(c, arrivals, i) && !TimeIsUp(c, arrivals, i)
  }

  function CountInbound(c: Config, arrivals: seq<Arrival>, n: nat): nat
    requires n <= |arrivals|
  {
    if n == 0 then 0 else CountInbound(c, arrivals, n - 1) + if IsInbound(c, arrivals[n - 1]) then 1 else 0
  }

  function CountOutbound(c: Config, arrivals: seq<Arrival>, n: nat): nat
    requires n <= |arrivals|
  {
    if n == 0 then 0
    else
      CountOutbound(c, arrivals, n - 1)
      + if IsOutbound(c, arrivals[n - 1]) && !IsInbound(c, arrivals[n - 1]) then 1 else 0
  }

  // ---------------------------------------------------------------------------------------------
  // The loop

  datatype Step = Done | Stopped | Broke

  /** One iteration: counting, the stop flag, rewriting or recognising the answer, sending. */
  method HandlePacket(c: Config, rewrite: Rewriter, a: Arrival, before: Telemetry)
    returns (step: Step, t: Telemetry, sent: seq<seq<byte>>)
    requires before.carrierSeen == before.rewritten && !before.confirmed
    ensures step.Stopped? <==> a.stop && a.sendWorks
    ensures step.Done? <==>
              && !a.stop && a.sendWorks
              && (IsCarrier(c, a) && !before.rewritten ==> rewrite(a.packet.payload).Some?)
    ensures step.Stopped? ==> sent == [a.packet.payload]
    ensures step.Done? ==>
              sent == [if IsCarrier(c, a) && !before.rewritten then rewrite(a.packet.payload).value
                       else a.packet.payload]
    ensures step.Broke? ==>
              sent == if a.stop || IsCarrier(c, a) || !a.resendWorks then [] else [a.packet.payload]
    ensures step.Done? ==>
              && t.carrierSeen == t.rewritten == (before.rewritten || IsCarrier(c, a))
              && t.confirmed == (before.rewritten && IsOutbound(c, a) && Contains(a.packet.payload, c.target))
    ensures t.inbound == before.inbound + (if IsInbound(c, a) then 1 else 0)
    ensures t.outbound == before.outbound + (if IsOutbound(c, a) && !IsInbound(c, a) then 1 else 0)
  {
    t := before;
    var original := a.packet.payload;
    var payload := original;
    var isInbound := IsInbound(c, a);
    var isOutbound := IsOutbound(c, a);
    if isInbound {
      t := t.(inbound := t.inbound + 1);
    } else if isOutbound {
      t := t.(outbound := t.outbound + 1);
    }
    if a.stop {
      return if a.sendWorks then Stopped else Broke, t, if a.sendWorks then [payload] else [];
    }
    var failed := false;
    if isInbound && !t.rewritten && Contains(original, c.carrier) {
      t := t.(carrierSeen := true);
      var result := rewrite(original);
      if result.None? {
        failed := true;
      } else {
        payload := result.value;
        t := t.(rewritten := true);
      }
    } else if isOutbound && t.rewritten && Contains(original, c.target) {
      t := t.(confirmed := true);
    }
    if failed || !a.sendWorks {
      // the exception handler: a carrier is never sent again
      var again := !(isInbound && Contains(original, c.carrier)) && a.resendWorks;
      return Broke, t, if again then [original] else [];
    }
    return Done, t, [payload];
  }

  /** The first `n` packets were each forwarded exactly once, and none of them gave the loop a reason to end. */
  ghost predicate WentOn(
    c: Config, rewrite: Rewriter, arrivals: seq<Arrival>, sent: seq<seq<seq<byte>>>, n: nat)
    requires n <= |sent| <= |arrivals|
  {
    forall i | 0 <= i < n :: sent[i] == [Forwarded(c, rewrite, arrivals, i)] && Continues(c, rewrite, arrivals, i)
  }

  /** What the last packet's iteration did, for each way the loop can end. */
  ghost predicate EndsWith(
    c: Config, rewrite: Rewriter, arrivals: seq<Arrival>, i: nat, ending: Ending, wire: seq<seq<byte>>)
    requires i < |arrivals|
  {
    var a := arrivals[i];
    match ending
    case StoppedByOperator => a.stop && a.sendWorks && wire == [a.packet.payload]
    case Raised =>
      && !Completes(c, rewrite, arrivals, i) && !(a.stop && a.sendWorks)
      && wire == if a.stop || IsCarrier(c, a) || !a.resendWorks then [] else [a.packet.payload]
    case _ =>
      && Completes(c, rewrite, arrivals, i) && wire == [Forwarded(c, rewrite, arrivals, i)]
      && (i + 1 == |arrivals| || !Continues(c, rewrite, arrivals, i))
  }

  /** The record of the replacement that the loop keeps after `n` packets. */
  function ReplacementTime(c: Config, arrivals: seq<Arrival>, n: nat): Option<int>
    requires n <= |arrivals|
  {
    var k := FirstCarrier(c, arrivals, n);
    if k.Some? then Some(arrivals[k.value].replacedAt) else None
  }

  /** What the telemetry says after `n` packets. */
  ghost predicate Tells(c: Config, arrivals: seq<Arrival>, n: nat, t: Telemetry)
    requires n <= |arrivals|
  {
    && t.carrierSeen == t.rewritten == FirstCarrier(c, arrivals, n).Some?
    && t.confirmed == (n > 0 && Confirms(c, arrivals, n - 1))
  }

  /** The reasons for which the loop ends behind a complete iteration. */
  predicate Stops(c: Config, t: Telemetry, replacementTime: Option<int>, endedAt: int) {
    || t.confirmed
    || (replacementTime.Some? && endedAt - replacementTime.value >= c.observe)
    || (replacementTime.None? && endedAt >= c.deadline)
  }

  lemma StopsIff(c: Config, rewrite: Rewriter, arrivals: seq<Arrival>, n: nat, t: Telemetry)
    requires n < |arrivals| && Completes(c, rewrite, arrivals, n) && Tells(c, arrivals, n + 1, t)
    ensures Stops(c, t, ReplacementTime(c, arrivals, n + 1), arrivals[n].endedAt)
            <==> !Continues(c, rewrite, arrivals, n)
  {
  }

  /** One call of `HandlePacket` seen from the whole sequence of packets. */
  lemma HandledInSequence(
    c: Config, rewrite: Rewriter, arrivals: seq<Arrival>, n: nat, before: Telemetry, step: Step, t: Telemetry,
    wire: seq<seq<byte>>)
    requires n < |arrivals| && Tells(c, arrivals, n, before)
    requires step.Done? <==>
               && !arrivals[n].stop && arrivals[n].sendWorks
               && (IsCarrier(c, arrivals[n]) && !before.rewritten ==> rewrite(arrivals[n].packet.payload).Some?)
    requires step.Done? ==>
               wire == [if IsCarrier(c, arrivals[n]) && !before.rewritten then rewrite(arrivals[n].packet.payload).value
                        else arrivals[n].packet.payload]
    requires step.Done? ==>
               && t.carrierSeen == t.rewritten == (before.rewritten || IsCarrier(c, arrivals[n]))
               && t.confirmed
                  == (before.rewritten && IsOutbound(c, arrivals[n])
                      && Contains(arrivals[n].packet.payload, c.target))
    ensures step.Done? <==> Completes(c, rewrite, arrivals, n)
    ensures step.Done? ==> wire == [Forwarded(c, rewrite, arrivals, n)] && Tells(c, arrivals, n + 1, t)
    ensures step.Done? ==>
              ReplacementTime(c, arrivals, n + 1)
              == if t.rewritten && !before.rewritten then Some(arrivals[n].replacedAt)
                 else ReplacementTime(c, arrivals, n)
  {
  }

  function Classify(t: Telemetry): Ending {
    if t.carrierSeen && t.rewritten && t.confirmed then Confirmed
    else if !t.carrierSeen then StoppedWithoutCarrier
    else if !t.rewritten then CarrierNotRewritten
    else AwaitingSave
  }

  /**
   * The loop: `sent[i]` is what went on the wire for packet `i`, and there are as many entries as packets were taken.
   */
  method RunHostInterceptor(c: Config, rewrite: Rewriter, arrivals: seq<Arrival>)
    returns (ending: Ending, t: Telemetry, sent: seq<seq<seq<byte>>>)
    ensures |sent| <= |arrivals| && (sent == [] ==> arrivals == [])
    ensures sent != [] ==>
              && WentOn(c, rewrite, arrivals, sent, |sent| - 1)
              && EndsWith(c, rewrite, arrivals, |sent| - 1, ending, sent[|sent| - 1])
    ensures ending == Confirmed <==>
              sent != [] && Completes(c, rewrite, arrivals, |sent| - 1) && Confirms(c, arrivals, |sent| - 1)
    ensures ending == AwaitingSave ==> FirstCarrier(c, arrivals, |sent|).Some?
    ensures ending == StoppedWithoutCarrier ==> FirstCarrier(c, arrivals, |sent|).None?
    ensures ending != CarrierNotRewritten
    ensures t.inbound == CountInbound(c, arrivals, |sent|) && t.outbound == CountOutbound(c, arrivals, |sent|)
  {
    hide Forwarded, Completes, TimeIsUp, IsCarrier, IsInbound, IsOutbound, FirstCarrier, Contains;
    sent := [];
    t := Telemetry(0, 0, false, false, false);
    var replacementTime: Option<int> := None;
    var running := true;
    while running && |sent| < |arrivals|
      invariant |sent| <= |arrivals|
      invariant running ==> WentOn(c, rewrite, arrivals, sent, |sent|) && !t.confirmed
      invariant !running ==>
                  && sent != [] && WentOn(c, rewrite, arrivals, sent, |sent| - 1)
                  && Completes(c, rewrite, arrivals, |sent| - 1)
                  && sent[|sent| - 1] == [Forwarded(c, rewrite, arrivals, |sent| - 1)]
                  && !Continues(c, rewrite, arrivals, |sent| - 1)
      invariant Tells(c, arrivals, |sent|, t) && replacementTime == ReplacementTime(c, arrivals, |sent|)
      invariant t.inbound == CountInbound(c, arrivals, |sent|) && t.outbound == CountOutbound(c, arrivals, |sent|)
      decreases |arrivals| - |sent|
    {
      ghost var n := |sent|;
      var a := arrivals[|sent|];
      var step, after, wire := HandlePacket(c, rewrite, a, t);
      HandledInSequence(c, rewrite, arrivals, n, t, step, after, wire);
      sent := sent + [wire];
      if step.Stopped? {
        return StoppedByOperator, after, sent;
      }
      if step.Broke? {
        return Raised, after, sent;
      }
      if after.rewritten && !t.rewritten {
        replacementTime := Some(a.replacedAt);
      }
      t := after;
      StopsIff(c, rewrite, arrivals, n, t);
      running := !Stops(c, t, replacementTime, a.endedAt);
    }
    ending := Classify(t);
  }

  // ---------------------------------------------------------------------------------------------
  // Whole runs

  /**
   * Over any packets at most one is altered, namely the first carrier; every packet taken is sent exactly once,
   * except that the last one may stay unsent when its iteration fails.
   */
  lemma AtMostOneAltered(
    c: Config, rewrite: Rewriter, arrivals: seq<Arrival>, sent: seq<seq<seq<byte>>>, ending: Ending, i: nat)
    requires i < |sent| <= |arrivals|
    requires WentOn(c, rewrite, arrivals, sent, |sent| - 1)
    requires EndsWith(c, rewrite, arrivals, |sent| - 1, ending, sent[|sent| - 1])
    ensures sent[i] == [] ==> i == |sent| - 1 && ending == Raised
    ensures sent[i] != [] && sent[i] != [arrivals[i].packet.payload] ==>
              && FirstCarrier(c, arrivals, |sent|) == Some(i)
              && Some(sent[i][0]) == rewrite(arrivals[i].packet.payload) && |sent[i]| == 1
  {
  }

  /** With a driver that always sends and no stop request, a packet stays unsent only when its rewrite failed. */
  lemma UnsentMeansFailedRewrite(
    c: Config, rewrite: Rewriter, arrivals: seq<Arrival>, sent: seq<seq<seq<byte>>>, ending: Ending, i: nat)
    requires i < |sent| <= |arrivals|
    requires WentOn(c, rewrite, arrivals, sent, |sent| - 1)
    requires EndsWith(c, rewrite, arrivals, |sent| - 1, ending, sent[|sent| - 1])
    requires forall j | 0 <= j < |sent| :: arrivals[j].sendWorks && arrivals[j].resendWorks && !arrivals[j].stop
    ensures sent[i] == [] <==>
            FirstCarrier(c, arrivals, |sent|) == Some(i) && rewrite(arrivals[i].packet.payload).None?
  {
    assert i < |sent| - 1 ==> Completes(c, rewrite, arrivals, i);
  }

  /** Success means that a rewritten packet went out before the outbound packet that carries the target. */
  lemma ConfirmedAfterRewrite(
    c: Config, rewrite: Rewriter, arrivals: seq<Arrival>, sent: seq<seq<seq<byte>>>, ending: Ending)
    requires 0 < |sent| <= |arrivals|
    requires WentOn(c, rewrite, arrivals, sent, |sent| - 1)
    requires EndsWith(c, rewrite, arrivals, |sent| - 1, ending, sent[|sent| - 1])
    requires Completes(c, rewrite, arrivals, |sent| - 1) && Confirms(c, arrivals, |sent| - 1)
    ensures var last := |sent| - 1;
            && IsOutbound(c, arrivals[last]) && Contains(arrivals[last].packet.payload, c.target)
            && exists k :: 0 <= k < last && IsCarrier(c, arrivals[k]) && rewrite(arrivals[k].packet.payload).Some?
                  && sent[k] == [rewrite(arrivals[k].packet.payload).value]
  {
    var last := |sent| - 1;
    var k := FirstCarrier(c, arrivals, last).value;
    assert FirstCarrier(c, arrivals, k).None?;
    assert Continues(c, rewrite, arrivals, k) && sent[k] == [Forwarded(c, rewrite, arrivals, k)];
  }

  /** The rewriter of the bridge for a building action. */
  function BuildingRewriter(action: BuildAction, source: seq<byte>): Rewriter
    requires source != []
  {
    payload =>
      match RewriteCarrier(payload, action, source)
      case Rewritten(rewritten, _, _, _) => Some(rewritten)
      case _ => None
  }

  /**
   * What reaches the game for a building action: every packet has its old length, and no packet that was altered
   * still names the source building, unless the action asks for it.
   */
  lemma BuildingTrafficKeepsLength(c: Config, action: BuildAction, arrivals: seq<Arrival>, i: nat)
    requires c.carrier != [] && i < |arrivals|
    ensures var out := Forwarded(c, BuildingRewriter(action, c.carrier), arrivals, i);
            && |out| == |arrivals[i].packet.payload|
            && (out != arrivals[i].packet.payload && action.buildingId != c.carrier ==> !Contains(out, c.carrier))
  {
    CarrierIsSafe(arrivals[i].packet.payload, action, c.carrier);
  }

  /**
   * A carrier behind the first one is left as it is: it goes out unchanged, and still names the source, unless the
   * last iteration fails on it, which sends nothing.
   */
  lemma LaterCarrierUnchanged(
    c: Config, rewrite: Rewriter, arrivals: seq<Arrival>, sent: seq<seq<seq<byte>>>, ending: Ending, i: nat)
    requires i < |sent| <= |arrivals|
    requires WentOn(c, rewrite, arrivals, sent, |sent| - 1)
    requires EndsWith(c, rewrite, arrivals, |sent| - 1, ending, sent[|sent| - 1])
    requires IsCarrier(c, arrivals[i]) && FirstCarrier(c, arrivals, i).Some?
    ensures sent[i] == [] <==> i == |sent| - 1 && ending == Raised
    ensures sent[i] != [] ==> sent[i] == [arrivals[i].packet.payload] && Contains(sent[i][0], c.carrier)
  {
    hide WentOn, EndsWith, Completes, Continues, Forwarded, IsInbound, FirstCarrier, Contains;
    WhatWentOut(c, rewrite, arrivals, sent, ending, i);
    NotRewrittenAgain(c, rewrite, arrivals, i);
  }

  /** What went on the wire for one packet: in a complete iteration the forwarded payload. */
  lemma WhatWentOut(
    c: Config, rewrite: Rewriter, arrivals: seq<Arrival>, sent: seq<seq<seq<byte>>>, ending: Ending, i: nat)
    requires i < |sent| <= |arrivals|
    requires WentOn(c, rewrite, arrivals, sent, |sent| - 1)
    requires EndsWith(c, rewrite, arrivals, |sent| - 1, ending, sent[|sent| - 1])
    ensures var a, last := arrivals[i], i == |sent| - 1;
            if last && ending.StoppedByOperator? then sent[i] == [a.packet.payload]
            else if last && ending.Raised? then
              sent[i] == if a.stop || IsCarrier(c, a) || !a.resendWorks then [] else [a.packet.payload]
            else Completes(c, rewrite, arrivals, i) && sent[i] == [Forwarded(c, rewrite, arrivals, i)]
  {
    assert i < |sent| - 1 ==> Continues(c, rewrite, arrivals, i);
  }

  lemma NotRewrittenAgain(c: Config, rewrite: Rewriter, arrivals: seq<Arrival>, i: nat)
    requires i < |arrivals| && FirstCarrier(c, arrivals, i).Some?
    ensures Forwarded(c, rewrite, arrivals, i) == arrivals[i].packet.payload
    ensures IsCarrier(c, arrivals[i]) ==> Contains(arrivals[i].packet.payload, c.carrier)
  {
  }

  /**
   * Of the inbound packets that go out for a building action whose target is not the source, exactly these still name
   * the source: the carriers behind the first one, and the packet at which the operator's stop was noticed.
   */
  lemma SourceGoesOutIff(
    c: Config, action: BuildAction, arrivals: seq<Arrival>, sent: seq<seq<seq<byte>>>, ending: Ending, i: nat)
    requires c.carrier != [] && action.buildingId != c.carrier && i < |sent| <= |arrivals|
    requires WentOn(c, BuildingRewriter(action, c.carrier), arrivals, sent, |sent| - 1)
    requires EndsWith(c, BuildingRewriter(action, c.carrier), arrivals, |sent| - 1, ending, sent[|sent| - 1])
    requires IsInbound(c, arrivals[i]) && sent[i] != []
    ensures |sent[i]| == 1
    ensures Contains(sent[i][0], c.carrier)
            <==> IsCarrier(c, arrivals[i])
                 && (FirstCarrier(c, arrivals, i).Some? || (i == |sent| - 1 && ending == StoppedByOperator))
  {
    hide WentOn, EndsWith, Continues, FirstCarrier, Contains, BuildingRewriter, Completes, Forwarded, IsInbound;
    WhatWentOut(c, BuildingRewriter(action, c.carrier), arrivals, sent, ending, i);
    ForwardedNamesSourceIff(c, action, arrivals, i);
  }

  lemma ForwardedNamesSourceIff(c: Config, action: BuildAction, arrivals: seq<Arrival>, i: nat)
    requires c.carrier != [] && action.buildingId != c.carrier && i < |arrivals| && IsInbound(c, arrivals[i])
    ensures Completes(c, BuildingRewriter(action, c.carrier), arrivals, i) ==>
              (Contains(Forwarded(c, BuildingRewriter(action, c.carrier), arrivals, i), c.carrier)
               <==> IsCarrier(c, arrivals[i]) && FirstCarrier(c, arrivals, i).Some?)
  {
    hide FirstCarrier, Contains, IsInbound, RewriteCarrier;
    CarrierIsSafe(arrivals[i].packet.payload, action, c.carrier);
  }
}
