/**
 * The handshake confirmation state machine of the XR app.  `Handshake` is
 * the module-level state: the gesture state, the pending profile and match
 * result, and the confirmed connections.  `HandshakeSystem` is the per-frame
 * system with its hold timer.  Hand tracking is abstracted to a `HandFrame`
 * that says whether each hand was seen and whether the two are close; the
 * clock is the `now` parameter, in milliseconds.
 */
module Handshake {
  import opened Types
  import Text

  /** How long the hands must stay close before the connection is confirmed, in milliseconds. */
  const GESTURE_HOLD_TIME: int := 1500

  /** The id of a connection confirmed at time `now`: `conn_<now>`. */
  function HandshakeConnectionId(now: nat): string {
    "conn_" + Text.NatToString(now)
  }

  /**
   * The gesture progress in percent after `elapsed` milliseconds of holding:
   * proportional to the time held and capped at 100, which it reaches
   * exactly when the hold time is reached.
   */
  function GestureProgress(elapsed: int): (p: real)
    ensures p <= 100.0
    ensures elapsed >= 0 ==> 0.0 <= p
    ensures p == 100.0 <==> elapsed >= GESTURE_HOLD_TIME
    ensures elapsed < GESTURE_HOLD_TIME ==> p * GESTURE_HOLD_TIME as real == elapsed as real * 100.0
  {
    var raw := (elapsed as real / GESTURE_HOLD_TIME as real) * 100.0;
    if raw < 100.0 then raw else 100.0
  }

  /** Holding longer never lowers the progress. */
  lemma GestureProgressMonotone(e1: int, e2: int)
    requires e1 <= e2
    ensures GestureProgress(e1) <= GestureProgress(e2)
  {
  }

  /** One tracking frame: an XR session is running, which hands were seen, and whether they are closer than 15 cm. */
  datatype HandFrame = HandFrame(session: bool, leftHand: bool, rightHand: bool, close: bool)

  /** The module-level handshake state. */
  class Handshake {
    var leftHandPresent: bool
    var rightHandPresent: bool
    var handsClose: bool
    var gestureProgress: real
    var gestureComplete: bool
    var pendingProfile: Option<Profile>
    var pendingMatchResult: Option<MatchResult>
    var connections: seq<Connection>

    /** A profile and its match result are pending together or not at all. */
    predicate Valid()
      reads this
    {
      pendingProfile.Some? <==> pendingMatchResult.Some?
    }

    /** The initial state: no hands, no gesture, nothing pending, no connections. */
    constructor ()
      ensures !leftHandPresent && !rightHandPresent && !handsClose
      ensures gestureProgress == 0.0 && !gestureComplete
      ensures pendingProfile.None? && pendingMatchResult.None?
      ensures connections == []
      ensures Valid()
    {
      leftHandPresent := false;
      rightHandPresent := false;
      handsClose := false;
      gestureProgress := 0.0;
      gestureComplete := false;
      pendingProfile := None;
      pendingMatchResult := None;
      connections := [];
    }

    /** A copy of the confirmed connections. */
    function GetConnections(): (r: seq<Connection>)
      reads this
      ensures r == connections
    {
      connections[..]
    }

    /** Waits for a handshake with `profile`: the gesture starts over. */
    method SetPendingConnection(profile: Profile, matchResult: MatchResult)
      modifies this
      ensures pendingProfile == Some(profile) && pendingMatchResult == Some(matchResult)
      ensures gestureProgress == 0.0 && !gestureComplete
      ensures connections == old(connections)
      ensures handsClose == old(handsClose)
      ensures leftHandPresent == old(leftHandPresent) && rightHandPresent == old(rightHandPresent)
      ensures Valid()
    {
      pendingProfile := Some(profile);
      pendingMatchResult := Some(matchResult);
      gestureProgress := 0.0;
      gestureComplete := false;
    }

    /**
     * Confirms the pending connection: appends one connection with the
     * pending profile and score and no appreciations, clears the pending
     * pair and marks the gesture complete.  With nothing pending it does
     * nothing and returns nothing.
     */
    method ConfirmConnection(now: nat) returns (r: Option<Connection>)
      modifies this
      ensures old(pendingProfile).None? || old(pendingMatchResult).None? ==>
        r.None? && unchanged(this)
      ensures old(pendingProfile).Some? && old(pendingMatchResult).Some? ==>
        r == Some(Connection(HandshakeConnectionId(now), old(pendingProfile).value,
                             old(pendingMatchResult).value.score, now, 0)) &&
        connections == old(connections) + [r.value] &&
        pendingProfile.None? && pendingMatchResult.None? && gestureComplete &&
        gestureProgress == old(gestureProgress) && handsClose == old(handsClose) &&
        leftHandPresent == old(leftHandPresent) && rightHandPresent == old(rightHandPresent)
      ensures old(Valid()) ==> Valid()
    {
      if pendingProfile.None? || pendingMatchResult.None? {
        return None;
      }
      var connection := Connection(HandshakeConnectionId(now), pendingProfile.value,
                                   pendingMatchResult.value.score, now, 0);
      connections := connections + [connection];
      pendingProfile := None;
      pendingMatchResult := None;
      gestureComplete := true;
      r := Some(connection);
    }
  }

  /**
   * A second confirmation with no new pending connection in between adds
   * nothing: two confirmations add at most one connection.
   */
  method ConfirmTwice(h: Handshake, now1: nat, now2: nat) returns (first: Option<Connection>, second: Option<Connection>)
    modifies h
    ensures second.None?
    ensures |h.connections| <= |old(h.connections)| + 1
    ensures first.Some? <==> |h.connections| == |old(h.connections)| + 1
  {
    first := h.ConfirmConnection(now1);
    second := h.ConfirmConnection(now2);
  }

  /** A hold timer that is not running: never started, or started at time 0, which counts as unset. */
  predicate TimerUnset(start: Option<int>) {
    start.None? || start.value == 0
  }

  /** The start of the hold once this frame has started the timer if it was not running. */
  function HoldStart(start: Option<int>, now: nat): (s: int)
    ensures TimerUnset(start) ==> s == now
    ensures !TimerUnset(start) ==> s == start.value && s != 0
  {
    if TimerUnset(start) then now else start.value
  }

  /** The frame in which the hold timer confirms the pending connection. */
  predicate Fires(frame: HandFrame, start: Option<int>, now: nat, h: Handshake)
    reads h
  {
    frame.session && frame.leftHand && frame.rightHand && frame.close &&
    h.pendingProfile.Some? && h.pendingMatchResult.Some? && !h.gestureComplete &&
    now - HoldStart(start, now) >= GESTURE_HOLD_TIME
  }

  /** The per-frame handshake system and its hold timer. */
  class HandshakeSystem {
    const state: Handshake
    var gestureStartTime: Option<int>

    constructor (state: Handshake)
      ensures this.state == state && gestureStartTime.None?
    {
      this.state := state;
      gestureStartTime := None;
    }

    /**
     * One frame.  With both hands close and a profile pending the timer runs
     * and sets the progress; once it has run for the hold time, and the
     * gesture is not already complete, the connection is confirmed and the
     * timer stops.  Every other frame of a session stops the timer; with both
     * hands seen the progress then drops to 0 unless the gesture is complete.
     */
    method Update(frame: HandFrame, now: nat)
      modifies this, state
      ensures !frame.session ==> unchanged(this) && unchanged(state)
      ensures frame.session ==>
        state.leftHandPresent == frame.leftHand && state.rightHandPresent == frame.rightHand &&
        state.handsClose == (frame.leftHand && frame.rightHand && frame.close)
      // the only way a connection is added
      ensures old(Fires(frame, gestureStartTime, now, state)) ==>
        state.connections == old(state.connections) +
          [Connection(HandshakeConnectionId(now), old(state.pendingProfile).value,
                      old(state.pendingMatchResult).value.score, now, 0)] &&
        state.pendingProfile.None? && state.pendingMatchResult.None? && state.gestureComplete &&
        gestureStartTime.None?
      ensures !old(Fires(frame, gestureStartTime, now, state)) ==>
        state.connections == old(state.connections)
      // no session, a hand missing, hands apart, or nothing pending: the timer stops
      ensures frame.session && !(frame.leftHand && frame.rightHand && frame.close && old(state.pendingProfile).Some?) ==>
        gestureStartTime.None? &&
        state.pendingProfile == old(state.pendingProfile) &&
        state.pendingMatchResult == old(state.pendingMatchResult) &&
        state.gestureComplete == old(state.gestureComplete)
      ensures frame.session && !(frame.leftHand && frame.rightHand) ==>
        state.gestureProgress == old(state.gestureProgress)
      ensures frame.session && frame.leftHand && frame.rightHand &&
              !(frame.close && old(state.pendingProfile).Some?) ==>
        state.gestureProgress == (if old(state.gestureComplete) then old(state.gestureProgress) else 0.0)
      // the timer runs
      ensures frame.session && frame.leftHand && frame.rightHand && frame.close && old(state.pendingProfile).Some? ==>
        var elapsed := now - HoldStart(old(gestureStartTime), now);
        state.gestureProgress == GestureProgress(elapsed) &&
        (elapsed >= GESTURE_HOLD_TIME && !old(state.gestureComplete) ==> gestureStartTime.None?) &&
        (elapsed < GESTURE_HOLD_TIME || old(state.gestureComplete) ==>
          gestureStartTime == Some(HoldStart(old(gestureStartTime), now)) &&
          state.pendingProfile == old(state.pendingProfile) &&
          state.pendingMatchResult == old(state.pendingMatchResult) &&
          state.gestureComplete == old(state.gestureComplete))
      ensures old(state.Valid()) ==> state.Valid()
    {
      if !frame.session {
        return;
      }
      state.leftHandPresent := frame.leftHand;
      state.rightHandPresent := frame.rightHand;
      if frame.leftHand && frame.rightHand {
        state.handsClose := frame.close;
        if state.handsClose && state.pendingProfile.Some? {
          if TimerUnset(gestureStartTime) {
            gestureStartTime := Some(now);
          }
          var elapsed := now - gestureStartTime.value;
          state.gestureProgress := GestureProgress(elapsed);
          if elapsed >= GESTURE_HOLD_TIME && !state.gestureComplete {
            var _ := state.ConfirmConnection(now);
            gestureStartTime := None;
          }
        } else {
          gestureStartTime := None;
          if !state.gestureComplete {
            state.gestureProgress := 0.0;
          }
        }
      } else {
        state.handsClose := false;
        gestureStartTime := None;
      }
    }
  }

  /** Hands held close for the hold time after a pending connection is set confirm it once. */
  method HoldConfirms(profile: Profile, matchResult: MatchResult) returns (early: nat, late: nat, confirmed: Connection)
    ensures early == 0 && late == 1
    ensures confirmed == Connection(HandshakeConnectionId(2500), profile, matchResult.score, 2500, 0)
  {
    var h := new Handshake();
    var system := new HandshakeSystem(h);
    h.SetPendingConnection(profile, matchResult);
    var close := HandFrame(true, true, true, true);
    system.Update(close, 1000);
    early := |h.connections|;
    system.Update(close, 2500);
    late := |h.connections|;
    confirmed := h.connections[0];
  }

  /** Letting go restarts the hold: 1500 ms after the first touch is not enough after a break. */
  method InterruptedHoldRestarts(profile: Profile, matchResult: MatchResult) returns (count: nat, progress: real)
    ensures count == 0
    ensures 0.0 < progress < 100.0
  {
    var h := new Handshake();
    var system := new HandshakeSystem(h);
    h.SetPendingConnection(profile, matchResult);
    system.Update(HandFrame(true, true, true, true), 1000);
    system.Update(HandFrame(true, true, true, false), 2000);
    system.Update(HandFrame(true, true, true, true), 2100);
    system.Update(HandFrame(true, true, true, true), 2500);
    count := |h.connections|;
    progress := h.gestureProgress;
  }
}
