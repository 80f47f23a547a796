/**
 * The VoLTE call manager and the Radio HAL as they run: two objects that call each
 * other, each handler proved to take the step of CallSteps.
 */
module CallManager {
  import opened CallSteps
  import opened CallTables
  import opened Wrappers

  class RadioHal {
    var voiceCalls: seq<VoiceCall>
    var nextCallIndex: nat

    constructor ()
      ensures voiceCalls == [] && nextCallIndex == 1
    {
      voiceCalls, nextCallIndex := [], 1;
    }

    method UpdateCallState(callIndex: nat, newState: HalState)
      modifies this`voiceCalls
      ensures voiceCalls == SetHal(old(voiceCalls), callIndex, newState)
    {
      for i := 0 to |voiceCalls|
        invariant voiceCalls == old(voiceCalls)
        invariant forall k :: 0 <= k < i ==> voiceCalls[k].index != callIndex
      {
        if voiceCalls[i].index == callIndex {
          voiceCalls := voiceCalls[i := voiceCalls[i].(state := newState)];
          return;
        }
      }
    }

    /** `voice_calls.remove` on the call with this index */
    method RemoveCall(callIndex: nat)
      modifies this`voiceCalls
      ensures voiceCalls == Remove(old(voiceCalls), callIndex)
    {
      for i := 0 to |voiceCalls|
        invariant voiceCalls == old(voiceCalls)
        invariant forall k :: 0 <= k < i ==> voiceCalls[k].index != callIndex
      {
        if voiceCalls[i].index == callIndex {
          voiceCalls := voiceCalls[..i] + voiceCalls[i + 1..];
          return;
        }
      }
    }

    /** `call.sip_call_id = id` on the call with this index */
    method LearnCallId(callIndex: nat, id: string)
      modifies this`voiceCalls
      ensures voiceCalls == LearnId(old(voiceCalls), callIndex, id)
    {
      var i := 0;
      while i < |voiceCalls| && voiceCalls[i].index != callIndex
        invariant i <= |voiceCalls|
        invariant forall k :: 0 <= k < i ==> voiceCalls[k].index != callIndex
      {
        i := i + 1;
      }
      if i < |voiceCalls| {
        voiceCalls := voiceCalls[i := voiceCalls[i].(callId := id)];
      }
    }

    /** The first call in a state, as a position. */
    method Find(state: HalState) returns (i: nat)
      ensures i == FirstVoice(voiceCalls, state)
    {
      i := 0;
      while i < |voiceCalls| && voiceCalls[i].state != state
        invariant i <= |voiceCalls|
        invariant forall k :: 0 <= k < i ==> voiceCalls[k].state != state
      {
        i := i + 1;
      }
    }

    // ---- Requests from the phone ------------------------------------------

    method Dial(manager: CallManager, newId: string)
      requires manager.hal == this
      modifies this, manager
      ensures manager.World() == CallSteps.Dial(old(manager.World()), newId)
    {
      var call := VoiceCall(nextCallIndex, DIALING, false, false, "");
      nextCallIndex := nextCallIndex + 1;
      voiceCalls := voiceCalls + [call];
      manager.StartCall(newId, call.index);
    }

    method Answer(manager: CallManager, mediaStarts: bool) returns (ok: bool)
      requires manager.hal == this
      modifies this, manager
      ensures manager.World() == HalAnswer(old(manager.World()), mediaStarts)
      ensures ok <==> exists v :: v in old(voiceCalls) && v.state == INCOMING
    {
      var i := Find(INCOMING);
      ok := i < |voiceCalls|;
      if ok {
        assert voiceCalls[i] in voiceCalls;
        voiceCalls := voiceCalls[i := voiceCalls[i].(state := ACTIVE)];
        var _ := manager.AnswerCall(voiceCalls[i].callId, mediaStarts);
      }
    }

    method Hangup(manager: CallManager, callIndex: nat) returns (ok: bool)
      requires manager.hal == this
      modifies this, manager
      ensures manager.World() == HalHangup(old(manager.World()), callIndex)
      ensures ok <==> VoiceAt(old(voiceCalls), callIndex) < old(|voiceCalls|)
    {
      var i := 0;
      while i < |voiceCalls| && voiceCalls[i].index != callIndex
        invariant i <= |voiceCalls|
        invariant forall k :: 0 <= k < i ==> voiceCalls[k].index != callIndex
      {
        i := i + 1;
      }
      ok := i < |voiceCalls|;
      if ok {
        if voiceCalls[i].callId != "" {
          var _ := manager.HangupCall(voiceCalls[i].callId);
        }
        RemoveCall(callIndex);
      }
    }

    method SwitchWaitingOrHoldingAndActive(manager: CallManager, mediaStarts: bool)
      requires manager.hal == this
      modifies this, manager
      ensures manager.World() == HalSwitch(old(manager.World()), mediaStarts)
    {
      hide FirstVoice, SwapSessions, AnswerSession;
      ghost var before := manager.World();
      var waiting := Find(WAITING);
      if waiting < |voiceCalls| {
        var id, n := voiceCalls[waiting].callId, |voiceCalls|;
        HoldActive(manager);
        assert |voiceCalls| == n;
        voiceCalls := voiceCalls[waiting := voiceCalls[waiting].(state := ACTIVE)];
        if id != "" {
          var _ := manager.AnswerCall(id, mediaStarts);
        }
      } else {
        manager.SwapCalls();
      }
    }

    /** The loop that holds every active call */
    method HoldActive(manager: CallManager)
      requires manager.hal == this
      modifies this, manager
      ensures manager.World() == HoldVoices(old(manager.World()), old(|voiceCalls|))
      ensures |voiceCalls| == old(|voiceCalls|)
    {
      hide HoldSession;
      ghost var before := manager.World();
      for i := 0 to |voiceCalls|
        invariant |voiceCalls| == old(|voiceCalls|)
        invariant manager.World() == HoldVoices(before, i)
      {
        ghost var turn := manager.World();
        if voiceCalls[i].state == ACTIVE {
          voiceCalls := voiceCalls[i := voiceCalls[i].(state := HOLDING)];
          HoldSessionLength(manager.World(), voiceCalls[i].callId);
          var _ := manager.HoldCall(voiceCalls[i].callId);
        }
        assert manager.World() == HoldVoice(turn, i);
      }
    }

    method SeparateConnection(manager: CallManager, callIndex: nat) returns (ok: bool)
      requires manager.hal == this
      modifies this, manager
      ensures manager.World() == HalSeparate(old(manager.World()), callIndex)
      ensures ok <==> PartyAt(old(voiceCalls), callIndex) < old(|voiceCalls|)
    {
      ok := false;
      var i := 0;
      while i < |voiceCalls| && !(voiceCalls[i].index == callIndex && voiceCalls[i].isMpty)
        invariant i <= |voiceCalls|
        invariant forall k :: 0 <= k < i ==> !(voiceCalls[k].index == callIndex && voiceCalls[k].isMpty)
      {
        i := i + 1;
      }
      if i < |voiceCalls| {
        ok := true;
        voiceCalls := voiceCalls[i := voiceCalls[i].(isMpty := false, state := HOLDING)];
        var _ := manager.HoldCall(voiceCalls[i].callId);
      }
    }

    method ExplicitCallTransfer(manager: CallManager, accepted: bool) returns (ok: bool)
      requires manager.hal == this
      modifies this, manager
      ensures manager.World() == HalTransfer(old(manager.World()), accepted)
      ensures !ok ==> manager.World() == old(manager.World())
    {
      hide Remove, Update;
      var active, held := None, None;
      for i := 0 to |voiceCalls|
        invariant active == LastVoice(voiceCalls[..i], ACTIVE) && held == LastVoice(voiceCalls[..i], HOLDING)
      {
        assert voiceCalls[..i + 1][..i] == voiceCalls[..i];
        if voiceCalls[i].state == ACTIVE {
          active := Some(voiceCalls[i]);
        } else if voiceCalls[i].state == HOLDING {
          held := Some(voiceCalls[i]);
        }
      }
      assert voiceCalls[..|voiceCalls|] == voiceCalls;
      if active.None? || held.None? {
        return false;
      }
      ok := manager.TransferCall(held.value.callId, accepted);
      if ok {
        RemoveCall(active.value.index);
        RemoveCall(held.value.index);
      }
    }

    method HangupAll(manager: CallManager)
      requires manager.hal == this
      modifies this, manager
      ensures manager.World() == HalHangupAll(old(manager.World()))
    {
      var listed := voiceCalls;
      ghost var before := manager.World();
      for i := 0 to |listed|
        invariant voiceCalls == listed && nextCallIndex == before.nextIndex
        invariant manager.World() == HangupIds(before, listed[..i])
      {
        assert listed[..i + 1][..i] == listed[..i];
        if listed[i].callId != "" {
          var _ := manager.HangupCall(listed[i].callId);
        }
      }
      assert listed[..|listed|] == listed;
      voiceCalls := [];
    }

    method PowerOff()
      modifies this`voiceCalls
      ensures voiceCalls == []
    {
      voiceCalls := [];
    }

    /** Rings in, unless unconditional forwarding answers with a call of our own. */
    method IncomingCall(manager: CallManager, id: string, forwardedAs: Option<string>)
      requires manager.hal == this
      modifies this, manager
      ensures var w := old(manager.World());
              manager.World() ==
              match forwardedAs
              case Some(newId) => StartInvite(HangupSession(w, id), newId, 0)
              case None =>
                w.(voice := w.voice + [VoiceCall(w.nextIndex, if FirstVoice(w.voice, ACTIVE) < |w.voice| then WAITING else INCOMING,
                                                 true, false, id)],
                   nextIndex := w.nextIndex + 1)
    {
      match forwardedAs
      case Some(newId) =>
        var _ := manager.HangupCall(id);
        manager.StartCall(newId, 0);
      case None =>
        var first := Find(ACTIVE);
        var state := if first < |voiceCalls| then WAITING else INCOMING;
        voiceCalls := voiceCalls + [VoiceCall(nextCallIndex, state, true, false, id)];
        nextCallIndex := nextCallIndex + 1;
    }
  }

  lemma HoldSessionLength(w: World, id: string)
    ensures |HoldSession(w, id).voice| == |w.voice|
  {
  }

  /** The INVITEs awaiting an answer are those the SIP client has on the wire. */
  class CallManager {
    const hal: RadioHal
    var calls: seq<VolteCall>
    var rtpPortNext: int
    var pending: map<string, nat>

    constructor (hal: RadioHal, portBase: int)
      ensures this.hal == hal && calls == [] && rtpPortNext == portBase && pending == map[]
    {
      this.hal := hal;
      calls, rtpPortNext, pending := [], portBase, map[];
    }

    function World(): World
      reads this, hal
    {
      CallSteps.World(calls, rtpPortNext, pending, hal.voiceCalls, hal.nextCallIndex)
    }

    /** Position of a session in the dictionary, or its size */
    method Get(id: string) returns (i: nat)
      ensures i == CallAt(calls, id)
    {
      i := 0;
      while i < |calls| && calls[i].callId != id
        invariant i <= |calls|
        invariant forall k :: 0 <= k < i ==> calls[k].callId != id
      {
        i := i + 1;
      }
    }

    method AllocateRtpPort() returns (port: int)
      modifies this`rtpPortNext
      ensures port == old(rtpPortNext) && rtpPortNext == old(rtpPortNext) + 2
    {
      port := rtpPortNext;
      rtpPortNext := rtpPortNext + 2;
    }

    // ---- Outgoing INVITE --------------------------------------------------

    method StartCall(id: string, callIndex: nat)
      modifies this
      ensures World() == StartInvite(old(World()), id, callIndex)
    {
      var port := AllocateRtpPort();
      calls := calls + [VolteCall(id, callIndex, Initiating, true, port, None, false)];
      pending := pending[id := callIndex];
    }

    /** A provisional 180 response */
    method OnRinging(id: string)
      modifies this, hal
      ensures World() == Ringing(old(World()), id)
    {
      var i := Get(id);
      if id in pending && i < |calls| && calls[i].outgoing {
        calls := calls[i := calls[i].(state := RingingOut)];
        hal.UpdateCallState(calls[i].index, ALERTING);
      }
    }

    /** A 200 response to an INVITE */
    method OnInviteOk(id: string, mediaStarts: bool)
      modifies this, hal
      ensures World() == InviteOk(old(World()), id, mediaStarts)
    {
      if id !in pending {
        return;
      }
      var index := pending[id];
      pending := pending - {id};
      var i := Get(id);
      if i < |calls| {
        calls := calls[i := WithMedia(calls[i].(state := Active), mediaStarts)];
      }
      hal.UpdateCallState(index, ACTIVE);
      if index != 0 {
        hal.LearnCallId(index, id);
      }
    }

    /** A final failure, or a timeout */
    method OnInviteFailed(id: string)
      modifies this, hal
      ensures World() == InviteFailed(old(World()), id)
    {
      if id !in pending {
        return;
      }
      var index := pending[id];
      pending := pending - {id};
      var i := Get(id);
      if i < |calls| {
        calls := calls[..i] + calls[i + 1..];
        if index != 0 {
          hal.RemoveCall(index);
        }
      }
    }

    // ---- Sessions ---------------------------------------------------------

    method AnswerCall(id: string, mediaStarts: bool) returns (ok: bool)
      modifies this
      ensures World() == AnswerSession(old(World()), id, mediaStarts)
      ensures ok <==> Has(old(calls), id) && CallOf(old(calls), id).state == RingingIn
    {
      var i := Get(id);
      ok := i < |calls| && calls[i].state == RingingIn;
      if ok {
        calls := calls[i := WithMedia(calls[i].(state := Active), mediaStarts)];
      }
    }

    method HoldCall(id: string) returns (ok: bool)
      modifies this, hal
      ensures World() == HoldSession(old(World()), id)
      ensures ok <==> Has(old(calls), id) && CallOf(old(calls), id).state == Active
    {
      var i := Get(id);
      ok := i < |calls| && calls[i].state == Active;
      if ok {
        calls := calls[i := Pausing(calls[i].(state := Held), true)];
        hal.UpdateCallState(calls[i].index, HOLDING);
      }
    }

    method ResumeCall(id: string) returns (ok: bool)
      modifies this, hal
      ensures World() == ResumeSession(old(World()), id)
      ensures ok <==> Has(old(calls), id) && CallOf(old(calls), id).state == Held
    {
      var i := Get(id);
      ok := i < |calls| && calls[i].state == Held;
      if ok {
        calls := calls[i := Pausing(calls[i].(state := Active), false)];
        hal.UpdateCallState(calls[i].index, ACTIVE);
      }
    }

    method SwapCalls()
      modifies this, hal
      ensures World() == SwapSessions(old(World()))
    {
      hide HoldSession, ResumeSession, FirstIn;
      var active, held := |calls|, |calls|;
      for i := 0 to |calls|
        invariant calls == old(calls) && 0 <= active <= |calls| && 0 <= held <= |calls|
        invariant if active == |calls| then forall k :: 0 <= k < i ==> calls[k].state != Active
                  else calls[active].state == Active && forall k :: 0 <= k < active ==> calls[k].state != Active
        invariant if held == |calls| then forall k :: 0 <= k < i ==> calls[k].state != Held
                  else calls[held].state == Held && forall k :: 0 <= k < held ==> calls[k].state != Held
      {
        if calls[i].state == Active && active == |calls| {
          active := i;
        } else if calls[i].state == Held && held == |calls| {
          held := i;
        }
      }
      assert active == FirstIn(calls, Active) && held == FirstIn(calls, Held);
      var listed := calls;
      if active < |listed| {
        var _ := HoldCall(listed[active].callId);
      }
      if held < |listed| {
        var _ := ResumeCall(listed[held].callId);
      }
    }

    method ConferenceCalls() returns (ok: bool)
      modifies this, hal
      ensures World() == ConferenceSessions(old(World()))
      ensures ok <==> (exists m :: m in old(calls) && m.state == Active) && exists m :: m in old(calls) && m.state == Held
    {
      hide JoinVoice, CallAt;
      var active, held := None, None;
      for i := 0 to |calls|
        invariant calls == old(calls)
        invariant active == LastIn(calls[..i], Active) && held == LastIn(calls[..i], Held)
      {
        assert calls[..i + 1][..i] == calls[..i];
        if calls[i].state == Active {
          active := Some(calls[i]);
        } else if calls[i].state == Held {
          held := Some(calls[i]);
        }
      }
      assert calls[..|calls|] == calls;
      if active.None? || held.None? {
        return false;
      }
      ok := true;
      var at := Get(held.value.callId);
      if at < |calls| {
        calls := calls[at := Pausing(held.value.(state := Active), false)];
      }
      MarkMultiParty(active.value.callId, held.value.callId);
    }

    /** The loop that joins the HAL's calls */
    method MarkMultiParty(a: string, b: string)
      modifies hal`voiceCalls
      ensures hal.voiceCalls == JoinVoice(old(hal.voiceCalls), a, b)
    {
      for i := 0 to |hal.voiceCalls|
        invariant |hal.voiceCalls| == old(|hal.voiceCalls|)
        invariant forall k :: 0 <= k < i ==> hal.voiceCalls[k] == Joined(old(hal.voiceCalls)[k], a, b)
        invariant forall k :: i <= k < |hal.voiceCalls| ==> hal.voiceCalls[k] == old(hal.voiceCalls)[k]
      {
        var v := hal.voiceCalls[i];
        if v.callId == a || v.callId == b {
          hal.voiceCalls := hal.voiceCalls[i := v.(isMpty := true, state := ACTIVE)];
        }
      }
    }

    /** A REFER, answered by the far end */
    method TransferCall(id: string, accepted: bool) returns (ok: bool)
      modifies this
      ensures World() == TransferSession(old(World()), id, accepted)
      ensures ok <==> accepted && Transferable(old(World()), id)
    {
      var i := Get(id);
      ok := i < |calls| && (calls[i].state == Active || calls[i].state == Held) && accepted;
      if ok {
        calls := calls[i := calls[i].(state := Active, transferPending := true)];
      }
    }

    method AttendedTransferCall(idA: string, idB: string, accepted: bool) returns (ok: bool)
      modifies this
      ensures World() == AttendedTransfer(old(World()), idA, idB, accepted)
    {
      var a := Get(idA);
      var b := Get(idB);
      ok := a < |calls| && b < |calls| && (calls[a].state == Active || calls[a].state == Held) && accepted;
      if ok {
        calls := calls[a := calls[a].(transferPending := true)];
      }
    }

    method HangupCall(id: string) returns (ok: bool)
      modifies this
      ensures World() == HangupSession(old(World()), id)
      ensures ok <==> Has(old(calls), id)
    {
      var i := Get(id);
      ok := i < |calls|;
      if ok {
        calls := calls[..i] + calls[i + 1..];
      }
    }

    // ---- Incoming requests ------------------------------------------------

    method OnInvite(id: string, direction: Direction, forwardedAs: Option<string>)
      modifies this, hal
      ensures World() == Invite(old(World()), id, direction, forwardedAs)
    {
      hide IncomingInvite, ReInvite;
      var i := Get(id);
      if i < |calls| {
        OnReInvite(i, direction);
      } else {
        OnNewInvite(id, forwardedAs);
      }
    }

    method OnNewInvite(id: string, forwardedAs: Option<string>)
      requires !Has(calls, id)
      modifies this, hal
      ensures World() == IncomingInvite(old(World()), id, forwardedAs)
    {
      hide CallAt, FirstVoice;
      var port := AllocateRtpPort();
      ghost var before := calls;
      var call := VolteCall(id, 0, RingingIn, false, port, None, false);
      calls := calls + [call];
      RungLast(before, call);
      hal.IncomingCall(this, id, forwardedAs);
      if forwardedAs.None? {
        var at := Get(id);
        calls := calls[at := call.(index := hal.voiceCalls[|hal.voiceCalls| - 1].index)];
      }
    }

    method OnReInvite(i: nat, direction: Direction)
      requires i < |calls| && CallAt(calls, calls[i].callId) == i
      modifies this, hal
      ensures World() == ReInvite(old(World()), old(calls[i].callId), direction)
    {
      match direction
      case RemoteHold =>
        calls := calls[i := Pausing(calls[i].(state := Held), true)];
        hal.UpdateCallState(calls[i].index, HOLDING);
      case RemoteResume =>
        calls := calls[i := Pausing(calls[i].(state := Active), false)];
        hal.UpdateCallState(calls[i].index, ACTIVE);
      case Unchanged =>
    }

    /** BYE and CANCEL */
    method OnBye(id: string)
      modifies this, hal
      ensures World() == RemoteBye(old(World()), id)
    {
      var known := HangupCall(id);
      if known {
        var k := 0;
        while k < |hal.voiceCalls| && hal.voiceCalls[k].callId != id
          invariant k <= |hal.voiceCalls|
          invariant forall j :: 0 <= j < k ==> hal.voiceCalls[j].callId != id
        {
          k := k + 1;
        }
        if k < |hal.voiceCalls| {
          hal.RemoveCall(hal.voiceCalls[k].index);
        }
      }
    }

    method OnRefer(id: string, dialAs: Option<string>)
      modifies this, hal
      ensures World() == RemoteRefer(old(World()), id, dialAs)
    {
      var i := Get(id);
      if i < |calls| && dialAs.Some? {
        var _ := HangupCall(id);
        hal.Dial(this, dialAs.value);
      }
    }

    method OnNotify(id: string, status: TransferStatus, terminated: bool)
      modifies this
      ensures World() == Notify(old(World()), id, status, terminated)
    {
      var i := Get(id);
      if i == |calls| {
        return;
      }
      if status.Failed? {
        calls := calls[i := calls[i].(transferPending := false)];
      } else if (status.Succeeded? || terminated) && calls[i].transferPending {
        var _ := HangupCall(id);
      }
    }
  }

  /** A session added under a new Call-ID is the one its Call-ID names. */
  lemma {:induction false} RungLast(calls: seq<VolteCall>, m: VolteCall)
    requires !Has(calls, m.callId)
    ensures CallAt(calls + [m], m.callId) == |calls| && Pop(calls + [m], m.callId) == calls
  {
    if calls != [] {
      assert (calls + [m])[1..] == calls[1..] + [m];
      RungLast(calls[1..], m);
    }
  }
}
