/**
 * Media and hold: a session's media is paused exactly while the session is held,
 * on every run in which no held session with media is transferred.
 */
module CallMedia {
  import opened CallAgreement
  import opened CallSteps
  import opened CallTables
  import opened Wrappers

  /** Every media session is paused if and only if its call is held. */
  ghost predicate PausedWhenHeld(w: World) {
    forall m :: m in w.calls && m.media.Some? ==> (m.media.value <==> m.state == Held)
  }

  /** Media starts only when a session is answered, and a ringing session is not one of our INVITEs. */
  predicate MediaOk(pending: map<string, nat>, m: VolteCall) {
    && (m.media.Some? ==> (m.media.value <==> m.state == Held))
    && (m.callId in pending ==> m.media.None? && m.state != RingingIn)
    && (m.state == RingingIn ==> m.media.None?)
  }

  ghost predicate MediaInv(w: World) {
    && Distinct(w.calls)
    && (forall m :: m in w.calls ==> MediaOk(w.pending, m) && m.rtpPort + 2 <= w.nextPort)
  }

  // ---- What a change of the session table keeps ---------------------------

  lemma RewrittenKeeps(w: World, w': World, m: VolteCall)
    requires MediaInv(w) && Has(w.calls, m.callId) && m.rtpPort == CallOf(w.calls, m.callId).rtpPort
    requires w'.calls == Update(w.calls, m) && w'.nextPort == w.nextPort
    requires forall id :: id in w'.pending ==> id in w.pending
    requires MediaOk(w'.pending, m)
    ensures MediaInv(w')
  {
    hide Distinct, Update, Has;
    UpdateMembers(w.calls, m);
    assert CallOf(w.calls, m.callId) in w.calls;
  }

  lemma DroppedKeeps(w: World, w': World, id: string)
    requires MediaInv(w) && w'.calls == Pop(w.calls, id) && w'.nextPort == w.nextPort
    requires forall i :: i in w'.pending ==> i in w.pending
    ensures MediaInv(w')
  {
    hide Distinct, Pop;
    PopMembers(w.calls, id);
  }

  lemma SameCallsKeeps(w: World, w': World)
    requires MediaInv(w) && w'.calls == w.calls && w'.nextPort >= w.nextPort
    requires forall id :: id in w'.pending ==> id in w.pending
    ensures MediaInv(w')
  {
  }

  lemma AddedKeeps(w: World, w': World, m: VolteCall)
    requires MediaInv(w) && Fresh(w, m.callId)
    requires w'.calls == w.calls + [m] && w.nextPort <= m.rtpPort && w'.nextPort == m.rtpPort + 2
    requires forall id :: id in w'.pending ==> id in w.pending || (id == m.callId && m.state == Initiating)
    requires m.media.None?
    ensures MediaInv(w')
  {
    assert forall k :: 0 <= k < |w.calls| ==> w.calls[k] in w.calls;
    forall x | x in w'.calls
      ensures MediaOk(w'.pending, x) && x.rtpPort + 2 <= w'.nextPort
    {
      assert x == m || x in w.calls;
    }
  }

  // ---- What each handler keeps --------------------------------------------

  lemma HoldKeeps(w: World, id: string)
    requires MediaInv(w)
    ensures MediaInv(HoldSession(w, id))
  {
    hide Has, CallOf, Update, SetHal, MediaInv;
    if Has(w.calls, id) && CallOf(w.calls, id).state == Active {
      UseMedia(w, id);
      RewrittenKeeps(w, HoldSession(w, id), Pausing(CallOf(w.calls, id).(state := Held), true));
    }
  }

  lemma ResumeKeeps(w: World, id: string)
    requires MediaInv(w)
    ensures MediaInv(ResumeSession(w, id))
  {
    hide Has, CallOf, Update, SetHal, MediaInv;
    if Has(w.calls, id) && CallOf(w.calls, id).state == Held {
      UseMedia(w, id);
      RewrittenKeeps(w, ResumeSession(w, id), Pausing(CallOf(w.calls, id).(state := Active), false));
    }
  }

  lemma UseMedia(w: World, id: string)
    requires MediaInv(w) && Has(w.calls, id)
    ensures MediaOk(w.pending, CallOf(w.calls, id))
  {
  }

  lemma AnswerKeeps(w: World, w': World, id: string, mediaStarts: bool)
    requires MediaInv(w) && w'.calls == w.calls && w'.nextPort == w.nextPort && w'.pending == w.pending
    ensures MediaInv(AnswerSession(w', id, mediaStarts))
  {
    hide Has, CallOf, Update, SetHal, MediaInv;
    SameCallsKeeps(w, w');
    if Has(w.calls, id) && CallOf(w.calls, id).state == RingingIn {
      UseMedia(w, id);
      RewrittenKeeps(w, AnswerSession(w', id, mediaStarts), WithMedia(CallOf(w.calls, id).(state := Active), mediaStarts));
    }
  }

  lemma HoldVoiceMedia(w: World, i: nat)
    requires MediaInv(w)
    ensures MediaInv(HoldVoice(w, i))
  {
    hide MediaInv, HoldSession;
    if i < |w.voice| && w.voice[i].state == ACTIVE {
      var w1 := w.(voice := w.voice[i := w.voice[i].(state := HOLDING)]);
      SameCallsKeeps(w, w1);
      HoldKeeps(w1, w.voice[i].callId);
    }
  }

  lemma {:induction false} HoldVoicesMedia(w: World, n: nat)
    requires MediaInv(w)
    ensures MediaInv(HoldVoices(w, n))
  {
    hide MediaInv, HoldVoice;
    if n > 0 {
      HoldVoicesMedia(w, n - 1);
      HoldVoiceMedia(HoldVoices(w, n - 1), n - 1);
    }
  }

  lemma SwapMedia(w: World)
    requires MediaInv(w)
    ensures MediaInv(SwapSessions(w))
  {
    hide MediaInv, HoldSession, ResumeSession;
    var a, h := FirstIn(w.calls, Active), FirstIn(w.calls, Held);
    if a < |w.calls| {
      HoldKeeps(w, w.calls[a].callId);
    }
    var w1 := if a < |w.calls| then HoldSession(w, w.calls[a].callId) else w;
    if h < |w.calls| {
      ResumeKeeps(w1, w.calls[h].callId);
    }
  }

  lemma SwitchMedia(w: World, mediaStarts: bool)
    requires MediaInv(w)
    ensures MediaInv(HalSwitch(w, mediaStarts))
  {
    hide MediaInv, HoldVoices, SwapSessions, AnswerSession;
    var i := FirstVoice(w.voice, WAITING);
    if i == |w.voice| {
      SwapMedia(w);
    } else {
      HoldVoicesMedia(w, |w.voice|);
      var w1 := HoldVoices(w, |w.voice|);
      var w2 := w1.(voice := if i < |w1.voice| then w1.voice[i := w1.voice[i].(state := ACTIVE)] else w1.voice);
      SameCallsKeeps(w1, w2);
      AnswerKeeps(w1, w2, w.voice[i].callId, mediaStarts);
    }
  }

  lemma {:induction false} HangupIdsMedia(w: World, voice: seq<VoiceCall>)
    requires MediaInv(w)
    ensures MediaInv(HangupIds(w, voice))
  {
    hide MediaInv;
    if voice != [] {
      var w1, id := HangupIds(w, voice[..|voice| - 1]), voice[|voice| - 1].callId;
      HangupIdsMedia(w, voice[..|voice| - 1]);
      DroppedKeeps(w1, HangupSession(w1, id), id);
    }
  }

  lemma ConferenceMedia(w: World)
    requires MediaInv(w)
    ensures MediaInv(ConferenceSessions(w))
  {
    hide MediaInv, Update, JoinVoice, Has;
    var a, h := LastIn(w.calls, Active), LastIn(w.calls, Held);
    if a.Some? && h.Some? {
      assert Has(w.calls, h.value.callId) && CallOf(w.calls, h.value.callId) == h.value by {
        HeldEntry(w, h.value);
      }
      UseMedia(w, h.value.callId);
      RewrittenKeeps(w, ConferenceSessions(w), Pausing(h.value.(state := Active), false));
    }
  }

  lemma HeldEntry(w: World, h: VolteCall)
    requires MediaInv(w) && h in w.calls
    ensures Has(w.calls, h.callId) && CallOf(w.calls, h.callId) == h
  {
    HasMember(w.calls, h.callId);
    OneSession(w.calls, h, CallOf(w.calls, h.callId));
  }

  /** One session changed to one the rules allow, or none changed. */
  lemma OneRewritten(w: World, w': World, m: VolteCall)
    requires MediaInv(w) && w'.pending == w.pending && w'.nextPort == w.nextPort
    requires w'.calls == w.calls
             || (Has(w.calls, m.callId) && m.rtpPort == CallOf(w.calls, m.callId).rtpPort
                 && w'.calls == Update(w.calls, m)
                 && (MediaOk(w.pending, CallOf(w.calls, m.callId)) ==> MediaOk(w.pending, m)))
    ensures MediaInv(w')
  {
    hide MediaInv, Update, Has, CallOf;
    if w'.calls == w.calls {
      SameCallsKeeps(w, w');
    } else {
      UseMedia(w, m.callId);
      RewrittenKeeps(w, w', m);
    }
  }

  lemma ReInviteMedia(w: World, id: string, direction: Direction)
    requires MediaInv(w)
    ensures MediaInv(ReInvite(w, id, direction))
  {
    hide MediaInv, Update, Has, CallOf;
    if Has(w.calls, id) {
      var m := CallOf(w.calls, id);
      OneRewritten(w, ReInvite(w, id, direction),
                   if direction.RemoteHold? then Pausing(m.(state := Held), true) else Pausing(m.(state := Active), false));
    }
  }

  lemma InviteMedia(w: World, id: string, forwardedAs: Option<string>)
    requires MediaInv(w) && Fresh(w, id) && (forwardedAs.Some? ==> Fresh(w, forwardedAs.value))
    ensures MediaInv(IncomingInvite(w, id, forwardedAs))
  {
    hide MediaInv, Fresh;
    var w' := IncomingInvite(w, id, forwardedAs);
    AddedKeeps(w, w', w'.calls[|w.calls|]);
  }

  lemma InviteOkMedia(w: World, id: string, mediaStarts: bool)
    requires MediaInv(w)
    ensures MediaInv(InviteOk(w, id, mediaStarts))
  {
    hide MediaInv, Update, Has, CallOf, SetHal, LearnId;
    var w' := InviteOk(w, id, mediaStarts);
    if id in w.pending && Has(w.calls, id) {
      UseMedia(w, id);
      RewrittenKeeps(w, w', WithMedia(CallOf(w.calls, id).(state := Active), mediaStarts));
    } else {
      SameCallsKeeps(w, w');
    }
  }

  lemma ReferMedia(w: World, id: string, dialAs: Option<string>)
    requires MediaInv(w) && (dialAs.Some? ==> Fresh(w, dialAs.value))
    ensures MediaInv(RemoteRefer(w, id, dialAs))
  {
    hide MediaInv, Pop, Distinct;
    if Has(w.calls, id) && dialAs.Some? {
      var w1 := HangupSession(w, id);
      DroppedKeeps(w, w1, id);
      assert Fresh(w1, dialAs.value) by {
        assert Distinct(w.calls) by {
          UseDistinct(w);
        }
        PopMembers(w.calls, id);
      }
      var w' := Dial(w1, dialAs.value);
      AddedKeeps(w1, w', w'.calls[|w1.calls|]);
    }
  }

  lemma UseDistinct(w: World)
    requires MediaInv(w)
    ensures Distinct(w.calls)
  {
  }

  // ---- Transfers ----------------------------------------------------------

  /** A transfer of this session would leave its media paused in the active state. */
  predicate PausedTransfer(w: World, id: string) {
    Has(w.calls, id) && CallOf(w.calls, id).state == Held && CallOf(w.calls, id).media.Some?
  }

  /** The step transfers a held session that has media. */
  predicate TransfersPaused(w: World, event: Event) {
    match event
    case ApiTransfer(id, accepted) => accepted && PausedTransfer(w, id)
    case HalTransferCalls(accepted) =>
      accepted && LastVoice(w.voice, ACTIVE).Some? && LastVoice(w.voice, HOLDING).Some?
      && PausedTransfer(w, LastVoice(w.voice, HOLDING).value.callId)
    case _ => false
  }

  lemma TransferMedia(w: World, w': World, id: string)
    requires MediaInv(w) && Transferable(w, id)
    requires w'.calls == Update(w.calls, CallOf(w.calls, id).(state := Active, transferPending := true))
    requires w'.pending == w.pending && w'.nextPort == w.nextPort
    ensures if PausedTransfer(w, id) then !PausedWhenHeld(w') else MediaInv(w')
  {
    hide Update, Distinct, Has, CallOf;
    var m := CallOf(w.calls, id);
    var m' := m.(state := Active, transferPending := true);
    UpdateMembers(w.calls, m');
    assert m' in w'.calls && MediaOk(w.pending, m);
  }

  /** Requests of the Radio HAL */
  lemma HalStepMedia(w: World, event: Event)
    requires MediaInv(w) && !TransfersPaused(w, event)
    requires event.HalAnswerCall? || event.HalHangupCall? || event.HalSwitchCalls? || event.HalSeparateCall?
             || event.HalTransferCalls? || event.HalHangupEvery? || event.HalPowerOff?
    ensures MediaInv(Step(w, event))
  {
    hide MediaInv, Has, CallOf, Pop, HalSwitch, HalSeparate, HalTransfer, AnswerSession, HangupIds, LastVoice, PausedTransfer;
    var w' := Step(w, event);
    match event
    case HalAnswerCall(mediaStarts) =>
      var i := FirstVoice(w.voice, INCOMING);
      if i < |w.voice| {
        AnswerKeeps(w, w.(voice := w.voice[i := w.voice[i].(state := ACTIVE)]), w.voice[i].callId, mediaStarts);
      }
    case HalHangupCall(index) =>
      if VoiceAt(w.voice, index) < |w.voice| && w.voice[VoiceAt(w.voice, index)].callId != "" {
        DroppedKeeps(w, w', w.voice[VoiceAt(w.voice, index)].callId);
      } else {
        SameCallsKeeps(w, w');
      }
    case HalSwitchCalls(mediaStarts) => SwitchMedia(w, mediaStarts);
    case HalSeparateCall(index) => SeparateMedia(w, index);
    case HalTransferCalls(accepted) => HalTransferMedia(w, accepted);
    case HalHangupEvery =>
      HangupIdsMedia(w, w.voice);
      SameCallsKeeps(HangupIds(w, w.voice), w');
    case HalPowerOff => SameCallsKeeps(w, w');
  }

  lemma StepMedia(w: World, event: Event)
    requires MediaInv(w) && FreshIds(w, event) && !TransfersPaused(w, event)
    ensures MediaInv(Step(w, event))
  {
    hide MediaInv, Fresh, HalAnswer, HalHangup, HalSeparate, HalTransfer, HalHangupAll, Notify, LastVoice, Update, Has, CallOf, Pop, Ringing, InviteOk, IncomingInvite, ReInvite, RemoteRefer, HalSwitch, HoldSession,
         ResumeSession, SwapSessions, AnswerSession, HangupIds, ConferenceSessions, PausedTransfer;
    var w' := Step(w, event);
    match event
    case HalDial(newId) => AddedKeeps(w, w', w'.calls[|w.calls|]);
    case ApiDial(newId) => AddedKeeps(w, w', w'.calls[|w.calls|]);
    case Sip180(id) => RingingMedia(w, id);
    case SipOk(id, mediaStarts) => InviteOkMedia(w, id, mediaStarts);
    case SipFailure(id) =>
      if id in w.pending && Has(w.calls, id) {
        DroppedKeeps(w, w', id);
      } else {
        SameCallsKeeps(w, w');
      }
    case SipInvite(id, direction, forwardedAs) =>
      if Has(w.calls, id) {
        ReInviteMedia(w, id, direction);
      } else {
        InviteMedia(w, id, forwardedAs);
      }
    case SipBye(id) =>
      if Has(w.calls, id) {
        DroppedKeeps(w, w', id);
      }
    case SipRefer(id, dialAs) => ReferMedia(w, id, dialAs);
    case SipNotify(id, status, terminated) => NotifyMedia(w, id, status, terminated);
    case HalAnswerCall(_) => HalStepMedia(w, event);
    case HalHangupCall(_) => HalStepMedia(w, event);
    case HalSwitchCalls(_) => HalStepMedia(w, event);
    case HalSeparateCall(_) => HalStepMedia(w, event);
    case HalTransferCalls(_) => HalStepMedia(w, event);
    case HalHangupEvery => HalStepMedia(w, event);
    case HalPowerOff => HalStepMedia(w, event);
    case Conference => ConferenceMedia(w);
    case ApiHold(id) => HoldKeeps(w, id);
    case ApiResume(id) => ResumeKeeps(w, id);
    case ApiSwap => SwapMedia(w);
    case ApiTransfer(id, accepted) =>
      if Transferable(w, id) && accepted {
        TransferMedia(w, w', id);
      }
    case ApiAttended(a, b, accepted) =>
      if Transferable(w, a) {
        OneRewritten(w, w', CallOf(w.calls, a).(transferPending := true));
      }
    case ApiHangup(id) => DroppedKeeps(w, w', id);
  }

  lemma RingingMedia(w: World, id: string)
    requires MediaInv(w)
    ensures MediaInv(Ringing(w, id))
  {
    hide MediaInv, Update, Has, CallOf, SetHal;
    if Has(w.calls, id) {
      OneRewritten(w, Ringing(w, id), CallOf(w.calls, id).(state := RingingOut));
    }
  }

  lemma NotifyMedia(w: World, id: string, status: TransferStatus, terminated: bool)
    requires MediaInv(w)
    ensures MediaInv(Notify(w, id, status, terminated))
  {
    hide MediaInv, Update, Has, CallOf, Pop;
    if Has(w.calls, id) {
      OneRewritten(w, w.(calls := Update(w.calls, CallOf(w.calls, id).(transferPending := false))),
                   CallOf(w.calls, id).(transferPending := false));
      DroppedKeeps(w, HangupSession(w, id), id);
    }
  }

  lemma SeparateMedia(w: World, index: nat)
    requires MediaInv(w)
    ensures MediaInv(HalSeparate(w, index))
  {
    hide MediaInv, HoldSession;
    var i := PartyAt(w.voice, index);
    if i < |w.voice| {
      var w1 := w.(voice := w.voice[i := w.voice[i].(isMpty := false, state := HOLDING)]);
      SameCallsKeeps(w, w1);
      HoldKeeps(w1, w.voice[i].callId);
    }
  }

  lemma HalTransferMedia(w: World, accepted: bool)
    requires MediaInv(w) && !TransfersPaused(w, HalTransferCalls(accepted))
    ensures MediaInv(HalTransfer(w, accepted))
  {
    hide MediaInv, Update, Has, CallOf, Remove, LastVoice, PausedTransfer;
    var a, h := LastVoice(w.voice, ACTIVE), LastVoice(w.voice, HOLDING);
    if a.Some? && h.Some? && Transferable(w, h.value.callId) && accepted {
      TransferMedia(w, HalTransfer(w, accepted), h.value.callId);
    }
  }

  /** A step keeps media and hold together if and only if it transfers no held session with media. */
  lemma PauseIsExact(w: World, event: Event)
    requires MediaInv(w) && FreshIds(w, event)
    ensures PausedWhenHeld(Step(w, event)) <==> !TransfersPaused(w, event)
  {
    hide MediaInv, FreshIds, PausedWhenHeld, Update, CallOf, Has, Remove, LastVoice;
    if TransfersPaused(w, event) {
      match event
      case ApiTransfer(id, accepted) => TransferMedia(w, Step(w, event), id);
      case HalTransferCalls(accepted) =>
        TransferMedia(w, Step(w, event), LastVoice(w.voice, HOLDING).value.callId);
    } else {
      StepMedia(w, event);
      MediaPaused(Step(w, event));
    }
  }

  lemma MediaPaused(w: World)
    requires MediaInv(w)
    ensures PausedWhenHeld(w)
  {
    assert forall m :: m in w.calls ==> MediaOk(w.pending, m);
  }

  ghost predicate NoPausedTransfer(portBase: int, events: seq<Event>) {
    forall n :: 0 <= n < |events| ==>
      FreshIds(After(portBase, events[..n]), events[n]) && !TransfersPaused(After(portBase, events[..n]), events[n])
  }

  lemma {:induction false} EveryRunMedia(portBase: int, events: seq<Event>)
    requires NoPausedTransfer(portBase, events)
    ensures MediaInv(After(portBase, events)) && PausedWhenHeld(After(portBase, events))
  {
    hide Step, FreshIds, TransfersPaused;
    if events != [] {
      var before := events[..|events| - 1];
      assert forall n :: 0 <= n < |before| ==> before[..n] == events[..n];
      EveryRunMedia(portBase, before);
      StepMedia(After(portBase, before), events[|events| - 1]);
    }
    MediaPaused(After(portBase, events));
  }
}
