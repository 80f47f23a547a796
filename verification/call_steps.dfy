/**
 * Call control as atomic steps over both tables: what each handler of the VoLTE
 * call manager and of the Radio HAL does, with the outgoing INVITE split into
 * its start, the 180 response, and the final response.
 */
module CallSteps {
  import opened CallTables
  import opened Wrappers

  /**
   * Both tables, the counters that feed them, and the outgoing INVITEs awaiting a
   * final response: by Call-ID, the HAL index dialled, or 0 for none.
   */
  datatype World = World(
    calls: seq<VolteCall>,
    nextPort: int,
    pending: map<string, nat>,
    voice: seq<VoiceCall>,
    nextIndex: nat)

  function Start(portBase: int): World {
    World([], portBase, map[], [], 1)
  }

  // ---- Sessions -----------------------------------------------------------

  function WithMedia(m: VolteCall, starts: bool): VolteCall {
    if starts then m.(media := Some(false)) else m
  }

  /** `media_session.hold()` or `.resume()`, when there is one. */
  function Pausing(m: VolteCall, paused: bool): VolteCall {
    if m.media.Some? then m.(media := Some(paused)) else m
  }

  function NewSession(w: World, id: string, index: nat, state: VolteState, outgoing: bool): World {
    w.(calls := w.calls + [VolteCall(id, index, state, outgoing, w.nextPort, None, false)],
       nextPort := w.nextPort + 2)
  }

  function HangupSession(w: World, id: string): World {
    w.(calls := Pop(w.calls, id))
  }

  /** Putting a session in a state and telling the HAL. */
  function Move(w: World, m: VolteCall, hal: HalState): World {
    w.(calls := Update(w.calls, m), voice := SetHal(w.voice, m.index, hal))
  }

  function HoldSession(w: World, id: string): World {
    if !Has(w.calls, id) || CallOf(w.calls, id).state != Active then w
    else Move(w, Pausing(CallOf(w.calls, id).(state := Held), true), HOLDING)
  }

  function ResumeSession(w: World, id: string): World {
    if !Has(w.calls, id) || CallOf(w.calls, id).state != Held then w
    else Move(w, Pausing(CallOf(w.calls, id).(state := Active), false), ACTIVE)
  }

  function AnswerSession(w: World, id: string, mediaStarts: bool): World {
    if !Has(w.calls, id) || CallOf(w.calls, id).state != RingingIn then w
    else w.(calls := Update(w.calls, WithMedia(CallOf(w.calls, id).(state := Active), mediaStarts)))
  }

  /** The first active session is held and the first held one resumed. */
  function SwapSessions(w: World): World {
    var a, h := FirstIn(w.calls, Active), FirstIn(w.calls, Held);
    var w1 := if a < |w.calls| then HoldSession(w, w.calls[a].callId) else w;
    if h < |w.calls| then ResumeSession(w1, w.calls[h].callId) else w1
  }

  function JoinVoice(voice: seq<VoiceCall>, a: string, b: string): (r: seq<VoiceCall>)
    ensures |r| == |voice|
    ensures forall i :: 0 <= i < |voice| ==> r[i] == Joined(voice[i], a, b)
  {
    seq(|voice|, i requires 0 <= i < |voice| => Joined(voice[i], a, b))
  }

  function Joined(v: VoiceCall, a: string, b: string): VoiceCall {
    if v.callId == a || v.callId == b then v.(isMpty := true, state := ACTIVE) else v
  }

  /** The last active and the last held session become one conference. */
  function ConferenceSessions(w: World): World {
    match (LastIn(w.calls, Active), LastIn(w.calls, Held))
    case (Some(a), Some(h)) =>
      w.(calls := Update(w.calls, Pausing(h.(state := Active), false)),
         voice := JoinVoice(w.voice, a.callId, h.callId))
    case _ => w
  }

  /** A REFER; accepted, it puts the session in the active state whatever it was. */
  function TransferSession(w: World, id: string, accepted: bool): World {
    if !Transferable(w, id) || !accepted then w
    else w.(calls := Update(w.calls, CallOf(w.calls, id).(state := Active, transferPending := true)))
  }

  predicate Transferable(w: World, id: string) {
    Has(w.calls, id) && (CallOf(w.calls, id).state == Active || CallOf(w.calls, id).state == Held)
  }

  /** An attended REFER only marks the session. */
  function AttendedTransfer(w: World, a: string, b: string, accepted: bool): World {
    if !Transferable(w, a) || !Has(w.calls, b) || !accepted then w
    else w.(calls := Update(w.calls, CallOf(w.calls, a).(transferPending := true)))
  }

  // ---- Outgoing INVITE ----------------------------------------------------

  function StartInvite(w: World, id: string, index: nat): World {
    NewSession(w, id, index, Initiating, true).(pending := w.pending[id := index])
  }

  function Dial(w: World, id: string): World {
    var v := VoiceCall(w.nextIndex, DIALING, false, false, "");
    StartInvite(w.(voice := w.voice + [v], nextIndex := w.nextIndex + 1), id, w.nextIndex)
  }

  function Ringing(w: World, id: string): World {
    if id !in w.pending || !Has(w.calls, id) || !CallOf(w.calls, id).outgoing then w
    else Move(w, CallOf(w.calls, id).(state := RingingOut), ALERTING)
  }

  /** 200 OK: the session, if it is still there, is active, and the dialled call learns its Call-ID. */
  function InviteOk(w: World, id: string, mediaStarts: bool): World {
    if id !in w.pending then w
    else
      var index := w.pending[id];
      var calls := if Has(w.calls, id)
                   then Update(w.calls, WithMedia(CallOf(w.calls, id).(state := Active), mediaStarts))
                   else w.calls;
      var voice := SetHal(w.voice, index, ACTIVE);
      w.(calls := calls, pending := w.pending - {id}, voice := if index == 0 then voice else LearnId(voice, index, id))
  }

  function LearnId(voice: seq<VoiceCall>, index: nat, id: string): seq<VoiceCall> {
    var i := VoiceAt(voice, index);
    if i < |voice| then voice[i := voice[i].(callId := id)] else voice
  }

  /**
   * A final failure or timeout drops the session and then the dialled call; if the
   * session is gone already, the KeyError leaves the call behind.
   */
  function InviteFailed(w: World, id: string): World {
    if id !in w.pending then w
    else if !Has(w.calls, id) then w.(pending := w.pending - {id})
    else w.(calls := Pop(w.calls, id), pending := w.pending - {id},
            voice := if w.pending[id] == 0 then w.voice else Remove(w.voice, w.pending[id]))
  }

  // ---- Incoming SIP requests ----------------------------------------------

  /** Rings, unless a forwarding rule answers with a call of our own. */
  function IncomingInvite(w: World, id: string, forwardedAs: Option<string>): World {
    match forwardedAs
    case Some(newId) => StartInvite(w.(nextPort := w.nextPort + 2), newId, 0)
    case None =>
      var busy := FirstVoice(w.voice, ACTIVE) < |w.voice|;
      var v := VoiceCall(w.nextIndex, if busy then WAITING else INCOMING, true, false, id);
      NewSession(w, id, w.nextIndex, RingingIn, false).(voice := w.voice + [v], nextIndex := w.nextIndex + 1)
  }

  /** What the SDP of a re-INVITE asks for. */
  datatype Direction = RemoteHold | RemoteResume | Unchanged

  function ReInvite(w: World, id: string, direction: Direction): World {
    if !Has(w.calls, id) then w
    else match direction
      case RemoteHold => Move(w, Pausing(CallOf(w.calls, id).(state := Held), true), HOLDING)
      case RemoteResume => Move(w, Pausing(CallOf(w.calls, id).(state := Active), false), ACTIVE)
      case Unchanged => w
  }

  /** An INVITE for a known Call-ID is a re-INVITE. */
  function Invite(w: World, id: string, direction: Direction, forwardedAs: Option<string>): World {
    if Has(w.calls, id) then ReInvite(w, id, direction) else IncomingInvite(w, id, forwardedAs)
  }

  /** BYE and CANCEL: both sides drop the call. */
  function RemoteBye(w: World, id: string): World {
    if !Has(w.calls, id) then w
    else
      var i := VoiceById(w.voice, id);
      w.(calls := Pop(w.calls, id), voice := if i < |w.voice| then Remove(w.voice, w.voice[i].index) else w.voice)
  }

  /** REFER from the far end: hang up and dial its target. */
  function RemoteRefer(w: World, id: string, dialAs: Option<string>): World {
    if !Has(w.calls, id) || dialAs.None? then w else Dial(HangupSession(w, id), dialAs.value)
  }

  /** The final status of our own REFER, if the NOTIFY carries one. */
  datatype TransferStatus = Succeeded | Failed | Progress

  function Notify(w: World, id: string, status: TransferStatus, terminated: bool): World {
    if !Has(w.calls, id) then w
    else if status.Failed? then w.(calls := Update(w.calls, CallOf(w.calls, id).(transferPending := false)))
    else if (status.Succeeded? || terminated) && CallOf(w.calls, id).transferPending then HangupSession(w, id)
    else w
  }

  // ---- Radio HAL requests -------------------------------------------------

  function HalAnswer(w: World, mediaStarts: bool): World {
    var i := FirstVoice(w.voice, INCOMING);
    if i == |w.voice| then w
    else AnswerSession(w.(voice := w.voice[i := w.voice[i].(state := ACTIVE)]), w.voice[i].callId, mediaStarts)
  }

  function HalHangup(w: World, index: nat): World {
    var i := VoiceAt(w.voice, index);
    if i == |w.voice| then w
    else
      var w1 := if w.voice[i].callId != "" then HangupSession(w, w.voice[i].callId) else w;
      w1.(voice := Remove(w.voice, index))
  }

  /** One turn of the loop that holds active calls. */
  function HoldVoice(w: World, i: nat): World {
    if i >= |w.voice| || w.voice[i].state != ACTIVE then w
    else HoldSession(w.(voice := w.voice[i := w.voice[i].(state := HOLDING)]), w.voice[i].callId)
  }

  function HoldVoices(w: World, n: nat): World {
    if n == 0 then w else HoldVoice(HoldVoices(w, n - 1), n - 1)
  }

  /** Answer a waiting call and hold the active ones, or else swap active and held. */
  function HalSwitch(w: World, mediaStarts: bool): World {
    var i := FirstVoice(w.voice, WAITING);
    if i == |w.voice| then SwapSessions(w)
    else
      var id := w.voice[i].callId;
      var w1 := HoldVoices(w, |w.voice|);
      var w2 := w1.(voice := if i < |w1.voice| then w1.voice[i := w1.voice[i].(state := ACTIVE)] else w1.voice);
      if id != "" then AnswerSession(w2, id, mediaStarts) else w2
  }

  function HalSeparate(w: World, index: nat): World {
    var i := PartyAt(w.voice, index);
    if i == |w.voice| then w
    else HoldSession(w.(voice := w.voice[i := w.voice[i].(isMpty := false, state := HOLDING)]), w.voice[i].callId)
  }

  /** Explicit call transfer: refer the held call's party and drop both calls. */
  function HalTransfer(w: World, accepted: bool): World {
    match (LastVoice(w.voice, ACTIVE), LastVoice(w.voice, HOLDING))
    case (Some(a), Some(h)) =>
      if !Transferable(w, h.callId) || !accepted then w
      else TransferSession(w, h.callId, true).(voice := Remove(Remove(w.voice, a.index), h.index))
    case _ => w
  }

  function HangupIds(w: World, voice: seq<VoiceCall>): World {
    if voice == [] then w
    else
      var w1 := HangupIds(w, voice[..|voice| - 1]);
      var id := voice[|voice| - 1].callId;
      if id != "" then HangupSession(w1, id) else w1
  }

  function HalHangupAll(w: World): World {
    HangupIds(w, w.voice).(voice := [])
  }

  // ---- Events -------------------------------------------------------------

  datatype Event =
    | HalDial(newId: string)
    | ApiDial(newId: string)
    | Sip180(id: string)
    | SipOk(id: string, mediaStarts: bool)
    | SipFailure(id: string)
    | SipInvite(id: string, direction: Direction, forwardedAs: Option<string>)
    | SipBye(id: string)
    | SipRefer(id: string, dialAs: Option<string>)
    | SipNotify(id: string, status: TransferStatus, terminated: bool)
    | HalAnswerCall(mediaStarts: bool)
    | HalHangupCall(index: nat)
    | HalSwitchCalls(mediaStarts: bool)
    | HalSeparateCall(index: nat)
    | HalTransferCalls(accepted: bool)
    | HalHangupEvery
    | HalPowerOff
    | Conference
    | ApiHold(id: string)
    | ApiResume(id: string)
    | ApiSwap
    | ApiTransfer(id: string, accepted: bool)
    | ApiAttended(a: string, b: string, accepted: bool)
    | ApiHangup(id: string)

  function Step(w: World, event: Event): World {
    match event
    case HalDial(newId) => Dial(w, newId)
    case ApiDial(newId) => StartInvite(w, newId, 0)
    case Sip180(id) => Ringing(w, id)
    case SipOk(id, mediaStarts) => InviteOk(w, id, mediaStarts)
    case SipFailure(id) => InviteFailed(w, id)
    case SipInvite(id, direction, forwardedAs) => Invite(w, id, direction, forwardedAs)
    case SipBye(id) => RemoteBye(w, id)
    case SipRefer(id, dialAs) => RemoteRefer(w, id, dialAs)
    case SipNotify(id, status, terminated) => Notify(w, id, status, terminated)
    case HalAnswerCall(mediaStarts) => HalAnswer(w, mediaStarts)
    case HalHangupCall(index) => HalHangup(w, index)
    case HalSwitchCalls(mediaStarts) => HalSwitch(w, mediaStarts)
    case HalSeparateCall(index) => HalSeparate(w, index)
    case HalTransferCalls(accepted) => HalTransfer(w, accepted)
    case HalHangupEvery => HalHangupAll(w)
    case HalPowerOff => w.(voice := [])
    case Conference => ConferenceSessions(w)
    case ApiHold(id) => HoldSession(w, id)
    case ApiResume(id) => ResumeSession(w, id)
    case ApiSwap => SwapSessions(w)
    case ApiTransfer(id, accepted) => TransferSession(w, id, accepted)
    case ApiAttended(a, b, accepted) => AttendedTransfer(w, a, b, accepted)
    case ApiHangup(id) => HangupSession(w, id)
  }
}
