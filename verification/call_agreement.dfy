/**
 * The two call tables stay in step: an invariant of every handler, and agreement
 * of the tables on every run.
 */
module CallAgreement {
  import opened CallSteps
  import opened CallTables
  import opened Wrappers

  // ---- Agreement ----------------------------------------------------------

  predicate Matches(m: VolteState, v: HalState) {
    match m
    case Initiating => v == DIALING
    case RingingOut => v == ALERTING
    case RingingIn => v == INCOMING || v == WAITING
    case Active => v == ACTIVE
    case Held => v == HOLDING
  }

  /** Sessions and HAL calls with the same index are in matching states. */
  ghost predicate Agreement(w: World) {
    forall m, v :: m in w.calls && v in w.voice && m.index == v.index ==> Matches(m.state, v.state)
  }

  /** HAL indices are unique and every session has its own pair of RTP and RTCP ports. */
  ghost predicate Separate(w: World) {
    && (forall i, j :: 0 <= i < j < |w.voice| ==> w.voice[i].index != w.voice[j].index)
    && (forall i, j :: 0 <= i < |w.calls| && 0 <= j < |w.calls| && i != j ==>
          {w.calls[i].rtpPort, w.calls[i].rtpPort + 1} !! {w.calls[j].rtpPort, w.calls[j].rtpPort + 1})
  }

  // ---- The invariant ------------------------------------------------------

  /** A session and a HAL call: linked by index, and by Call-ID once the INVITE is answered. */
  predicate PairOk(pending: map<string, nat>, m: VolteCall, v: VoiceCall) {
    && (v.callId == m.callId ==> v.index == m.index)
    && (m.index == v.index ==>
          && Matches(m.state, v.state)
          && (if m.callId in pending then v.callId == "" && !v.isMpty else v.callId == m.callId)
          && (v.isMpty ==> m.state == Active || m.state == Held))
  }

  /**
   * One session: early states only while its own INVITE is pending, ringing in only
   * when there is none; ports in step with the base and below the next.
   */
  predicate SessionOk(w: World, portBase: int, m: VolteCall) {
    && m.callId != "" && m.index < w.nextIndex
    && (m.state == Initiating || m.state == RingingOut ==> m.callId in w.pending)
    && (m.state == RingingIn ==> m.callId !in w.pending)
    && portBase <= m.rtpPort && m.rtpPort + 2 <= w.nextPort && (m.rtpPort - portBase) % 2 == 0
  }

  /** A pending INVITE and a session agree on the HAL index. */
  predicate PendingOk(id: string, index: nat, m: VolteCall) {
    (m.callId == id ==> m.index == index) && (index != 0 && m.index == index ==> m.callId == id)
  }

  ghost predicate Inv(w: World, portBase: int) {
    && Distinct(w.calls) && Ordered(w.voice)
    && w.nextIndex >= 1 && (w.nextPort - portBase) % 2 == 0 && portBase <= w.nextPort
    && (forall m :: m in w.calls ==> SessionOk(w, portBase, m))
    && (forall v :: v in w.voice ==> 1 <= v.index < w.nextIndex)
    && (forall a, b :: a in w.calls && b in w.calls && a.index == b.index != 0 ==> a.callId == b.callId)
    && (forall m, v :: m in w.calls && v in w.voice ==> PairOk(w.pending, m, v))
    && (forall id :: id in w.pending ==> id != "" && w.pending[id] < w.nextIndex)
    && (forall id, m :: id in w.pending && m in w.calls ==> PendingOk(id, w.pending[id], m))
  }

  lemma InvAgrees(w: World, portBase: int)
    requires Inv(w, portBase)
    ensures Agreement(w) && Separate(w)
  {
    forall m, v | m in w.calls && v in w.voice && m.index == v.index
      ensures Matches(m.state, v.state)
    {
      assert PairOk(w.pending, m, v);
    }
  }

  // ---- What the primitive steps keep --------------------------------------

  /** Writing a session over in place, with its HAL call in the matching state. */
  lemma MoveKeeps(w: World, portBase: int, m: VolteCall, hal: HalState)
    requires Inv(w, portBase) && Has(w.calls, m.callId)
    requires var prev := CallOf(w.calls, m.callId);
             m.index == prev.index && m.rtpPort == prev.rtpPort
    requires Matches(m.state, hal)
    requires m.state == Active || m.state == Held || (m.state == RingingOut && m.callId in w.pending)
    ensures Inv(Move(w, m, hal), portBase)
  {
    hide Has, CallOf, Update, SetHal, Distinct, Ordered, Matches;
    var w' := Move(w, m, hal);
    var prev := CallOf(w.calls, m.callId);
    UpdateMembers(w.calls, m);
    SetHalMembers(w.voice, m.index, hal);
    assert SessionOk(w, portBase, prev);
    forall x, v | x in w'.calls && v in w'.voice
      ensures PairOk(w'.pending, x, v)
    {
      var x0 := if x == m then prev else x;
      assert x0 in w.calls;
      if v.index == m.index {
        var y :| y in w.voice && v == y.(state := hal);
        assert PairOk(w.pending, x0, y) && PairOk(w.pending, prev, y);
      } else {
        assert PairOk(w.pending, x0, v);
      }
    }
    forall x | x in w'.calls
      ensures SessionOk(w', portBase, x)
    {
      assert x == m || SessionOk(w, portBase, x);
    }
    forall id, x | id in w'.pending && x in w'.calls
      ensures PendingOk(id, w'.pending[id], x)
    {
      assert PendingOk(id, w.pending[id], if x == m then prev else x);
    }
  }

  /** Writing a HAL call over in a way that suits every session. */
  lemma RewriteKeeps(w: World, portBase: int, v: VoiceCall)
    requires Inv(w, portBase)
    requires exists y :: y in w.voice && y.index == v.index
    requires forall m :: m in w.calls ==> PairOk(w.pending, m, v)
    ensures Inv(w.(voice := Rewrite(w.voice, v)), portBase)
  {
    hide Rewrite, Distinct, Ordered, PairOk, PendingOk;
    RewriteMembers(w.voice, v);
    assert forall m :: m in w.calls ==> SessionOk(w, portBase, m);
  }

  lemma HangupKeeps(w: World, portBase: int, id: string)
    requires Inv(w, portBase)
    ensures Inv(HangupSession(w, id), portBase)
  {
    hide Pop, Distinct, Ordered, PairOk, PendingOk;
    PopMembers(w.calls, id);
    assert forall m :: m in w.calls ==> SessionOk(w, portBase, m);
  }

  lemma RemoveKeeps(w: World, portBase: int, index: nat)
    requires Inv(w, portBase)
    ensures Inv(w.(voice := Remove(w.voice, index)), portBase)
  {
    hide Remove, Distinct, Ordered, PairOk, PendingOk;
    RemoveMembers(w.voice, index);
    assert forall m :: m in w.calls ==> SessionOk(w, portBase, m);
  }

  /** A Call-ID, not empty, that no session, HAL call or pending INVITE uses. */
  ghost predicate Fresh(w: World, id: string) {
    && id != "" && id !in w.pending
    && (forall m :: m in w.calls ==> m.callId != id)
    && (forall v :: v in w.voice ==> v.callId != id)
  }

  lemma AppendKeepsDistinct(w: World, portBase: int, m: VolteCall)
    requires Inv(w, portBase) && Fresh(w, m.callId) && m.rtpPort == w.nextPort
    ensures Distinct(w.calls + [m])
  {
    forall i | 0 <= i < |w.calls|
      ensures w.calls[i].callId != m.callId && w.calls[i].rtpPort + 2 <= m.rtpPort
    {
      assert w.calls[i] in w.calls;
      assert SessionOk(w, portBase, w.calls[i]);
    }
  }

  lemma AppendKeepsOrdered(w: World, portBase: int, v: VoiceCall)
    requires Inv(w, portBase) && v.index == w.nextIndex
    ensures Ordered(w.voice + [v])
  {
    forall i | 0 <= i < |w.voice|
      ensures w.voice[i].index < v.index
    {
      assert w.voice[i] in w.voice;
    }
  }

  /** An INVITE of our own with no HAL call. */
  lemma StartInviteKeeps(w: World, portBase: int, id: string)
    requires Inv(w, portBase) && Fresh(w, id)
    ensures Inv(StartInvite(w, id, 0), portBase)
  {
    hide Distinct, Ordered, Matches;
    var w' := StartInvite(w, id, 0);
    var m := VolteCall(id, 0, Initiating, true, w.nextPort, None, false);
    AppendKeepsDistinct(w, portBase, m);
    NewSessionKeeps(w, portBase, w', m);
  }

  /** A session for a new Call-ID whose index is 0 or the next, beside a HAL table that fits it. */
  lemma NewSessionKeeps(w: World, portBase: int, w': World, m: VolteCall)
    requires Inv(w, portBase) && Fresh(w, m.callId)
    requires w'.calls == w.calls + [m] && Distinct(w'.calls) && Ordered(w'.voice)
    requires w'.nextPort == w.nextPort + 2 && w.nextIndex <= w'.nextIndex
    requires SessionOk(w', portBase, m)
    requires m.index == 0 || m.index == w.nextIndex
    requires w'.pending == w.pending || w'.pending == w.pending[m.callId := m.index]
    requires forall v :: v in w'.voice ==>
               v in w.voice || (v.index == m.index == w.nextIndex && PairOk(w'.pending, m, v) && 1 <= v.index < w'.nextIndex
                                && (v.callId == m.callId || v.callId == ""))
    ensures Inv(w', portBase)
  {
    hide Distinct, Ordered, Matches;
    forall x | x in w'.calls
      ensures SessionOk(w', portBase, x)
    {
      if x != m {
        assert x in w.calls;
        assert SessionOk(w, portBase, x);
      }
    }
    forall x, v | x in w'.calls && v in w'.voice
      ensures PairOk(w'.pending, x, v)
    {
      if x != m {
        assert x in w.calls;
        assert SessionOk(w, portBase, x);
        assert v in w.voice ==> PairOk(w.pending, x, v);
      }
    }
    forall id, x | id in w'.pending && x in w'.calls
      ensures PendingOk(id, w'.pending[id], x)
    {
      if x != m && id != m.callId {
        assert x in w.calls;
        assert PendingOk(id, w.pending[id], x);
      } else if x != m {
        assert x in w.calls;
        assert SessionOk(w, portBase, x);
      }
    }
    forall a, b | a in w'.calls && b in w'.calls && a.index == b.index != 0
      ensures a.callId == b.callId
    {
      assert a == m || SessionOk(w, portBase, a);
      assert b == m || SessionOk(w, portBase, b);
    }
  }

  lemma DialKeeps(w: World, portBase: int, id: string)
    requires Inv(w, portBase) && Fresh(w, id)
    ensures Inv(Dial(w, id), portBase)
  {
    hide Distinct, Ordered;
    var w' := Dial(w, id);
    var m := VolteCall(id, w.nextIndex, Initiating, true, w.nextPort, None, false);
    AppendKeepsDistinct(w, portBase, m);
    AppendKeepsOrdered(w, portBase, VoiceCall(w.nextIndex, DIALING, false, false, ""));
    NewSessionKeeps(w, portBase, w', m);
  }

  lemma IncomingKeeps(w: World, portBase: int, id: string, forwardedAs: Option<string>)
    requires Inv(w, portBase) && Fresh(w, id)
    requires forwardedAs.Some? ==> Fresh(w, forwardedAs.value)
    ensures Inv(IncomingInvite(w, id, forwardedAs), portBase)
  {
    hide Distinct, Ordered;
    match forwardedAs
    case Some(newId) =>
      var w1 := w.(nextPort := w.nextPort + 2);
      assert Inv(w1, portBase) by {
        assert forall m :: m in w.calls ==> SessionOk(w, portBase, m);
      }
      StartInviteKeeps(w1, portBase, newId);
    case None =>
      var w' := IncomingInvite(w, id, None);
      var m := VolteCall(id, w.nextIndex, RingingIn, false, w.nextPort, None, false);
      AppendKeepsDistinct(w, portBase, m);
      AppendKeepsOrdered(w, portBase, w'.voice[|w.voice|]);
      NewSessionKeeps(w, portBase, w', m);
  }

  // ---- What each handler keeps --------------------------------------------

  /** No session has the HAL call by index or Call-ID. */
  ghost predicate Stray(w: World, v: VoiceCall) {
    forall m :: m in w.calls ==> m.index != v.index && m.callId != v.callId
  }

  /** A session awaiting its answer has this HAL call, which does not know its Call-ID yet. */
  ghost predicate Unknown(w: World, v: VoiceCall) {
    exists m :: m in w.calls && m.index == v.index && m.callId in w.pending
  }

  /** A HAL call that is not of an unanswered INVITE is its session's, by index and Call-ID, or no session's. */
  lemma Owner(w: World, portBase: int, v: VoiceCall)
    requires Inv(w, portBase) && v in w.voice
    requires v.state == INCOMING || v.state == WAITING || v.isMpty || !Unknown(w, v) || Has(w.calls, v.callId)
    ensures if Has(w.calls, v.callId) then
              var m := CallOf(w.calls, v.callId);
              m.index == v.index && Matches(m.state, v.state) && m.callId !in w.pending
              && (v.isMpty ==> m.state == Active || m.state == Held)
            else Stray(w, v)
  {
    hide Inv;
    UseInv(w, portBase);
    HasMember(w.calls, v.callId);
    if Has(w.calls, v.callId) {
      var m := CallOf(w.calls, v.callId);
      assert PairOk(w.pending, m, v) && SessionOk(w, portBase, m);
    } else {
      forall m | m in w.calls
        ensures m.index != v.index && m.callId != v.callId
      {
        assert PairOk(w.pending, m, v) && SessionOk(w, portBase, m);
      }
    }
  }

  lemma UseInv(w: World, portBase: int)
    requires Inv(w, portBase)
    ensures forall m :: m in w.calls ==> SessionOk(w, portBase, m)
    ensures forall m, v :: m in w.calls && v in w.voice ==> PairOk(w.pending, m, v)
    ensures Distinct(w.calls) && Ordered(w.voice)
  {
  }

  lemma {:induction false} PositionOf(voice: seq<VoiceCall>, i: nat)
    requires Ordered(voice) && i < |voice|
    ensures VoiceAt(voice, voice[i].index) == i
  {
  }

  /** Moving a HAL call and its session, if it has one in the right state, together. */
  lemma MoveVoiceKeeps(w: World, portBase: int, i: nat, hal: HalState, m: VolteCall)
    requires Inv(w, portBase) && i < |w.voice|
    requires Has(w.calls, w.voice[i].callId)
    requires var prev := CallOf(w.calls, w.voice[i].callId);
             m.callId == prev.callId && m.index == prev.index && m.rtpPort == prev.rtpPort
             && prev.index == w.voice[i].index
    requires Matches(m.state, hal) && m.callId !in w.pending && (m.state == Active || m.state == Held)
    ensures var voice := w.voice[i := w.voice[i].(state := hal)];
            && Inv(w.(calls := Update(w.calls, m), voice := voice), portBase)
            && SetHal(voice, m.index, hal) == voice
  {
    UseInv(w, portBase);
    PositionOf(w.voice, i);
    MoveKeeps(w, portBase, m, hal);
    var voice := w.voice[i := w.voice[i].(state := hal)];
    assert Ordered(voice);
    PositionOf(voice, i);
  }

  lemma StrayKeeps(w: World, portBase: int, i: nat, v: VoiceCall)
    requires Inv(w, portBase) && i < |w.voice| && v.index == w.voice[i].index
    requires Stray(w, v)
    ensures Inv(w.(voice := w.voice[i := v]), portBase)
  {
    UseInv(w, portBase);
    PositionOf(w.voice, i);
    assert w.voice[i] in w.voice;
    RewriteKeeps(w, portBase, v);
  }

  lemma HoldSessionKeeps(w: World, portBase: int, id: string)
    requires Inv(w, portBase)
    ensures Inv(HoldSession(w, id), portBase)
  {
    if Has(w.calls, id) && CallOf(w.calls, id).state == Active {
      assert SessionOk(w, portBase, CallOf(w.calls, id));
      MoveKeeps(w, portBase, Pausing(CallOf(w.calls, id).(state := Held), true), HOLDING);
    }
  }

  lemma ResumeSessionKeeps(w: World, portBase: int, id: string)
    requires Inv(w, portBase)
    ensures Inv(ResumeSession(w, id), portBase)
  {
    if Has(w.calls, id) && CallOf(w.calls, id).state == Held {
      assert SessionOk(w, portBase, CallOf(w.calls, id));
      MoveKeeps(w, portBase, Pausing(CallOf(w.calls, id).(state := Active), false), ACTIVE);
    }
  }

  lemma SwapKeeps(w: World, portBase: int)
    requires Inv(w, portBase)
    ensures Inv(SwapSessions(w), portBase)
  {
    hide Inv, HoldSession, ResumeSession;
    var a, h := FirstIn(w.calls, Active), FirstIn(w.calls, Held);
    if a < |w.calls| {
      HoldSessionKeeps(w, portBase, w.calls[a].callId);
    }
    var w1 := if a < |w.calls| then HoldSession(w, w.calls[a].callId) else w;
    if h < |w.calls| {
      ResumeSessionKeeps(w1, portBase, w.calls[h].callId);
    }
  }

  lemma ReInviteKeeps(w: World, portBase: int, id: string, direction: Direction)
    requires Inv(w, portBase)
    ensures Inv(ReInvite(w, id, direction), portBase)
  {
    if Has(w.calls, id) {
      var m := CallOf(w.calls, id);
      match direction
      case RemoteHold => MoveKeeps(w, portBase, Pausing(m.(state := Held), true), HOLDING);
      case RemoteResume => MoveKeeps(w, portBase, Pausing(m.(state := Active), false), ACTIVE);
      case Unchanged =>
    }
  }

  lemma RingingKeeps(w: World, portBase: int, id: string)
    requires Inv(w, portBase)
    ensures Inv(Ringing(w, id), portBase)
  {
    if id in w.pending && Has(w.calls, id) && CallOf(w.calls, id).outgoing {
      MoveKeeps(w, portBase, CallOf(w.calls, id).(state := RingingOut), ALERTING);
    }
  }

  /** Answering from the HAL: its call and the session ringing under its Call-ID become active. */
  lemma AnswerVoiceKeeps(w: World, portBase: int, i: nat, mediaStarts: bool)
    requires Inv(w, portBase) && i < |w.voice|
    requires w.voice[i].state == INCOMING || w.voice[i].state == WAITING
    ensures Inv(AnswerSession(w.(voice := w.voice[i := w.voice[i].(state := ACTIVE)]),
                              w.voice[i].callId, mediaStarts), portBase)
  {
    hide Inv;
    var v := w.voice[i];
    assert v in w.voice;
    Owner(w, portBase, v);
    if Has(w.calls, v.callId) {
      MoveVoiceKeeps(w, portBase, i, ACTIVE, WithMedia(CallOf(w.calls, v.callId).(state := Active), mediaStarts));
    } else {
      StrayKeeps(w, portBase, i, v.(state := ACTIVE));
    }
  }

  /** Every active HAL call's session, if it has one, is answered. */
  ghost predicate ActivesKnown(w: World) {
    forall v :: v in w.voice && v.state == ACTIVE ==> !Unknown(w, v)
  }

  lemma HoldVoiceKeeps(w: World, portBase: int, i: nat)
    requires Inv(w, portBase) && ActivesKnown(w)
    ensures var w' := HoldVoice(w, i);
            && Inv(w', portBase) && ActivesKnown(w') && |w'.voice| == |w.voice|
            && forall k :: 0 <= k < |w.voice| && w.voice[k].state != ACTIVE ==> w'.voice[k] == w.voice[k]
  {
    hide Inv, Distinct, Update, Has, CallOf, SetHal;
    UseInv(w, portBase);
    if i < |w.voice| && w.voice[i].state == ACTIVE {
      var v := w.voice[i];
      assert v in w.voice;
      Owner(w, portBase, v);
      if Has(w.calls, v.callId) {
        var m := Pausing(CallOf(w.calls, v.callId).(state := Held), true);
        MoveVoiceKeeps(w, portBase, i, HOLDING, m);
        UpdateMembers(w.calls, m);
        StillKnown(w, HoldVoice(w, i), i, m);
      } else {
        StrayKeeps(w, portBase, i, v.(state := HOLDING));
      }
    }
  }

  lemma StillKnown(w: World, w': World, i: nat, m: VolteCall)
    requires ActivesKnown(w) && i < |w.voice| && Has(w.calls, m.callId) && m.callId !in w.pending
    requires w'.pending == w.pending && w'.voice == w.voice[i := w.voice[i].(state := HOLDING)]
    requires forall x :: x in w'.calls ==> x == m || x in w.calls
    ensures ActivesKnown(w')
  {
    forall v | v in w'.voice && v.state == ACTIVE
      ensures !Unknown(w', v)
    {
      assert v in w.voice;
      assert !Unknown(w, v);
    }
  }

  lemma {:induction false} HoldVoicesKeep(w: World, portBase: int, n: nat)
    requires Inv(w, portBase) && ActivesKnown(w)
    ensures var w' := HoldVoices(w, n);
            && Inv(w', portBase) && ActivesKnown(w') && |w'.voice| == |w.voice|
            && forall k :: 0 <= k < |w.voice| && w.voice[k].state != ACTIVE ==> w'.voice[k] == w.voice[k]
  {
    hide Inv, HoldVoice, ActivesKnown;
    if n > 0 {
      HoldVoicesKeep(w, portBase, n - 1);
      HoldVoiceKeeps(HoldVoices(w, n - 1), portBase, n - 1);
    }
  }

  lemma SwitchKeeps(w: World, portBase: int, mediaStarts: bool)
    requires Inv(w, portBase)
    requires FirstVoice(w.voice, WAITING) < |w.voice| ==> ActivesKnown(w)
    ensures Inv(HalSwitch(w, mediaStarts), portBase)
  {
    hide Inv, HoldVoices, SwapSessions;
    var i := FirstVoice(w.voice, WAITING);
    if i == |w.voice| {
      SwapKeeps(w, portBase);
    } else {
      HoldVoicesKeep(w, portBase, |w.voice|);
      AnswerVoiceKeeps(HoldVoices(w, |w.voice|), portBase, i, mediaStarts);
      NoEmptyId(HoldVoices(w, |w.voice|), portBase);
    }
  }

  lemma NoEmptyId(w: World, portBase: int)
    requires Inv(w, portBase)
    ensures !Has(w.calls, "")
  {
    HasMember(w.calls, "");
    assert forall m :: m in w.calls ==> SessionOk(w, portBase, m);
  }

  lemma SeparateKeeps(w: World, portBase: int, index: nat)
    requires Inv(w, portBase)
    ensures Inv(HalSeparate(w, index), portBase)
  {
    hide Inv;
    var i := PartyAt(w.voice, index);
    if i < |w.voice| {
      var v := w.voice[i];
      assert v in w.voice;
      Owner(w, portBase, v);
      if Has(w.calls, v.callId) {
        var m := CallOf(w.calls, v.callId);
        SingleKeeps(w, portBase, i);
        var w1 := w.(voice := w.voice[i := v.(isMpty := false)]);
        assert w.voice[i := v.(isMpty := false, state := HOLDING)] == w1.voice[i := w1.voice[i].(state := HOLDING)];
        if m.state == Active {
          MoveVoiceKeeps(w1, portBase, i, HOLDING, Pausing(m.(state := Held), true));
        } else {
          assert v.(isMpty := false, state := HOLDING) == v.(isMpty := false);
        }
      } else {
        StrayKeeps(w, portBase, i, v.(isMpty := false, state := HOLDING));
      }
    }
  }

  lemma SingleKeeps(w: World, portBase: int, i: nat)
    requires Inv(w, portBase) && i < |w.voice| && w.voice[i].isMpty
    ensures Inv(w.(voice := w.voice[i := w.voice[i].(isMpty := false)]), portBase)
  {
    UseInv(w, portBase);
    PositionOf(w.voice, i);
    var v := w.voice[i];
    assert v in w.voice;
    forall m | m in w.calls
      ensures PairOk(w.pending, m, v.(isMpty := false))
    {
      assert PairOk(w.pending, m, v);
    }
    RewriteKeeps(w, portBase, v.(isMpty := false));
  }

  /** The HAL knows the Call-ID of the session a conference would resume, or has no call for it. */
  ghost predicate Mergeable(w: World) {
    LastIn(w.calls, Active).Some? && LastIn(w.calls, Held).Some? ==>
      forall v :: v in w.voice && v.index == LastIn(w.calls, Held).value.index ==> v.callId != ""
  }

  lemma ConferenceKeeps(w: World, portBase: int)
    requires Inv(w, portBase) && Mergeable(w)
    ensures Inv(ConferenceSessions(w), portBase)
  {
    hide Inv, Update;
    UseInv(w, portBase);
    var a, h := LastIn(w.calls, Active), LastIn(w.calls, Held);
    if a.Some? && h.Some? {
      HasMember(w.calls, h.value.callId);
      OneSession(w.calls, h.value, CallOf(w.calls, h.value.callId));
      MergeKeeps(w, portBase, a.value, h.value, Pausing(h.value.(state := Active), false));
    }
  }

  lemma MergeKeeps(w: World, portBase: int, a: VolteCall, h: VolteCall, m: VolteCall)
    requires Inv(w, portBase) && a in w.calls && h in w.calls && a.state == Active && h.state == Held
    requires Has(w.calls, h.callId) && CallOf(w.calls, h.callId) == h
    requires m == h.(state := Active, media := m.media)
    requires forall v :: v in w.voice && v.index == h.index ==> v.callId != ""
    ensures Inv(w.(calls := Update(w.calls, m), voice := JoinVoice(w.voice, a.callId, h.callId)), portBase)
  {
    hide Update, Distinct, Ordered, Matches, JoinVoice;
    UpdateMembers(w.calls, m);
    JoinPairs(w, portBase, a, h, m);
    JoinOrder(w.voice, a.callId, h.callId);
    var w' := w.(calls := Update(w.calls, m), voice := JoinVoice(w.voice, a.callId, h.callId));
    assert SessionOk(w, portBase, h);
    forall x | x in w'.calls
      ensures SessionOk(w', portBase, x)
    {
      assert x == m || SessionOk(w, portBase, x);
    }
    forall id, x | id in w'.pending && x in w'.calls
      ensures PendingOk(id, w'.pending[id], x)
    {
      assert PendingOk(id, w.pending[id], if x == m then h else x);
    }
  }

  lemma JoinOrder(voice: seq<VoiceCall>, a: string, b: string)
    requires Ordered(voice)
    ensures Ordered(JoinVoice(voice, a, b))
    ensures forall v :: v in JoinVoice(voice, a, b) ==> exists u :: u in voice && u.index == v.index
  {
    var after := JoinVoice(voice, a, b);
    forall v | v in after
      ensures exists u :: u in voice && u.index == v.index
    {
      var k :| 0 <= k < |voice| && v == after[k];
      assert voice[k] in voice;
    }
  }

  lemma JoinPairs(w: World, portBase: int, a: VolteCall, h: VolteCall, m: VolteCall)
    requires Inv(w, portBase) && a in w.calls && h in w.calls && a.state == Active && h.state == Held
    requires m.callId == h.callId && m.index == h.index && m.state == Active
    requires forall v :: v in w.voice && v.index == h.index ==> v.callId != ""
    ensures forall x, v :: (x == m || (x in w.calls && x.callId != m.callId)) && v in JoinVoice(w.voice, a.callId, h.callId)
              ==> PairOk(w.pending, x, v)
  {
    forall x, v | (x == m || (x in w.calls && x.callId != m.callId)) && v in JoinVoice(w.voice, a.callId, h.callId)
      ensures PairOk(w.pending, x, v)
    {
      var k :| 0 <= k < |w.voice| && v == JoinVoice(w.voice, a.callId, h.callId)[k];
      var u := w.voice[k];
      assert u in w.voice;
      var x0 := if x == m then h else x;
      assert PairOk(w.pending, a, u) && PairOk(w.pending, h, u) && PairOk(w.pending, x0, u);
      assert SessionOk(w, portBase, a) && SessionOk(w, portBase, h);
    }
  }

  /** Marks that no rule looks at. */
  lemma FlagKeeps(w: World, portBase: int, m: VolteCall)
    requires Inv(w, portBase) && Has(w.calls, m.callId)
    requires m == CallOf(w.calls, m.callId).(transferPending := m.transferPending)
    ensures Inv(w.(calls := Update(w.calls, m)), portBase)
  {
    hide Update, Distinct, Ordered, Matches;
    var prev := CallOf(w.calls, m.callId);
    UpdateMembers(w.calls, m);
    var w' := w.(calls := Update(w.calls, m));
    forall x | x in w'.calls
      ensures SessionOk(w', portBase, x)
    {
      assert SessionOk(w, portBase, if x == m then prev else x);
    }
    forall x, v | x in w'.calls && v in w'.voice
      ensures PairOk(w'.pending, x, v)
    {
      assert PairOk(w.pending, if x == m then prev else x, v);
    }
    forall id, x | id in w'.pending && x in w'.calls
      ensures PendingOk(id, w'.pending[id], x)
    {
      assert PendingOk(id, w.pending[id], if x == m then prev else x);
    }
  }

  lemma HalTransferKeeps(w: World, portBase: int, accepted: bool)
    requires Inv(w, portBase)
    ensures Inv(HalTransfer(w, accepted), portBase)
  {
    hide Inv, Update, Remove, LastVoice, Has, CallOf;
    var a, h := LastVoice(w.voice, ACTIVE), LastVoice(w.voice, HOLDING);
    if a.Some? && h.Some? && Transferable(w, h.value.callId) && accepted {
      Owner(w, portBase, h.value);
      var w1 := w.(voice := Remove(w.voice, a.value.index));
      RemoveKeeps(w, portBase, a.value.index);
      RemoveKeeps(w1, portBase, h.value.index);
      UseInv(w1, portBase);
      RemoveMembers(w1.voice, h.value.index);
      LoneTransferKeeps(w1.(voice := Remove(w1.voice, h.value.index)), portBase, h.value.callId);
    }
  }

  /** A transfer of a session without a HAL call */
  lemma LoneTransferKeeps(w: World, portBase: int, id: string)
    requires Inv(w, portBase) && Has(w.calls, id) && CallOf(w.calls, id).state == Held
    requires forall v :: v in w.voice ==> v.index != CallOf(w.calls, id).index
    ensures Inv(w.(calls := Update(w.calls, CallOf(w.calls, id).(state := Active, transferPending := true))), portBase)
  {
    hide Inv, Update, Has, CallOf, VoiceAt;
    var m := CallOf(w.calls, id);
    AbsentVoice(w.voice, m.index);
    MoveKeeps(w, portBase, m.(state := Active, transferPending := true), ACTIVE);
  }

  lemma {:induction false} AbsentVoice(voice: seq<VoiceCall>, index: nat)
    requires forall v :: v in voice ==> v.index != index
    ensures VoiceAt(voice, index) == |voice|
  {
    if voice != [] {
      assert voice[0] in voice;
      AbsentVoice(voice[1..], index);
    }
  }

  /** Forgetting an INVITE whose session is gone. */
  lemma ForgetKeeps(w: World, portBase: int, id: string)
    requires Inv(w, portBase) && forall m :: m in w.calls ==> m.callId != id
    ensures Inv(w.(pending := w.pending - {id}), portBase)
  {
    hide Distinct, Ordered, Matches;
    var w' := w.(pending := w.pending - {id});
    forall x | x in w'.calls
      ensures SessionOk(w', portBase, x)
    {
      assert SessionOk(w, portBase, x);
    }
    forall x, v | x in w'.calls && v in w'.voice
      ensures PairOk(w'.pending, x, v)
    {
      assert PairOk(w.pending, x, v);
    }
    forall i, x | i in w'.pending && x in w'.calls
      ensures PendingOk(i, w'.pending[i], x)
    {
      assert PendingOk(i, w.pending[i], x);
    }
  }

  lemma InviteFailedKeeps(w: World, portBase: int, id: string)
    requires Inv(w, portBase)
    ensures Inv(InviteFailed(w, id), portBase)
  {
    hide Inv;
    UseInv(w, portBase);
    HasMember(w.calls, id);
    if id in w.pending {
      if !Has(w.calls, id) {
        ForgetKeeps(w, portBase, id);
      } else {
        var w1 := HangupSession(w, id);
        HangupKeeps(w, portBase, id);
        PopMembers(w.calls, id);
        ForgetKeeps(w1, portBase, id);
        RemoveKeeps(w1.(pending := w.pending - {id}), portBase, w.pending[id]);
      }
    }
  }

  /** The HAL's entry after a successful INVITE: active, and under its Call-ID. */
  function Answered(voice: seq<VoiceCall>, index: nat, id: string): seq<VoiceCall> {
    LearnId(SetHal(voice, index, ACTIVE), index, id)
  }

  lemma AnsweredMembers(voice: seq<VoiceCall>, index: nat, id: string)
    requires Ordered(voice)
    ensures Ordered(Answered(voice, index, id))
    ensures forall x :: x in Answered(voice, index, id) ==>
              (x.index == index && exists y :: y in voice && x == y.(state := ACTIVE, callId := id))
              || (x in voice && x.index != index)
  {
    var i := VoiceAt(voice, index);
    if i < |voice| {
      assert voice[i] in voice;
      var mid := SetHal(voice, index, ACTIVE);
      assert Ordered(mid);
      PositionOf(mid, i);
    }
  }

  lemma InviteOkKeeps(w: World, portBase: int, id: string, mediaStarts: bool)
    requires Inv(w, portBase)
    ensures Inv(InviteOk(w, id, mediaStarts), portBase)
  {
    hide Inv;
    if id in w.pending {
      var index := w.pending[id];
      if index == 0 {
        NoIndexZero(w, portBase);
      }
      HasMember(w.calls, id);
      if Has(w.calls, id) {
        var m := WithMedia(CallOf(w.calls, id).(state := Active), mediaStarts);
        AnsweredPresent(w, portBase, id, m);
      } else {
        AnsweredAbsent(w, portBase, id);
      }
    }
  }

  lemma NoIndexZero(w: World, portBase: int)
    requires Inv(w, portBase)
    ensures VoiceAt(w.voice, 0) == |w.voice|
  {
    AbsentVoice(w.voice, 0);
  }

  lemma AnsweredAbsent(w: World, portBase: int, id: string)
    requires Inv(w, portBase) && id in w.pending && forall m :: m in w.calls ==> m.callId != id
    ensures Inv(w.(pending := w.pending - {id}, voice := Answered(w.voice, w.pending[id], id)), portBase)
  {
    hide Distinct, Ordered, Matches;
    var index := w.pending[id];
    AnsweredMembers(w.voice, index, id);
    var w1 := w.(voice := Answered(w.voice, index, id));
    forall x, v | x in w.calls && v in w1.voice
      ensures PairOk(w.pending, x, v)
    {
      assert PendingOk(id, index, x);
      assert v in w.voice ==> PairOk(w.pending, x, v);
    }
    assert forall x :: x in w.calls ==> SessionOk(w, portBase, x);
    ForgetKeeps(w1, portBase, id);
  }

  lemma AnsweredPresent(w: World, portBase: int, id: string, m: VolteCall)
    requires Inv(w, portBase) && id in w.pending && Has(w.calls, id)
    requires m == CallOf(w.calls, id).(state := Active, media := m.media)
    ensures Inv(w.(calls := Update(w.calls, m), pending := w.pending - {id},
                   voice := Answered(w.voice, w.pending[id], id)), portBase)
  {
    hide Distinct, Ordered, Matches, Update;
    var index, prev := w.pending[id], CallOf(w.calls, id);
    UpdateMembers(w.calls, m);
    AnsweredMembers(w.voice, index, id);
    assert PendingOk(id, index, prev) && SessionOk(w, portBase, prev);
    var w' := w.(calls := Update(w.calls, m), pending := w.pending - {id},
                 voice := Answered(w.voice, index, id));
    forall x | x in w'.calls
      ensures SessionOk(w', portBase, x)
    {
      assert x == m || SessionOk(w, portBase, x);
    }
    forall x, v | x in w'.calls && v in w'.voice
      ensures PairOk(w'.pending, x, v)
    {
      AnsweredPair(w, portBase, id, m, x, v);
    }
    forall i, x | i in w'.pending && x in w'.calls
      ensures PendingOk(i, w'.pending[i], x)
    {
      assert PendingOk(i, w.pending[i], if x == m then prev else x);
    }
  }

  lemma AnsweredPair(w: World, portBase: int, id: string, m: VolteCall, x: VolteCall, v: VoiceCall)
    requires Inv(w, portBase) && id in w.pending && Has(w.calls, id)
    requires m == CallOf(w.calls, id).(state := Active, media := m.media)
    requires x == m || (x in w.calls && x.callId != id)
    requires (v.index == w.pending[id] && exists y :: y in w.voice && v == y.(state := ACTIVE, callId := id))
             || (v in w.voice && v.index != w.pending[id])
    ensures PairOk(w.pending - {id}, x, v)
  {
    var index, prev := w.pending[id], CallOf(w.calls, id);
    var x0 := if x == m then prev else x;
    assert PendingOk(id, index, prev) && PendingOk(id, index, x0);
    if v.index == index {
      var y :| y in w.voice && v == y.(state := ACTIVE, callId := id);
      assert PairOk(w.pending, x0, y) && PairOk(w.pending, prev, y);
    } else {
      assert PairOk(w.pending, x0, v);
    }
  }

  lemma RemoteByeKeeps(w: World, portBase: int, id: string)
    requires Inv(w, portBase)
    ensures Inv(RemoteBye(w, id), portBase)
  {
    hide Inv;
    if Has(w.calls, id) {
      var i := VoiceById(w.voice, id);
      HangupKeeps(w, portBase, id);
      if i < |w.voice| {
        RemoveKeeps(HangupSession(w, id), portBase, w.voice[i].index);
      }
    }
  }

  lemma HalHangupKeeps(w: World, portBase: int, index: nat)
    requires Inv(w, portBase)
    ensures Inv(HalHangup(w, index), portBase)
  {
    hide Inv;
    var i := VoiceAt(w.voice, index);
    if i < |w.voice| {
      HangupKeeps(w, portBase, w.voice[i].callId);
      RemoveKeeps(HangupSession(w, w.voice[i].callId), portBase, index);
      RemoveKeeps(w, portBase, index);
    }
  }

  lemma {:induction false} HangupIdsKeep(w: World, portBase: int, voice: seq<VoiceCall>)
    requires Inv(w, portBase)
    ensures Inv(HangupIds(w, voice), portBase)
  {
    hide Inv;
    if voice != [] {
      HangupIdsKeep(w, portBase, voice[..|voice| - 1]);
      HangupKeeps(HangupIds(w, voice[..|voice| - 1]), portBase, voice[|voice| - 1].callId);
    }
  }

  lemma PowerOffKeeps(w: World, portBase: int)
    requires Inv(w, portBase)
    ensures Inv(w.(voice := []), portBase)
  {
    hide Distinct, Matches;
    assert forall m :: m in w.calls ==> SessionOk(w, portBase, m);
  }

  lemma NotifyKeeps(w: World, portBase: int, id: string, status: TransferStatus, terminated: bool)
    requires Inv(w, portBase)
    ensures Inv(Notify(w, id, status, terminated), portBase)
  {
    hide Inv;
    if Has(w.calls, id) {
      FlagKeeps(w, portBase, CallOf(w.calls, id).(transferPending := false));
      HangupKeeps(w, portBase, id);
    }
  }

  lemma AttendedKeeps(w: World, portBase: int, a: string, b: string, accepted: bool)
    requires Inv(w, portBase)
    ensures Inv(AttendedTransfer(w, a, b, accepted), portBase)
  {
    hide Inv;
    if Transferable(w, a) {
      FlagKeeps(w, portBase, CallOf(w.calls, a).(transferPending := true));
    }
  }

  /** No HAL call goes with the session. */
  ghost predicate Alone(w: World, id: string) {
    Has(w.calls, id) ==> forall v :: v in w.voice ==> v.index != CallOf(w.calls, id).index
  }

  lemma TransferKeeps(w: World, portBase: int, id: string, accepted: bool)
    requires Inv(w, portBase)
    requires accepted && Has(w.calls, id) && CallOf(w.calls, id).state == Held ==> Alone(w, id)
    ensures Inv(TransferSession(w, id, accepted), portBase)
  {
    hide Inv;
    if Transferable(w, id) && accepted {
      var m := CallOf(w.calls, id);
      if m.state == Held {
        LoneTransferKeeps(w, portBase, id);
      } else {
        FlagKeeps(w, portBase, m.(transferPending := true));
      }
    }
  }

  lemma ReferKeeps(w: World, portBase: int, id: string, dialAs: Option<string>)
    requires Inv(w, portBase) && (dialAs.Some? ==> Fresh(w, dialAs.value))
    ensures Inv(RemoteRefer(w, id, dialAs), portBase)
  {
    hide Inv, Dial;
    UseInv(w, portBase);
    if Has(w.calls, id) && dialAs.Some? {
      HangupKeeps(w, portBase, id);
      PopMembers(w.calls, id);
      DialKeeps(HangupSession(w, id), portBase, dialAs.value);
    }
  }

  // ---- Every run ----------------------------------------------------------

  /** New Call-IDs are new. */
  ghost predicate FreshIds(w: World, event: Event) {
    match event
    case HalDial(newId) => Fresh(w, newId)
    case ApiDial(newId) => Fresh(w, newId)
    case SipInvite(id, _, forwardedAs) =>
      !Has(w.calls, id) ==> Fresh(w, id) && (forwardedAs.Some? ==> Fresh(w, forwardedAs.value))
    case SipRefer(_, dialAs) => dialAs.Some? ==> Fresh(w, dialAs.value)
    case _ => true
  }

  /**
   * What the handlers do not check: the management API transferring a held session
   * leaves its HAL call held; and after a re-INVITE on an INVITE of our own that is
   * still unanswered, a switch or a conference reaches its HAL call and not its
   * session, or the other way round, because the HAL call has no Call-ID yet.
   */
  ghost predicate Guard(w: World, event: Event) {
    match event
    case ApiTransfer(id, accepted) => accepted && Has(w.calls, id) && CallOf(w.calls, id).state == Held ==> Alone(w, id)
    case HalSwitchCalls(_) => FirstVoice(w.voice, WAITING) < |w.voice| ==> ActivesKnown(w)
    case Conference => Mergeable(w)
    case _ => true
  }

  lemma StepKeeps(w: World, portBase: int, event: Event)
    requires Inv(w, portBase) && FreshIds(w, event) && Guard(w, event)
    ensures Inv(Step(w, event), portBase)
  {
    hide Inv, Fresh, ActivesKnown, Mergeable, Alone, Dial, StartInvite, Ringing, InviteOk, InviteFailed, IncomingInvite, ReInvite, RemoteBye, RemoteRefer,
         Notify, AnswerSession, HalHangup, HalSwitch, HalSeparate, HalTransfer, ConferenceSessions, HoldSession,
         ResumeSession, SwapSessions, TransferSession, AttendedTransfer, HangupSession, HangupIds;
    match event
    case HalDial(newId) => DialKeeps(w, portBase, newId);
    case ApiDial(newId) => StartInviteKeeps(w, portBase, newId);
    case Sip180(id) => RingingKeeps(w, portBase, id);
    case SipOk(id, mediaStarts) => InviteOkKeeps(w, portBase, id, mediaStarts);
    case SipFailure(id) => InviteFailedKeeps(w, portBase, id);
    case SipInvite(id, direction, forwardedAs) =>
      if Has(w.calls, id) {
        ReInviteKeeps(w, portBase, id, direction);
      } else {
        IncomingKeeps(w, portBase, id, forwardedAs);
      }
    case SipBye(id) => RemoteByeKeeps(w, portBase, id);
    case SipRefer(id, dialAs) => ReferKeeps(w, portBase, id, dialAs);
    case SipNotify(id, status, terminated) => NotifyKeeps(w, portBase, id, status, terminated);
    case HalAnswerCall(mediaStarts) =>
      if FirstVoice(w.voice, INCOMING) < |w.voice| {
        AnswerVoiceKeeps(w, portBase, FirstVoice(w.voice, INCOMING), mediaStarts);
      }
    case HalHangupCall(index) => HalHangupKeeps(w, portBase, index);
    case HalSwitchCalls(mediaStarts) => SwitchKeeps(w, portBase, mediaStarts);
    case HalSeparateCall(index) => SeparateKeeps(w, portBase, index);
    case HalTransferCalls(accepted) => HalTransferKeeps(w, portBase, accepted);
    case HalHangupEvery =>
      HangupIdsKeep(w, portBase, w.voice);
      PowerOffKeeps(HangupIds(w, w.voice), portBase);
    case HalPowerOff => PowerOffKeeps(w, portBase);
    case Conference => ConferenceKeeps(w, portBase);
    case ApiHold(id) => HoldSessionKeeps(w, portBase, id);
    case ApiResume(id) => ResumeSessionKeeps(w, portBase, id);
    case ApiSwap => SwapKeeps(w, portBase);
    case ApiTransfer(id, accepted) => TransferKeeps(w, portBase, id, accepted);
    case ApiAttended(a, b, accepted) => AttendedKeeps(w, portBase, a, b, accepted);
    case ApiHangup(id) => HangupKeeps(w, portBase, id);
  }

  function After(portBase: int, events: seq<Event>): World {
    if events == [] then Start(portBase)
    else Step(After(portBase, events[..|events| - 1]), events[|events| - 1])
  }

  ghost predicate Guarded(portBase: int, events: seq<Event>) {
    forall n :: 0 <= n < |events| ==>
      FreshIds(After(portBase, events[..n]), events[n]) && Guard(After(portBase, events[..n]), events[n])
  }

  lemma {:induction false} EveryRunKeeps(portBase: int, events: seq<Event>)
    requires Guarded(portBase, events)
    ensures Inv(After(portBase, events), portBase)
  {
    hide Inv, Step, FreshIds, Guard;
    if events == [] {
      StartKeeps(portBase);
    } else {
      var before := events[..|events| - 1];
      assert forall n :: 0 <= n < |before| ==> before[..n] == events[..n];
      EveryRunKeeps(portBase, before);
      StepKeeps(After(portBase, before), portBase, events[|events| - 1]);
    }
  }

  lemma StartKeeps(portBase: int)
    ensures Inv(Start(portBase), portBase)
  {
  }

  /** On every run of guarded steps the two tables agree, and no index or port is shared. */
  lemma TablesAgree(portBase: int, events: seq<Event>)
    requires Guarded(portBase, events)
    ensures Agreement(After(portBase, events)) && Separate(After(portBase, events))
  {
    hide Inv;
    EveryRunKeeps(portBase, events);
    InvAgrees(After(portBase, events), portBase);
  }
}
