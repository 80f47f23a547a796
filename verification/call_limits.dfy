/**
 * Where call agreement ends: the guard on a step is exact, and two runs that leave
 * the tables disagreeing.
 */
module CallLimits {
  import opened CallAgreement
  import opened CallSteps
  import opened CallTables
  import opened Wrappers

  lemma TransferBreaks(w: World, portBase: int, id: string)
    requires Inv(w, portBase) && Has(w.calls, id) && CallOf(w.calls, id).state == Held && !Alone(w, id)
    ensures !Agreement(TransferSession(w, id, true))
  {
    hide Inv, Update;
    UseInv(w, portBase);
    var m := CallOf(w.calls, id);
    var v :| v in w.voice && v.index == m.index;
    assert PairOk(w.pending, m, v);
    var moved := m.(state := Active, transferPending := true);
    UpdateMembers(w.calls, moved);
    assert moved in TransferSession(w, id, true).calls;
  }

  lemma ConferenceBreaks(w: World, portBase: int)
    requires Inv(w, portBase) && !Mergeable(w)
    ensures !Agreement(ConferenceSessions(w))
  {
    hide Inv, Update, Agreement, LastIn, JoinVoice, Pausing;
    UseInv(w, portBase);
    var a, h := LastIn(w.calls, Active).value, LastIn(w.calls, Held).value;
    var v :| v in w.voice && v.index == h.index && v.callId == "";
    HasMember(w.calls, h.callId);
    OneSession(w.calls, h, CallOf(w.calls, h.callId));
    MergeBreaks(w, portBase, a, h, v);
  }

  lemma MergeBreaks(w: World, portBase: int, a: VolteCall, h: VolteCall, v: VoiceCall)
    requires Inv(w, portBase) && a in w.calls && h in w.calls && h.state == Held
    requires Has(w.calls, h.callId) && CallOf(w.calls, h.callId) == h
    requires v in w.voice && v.index == h.index && v.callId == ""
    ensures !Agreement(w.(calls := Update(w.calls, Pausing(h.(state := Active), false)),
                          voice := JoinVoice(w.voice, a.callId, h.callId)))
  {
    hide Inv, Update, Has, CallOf, JoinVoice, Distinct, Ordered;
    UseInv(w, portBase);
    assert PairOk(w.pending, h, v) && SessionOk(w, portBase, a) && SessionOk(w, portBase, h);
    var resumed := Pausing(h.(state := Active), false);
    UpdateMembers(w.calls, resumed);
    var k :| 0 <= k < |w.voice| && w.voice[k] == v;
    var voice := JoinVoice(w.voice, a.callId, h.callId);
    assert voice[k] == v && v in voice;
    assert resumed in Update(w.calls, resumed);
  }

  /** Holding one HAL call leaves every unanswered session alone, and a held call held. */
  lemma HoldVoiceOthers(w: World, i: nat, m: VolteCall, k: nat)
    requires m in w.calls && k < |w.voice| && Distinct(w.calls)
    requires forall v :: v in w.voice ==> v.callId != m.callId
    ensures var w' := HoldVoice(w, i);
            && m in w'.calls && |w'.voice| == |w.voice| && Distinct(w'.calls)
            && (forall v :: v in w'.voice ==> v.callId != m.callId)
            && (forall j :: 0 <= j < |w.voice| ==> w'.voice[j].index == w.voice[j].index)
            && (w.voice[k].state == HOLDING || (w.voice[k].state == ACTIVE && i == k) ==> w'.voice[k].state == HOLDING)
            && (w.voice[k].state == ACTIVE && w'.voice[k].state != HOLDING ==> w'.voice[k].state == ACTIVE)
  {
    hide Distinct, Has, CallOf, SetHal, Move;
    if i < |w.voice| && w.voice[i].state == ACTIVE {
      var held := w.voice[i := w.voice[i].(state := HOLDING)];
      assert w.voice[i] in w.voice;
      assert forall v :: v in held ==> v.callId != m.callId;
      HoldOther(w.(voice := held), w.voice[i].callId, m);
    }
  }

  lemma HoldOther(w: World, id: string, m: VolteCall)
    requires m in w.calls && Distinct(w.calls) && id != m.callId
    requires forall v :: v in w.voice ==> v.callId != m.callId
    ensures var w' := HoldSession(w, id);
            && m in w'.calls && |w'.voice| == |w.voice| && Distinct(w'.calls)
            && (forall v :: v in w'.voice ==> v.callId != m.callId)
            && forall j :: 0 <= j < |w.voice| ==>
                 w'.voice[j].index == w.voice[j].index && (w'.voice[j] == w.voice[j] || w'.voice[j].state == HOLDING)
  {
    hide Distinct, Update, Has, CallOf, SetHal;
    if Has(w.calls, id) && CallOf(w.calls, id).state == Active {
      var session := Pausing(CallOf(w.calls, id).(state := Held), true);
      UpdateMembers(w.calls, session);
      SetHalFrame(w.voice, session.index, HOLDING);
    }
  }

  lemma SetHalFrame(voice: seq<VoiceCall>, index: nat, state: HalState)
    ensures var after := SetHal(voice, index, state);
            && |after| == |voice|
            && (forall j :: 0 <= j < |voice| ==>
                  after[j].index == voice[j].index && after[j].callId == voice[j].callId
                  && (after[j] == voice[j] || after[j].state == state))
            && (forall v :: v in after ==> exists u :: u in voice && u.callId == v.callId)
  {
    var i := VoiceAt(voice, index);
    if i < |voice| {
      assert voice[i] in voice;
    }
  }

  lemma {:induction false} HoldVoicesOthers(w: World, n: nat, m: VolteCall, k: nat)
    requires m in w.calls && k < |w.voice| && Distinct(w.calls) && w.voice[k].state == ACTIVE
    requires forall v :: v in w.voice ==> v.callId != m.callId
    ensures var w' := HoldVoices(w, n);
            && m in w'.calls && |w'.voice| == |w.voice| && Distinct(w'.calls)
            && (forall v :: v in w'.voice ==> v.callId != m.callId)
            && (forall j :: 0 <= j < |w.voice| ==> w'.voice[j].index == w.voice[j].index)
            && w'.voice[k].state == (if k < n then HOLDING else w'.voice[k].state)
            && (w'.voice[k].state == ACTIVE || w'.voice[k].state == HOLDING)
  {
    hide HoldVoice, Distinct;
    if n > 0 {
      HoldVoicesOthers(w, n - 1, m, k);
      HoldVoiceOthers(HoldVoices(w, n - 1), n - 1, m, k);
    }
  }

  lemma SwitchBreaks(w: World, portBase: int, mediaStarts: bool)
    requires Inv(w, portBase) && FirstVoice(w.voice, WAITING) < |w.voice| && !ActivesKnown(w)
    ensures !Agreement(HalSwitch(w, mediaStarts))
  {
    hide Inv, HoldVoices, Distinct, Agreement, FirstVoice, HalSwitch;
    UseInv(w, portBase);
    var v :| v in w.voice && v.state == ACTIVE && Unknown(w, v);
    var m :| m in w.calls && m.index == v.index && m.callId in w.pending;
    assert PairOk(w.pending, m, v);
    var k :| 0 <= k < |w.voice| && w.voice[k] == v;
    forall u | u in w.voice
      ensures u.callId != m.callId
    {
      assert PairOk(w.pending, m, u) && SessionOk(w, portBase, m);
    }
    HoldVoicesOthers(w, |w.voice|, m, k);
    UnansweredBreaks(w, mediaStarts, m, k);
  }

  lemma UnansweredBreaks(w: World, mediaStarts: bool, m: VolteCall, k: nat)
    requires FirstVoice(w.voice, WAITING) < |w.voice| && k < |w.voice| && w.voice[k].state == ACTIVE
    requires m.index == w.voice[k].index && m.state == Active
    requires forall v :: v in w.voice ==> v.callId != m.callId
    requires var w1 := HoldVoices(w, |w.voice|);
             && m in w1.calls && Distinct(w1.calls) && |w1.voice| == |w.voice|
             && w1.voice[k].index == m.index && w1.voice[k].state == HOLDING
    ensures !Agreement(HalSwitch(w, mediaStarts))
  {
    hide HoldVoices, Distinct, Update, Has, CallOf;
    var i := FirstVoice(w.voice, WAITING);
    var id := w.voice[i].callId;
    assert w.voice[i] in w.voice;
    var w1, w' := HoldVoices(w, |w.voice|), HalSwitch(w, mediaStarts);
    assert w'.voice[k] == w1.voice[k];
    assert w1.voice[k] in w'.voice;
    if Has(w1.calls, id) {
      UpdateMembers(w1.calls, WithMedia(CallOf(w1.calls, id).(state := Active), mediaStarts));
    }
    assert m in w'.calls;
  }

  /** A step with new Call-IDs leaves the tables in agreement if and only if it meets the guard. */
  lemma GuardIsExact(w: World, portBase: int, event: Event)
    requires Inv(w, portBase) && FreshIds(w, event)
    ensures Agreement(Step(w, event)) <==> Guard(w, event)
  {
    hide Inv, FreshIds, Mergeable, ActivesKnown, Alone, TransferSession, HalSwitch, ConferenceSessions, Agreement, Separate;
    if Guard(w, event) {
      StepKeeps(w, portBase, event);
      InvAgrees(Step(w, event), portBase);
    } else {
      match event
      case ApiTransfer(id, accepted) => TransferBreaks(w, portBase, id);
      case HalSwitchCalls(mediaStarts) => SwitchBreaks(w, portBase, mediaStarts);
      case Conference => ConferenceBreaks(w, portBase);
    }
  }

  lemma OneOfEach(m: VolteCall, v: VoiceCall, m': VolteCall, hal: HalState)
    requires m.index == v.index && m'.callId == m.callId
    ensures Has([m], m.callId) && CallOf([m], m.callId) == m && Update([m], m') == [m']
    ensures VoiceAt([v], m.index) == 0 && SetHal([v], m.index, hal) == [v.(state := hal)]
  {
  }

  lemma OnlyAnswer(m: VolteCall, v: VoiceCall, port: int, id: string)
    requires m.callId == id && m.index == v.index == 1
    ensures InviteOk(World([m], port, map[id := 1], [v], 2), id, true)
            == World([m.(state := Active, media := Some(false))], port, map[], [v.(state := ACTIVE, callId := id)], 2)
  {
    hide Has, CallOf, Update, SetHal;
    OneOfEach(m, v, m.(state := Active, media := Some(false)), ACTIVE);
  }

  lemma OnlyHold(w: World, m: VolteCall, v: VoiceCall, id: string)
    requires w.calls == [m] && w.voice == [v] && m.callId == id && m.index == v.index && m.state == Active && m.media.Some?
    ensures HoldSession(w, id) == w.(calls := [m.(state := Held, media := Some(true))], voice := [v.(state := HOLDING)])
  {
    hide Has, CallOf, Update, SetHal, VoiceAt;
    OneOfEach(m, v, m.(state := Held, media := Some(true)), HOLDING);
  }

  lemma OnlyTransfer(w: World, m: VolteCall, v: VoiceCall, id: string)
    requires w.calls == [m] && m.callId == id && m.index == v.index && m.state == Held
    ensures TransferSession(w, id, true) == w.(calls := [m.(state := Active, transferPending := true)])
  {
    hide Has, CallOf, Update, SetHal, VoiceAt;
    OneOfEach(m, v, m.(state := Active, transferPending := true), HOLDING);
  }

  /** Dial, answer, hold, then transfer from the management API: active beside a held HAL call. */
  lemma HeldTransferRun(id: string)
    requires id != ""
    ensures var w := Step(Step(Step(Step(Start(10000), HalDial(id)), SipOk(id, true)), ApiHold(id)), ApiTransfer(id, true));
            !Agreement(w)
  {
    hide Has, CallOf, Update, VoiceAt, Agreement, InviteOk, HoldSession, TransferSession;
    var m, v := VolteCall(id, 1, Initiating, true, 10000, None, false), VoiceCall(1, DIALING, false, false, "");
    var m1, v1 := m.(state := Active, media := Some(false)), v.(state := ACTIVE, callId := id);
    var m2, v2 := m1.(state := Held, media := Some(true)), v1.(state := HOLDING);
    var m3 := m2.(state := Active, transferPending := true);
    var w0, w1 := World([m], 10002, map[id := 1], [v], 2), World([m1], 10002, map[], [v1], 2);
    var w2, w3 := World([m2], 10002, map[], [v2], 2), World([m3], 10002, map[], [v2], 2);
    assert Step(Start(10000), HalDial(id)) == w0;
    OnlyAnswer(m, v, 10002, id);
    OnlyHold(w1, m1, v1, id);
    OnlyTransfer(w2, m2, v2, id);
    Disagree(w3, m3, v2);
  }

  lemma Disagree(w: World, m: VolteCall, v: VoiceCall)
    requires w.calls == [m] && w.voice == [v] && m.index == v.index && !Matches(m.state, v.state)
    ensures !Agreement(w)
  {
    assert m in w.calls && v in w.voice;
  }

  /** Dial, and a re-INVITE before the answer: session and HAL call move, and the HAL call has no Call-ID yet. */
  lemma EarlyReInvite(a: string, direction: Direction)
    requires a != "" && direction != Unchanged
    ensures var state, hal := if direction.RemoteHold? then Held else Active, if direction.RemoteHold? then HOLDING else ACTIVE;
            Step(Step(Start(10000), HalDial(a)), SipInvite(a, direction, None))
            == World([VolteCall(a, 1, state, true, 10000, None, false)], 10002, map[a := 1], [VoiceCall(1, hal, false, false, "")], 2)
  {
    hide Has, CallOf, Update, VoiceAt, SetHal;
    var m, v := VolteCall(a, 1, Initiating, true, 10000, None, false), VoiceCall(1, DIALING, false, false, "");
    var w := World([m], 10002, map[a := 1], [v], 2);
    assert Step(Start(10000), HalDial(a)) == w;
    var state, hal := if direction.RemoteHold? then Held else Active, if direction.RemoteHold? then HOLDING else ACTIVE;
    OneOfEach(m, v, m.(state := state), hal);
  }

  /** A second call rings in beside the only one. */
  lemma SecondInvite(w: World, m: VolteCall, v: VoiceCall, b: string)
    requires w.calls == [m] && w.voice == [v] && m.callId != b
    ensures Step(w, SipInvite(b, Unchanged, None))
            == World([m, VolteCall(b, w.nextIndex, RingingIn, false, w.nextPort, None, false)], w.nextPort + 2, w.pending,
                     [v, VoiceCall(w.nextIndex, if v.state == ACTIVE then WAITING else INCOMING, true, false, b)], w.nextIndex + 1)
  {
    assert FirstVoice([v], ACTIVE) == if v.state == ACTIVE then 0 else 1;
    assert CallAt([m], b) == 1;
  }

  /** A re-INVITE before the answer, a second call waiting, and a switch: held beside an active session. */
  lemma EarlyReinviteRun(a: string, b: string)
    requires a != b && a != "" && b != ""
    ensures var w := Step(Step(Step(Step(Start(10000), HalDial(a)), SipInvite(a, RemoteResume, None)),
                          SipInvite(b, Unchanged, None)), HalSwitchCalls(true));
            !Agreement(w)
  {
    hide HalSwitch, Invite, Dial, Agreement;
    EarlyReInvite(a, RemoteResume);
    var w1 := Step(Step(Start(10000), HalDial(a)), SipInvite(a, RemoteResume, None));
    SecondInvite(w1, w1.calls[0], w1.voice[0], b);
    EarlySwitch(Step(w1, SipInvite(b, Unchanged, None)), a, b);
  }

  lemma EarlySwitch(w: World, a: string, b: string)
    requires a != b && a != "" && b != ""
    requires |w.calls| == 2 && w.calls[0].callId == a && w.calls[1].callId == b
    requires w.calls[0].state == Active && w.calls[0].index == 1
    requires |w.voice| == 2 && w.voice[0] == VoiceCall(1, ACTIVE, false, false, "")
    requires w.voice[1] == VoiceCall(2, WAITING, true, false, b)
    ensures !Agreement(HalSwitch(w, true))
  {
    var i := FirstVoice(w.voice, WAITING);
    assert i == 1;
    assert !Has(w.calls, "");
    var w1 := HoldVoice(w, 0);
    assert w1.voice[0] == VoiceCall(1, HOLDING, false, false, "") && w1.calls == w.calls;
    assert HoldVoices(w, 2) == HoldVoice(HoldVoice(HoldVoices(w, 0), 0), 1) == w1;
    var w' := HalSwitch(w, true);
    assert w'.voice[0] in w'.voice && w'.calls[0] in w'.calls;
  }

  /** A hold before the answer, a second call answered, and a conference: active beside a held HAL call. */
  lemma EarlyConferenceRun(a: string, b: string)
    requires a != b && a != "" && b != ""
    ensures var w := Step(Step(Step(Step(Step(Start(10000), HalDial(a)), SipInvite(a, RemoteHold, None)),
                          SipInvite(b, Unchanged, None)), HalAnswerCall(true)), Conference);
            !Agreement(w)
  {
    hide HalAnswer, Invite, Dial, Agreement, ConferenceSessions;
    EarlyReInvite(a, RemoteHold);
    var w1 := Step(Step(Start(10000), HalDial(a)), SipInvite(a, RemoteHold, None));
    SecondInvite(w1, w1.calls[0], w1.voice[0], b);
    var w2 := Step(w1, SipInvite(b, Unchanged, None));
    SecondAnswered(w2, b);
    EarlyConference(Step(w2, HalAnswerCall(true)), a, b);
  }

  lemma SecondAnswered(w: World, b: string)
    requires |w.calls| == 2 && w.calls[0].callId != b && w.calls[1].callId == b && w.calls[1].state == RingingIn
    requires |w.voice| == 2 && w.voice[0].state != INCOMING && w.voice[1].state == INCOMING && w.voice[1].callId == b
    ensures HalAnswer(w, true)
            == w.(calls := [w.calls[0], w.calls[1].(state := Active, media := Some(false))],
                  voice := [w.voice[0], w.voice[1].(state := ACTIVE)])
  {
    assert FirstVoice(w.voice, INCOMING) == 1 && CallAt(w.calls, b) == 1;
  }

  lemma EarlyConference(w: World, a: string, b: string)
    requires a != b && a != "" && b != ""
    requires |w.calls| == 2 && w.calls[0].callId == a && w.calls[1].callId == b
    requires w.calls[0].state == Held && w.calls[0].index == 1 && w.calls[1].state == Active
    requires |w.voice| == 2 && w.voice[0] == VoiceCall(1, HOLDING, false, false, "")
    ensures !Agreement(ConferenceSessions(w))
  {
    hide JoinVoice;
    LastOfTwo(w.calls);
    assert CallAt(w.calls, a) == 0;
    var w' := ConferenceSessions(w);
    assert w'.voice[0] == w.voice[0] && w'.voice[0] in w'.voice;
    assert w'.calls[0] == Pausing(w.calls[0].(state := Active), false) && w'.calls[0] in w'.calls;
  }

  lemma LastOfTwo(calls: seq<VolteCall>)
    requires |calls| == 2 && calls[0].state == Held && calls[1].state == Active
    ensures LastIn(calls, Active) == Some(calls[1]) && LastIn(calls, Held) == Some(calls[0])
  {
    assert calls[..1][0] == calls[0];
  }
}
