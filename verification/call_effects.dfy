/**
 * What each call handler achieves, said of the entries of both tables: which session
 * and which HAL calls it changes, to what, and that nothing else changes.
 */
module CallEffects {
  import opened CallAgreement
  import opened CallMedia
  import opened CallSteps
  import opened CallTables
  import opened Wrappers

  // ---- Changes, entry by entry --------------------------------------------

  /** Every HAL call of this index has the state, every other is as it was, all in their places. */
  ghost predicate VoiceSet(voice: seq<VoiceCall>, after: seq<VoiceCall>, index: nat, state: HalState) {
    && |after| == |voice|
    && forall j :: 0 <= j < |voice| ==> after[j] == if voice[j].index == index then voice[j].(state := state) else voice[j]
  }

  /** The HAL calls but those of this index, in order. */
  ghost predicate VoiceGone(voice: seq<VoiceCall>, after: seq<VoiceCall>, index: nat) {
    Ordered(after) && forall v :: v in after <==> v in voice && v.index != index
  }

  /** The sessions but the one with this Call-ID, in order. */
  ghost predicate SessionGone(calls: seq<VolteCall>, after: seq<VolteCall>, id: string) {
    Distinct(after) && forall m :: m in after <==> m in calls && m.callId != id
  }

  function PausedAs(media: Option<bool>, paused: bool): Option<bool> {
    match media
    case None => None
    case Some(_) => Some(paused)
  }

  function AfterStart(media: Option<bool>, starts: bool): Option<bool> {
    if starts then Some(false) else media
  }

  /** The session's place is the first one of its Call-ID. */
  lemma {:induction false} PlaceOf(calls: seq<VolteCall>, i: nat)
    requires Distinct(calls) && i < |calls|
    ensures CallAt(calls, calls[i].callId) == i
  {
    var k := CallAt(calls, calls[i].callId);
    assert k <= i;
  }

  lemma NoPlace(calls: seq<VolteCall>, id: string)
    requires forall k :: 0 <= k < |calls| ==> calls[k].callId != id
    ensures !Has(calls, id)
  {
  }

  lemma SetHalIs(voice: seq<VoiceCall>, index: nat, state: HalState)
    requires Ordered(voice)
    ensures VoiceSet(voice, SetHal(voice, index, state), index, state)
  {
  }

  lemma RemoveIs(voice: seq<VoiceCall>, index: nat)
    requires Ordered(voice)
    ensures VoiceGone(voice, Remove(voice, index), index)
  {
    hide Remove;
    RemoveMembers(voice, index);
  }

  lemma PopIs(calls: seq<VolteCall>, id: string)
    requires Distinct(calls)
    ensures SessionGone(calls, Pop(calls, id), id)
  {
    hide Pop;
    PopMembers(calls, id);
  }

  // ---- Hold, resume, swap -------------------------------------------------

  /** An active session is held, its media paused and its HAL call holding; another is left alone. */
  lemma HoldEffect(w: World, portBase: int, i: nat)
    requires Inv(w, portBase) && i < |w.calls|
    ensures var m, w' := w.calls[i], Step(w, ApiHold(w.calls[i].callId));
            if m.state == Active then
              && w' == w.(calls := w'.calls, voice := w'.voice)
              && w'.calls == w.calls[i := m.(state := Held, media := PausedAs(m.media, true))]
              && VoiceSet(w.voice, w'.voice, m.index, HOLDING)
            else w' == w
  {
    hide VoiceSet, SetHal;
    PlaceOf(w.calls, i);
    SetHalIs(w.voice, w.calls[i].index, HOLDING);
  }

  /** A held session is active again, its media runs and its HAL call is active; another is left alone. */
  lemma ResumeEffect(w: World, portBase: int, i: nat)
    requires Inv(w, portBase) && i < |w.calls|
    ensures var m, w' := w.calls[i], Step(w, ApiResume(w.calls[i].callId));
            if m.state == Held then
              && w' == w.(calls := w'.calls, voice := w'.voice)
              && w'.calls == w.calls[i := m.(state := Active, media := PausedAs(m.media, false))]
              && VoiceSet(w.voice, w'.voice, m.index, ACTIVE)
            else w' == w
  {
    hide VoiceSet, SetHal;
    PlaceOf(w.calls, i);
    SetHalIs(w.voice, w.calls[i].index, ACTIVE);
  }

  /** The place is that of the first session in the state, or there is none. */
  ghost predicate FirstOf(calls: seq<VolteCall>, state: VolteState, i: nat) {
    && i <= |calls|
    && (forall k :: 0 <= k < i ==> calls[k].state != state)
    && (i < |calls| ==> calls[i].state == state)
  }

  lemma FirstIs(calls: seq<VolteCall>, state: VolteState, i: nat)
    requires FirstOf(calls, state, i)
    ensures FirstIn(calls, state) == i
  {
  }

  /** Sessions in different places have different HAL calls, if any. */
  lemma IndicesDiffer(w: World, portBase: int, i: nat, k: nat)
    requires Inv(w, portBase) && i < |w.calls| && k < |w.calls| && i != k
    ensures w.calls[i].index != w.calls[k].index || w.calls[i].index == 0
    ensures w.calls[i].callId != w.calls[k].callId
  {
    hide Ordered, PairOk, PendingOk;
    assert w.calls[i] in w.calls && w.calls[k] in w.calls;
  }

  /**
   * A swap holds the first active session and resumes the first held one, each with
   * its media and its HAL call, and touches no other entry.
   */
  lemma SwapEffect(w: World, portBase: int, a: nat, h: nat)
    requires Inv(w, portBase) && FirstOf(w.calls, Active, a) && FirstOf(w.calls, Held, h)
    ensures var w' := Step(w, ApiSwap);
            && w' == w.(calls := w'.calls, voice := w'.voice)
            && |w'.calls| == |w.calls| && |w'.voice| == |w.voice|
            && (forall k :: 0 <= k < |w.calls| ==>
                  w'.calls[k] == if k == a then w.calls[k].(state := Held, media := PausedAs(w.calls[k].media, true))
                                 else if k == h then w.calls[k].(state := Active, media := PausedAs(w.calls[k].media, false))
                                 else w.calls[k])
            && (forall j :: 0 <= j < |w.voice| ==>
                  w'.voice[j] == if a < |w.calls| && w.voice[j].index == w.calls[a].index then w.voice[j].(state := HOLDING)
                                 else if h < |w.calls| && w.voice[j].index == w.calls[h].index then w.voice[j].(state := ACTIVE)
                                 else w.voice[j])
  {
    hide HoldSession, ResumeSession, Inv, VoiceSet, FirstOf, FirstIn, PausedAs;
    FirstIs(w.calls, Active, a);
    FirstIs(w.calls, Held, h);
    FirstStates(w.calls, a, h);
    VoiceIndices(w, portBase);
    if a < |w.calls| {
      HoldEffect(w, portBase, a);
      HoldSessionKeeps(w, portBase, w.calls[a].callId);
    }
    var w1 := if a < |w.calls| then HoldSession(w, w.calls[a].callId) else w;
    if h < |w.calls| {
      assert w1.calls[h] == w.calls[h];
      ResumeEffect(w1, portBase, h);
    }
    var w' := Step(w, ApiSwap);
    if a < |w.calls| && h < |w.calls| {
      IndicesDiffer(w, portBase, a, h);
      TwoSets(w.voice, w1.voice, w'.voice, w.calls[a].index, w.calls[h].index);
    } else if a < |w.calls| {
      OneSet(w.voice, w'.voice, w.calls[a].index, HOLDING);
    } else if h < |w.calls| {
      OneSet(w.voice, w'.voice, w.calls[h].index, ACTIVE);
    }
  }

  lemma FirstStates(calls: seq<VolteCall>, a: nat, h: nat)
    requires FirstOf(calls, Active, a) && FirstOf(calls, Held, h)
    ensures a <= |calls| && (a < |calls| ==> calls[a].state == Active)
    ensures h <= |calls| && (h < |calls| ==> calls[h].state == Held)
  {
  }

  lemma OneSet(voice: seq<VoiceCall>, after: seq<VoiceCall>, index: nat, state: HalState)
    requires VoiceSet(voice, after, index, state)
    ensures |after| == |voice|
    ensures forall j :: 0 <= j < |voice| ==> after[j] == if voice[j].index == index then voice[j].(state := state) else voice[j]
  {
  }

  /** Two settings of different HAL calls, one after the other */
  lemma TwoSets(voice: seq<VoiceCall>, mid: seq<VoiceCall>, after: seq<VoiceCall>, a: nat, h: nat)
    requires VoiceSet(voice, mid, a, HOLDING) && VoiceSet(mid, after, h, ACTIVE)
    requires a != h || forall j :: 0 <= j < |voice| ==> voice[j].index != a
    ensures |after| == |voice|
    ensures forall j :: 0 <= j < |voice| ==>
              after[j] == if voice[j].index == a then voice[j].(state := HOLDING)
                          else if voice[j].index == h then voice[j].(state := ACTIVE)
                          else voice[j]
  {
  }

  lemma VoiceIndices(w: World, portBase: int)
    requires Inv(w, portBase)
    ensures forall j :: 0 <= j < |w.voice| ==> w.voice[j].index != 0
  {
    hide Ordered, Distinct, PairOk, SessionOk, PendingOk;
    forall j | 0 <= j < |w.voice|
      ensures w.voice[j].index != 0
    {
      assert w.voice[j] in w.voice;
    }
  }

  /** With one active and one held session, two swaps give back both tables. */
  lemma SwapTwice(w: World, portBase: int, a: nat, h: nat)
    requires Inv(w, portBase) && MediaInv(w) && a < |w.calls| && h < |w.calls|
    requires forall k :: 0 <= k < |w.calls| ==> (w.calls[k].state == Active <==> k == a) && (w.calls[k].state == Held <==> k == h)
    ensures Step(Step(w, ApiSwap), ApiSwap) == w
  {
    hide Inv, MediaInv, SwapSessions;
    var w1 := Step(w, ApiSwap);
    var w2 := Step(w1, ApiSwap);
    SwapEffect(w, portBase, a, h);
    SwapKeeps(w, portBase);
    SwapEffect(w1, portBase, h, a);
    MediaAt(w, a);
    MediaAt(w, h);
    IndicesDiffer(w, portBase, a, h);
    VoiceIndices(w, portBase);
    forall j | 0 <= j < |w.voice|
      ensures w2.voice[j] == w.voice[j]
    {
      if w.voice[j].index == w.calls[a].index {
        VoiceState(w, portBase, a, j);
      } else if w.voice[j].index == w.calls[h].index {
        VoiceState(w, portBase, h, j);
      }
    }
    assert w2.calls == w.calls && w2.voice == w.voice;
  }

  lemma MediaAt(w: World, k: nat)
    requires MediaInv(w) && k < |w.calls| && (w.calls[k].state == Active || w.calls[k].state == Held)
    ensures w.calls[k].media == PausedAs(w.calls[k].media, w.calls[k].state == Held)
  {
    assert w.calls[k] in w.calls;
  }

  lemma VoiceState(w: World, portBase: int, k: nat, j: nat)
    requires Inv(w, portBase) && k < |w.calls| && j < |w.voice| && w.voice[j].index == w.calls[k].index
    ensures Matches(w.calls[k].state, w.voice[j].state)
  {
    hide Inv;
    UseInv(w, portBase);
    assert w.calls[k] in w.calls && w.voice[j] in w.voice;
    assert PairOk(w.pending, w.calls[k], w.voice[j]);
  }

  // ---- Answer, switch, separate -------------------------------------------

  /** The place is that of the first HAL call in the state, or there is none. */
  ghost predicate FirstVoiceOf(voice: seq<VoiceCall>, state: HalState, i: nat) {
    && i <= |voice|
    && (forall k :: 0 <= k < i ==> voice[k].state != state)
    && (i < |voice| ==> voice[i].state == state)
  }

  lemma FirstVoiceIs(voice: seq<VoiceCall>, state: HalState, i: nat)
    requires FirstVoiceOf(voice, state, i)
    ensures FirstVoice(voice, state) == i
  {
  }

  /** Sessions in their places; the one with the index changed to m, if there is one. */
  ghost predicate SessionAt(calls: seq<VolteCall>, after: seq<VolteCall>, index: nat, m: VolteCall -> VolteCall) {
    && |after| == |calls|
    && forall k :: 0 <= k < |calls| ==> after[k] == if calls[k].index == index then m(calls[k]) else calls[k]
  }

  function HeldOf(m: VolteCall): VolteCall {
    m.(state := Held, media := PausedAs(m.media, true))
  }

  function AnsweredOf(m: VolteCall, starts: bool): VolteCall {
    m.(state := Active, media := AfterStart(m.media, starts))
  }

  /** The session of a HAL call, by place: the one of its Call-ID is the only one of its index. */
  lemma SessionOf(w: World, portBase: int, v: VoiceCall)
    requires Inv(w, portBase) && v in w.voice
    requires v.state == INCOMING || v.state == WAITING || v.isMpty || !Unknown(w, v) || Has(w.calls, v.callId)
    ensures var k := CallAt(w.calls, v.callId);
            if k < |w.calls| then
              && w.calls[k].index == v.index && Matches(w.calls[k].state, v.state)
              && (forall j :: 0 <= j < |w.calls| && j != k ==> w.calls[j].index != v.index)
            else forall j :: 0 <= j < |w.calls| ==> w.calls[j].index != v.index
  {
    hide Inv;
    Owner(w, portBase, v);
    var k := CallAt(w.calls, v.callId);
    VoiceNumber(w, portBase, v);
    forall j | 0 <= j < |w.calls| && j != k
      ensures w.calls[j].index != v.index
    {
      assert w.calls[j] in w.calls;
      if k < |w.calls| {
        IndicesDiffer(w, portBase, k, j);
      }
    }
  }

  lemma VoiceNumber(w: World, portBase: int, v: VoiceCall)
    requires Inv(w, portBase) && v in w.voice
    ensures v.index != 0
  {
    hide Ordered, Distinct, PairOk, SessionOk, PendingOk;
  }

  /** The phone answers: the first incoming HAL call and the session with its index are active, nothing else moves. */
  lemma AnswerEffect(w: World, portBase: int, i: nat, starts: bool)
    requires Inv(w, portBase) && FirstVoiceOf(w.voice, INCOMING, i)
    ensures var w' := Step(w, HalAnswerCall(starts));
            if i < |w.voice| then
              && w' == w.(calls := w'.calls, voice := w.voice[i := w.voice[i].(state := ACTIVE)])
              && SessionAt(w.calls, w'.calls, w.voice[i].index, m => AnsweredOf(m, starts))
            else w' == w
  {
    hide Inv, FirstVoice, CallAt, Ordered, Distinct;
    FirstVoiceIs(w.voice, INCOMING, i);
    if i < |w.voice| {
      assert w.voice[i] in w.voice;
      SessionOf(w, portBase, w.voice[i]);
    }
  }

  /** Holding one active HAL call and the session with its index */
  lemma HoldVoiceEffect(w: World, portBase: int, i: nat)
    requires Inv(w, portBase) && ActivesKnown(w) && i < |w.voice| && w.voice[i].state == ACTIVE
    ensures var w' := HoldVoice(w, i);
            && w' == w.(calls := w'.calls, voice := w.voice[i := w.voice[i].(state := HOLDING)])
            && SessionAt(w.calls, w'.calls, w.voice[i].index, HeldOf)
  {
    hide Inv, SetHal;
    var v := w.voice[i];
    assert v in w.voice;
    SessionOf(w, portBase, v);
    UseInv(w, portBase);
    var held := w.voice[i := v.(state := HOLDING)];
    SetHalAgain(w.voice, i, HOLDING);
  }

  lemma SetHalAgain(voice: seq<VoiceCall>, i: nat, state: HalState)
    requires Ordered(voice) && i < |voice|
    ensures var moved := voice[i := voice[i].(state := state)]; SetHal(moved, voice[i].index, state) == moved
  {
    var moved := voice[i := voice[i].(state := state)];
    assert Ordered(moved);
    PositionOf(moved, i);
  }

  /** An active HAL call before place n has this index. */
  ghost predicate ActiveBefore(voice: seq<VoiceCall>, n: nat, index: nat) {
    exists j :: 0 <= j < n && j < |voice| && voice[j].index == index && voice[j].state == ACTIVE
  }

  /** After n turns of the holding loop: the active HAL calls before n are held, and the sessions with their indices. */
  lemma {:induction false} HoldVoicesEffect(w: World, portBase: int, n: nat)
    requires Inv(w, portBase) && ActivesKnown(w) && n <= |w.voice|
    ensures var w' := HoldVoices(w, n);
            && w' == w.(calls := w'.calls, voice := w'.voice)
            && |w'.calls| == |w.calls| && |w'.voice| == |w.voice|
            && (forall j :: 0 <= j < |w.voice| ==>
                  w'.voice[j] == if j < n && w.voice[j].state == ACTIVE then w.voice[j].(state := HOLDING) else w.voice[j])
            && (forall k :: 0 <= k < |w.calls| ==>
                  w'.calls[k] == if ActiveBefore(w.voice, n, w.calls[k].index) then HeldOf(w.calls[k]) else w.calls[k])
  {
    hide Inv, HoldVoice, ActivesKnown;
    if n > 0 {
      HoldVoicesEffect(w, portBase, n - 1);
      HoldVoicesKeep(w, portBase, n - 1);
      var mid := HoldVoices(w, n - 1);
      if w.voice[n - 1].state == ACTIVE {
        HoldVoiceEffect(mid, portBase, n - 1);
      } else {
        NoTurn(mid, n - 1);
      }
      forall k | 0 <= k < |w.calls|
        ensures ActiveBefore(w.voice, n, w.calls[k].index) <==>
                ActiveBefore(w.voice, n - 1, w.calls[k].index) || (w.voice[n - 1].state == ACTIVE && w.voice[n - 1].index == w.calls[k].index)
      {
      }
      forall k | 0 <= k < |w.calls| && w.voice[n - 1].index == w.calls[k].index
        ensures !ActiveBefore(w.voice, n - 1, w.calls[k].index)
      {
        UseInv(w, portBase);
      }
    }
  }

  lemma NoTurn(w: World, i: nat)
    requires i < |w.voice| && w.voice[i].state != ACTIVE
    ensures HoldVoice(w, i) == w
  {
  }

  /**
   * A switch with a waiting call: every active HAL call is held, the waiting one is
   * active, and the sessions with their indices are held and answered.
   */
  lemma SwitchEffect(w: World, portBase: int, i: nat, starts: bool)
    requires Inv(w, portBase) && ActivesKnown(w) && FirstVoiceOf(w.voice, WAITING, i) && i < |w.voice|
    ensures var w' := Step(w, HalSwitchCalls(starts));
            && w' == w.(calls := w'.calls, voice := w'.voice)
            && |w'.calls| == |w.calls| && |w'.voice| == |w.voice|
            && (forall j :: 0 <= j < |w.voice| ==>
                  w'.voice[j] == if j == i then w.voice[j].(state := ACTIVE)
                                 else if w.voice[j].state == ACTIVE then w.voice[j].(state := HOLDING)
                                 else w.voice[j])
            && (forall k :: 0 <= k < |w.calls| ==>
                  w'.calls[k] == if w.calls[k].index == w.voice[i].index then AnsweredOf(w.calls[k], starts)
                                 else if ActiveBefore(w.voice, |w.voice|, w.calls[k].index) then HeldOf(w.calls[k])
                                 else w.calls[k])
  {
    hide Inv, HoldVoices, ActivesKnown, AnswerSession, ActiveBefore, FirstVoice, FirstVoiceOf;
    FirstVoiceIs(w.voice, WAITING, i);
    assert w.voice[i].state == WAITING by {
      FirstVoiceState(w.voice, WAITING, i);
    }
    var n := |w.voice|;
    HoldVoicesEffect(w, portBase, n);
    HoldVoicesKeep(w, portBase, n);
    var mid := HoldVoices(w, n);
    var id := w.voice[i].callId;
    assert mid.voice[i] == w.voice[i] && mid.voice[i] in mid.voice;
    SessionOf(mid, portBase, mid.voice[i]);
    NoEmptyId(mid, portBase);
    WaitingAlone(w, portBase, i);
    AnswerAt(mid.(voice := mid.voice[i := mid.voice[i].(state := ACTIVE)]), id, starts);
  }

  lemma FirstVoiceState(voice: seq<VoiceCall>, state: HalState, i: nat)
    requires FirstVoiceOf(voice, state, i) && i < |voice|
    ensures voice[i].state == state
  {
  }

  /** The waiting call's index is no active call's. */
  lemma WaitingAlone(w: World, portBase: int, i: nat)
    requires Inv(w, portBase) && i < |w.voice| && w.voice[i].state == WAITING
    ensures !ActiveBefore(w.voice, |w.voice|, w.voice[i].index)
  {
    hide Inv;
    UseInv(w, portBase);
  }

  /** Answering a session by Call-ID, by place */
  lemma AnswerAt(w: World, id: string, starts: bool)
    ensures var k := CallAt(w.calls, id);
            AnswerSession(w, id, starts)
            == if k < |w.calls| && w.calls[k].state == RingingIn then w.(calls := w.calls[k := AnsweredOf(w.calls[k], starts)]) else w
  {
  }

  /** A switch without a waiting call is a swap. */
  lemma SwitchSwaps(w: World, starts: bool)
    requires FirstVoiceOf(w.voice, WAITING, |w.voice|)
    ensures Step(w, HalSwitchCalls(starts)) == Step(w, ApiSwap)
  {
    hide FirstVoice, SwapSessions, HoldVoices, AnswerSession;
    FirstVoiceIs(w.voice, WAITING, |w.voice|);
  }

  /** A conference party leaves the conference and is held, and so is its session if it was active. */
  lemma SeparateEffect(w: World, portBase: int, i: nat)
    requires Inv(w, portBase) && i < |w.voice|
    ensures var v, w' := w.voice[i], Step(w, HalSeparateCall(w.voice[i].index));
            if v.isMpty then
              && w' == w.(calls := w'.calls, voice := w.voice[i := v.(isMpty := false, state := HOLDING)])
              && SessionAt(w.calls, w'.calls, v.index, (m: VolteCall) => if m.state == Active then HeldOf(m) else m)
            else w' == w
  {
    hide Inv, SetHal;
    UseInv(w, portBase);
    PartyIs(w.voice, i);
    var v := w.voice[i];
    assert v in w.voice;
    if v.isMpty {
      SessionOf(w, portBase, v);
      SetHalSame(w.voice, i, v.(isMpty := false, state := HOLDING));
    }
  }

  lemma PartyIs(voice: seq<VoiceCall>, i: nat)
    requires Ordered(voice) && i < |voice|
    ensures PartyAt(voice, voice[i].index) == if voice[i].isMpty then i else |voice|
  {
    var k := PartyAt(voice, voice[i].index);
    assert k < |voice| ==> k == i;
  }

  lemma SetHalSame(voice: seq<VoiceCall>, i: nat, v: VoiceCall)
    requires Ordered(voice) && i < |voice| && v.index == voice[i].index
    ensures SetHal(voice[i := v], v.index, v.state) == voice[i := v]
  {
    assert Ordered(voice[i := v]);
    PositionOf(voice[i := v], i);
  }

  // ---- Conference and transfers -------------------------------------------

  ghost predicate LastOf(calls: seq<VolteCall>, state: VolteState, i: nat) {
    i < |calls| && calls[i].state == state && forall k :: i < k < |calls| ==> calls[k].state != state
  }

  lemma {:induction false} LastIs(calls: seq<VolteCall>, state: VolteState, i: nat)
    requires LastOf(calls, state, i)
    ensures LastIn(calls, state) == Some(calls[i])
  {
    var n := |calls| - 1;
    if i < n {
      LastIs(calls[..n], state, i);
    }
  }

  lemma UseLast(calls: seq<VolteCall>, state: VolteState, i: nat)
    requires LastOf(calls, state, i)
    ensures i < |calls| && calls[i].state == state
  {
  }

  /** The last held session joins the last active one: active, media running, both HAL calls active in a conference. */
  lemma ConferenceEffect(w: World, portBase: int, a: nat, h: nat)
    requires Inv(w, portBase) && LastOf(w.calls, Active, a) && LastOf(w.calls, Held, h)
    ensures var w' := Step(w, Conference);
            && w' == w.(calls := w.calls[h := w.calls[h].(state := Active, media := PausedAs(w.calls[h].media, false))], voice := w'.voice)
            && |w'.voice| == |w.voice|
            && forall j :: 0 <= j < |w.voice| ==>
                 w'.voice[j] == if w.voice[j].callId == w.calls[a].callId || w.voice[j].callId == w.calls[h].callId
                                then w.voice[j].(isMpty := true, state := ACTIVE) else w.voice[j]
  {
    hide Inv, LastIn, CallAt, JoinVoice, Distinct, Ordered;
    UseInv(w, portBase);
    UseLast(w.calls, Active, a);
    UseLast(w.calls, Held, h);
    LastIs(w.calls, Active, a);
    LastIs(w.calls, Held, h);
    PlaceOf(w.calls, h);
  }

  /** Without an active or without a held session, a conference changes nothing. */
  lemma NoConference(w: World, state: VolteState)
    requires (state == Active || state == Held) && forall k :: 0 <= k < |w.calls| ==> w.calls[k].state != state
    ensures Step(w, Conference) == w
  {
    assert forall m :: m in w.calls ==> m.state != state;
  }

  /** An accepted REFER makes an active or held session active with a transfer pending, and tells the HAL nothing. */
  lemma TransferEffect(w: World, portBase: int, i: nat, accepted: bool)
    requires Inv(w, portBase) && i < |w.calls|
    ensures var m := w.calls[i];
            Step(w, ApiTransfer(m.callId, accepted))
            == if accepted && (m.state == Active || m.state == Held)
               then w.(calls := w.calls[i := m.(state := Active, transferPending := true)]) else w
  {
    PlaceOf(w.calls, i);
  }

  lemma AttendedEffect(w: World, portBase: int, i: nat, other: string, accepted: bool)
    requires Inv(w, portBase) && i < |w.calls|
    ensures var m := w.calls[i];
            Step(w, ApiAttended(m.callId, other, accepted))
            == if accepted && (m.state == Active || m.state == Held) && exists k :: 0 <= k < |w.calls| && w.calls[k].callId == other
               then w.(calls := w.calls[i := m.(transferPending := true)]) else w
  {
    PlaceOf(w.calls, i);
    var k := CallAt(w.calls, other);
  }

  ghost predicate LastVoiceOf(voice: seq<VoiceCall>, state: HalState, i: nat) {
    i < |voice| && voice[i].state == state && forall k :: i < k < |voice| ==> voice[k].state != state
  }

  lemma {:induction false} LastVoiceIs(voice: seq<VoiceCall>, state: HalState, i: nat)
    requires LastVoiceOf(voice, state, i)
    ensures LastVoice(voice, state) == Some(voice[i])
  {
    var n := |voice| - 1;
    if i < n {
      LastVoiceIs(voice[..n], state, i);
    }
  }

  lemma UseLastVoice(voice: seq<VoiceCall>, state: HalState, i: nat)
    requires LastVoiceOf(voice, state, i)
    ensures i < |voice| && voice[i].state == state
  {
  }

  /**
   * An explicit transfer that the far end accepts: both HAL calls are gone, and the
   * held one's session waits, active, for the outcome.
   */
  lemma HalTransferEffect(w: World, portBase: int, a: nat, h: nat, k: nat)
    requires Inv(w, portBase) && LastVoiceOf(w.voice, ACTIVE, a) && LastVoiceOf(w.voice, HOLDING, h)
    requires k < |w.calls| && w.calls[k].callId == w.voice[h].callId
    ensures var w' := Step(w, HalTransferCalls(true));
            && w' == w.(calls := w.calls[k := w.calls[k].(state := Active, transferPending := true)], voice := w'.voice)
            && Ordered(w'.voice)
            && forall v :: v in w'.voice <==> v in w.voice && v.index != w.voice[a].index && v.index != w.voice[h].index
  {
    hide Inv, Remove, LastVoice, LastVoiceOf, CallAt, Ordered, Distinct;
    UseInv(w, portBase);
    UseLastVoice(w.voice, ACTIVE, a);
    UseLastVoice(w.voice, HOLDING, h);
    LastVoiceIs(w.voice, ACTIVE, a);
    LastVoiceIs(w.voice, HOLDING, h);
    PlaceOf(w.calls, k);
    assert w.voice[h] in w.voice;
    Owner(w, portBase, w.voice[h]);
    RemoveMembers(w.voice, w.voice[a].index);
    RemoveMembers(Remove(w.voice, w.voice[a].index), w.voice[h].index);
  }

  /** A transfer that is refused, or without both kinds of HAL call, or of a call without a session, changes nothing. */
  lemma NoHalTransfer(w: World, h: nat, accepted: bool)
    requires || !accepted
             || (forall j :: 0 <= j < |w.voice| ==> w.voice[j].state != ACTIVE)
             || (forall j :: 0 <= j < |w.voice| ==> w.voice[j].state != HOLDING)
             || (LastVoiceOf(w.voice, HOLDING, h) && forall k :: 0 <= k < |w.calls| ==> w.calls[k].callId != w.voice[h].callId)
    ensures Step(w, HalTransferCalls(accepted)) == w
  {
    var a, held := LastVoice(w.voice, ACTIVE), LastVoice(w.voice, HOLDING);
    if a.Some? && held.Some? && accepted {
      LastVoiceIs(w.voice, HOLDING, h);
      NoPlace(w.calls, w.voice[h].callId);
    }
  }

  // ---- Ends of calls ------------------------------------------------------

  /** Hanging up a HAL call: it is gone, and the session of its Call-ID with it; with an unknown index nothing happens. */
  lemma HangupEffect(w: World, portBase: int, i: nat)
    requires Inv(w, portBase) && i < |w.voice|
    ensures var v, w' := w.voice[i], Step(w, HalHangupCall(w.voice[i].index));
            && w' == w.(calls := w'.calls, voice := w'.voice)
            && VoiceGone(w.voice, w'.voice, v.index) && SessionGone(w.calls, w'.calls, v.callId)
  {
    hide Inv, Remove, Pop, VoiceGone, SessionGone;
    UseInv(w, portBase);
    PositionOf(w.voice, i);
    RemoveIs(w.voice, w.voice[i].index);
    PopIs(w.calls, w.voice[i].callId);
    NoEmptyId(w, portBase);
    HasMember(w.calls, "");
    NobodyGone(w.calls, "");
  }

  lemma NobodyGone(calls: seq<VolteCall>, id: string)
    requires Distinct(calls)
    ensures !Has(calls, id) ==> SessionGone(calls, calls, id)
  {
    HasMember(calls, id);
  }

  /** BYE and CANCEL: the session is gone, and the HAL call with its Call-ID. */
  lemma ByeEffect(w: World, portBase: int, i: nat)
    requires Inv(w, portBase) && i < |w.calls|
    ensures var id, w' := w.calls[i].callId, Step(w, SipBye(w.calls[i].callId));
            && w' == w.(calls := w'.calls, voice := w'.voice)
            && SessionGone(w.calls, w'.calls, id)
            && Ordered(w'.voice) && forall v :: v in w'.voice <==> v in w.voice && v.callId != id
  {
    hide Inv, Remove, Pop, SessionGone;
    UseInv(w, portBase);
    PlaceOf(w.calls, i);
    var id := w.calls[i].callId;
    PopIs(w.calls, id);
    var k := VoiceById(w.voice, id);
    assert w.calls[i] in w.calls;
    if k < |w.voice| {
      RemoveMembers(w.voice, w.voice[k].index);
      assert w.voice[k] in w.voice;
      forall v | v in w.voice
        ensures v.callId == id <==> v.index == w.voice[k].index
      {
        assert PairOk(w.pending, w.calls[i], v) && PairOk(w.pending, w.calls[i], w.voice[k]);
        if v.index == w.voice[k].index {
          OneIndex(w.voice, v, w.voice[k]);
        }
      }
    }
  }

  lemma OneIndex(voice: seq<VoiceCall>, a: VoiceCall, b: VoiceCall)
    requires Ordered(voice) && a in voice && b in voice && a.index == b.index
    ensures a == b
  {
  }

  /** The management API's hangup drops the session only. */
  lemma ApiHangupEffect(w: World, portBase: int, id: string)
    requires Inv(w, portBase)
    ensures var w' := Step(w, ApiHangup(id)); w' == w.(calls := w'.calls) && SessionGone(w.calls, w'.calls, id)
  {
    hide Inv, Pop, SessionGone;
    UseInv(w, portBase);
    PopIs(w.calls, id);
  }

  lemma {:induction false} HangupIdsEffect(w: World, portBase: int, voice: seq<VoiceCall>)
    requires Inv(w, portBase)
    ensures var w' := HangupIds(w, voice);
            && w' == w.(calls := w'.calls) && Distinct(w'.calls)
            && forall m :: m in w'.calls <==> m in w.calls && forall v :: v in voice ==> v.callId != m.callId
  {
    hide Inv, Pop, Distinct;
    if voice == [] {
      UseInv(w, portBase);
    } else {
      var front, last := voice[..|voice| - 1], voice[|voice| - 1];
      HangupIdsEffect(w, portBase, front);
      var w1 := HangupIds(w, front);
      PopMembers(w1.calls, last.callId);
      assert voice == front + [last];
      UseInv(w, portBase);
      assert forall m :: m in w.calls ==> m.callId != "" by {
        assert forall m :: m in w.calls ==> SessionOk(w, portBase, m);
      }
    }
  }

  /** Hanging up everything: no HAL call is left, and no session whose Call-ID one of them had. */
  lemma HangupAllEffect(w: World, portBase: int)
    requires Inv(w, portBase)
    ensures var w' := Step(w, HalHangupEvery);
            && w' == w.(calls := w'.calls, voice := []) && Distinct(w'.calls)
            && forall m :: m in w'.calls <==> m in w.calls && forall v :: v in w.voice ==> v.callId != m.callId
  {
    hide Inv, HangupIds, Distinct;
    HangupIdsEffect(w, portBase, w.voice);
  }

  // ---- Outgoing calls -----------------------------------------------------

  /** A dialled call: the next index in the HAL, the next port pair, and an INVITE pending. */
  lemma DialEffect(w: World, id: string)
    ensures Step(w, HalDial(id))
            == World(w.calls + [VolteCall(id, w.nextIndex, Initiating, true, w.nextPort, None, false)], w.nextPort + 2,
                     w.pending[id := w.nextIndex], w.voice + [VoiceCall(w.nextIndex, DIALING, false, false, "")], w.nextIndex + 1)
    ensures Step(w, ApiDial(id))
            == World(w.calls + [VolteCall(id, 0, Initiating, true, w.nextPort, None, false)], w.nextPort + 2,
                     w.pending[id := 0], w.voice, w.nextIndex)
  {
  }

  /** A 180 for a pending INVITE: session and HAL call ring. */
  lemma RingingEffect(w: World, portBase: int, i: nat)
    requires Inv(w, portBase) && i < |w.calls|
    ensures var m, w' := w.calls[i], Step(w, Sip180(w.calls[i].callId));
            if m.callId in w.pending && m.outgoing then
              && w' == w.(calls := w.calls[i := m.(state := RingingOut)], voice := w'.voice)
              && VoiceSet(w.voice, w'.voice, m.index, ALERTING)
            else w' == w
  {
    hide VoiceSet, SetHal;
    PlaceOf(w.calls, i);
    SetHalIs(w.voice, w.calls[i].index, ALERTING);
  }

  /** A 200: the session, if it is still there, is active with its media, and the dialled HAL call is active under the Call-ID. */
  lemma InviteOkEffect(w: World, portBase: int, id: string, starts: bool)
    requires Inv(w, portBase) && id in w.pending
    ensures var w' := Step(w, SipOk(id, starts));
            && w' == w.(calls := w'.calls, voice := w'.voice, pending := w.pending - {id})
            && |w'.calls| == |w.calls| && |w'.voice| == |w.voice|
            && (forall k :: 0 <= k < |w.calls| ==>
                  w'.calls[k] == if w.calls[k].callId == id then AnsweredOf(w.calls[k], starts) else w.calls[k])
            && (forall j :: 0 <= j < |w.voice| ==>
                  w'.voice[j] == if w.voice[j].index == w.pending[id] then w.voice[j].(state := ACTIVE, callId := id) else w.voice[j])
  {
    hide Inv, SetHal, LearnId;
    UseInv(w, portBase);
    VoiceIndices(w, portBase);
    AnsweredIs(w.voice, w.pending[id], id);
    var k0 := CallAt(w.calls, id);
    forall k | 0 <= k < |w.calls| && k != k0
      ensures w.calls[k].callId != id
    {
      PlaceOf(w.calls, k);
    }
    SetHalIs(w.voice, w.pending[id], ACTIVE);
  }

  lemma AnsweredIs(voice: seq<VoiceCall>, index: nat, id: string)
    requires Ordered(voice)
    ensures var after := LearnId(SetHal(voice, index, ACTIVE), index, id);
            && |after| == |voice|
            && forall j :: 0 <= j < |voice| ==>
                 after[j] == if voice[j].index == index then voice[j].(state := ACTIVE, callId := id) else voice[j]
  {
    SetHalIs(voice, index, ACTIVE);
    var mid := SetHal(voice, index, ACTIVE);
    assert Ordered(mid);
  }

  /** A final failure: the session and its dialled HAL call are gone; with the session gone already, the HAL call stays. */
  lemma InviteFailedEffect(w: World, portBase: int, id: string)
    requires Inv(w, portBase) && id in w.pending
    ensures var w' := Step(w, SipFailure(id));
            && w' == w.(calls := w'.calls, voice := w'.voice, pending := w.pending - {id})
            && SessionGone(w.calls, w'.calls, id)
            && if exists m :: m in w.calls && m.callId == id then VoiceGone(w.voice, w'.voice, w.pending[id]) else w'.voice == w.voice
  {
    hide Inv, Remove, Pop, SessionGone, VoiceGone;
    UseInv(w, portBase);
    HasMember(w.calls, id);
    NobodyGone(w.calls, id);
    PopIs(w.calls, id);
    RemoveIs(w.voice, w.pending[id]);
    NoneGone(w, portBase);
  }

  lemma NoneGone(w: World, portBase: int)
    requires Inv(w, portBase)
    ensures VoiceGone(w.voice, w.voice, 0)
  {
    hide Distinct, PairOk, SessionOk, PendingOk;
  }

  // ---- Incoming requests --------------------------------------------------

  /** A new INVITE rings: waiting beside an active call, else incoming, with one index for session and HAL call. */
  lemma IncomingEffect(w: World, id: string, direction: Direction)
    requires forall k :: 0 <= k < |w.calls| ==> w.calls[k].callId != id
    ensures Step(w, SipInvite(id, direction, None))
            == World(w.calls + [VolteCall(id, w.nextIndex, RingingIn, false, w.nextPort, None, false)], w.nextPort + 2, w.pending,
                     w.voice + [VoiceCall(w.nextIndex,
                                          if exists j :: 0 <= j < |w.voice| && w.voice[j].state == ACTIVE then WAITING else INCOMING,
                                          true, false, id)],
                     w.nextIndex + 1)
  {
    NoPlace(w.calls, id);
    var i := FirstVoice(w.voice, ACTIVE);
  }

  /** A forwarded INVITE: its session is gone again, its ports are used up, and a call of our own without a HAL call starts. */
  lemma ForwardedEffect(w: World, id: string, direction: Direction, newId: string)
    requires forall k :: 0 <= k < |w.calls| ==> w.calls[k].callId != id
    ensures Step(w, SipInvite(id, direction, Some(newId)))
            == World(w.calls + [VolteCall(newId, 0, Initiating, true, w.nextPort + 2, None, false)], w.nextPort + 4,
                     w.pending[newId := 0], w.voice, w.nextIndex)
  {
    NoPlace(w.calls, id);
  }

  /** A re-INVITE holds or resumes the session, its media and its HAL call, whatever they were. */
  lemma ReInviteEffect(w: World, portBase: int, i: nat, direction: Direction, forwardedAs: Option<string>)
    requires Inv(w, portBase) && i < |w.calls|
    ensures var m, w' := w.calls[i], Step(w, SipInvite(w.calls[i].callId, direction, forwardedAs));
            match direction
            case RemoteHold =>
              && w' == w.(calls := w.calls[i := m.(state := Held, media := PausedAs(m.media, true))], voice := w'.voice)
              && VoiceSet(w.voice, w'.voice, m.index, HOLDING)
            case RemoteResume =>
              && w' == w.(calls := w.calls[i := m.(state := Active, media := PausedAs(m.media, false))], voice := w'.voice)
              && VoiceSet(w.voice, w'.voice, m.index, ACTIVE)
            case Unchanged => w' == w
  {
    hide VoiceSet, SetHal;
    PlaceOf(w.calls, i);
    SetHalIs(w.voice, w.calls[i].index, HOLDING);
    SetHalIs(w.voice, w.calls[i].index, ACTIVE);
  }

  /** The far end's REFER: the session is gone and its target is dialled; without a target nothing happens. */
  lemma ReferEffect(w: World, portBase: int, i: nat, newId: string)
    requires Inv(w, portBase) && i < |w.calls|
    ensures var w' := Step(w, SipRefer(w.calls[i].callId, Some(newId)));
            var n := |w'.calls| - 1;
            && n >= 0 && SessionGone(w.calls, w'.calls[..n], w.calls[i].callId)
            && w'.calls[n] == VolteCall(newId, w.nextIndex, Initiating, true, w.nextPort, None, false)
            && w' == World(w'.calls, w.nextPort + 2, w.pending[newId := w.nextIndex],
                           w.voice + [VoiceCall(w.nextIndex, DIALING, false, false, "")], w.nextIndex + 1)
    ensures Step(w, SipRefer(w.calls[i].callId, None)) == w
  {
    hide Inv, Pop, SessionGone;
    UseInv(w, portBase);
    PlaceOf(w.calls, i);
    var id := w.calls[i].callId;
    PopIs(w.calls, id);
    var w' := Step(w, SipRefer(id, Some(newId)));
    assert w'.calls[..|w'.calls| - 1] == Pop(w.calls, id);
  }

  /** A NOTIFY: a failure clears the pending transfer, a final success hangs up, anything else waits. */
  lemma NotifyEffect(w: World, portBase: int, i: nat, status: TransferStatus, terminated: bool)
    requires Inv(w, portBase) && i < |w.calls|
    ensures var m, w' := w.calls[i], Step(w, SipNotify(w.calls[i].callId, status, terminated));
            if status.Failed? then w' == w.(calls := w.calls[i := m.(transferPending := false)])
            else if m.transferPending && (status.Succeeded? || terminated) then
              w' == w.(calls := w'.calls) && SessionGone(w.calls, w'.calls, m.callId)
            else w' == w
  {
    hide Inv, Pop, SessionGone;
    UseInv(w, portBase);
    PlaceOf(w.calls, i);
    PopIs(w.calls, w.calls[i].callId);
  }

  /** Requests for a Call-ID that no session has change nothing. */
  lemma UnknownEffect(w: World, id: string)
    requires forall k :: 0 <= k < |w.calls| ==> w.calls[k].callId != id
    ensures Step(w, ApiHold(id)) == Step(w, ApiResume(id)) == Step(w, SipBye(id)) == Step(w, ApiHangup(id)) == w
    ensures forall accepted :: Step(w, ApiTransfer(id, accepted)) == w
    ensures forall status, terminated :: Step(w, SipNotify(id, status, terminated)) == w
    ensures forall dialAs :: Step(w, SipRefer(id, dialAs)) == w
  {
    NoPlace(w.calls, id);
  }
}
