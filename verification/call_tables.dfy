/**
 * The two call tables: the VoLTE manager's sessions keyed by Call-ID, in order of
 * arrival, and the Radio HAL's calls by index. Lookups, updates and removals.
 */
module CallTables {
  import opened Wrappers

  datatype VolteState = Initiating | RingingOut | RingingIn | Active | Held

  datatype HalState = ACTIVE | HOLDING | DIALING | ALERTING | INCOMING | WAITING

  /** A VoLTE session; `media` is None without a media session, else whether it is paused. */
  datatype VolteCall = VolteCall(
    callId: string,
    index: nat,
    state: VolteState,
    outgoing: bool,
    rtpPort: int,
    media: Option<bool>,
    transferPending: bool)

  datatype VoiceCall = VoiceCall(
    index: nat,
    state: HalState,
    isMt: bool,
    isMpty: bool,
    callId: string)

  // ---- Sessions by Call-ID ------------------------------------------------

  /** Arrival order is port order, two ports a session; no Call-ID twice. */
  ghost predicate Distinct(calls: seq<VolteCall>) {
    forall i, j :: 0 <= i < j < |calls| ==>
      calls[i].callId != calls[j].callId && calls[i].rtpPort + 2 <= calls[j].rtpPort
  }

  /** Where the session is, or the table's size. */
  function CallAt(calls: seq<VolteCall>, id: string): (i: nat)
    ensures i <= |calls|
    ensures i < |calls| ==> calls[i].callId == id
    ensures forall k :: 0 <= k < i ==> calls[k].callId != id
  {
    if calls == [] || calls[0].callId == id then 0 else 1 + CallAt(calls[1..], id)
  }

  predicate Has(calls: seq<VolteCall>, id: string) {
    CallAt(calls, id) < |calls|
  }

  function CallOf(calls: seq<VolteCall>, id: string): (m: VolteCall)
    requires Has(calls, id)
    ensures m in calls && m.callId == id
  {
    calls[CallAt(calls, id)]
  }

  /** The session's entry, written over. */
  function Update(calls: seq<VolteCall>, m: VolteCall): seq<VolteCall> {
    var i := CallAt(calls, m.callId);
    if i < |calls| then calls[i := m] else calls
  }

  /** `pop(id, None)` */
  function Pop(calls: seq<VolteCall>, id: string): seq<VolteCall> {
    var i := CallAt(calls, id);
    if i < |calls| then calls[..i] + calls[i + 1..] else calls
  }

  lemma HasMember(calls: seq<VolteCall>, id: string)
    ensures Has(calls, id) <==> exists m :: m in calls && m.callId == id
  {
  }

  lemma OneSession(calls: seq<VolteCall>, a: VolteCall, b: VolteCall)
    requires Distinct(calls) && a in calls && b in calls && a.callId == b.callId
    ensures a == b
  {
  }

  lemma UpdateMembers(calls: seq<VolteCall>, m: VolteCall)
    requires Distinct(calls) && Has(calls, m.callId) && m.rtpPort == CallOf(calls, m.callId).rtpPort
    ensures Distinct(Update(calls, m))
    ensures forall x :: x in Update(calls, m) <==> x == m || (x in calls && x.callId != m.callId)
  {
    var i, after := CallAt(calls, m.callId), Update(calls, m);
    assert after[i] == m;
    forall x | x in calls && x.callId != m.callId
      ensures x in after
    {
      var k :| 0 <= k < |calls| && calls[k] == x;
      assert after[k] == x;
    }
  }

  lemma PopMembers(calls: seq<VolteCall>, id: string)
    requires Distinct(calls)
    ensures Distinct(Pop(calls, id))
    ensures forall x :: x in Pop(calls, id) <==> x in calls && x.callId != id
  {
    hide CallAt;
    var i, after := CallAt(calls, id), Pop(calls, id);
    if i < |calls| {
      forall x | x in calls && x.callId != id
        ensures x in after
      {
        var k :| 0 <= k < |calls| && calls[k] == x;
        assert if k < i then after[k] == x else after[k - 1] == x;
      }
    }
  }

  /** The first session in a state, as an index, or the table's size. */
  function FirstIn(calls: seq<VolteCall>, state: VolteState): (i: nat)
    ensures i <= |calls|
    ensures i < |calls| ==> calls[i].state == state
    ensures forall k :: 0 <= k < i ==> calls[k].state != state
  {
    if calls == [] || calls[0].state == state then 0 else 1 + FirstIn(calls[1..], state)
  }

  /** The last session in a state. */
  function LastIn(calls: seq<VolteCall>, state: VolteState): (r: Option<VolteCall>)
    ensures r.Some? ==> r.value in calls && r.value.state == state
    ensures r.None? ==> forall m :: m in calls ==> m.state != state
  {
    if calls == [] then None
    else if calls[|calls| - 1].state == state then Some(calls[|calls| - 1])
    else LastIn(calls[..|calls| - 1], state)
  }

  // ---- HAL calls ----------------------------------------------------------

  /** The list is in index order. */
  ghost predicate Ordered(voice: seq<VoiceCall>) {
    forall i, j :: 0 <= i < j < |voice| ==> voice[i].index < voice[j].index
  }

  function VoiceAt(voice: seq<VoiceCall>, index: nat): (i: nat)
    ensures i <= |voice|
    ensures i < |voice| ==> voice[i].index == index
    ensures forall k :: 0 <= k < i ==> voice[k].index != index
  {
    if voice == [] || voice[0].index == index then 0 else 1 + VoiceAt(voice[1..], index)
  }

  /** The conference party with this index. */
  function PartyAt(voice: seq<VoiceCall>, index: nat): (i: nat)
    ensures i <= |voice|
    ensures i < |voice| ==> voice[i].index == index && voice[i].isMpty
    ensures forall k :: 0 <= k < i ==> voice[k].index != index || !voice[k].isMpty
  {
    if voice == [] || (voice[0].index == index && voice[0].isMpty) then 0 else 1 + PartyAt(voice[1..], index)
  }

  function VoiceById(voice: seq<VoiceCall>, id: string): (i: nat)
    ensures i <= |voice|
    ensures i < |voice| ==> voice[i].callId == id
    ensures forall k :: 0 <= k < i ==> voice[k].callId != id
  {
    if voice == [] || voice[0].callId == id then 0 else 1 + VoiceById(voice[1..], id)
  }

  function FirstVoice(voice: seq<VoiceCall>, state: HalState): (i: nat)
    ensures i <= |voice|
    ensures i < |voice| ==> voice[i].state == state
    ensures forall k :: 0 <= k < i ==> voice[k].state != state
  {
    if voice == [] || voice[0].state == state then 0 else 1 + FirstVoice(voice[1..], state)
  }

  function LastVoice(voice: seq<VoiceCall>, state: HalState): (r: Option<VoiceCall>)
    ensures r.Some? ==> r.value in voice && r.value.state == state
    ensures r.None? ==> forall v :: v in voice ==> v.state != state
  {
    if voice == [] then None
    else if voice[|voice| - 1].state == state then Some(voice[|voice| - 1])
    else LastVoice(voice[..|voice| - 1], state)
  }

  /** The entry with this call's index, written over. */
  function Rewrite(voice: seq<VoiceCall>, v: VoiceCall): seq<VoiceCall> {
    var i := VoiceAt(voice, v.index);
    if i < |voice| then voice[i := v] else voice
  }

  /** `update_call_state(index, state)` */
  function SetHal(voice: seq<VoiceCall>, index: nat, state: HalState): seq<VoiceCall> {
    var i := VoiceAt(voice, index);
    if i < |voice| then voice[i := voice[i].(state := state)] else voice
  }

  function Remove(voice: seq<VoiceCall>, index: nat): seq<VoiceCall> {
    var i := VoiceAt(voice, index);
    if i < |voice| then voice[..i] + voice[i + 1..] else voice
  }

  lemma RewriteMembers(voice: seq<VoiceCall>, v: VoiceCall)
    requires Ordered(voice)
    ensures Ordered(Rewrite(voice, v))
    ensures forall x :: x in Rewrite(voice, v) ==>
              (x == v && exists y :: y in voice && y.index == v.index) || (x in voice && x.index != v.index)
    ensures forall x :: x in voice && x.index != v.index ==> x in Rewrite(voice, v)
    ensures (exists y :: y in voice && y.index == v.index) ==> v in Rewrite(voice, v)
  {
    var i, after := VoiceAt(voice, v.index), Rewrite(voice, v);
    if i < |voice| {
      assert after[i] == v && voice[i] in voice;
    }
    forall x | x in voice && x.index != v.index
      ensures x in after
    {
      var k :| 0 <= k < |voice| && voice[k] == x;
      assert after[k] == x;
    }
  }

  lemma SetHalMembers(voice: seq<VoiceCall>, index: nat, state: HalState)
    requires Ordered(voice)
    ensures Ordered(SetHal(voice, index, state))
    ensures forall x :: x in SetHal(voice, index, state) ==>
              (x.index == index && x.state == state && exists y :: y in voice && x == y.(state := state))
              || (x in voice && x.index != index)
  {
    var i := VoiceAt(voice, index);
    if i < |voice| {
      assert voice[i] in voice;
    }
  }

  lemma RemoveMembers(voice: seq<VoiceCall>, index: nat)
    requires Ordered(voice)
    ensures Ordered(Remove(voice, index))
    ensures forall x :: x in Remove(voice, index) <==> x in voice && x.index != index
  {
    hide VoiceAt;
    var i, after := VoiceAt(voice, index), Remove(voice, index);
    if i < |voice| {
      forall x | x in voice && x.index != index
        ensures x in after
      {
        var k :| 0 <= k < |voice| && voice[k] == x;
        assert if k < i then after[k] == x else after[k - 1] == x;
      }
    }
  }
}
