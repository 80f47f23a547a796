/** A profile and its dictionary form, with the defaults a shorter dictionary gets. */
module Isdp {
  import opened Wrappers

  /** A JSON value that is not a list or an object */
  datatype Value = Text(text: string) | Number(n: int) | Null

  datatype State = DISABLED | ENABLED | DELETING

  datatype Class = PROVISIONING | OPERATIONAL | TEST

  /** The keys of the stored dictionary and of a profile package */
  datatype Key =
    | KIccid | KImsi | KAid | KKi | KOpc | KMcc | KMnc | KSpn | KMsisdn | KGid1 | KGid2 | KImpi | KImpu | KHomeDomain
    | KState | KClass | KSqn | KSize

  type Dict = map<Key, Value>

  datatype Profile = Profile(
    iccid: string,
    imsi: Value,
    aid: Value,
    ki: Value,
    opc: Value,
    mcc: Value,
    mnc: Value,
    spn: Value,
    msisdn: Value,
    gid1: Value,
    gid2: Value,
    impi: Value,
    impu: Value,
    homeDomain: Value,
    state: State,
    profileClass: Class,
    sqn: int)

  function StateText(s: State): string {
    match s
    case DISABLED => "disabled"
    case ENABLED => "enabled"
    case DELETING => "deleting"
  }

  /** `ProfileState(v)` */
  function StateOf(v: Value): Option<State> {
    if v == Text("disabled") then Some(DISABLED)
    else if v == Text("enabled") then Some(ENABLED)
    else if v == Text("deleting") then Some(DELETING)
    else None
  }

  function ClassText(c: Class): string {
    match c
    case PROVISIONING => "provisioning"
    case OPERATIONAL => "operational"
    case TEST => "test"
  }

  function ClassOf(v: Value): Option<Class> {
    if v == Text("provisioning") then Some(PROVISIONING)
    else if v == Text("operational") then Some(OPERATIONAL)
    else if v == Text("test") then Some(TEST)
    else None
  }

  function Get(d: Dict, key: Key, default: Value): Value {
    if key in d then d[key] else default
  }

  function ToDict(p: Profile): Dict {
    map[KIccid := Text(p.iccid), KImsi := p.imsi, KAid := p.aid, KKi := p.ki, KOpc := p.opc, KMcc := p.mcc, KMnc := p.mnc,
        KSpn := p.spn, KMsisdn := p.msisdn, KGid1 := p.gid1, KGid2 := p.gid2, KImpi := p.impi, KImpu := p.impu,
        KHomeDomain := p.homeDomain, KState := Text(StateText(p.state)), KClass := Text(ClassText(p.profileClass)),
        KSqn := Number(p.sqn)]
  }

  /** A missing required key or an unknown state or class is an error. */
  function FromDict(d: Dict): Result<Profile> {
    var state, class_ := StateOf(Get(d, KState, Text("disabled"))), ClassOf(Get(d, KClass, Text("operational")));
    if KIccid !in d || !d[KIccid].Text? || KImsi !in d || KKi !in d || KOpc !in d || state.None? || class_.None?
       || !Get(d, KSqn, Number(0)).Number? then Err
    else Ok(Profile(d[KIccid].text, d[KImsi], Get(d, KAid, Text("")), d[KKi], d[KOpc], Get(d, KMcc, Text("001")),
                    Get(d, KMnc, Text("01")), Get(d, KSpn, Text("Virtual")), Get(d, KMsisdn, Null), Get(d, KGid1, Null),
                    Get(d, KGid2, Null), Get(d, KImpi, Null), Get(d, KImpu, Null), Get(d, KHomeDomain, Null),
                    state.value, class_.value, Get(d, KSqn, Number(0)).n))
  }

  /** Every profile survives its dictionary. */
  lemma ProfileRoundTrip(p: Profile)
    ensures FromDict(ToDict(p)) == Ok(p)
  {
    hide StateOf, StateText, ClassOf, ClassText, ToDict;
    DictIdentity(p);
    DictCredentials(p);
    DictRest(p);
    StateTexts(p.state);
    ClassTexts(p.profileClass);
  }

  lemma DictIdentity(p: Profile)
    ensures var d := ToDict(p);
            && KIccid in d && d[KIccid] == Text(p.iccid) && KImsi in d && d[KImsi] == p.imsi && KAid in d && d[KAid] == p.aid
            && KKi in d && d[KKi] == p.ki && KOpc in d && d[KOpc] == p.opc
  {
  }

  lemma DictCredentials(p: Profile)
    ensures var d := ToDict(p);
            && KMcc in d && d[KMcc] == p.mcc && KMnc in d && d[KMnc] == p.mnc && KSpn in d && d[KSpn] == p.spn
            && KMsisdn in d && d[KMsisdn] == p.msisdn && KGid1 in d && d[KGid1] == p.gid1 && KGid2 in d && d[KGid2] == p.gid2
  {
  }

  lemma DictRest(p: Profile)
    ensures var d := ToDict(p);
            && KImpi in d && d[KImpi] == p.impi && KImpu in d && d[KImpu] == p.impu && KHomeDomain in d && d[KHomeDomain] == p.homeDomain
            && KState in d && d[KState] == Text(StateText(p.state)) && KClass in d && d[KClass] == Text(ClassText(p.profileClass))
            && KSqn in d && d[KSqn] == Number(p.sqn)
  {
  }

  lemma StateTexts(s: State)
    ensures StateOf(Text(StateText(s))) == Some(s)
  {
    assert "disabled"[0] == 'd' && "enabled"[0] == 'e' && "deleting"[1] == 'e' && "disabled"[1] == 'i';
  }

  lemma ClassTexts(c: Class)
    ensures ClassOf(Text(ClassText(c))) == Some(c)
  {
    assert "provisioning"[0] == 'p' && "operational"[0] == 'o' && "test"[0] == 't';
  }
}
