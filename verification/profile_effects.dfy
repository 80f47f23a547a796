/**
 * What each profile operation achieves, in memory and on disk: which profile changes,
 * how, and that the others do not.
 */
module ProfileEffects {
  import opened Isdp
  import opened ProfileFiles
  import opened ProfileRuns
  import opened ProfileStore
  import opened Wrappers

  /** Memory but for profiles and the active one */
  predicate RestSame(m: Memory, m': Memory) {
    m'.freeNvram == m.freeNvram && m'.ready == m.ready
  }

  // ---- Enable -------------------------------------------------------------

  /**
   * Enabling an installed profile succeeds: it is the enabled one and the active one,
   * in memory and on disk, whichever was before, and no profile changes but in state.
   */
  lemma EnableAchieves(fs: FileSystem, m: Memory, disk: Disk, k: string)
    requires Inv(fs, m, disk) && Guard(fs, m, DoEnable(k)) && k in m.profiles
    ensures var e := Run(fs, m, disk, DoEnable(k));
            var m', final := e.memory, Final(disk, e.steps);
            && e.ok && m'.active == Some(k) && RestSame(m, m') && m'.profiles.Keys == m.profiles.Keys
            && (forall x :: x in m.profiles ==>
                  m'.profiles[x] == m.profiles[x].(state := if x == k then ENABLED
                                                            else if m.profiles[x].state == ENABLED then DISABLED
                                                            else m.profiles[x].state))
            && (forall x :: EnabledOnDisk(fs, final, x) <==> x == k)
  {
    hide PlaceOf, FileOf, Saving, Saved, Final, Agree, Named;
    EnableMemory(fs, m, disk, k);
    EnableKeeps(fs, m, disk, k);
    var e := Run(fs, m, disk, DoEnable(k));
    InvDisk(fs, e.memory, Final(disk, e.steps));
  }

  lemma EnableMemory(fs: FileSystem, m: Memory, disk: Disk, k: string)
    requires Inv(fs, m, disk) && Guard(fs, m, DoEnable(k)) && k in m.profiles
    ensures var e := Enable(fs, m, disk, k);
            var m' := e.memory;
            && e.ok && m'.active == Some(k) && RestSame(m, m') && m'.profiles.Keys == m.profiles.Keys
            && (forall x :: x in m.profiles ==>
                  m'.profiles[x] == m.profiles[x].(state := if x == k then ENABLED
                                                            else if m.profiles[x].state == ENABLED then DISABLED
                                                            else m.profiles[x].state))
  {
    hide PlaceOf, FileOf, Saving, Saved, Agree, Named;
    OwnFiles(fs, m, disk, k);
    if m.active.Some? {
      OwnFiles(fs, m, disk, m.active.value);
    }
    assert m.profiles[k].(state := ENABLED).iccid == k;
  }

  // ---- Disable ------------------------------------------------------------

  /** Disabling an installed profile succeeds: it is disabled in memory and on disk and not active, and nothing else changes. */
  lemma DisableAchieves(fs: FileSystem, m: Memory, disk: Disk, k: string)
    requires Inv(fs, m, disk) && k in m.profiles
    ensures var e := Run(fs, m, disk, DoDisable(k));
            var m', final := e.memory, Final(disk, e.steps);
            && e.ok && RestSame(m, m') && m'.profiles == m.profiles[k := m.profiles[k].(state := DISABLED)]
            && m'.active == (if m.active == Some(k) then None else m.active)
            && FileOf(fs, final, k).Some? && FileOf(fs, final, k).value.state == DISABLED
            && (forall x :: x != k ==> FileOf(fs, final, x) == FileOf(fs, disk, x))
  {
    hide PlaceOf, FileOf, Saving, Saved, Final, Agree, Named;
    OwnFiles(fs, m, disk, k);
    var e := Run(fs, m, disk, DoDisable(k));
    var off := m.profiles[k].(state := DISABLED);
    if m.profiles[k].state == DISABLED {
      assert m.profiles[k := off] == m.profiles;
      NoSteps(fs, m, disk, DoDisable(k));
      StoredState(fs, m, disk, k);
    } else {
      FinalSaved(fs, disk, off, []);
      SavedFile(fs, disk, off, k);
      assert e.steps == Saving(fs, disk, off) && off.iccid == k;
      OthersSame(fs, m, disk, off);
    }
  }

  lemma StoredState(fs: FileSystem, m: Memory, disk: Disk, k: string)
    requires Inv(fs, m, disk) && k in m.profiles
    ensures FileOf(fs, disk, k).Some? && FileOf(fs, disk, k).value.state == m.profiles[k].state
    ensures m.profiles[k].state == DISABLED ==> m.active != Some(k)
  {
    hide PlaceOf, FileOf, Named;
    assert Lags(FileOf(fs, disk, k), m.profiles[k]);
  }

  /** Saving a profile in memory leaves the files of all other ICCIDs alone. */
  lemma OthersSame(fs: FileSystem, m: Memory, disk: Disk, p: Profile)
    requires Inv(fs, m, disk) && PlaceOf(fs, p.iccid).Inside?
    requires forall k :: k in m.profiles && k != p.iccid ==> PlaceOf(fs, k) != PlaceOf(fs, p.iccid)
    ensures forall x :: x != p.iccid ==> FileOf(fs, Saved(fs, disk, p), x) == FileOf(fs, disk, x)
  {
    hide PlaceOf, FileOf, Saved, Named, Lags;
    forall x | x != p.iccid
      ensures FileOf(fs, Saved(fs, disk, p), x) == FileOf(fs, disk, x)
    {
      SavedFile(fs, disk, p, x);
    }
  }

  // ---- Delete -------------------------------------------------------------

  /** Deleting an installed profile succeeds: it is in neither memory nor the directory, and nothing else changes. */
  lemma DeleteAchieves(fs: FileSystem, m: Memory, disk: Disk, k: string)
    requires Inv(fs, m, disk) && k in m.profiles
    ensures var e := Run(fs, m, disk, DoDelete(k));
            var m', final := e.memory, Final(disk, e.steps);
            && e.ok && RestSame(m, m') && m'.profiles == m.profiles - {k}
            && m'.active == (if m.active == Some(k) then None else m.active)
            && FileOf(fs, final, k).None?
            && (forall x :: x != k ==> FileOf(fs, final, x) == FileOf(fs, disk, x))
  {
    hide PlaceOf, FileOf, Unlinked, Agree, Named;
    OwnFiles(fs, m, disk, k);
    UnlinkedFile(fs, disk, k, k);
    forall x | x != k
      ensures FileOf(fs, Unlinked(fs, disk, k), x) == FileOf(fs, disk, x)
    {
      UnlinkedFile(fs, disk, k, x);
      StrangerHasNoFile(fs, m, disk, k, x);
    }
  }

  /** An ICCID that leads to an installed profile's file has no profile there. */
  lemma StrangerHasNoFile(fs: FileSystem, m: Memory, disk: Disk, k: string, x: string)
    requires Inv(fs, m, disk) && k in m.profiles && x != k
    ensures PlaceOf(fs, x) == PlaceOf(fs, k) ==> FileOf(fs, disk, x).None?
  {
    hide PlaceOf, FileOf, Named, Lags;
    if FileOf(fs, disk, x).Some? {
      OwnFiles(fs, m, disk, k);
      assert x in m.profiles;
    }
  }

  // ---- Install ------------------------------------------------------------

  /** A field of the package, or its default */
  predicate Field(d: Dict, key: Key, default: Value, v: Value) {
    if key in d then v == d[key] else v == default
  }

  /** The profile a package asks for */
  predicate PackageOf(d: Dict, freshAid: string, p: Profile) {
    && KIccid in d && d[KIccid] == Text(p.iccid)
    && KImsi in d && p.imsi == d[KImsi] && KKi in d && p.ki == d[KKi] && KOpc in d && p.opc == d[KOpc]
    && Field(d, KAid, Text(freshAid), p.aid)
    && Field(d, KMcc, Text("001"), p.mcc) && Field(d, KMnc, Text("01"), p.mnc) && Field(d, KSpn, Text("Virtual Operator"), p.spn)
    && Field(d, KMsisdn, Null, p.msisdn) && Field(d, KImpi, Null, p.impi) && Field(d, KImpu, Null, p.impu)
    && Field(d, KHomeDomain, Null, p.homeDomain)
    && p.gid1 == Null && p.gid2 == Null && p.state == DISABLED && p.profileClass == OPERATIONAL && p.sqn == 0
  }

  /**
   * An accepted package with a file of its own is installed: exactly one profile more,
   * with the package's own fields, disabled, in memory and on disk; and its size less room.
   */
  lemma InstallAchieves(fs: FileSystem, m: Memory, disk: Disk, d: Dict, freshAid: string)
    requires Inv(fs, m, disk) && Accepted(m, d) && Guard(fs, m, DoInstall(d, freshAid))
    ensures var e := Run(fs, m, disk, DoInstall(d, freshAid));
            var m', final, k := e.memory, Final(disk, e.steps), d[KIccid].text;
            && e.ok && m'.active == m.active && m'.ready
            && k !in m.profiles && k in m'.profiles && m'.profiles == m.profiles[k := m'.profiles[k]]
            && PackageOf(d, freshAid, m'.profiles[k]) && FileOf(fs, final, k) == Some(m'.profiles[k])
            && (forall x :: x != k ==> FileOf(fs, final, x) == FileOf(fs, disk, x))
            && m.freeNvram - m'.freeNvram == (if KSize in d then d[KSize].n else 65536)
  {
    hide PlaceOf, FileOf, Saving, Saved, Final, Agree, Named, NewProfile;
    var p := NewProfile(d, d[KIccid].text, freshAid);
    NewIsPackage(d, freshAid);
    FinalSaved(fs, disk, p, []);
    SavedFile(fs, disk, p, p.iccid);
    OthersSame(fs, m, disk, p);
  }

  lemma NewIsPackage(d: Dict, freshAid: string)
    requires KIccid in d && d[KIccid].Text? && KImsi in d && KKi in d && KOpc in d
    ensures PackageOf(d, freshAid, NewProfile(d, d[KIccid].text, freshAid))
    ensures NewProfile(d, d[KIccid].text, freshAid).iccid == d[KIccid].text
  {
  }

  /** An ICCID that is not installed, a package that is not acceptable, an eUICC that is not ready: an error and no change. */
  lemma RefusedUnchanged(fs: FileSystem, m: Memory, disk: Disk, event: Event)
    requires match event
             case DoInstall(d, _) => !m.ready || KIccid !in d || !d[KIccid].Text? || d[KIccid].text in m.profiles
                                     || KImsi !in d || KKi !in d || KOpc !in d
                                     || (KSize in d && d[KSize].Number? && d[KSize].n > m.freeNvram)
                                     || (KSize !in d && 65536 > m.freeNvram)
             case DoEnable(k) => !m.ready || k !in m.profiles
             case DoDisable(k) => !m.ready || k !in m.profiles
             case DoDelete(k) => !m.ready || k !in m.profiles
             case DoIncrement(_) => false
    ensures var e := Run(fs, m, disk, event); !e.ok && e.memory == m && e.steps == []
  {
  }

  /** A step of the SQN: that profile alone, by one, in memory alone. */
  lemma IncrementAchieves(fs: FileSystem, m: Memory, disk: Disk, k: string)
    requires k in m.profiles
    ensures var e := Run(fs, m, disk, DoIncrement(k));
            && Final(disk, e.steps) == disk && RestSame(m, e.memory) && e.memory.active == m.active
            && e.memory.profiles == m.profiles[k := m.profiles[k].(sqn := m.profiles[k].sqn + 1)]
  {
  }

  /** What a dictionary of the required keys alone gives */
  lemma LoadDefaults(iccid: string, imsi: Value, ki: Value, opc: Value)
    ensures FromDict(map[KIccid := Text(iccid), KImsi := imsi, KKi := ki, KOpc := opc])
            == Ok(Profile(iccid, imsi, Text(""), ki, opc, Text("001"), Text("01"), Text("Virtual"), Null, Null, Null, Null, Null, Null,
                          DISABLED, OPERATIONAL, 0))
  {
    hide StateOf, ClassOf;
    StateTexts(DISABLED);
    ClassTexts(OPERATIONAL);
  }
}
