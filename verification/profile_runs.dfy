/**
 * Memory and disk agree after every operation, at most one profile is enabled on the
 * disk after every single write, and a reload gives the same profiles in any order of
 * the files; all this on every run with crashes.
 */
module ProfileRuns {
  import opened Isdp
  import opened ProfileFiles
  import opened ProfileStore
  import opened Wrappers

  /** The profile in an ICCID's file, if that is in the directory, readable, and this ICCID's. */
  function FileOf(fs: FileSystem, disk: Disk, k: string): Option<Profile> {
    match PlaceOf(fs, k)
    case Inside(name) =>
      if name in disk && Readable(disk[name]).Some? && Readable(disk[name]).value.iccid == k then Readable(disk[name])
      else None
    case _ => None
  }

  /** The file holds the profile, except that its SQN may lag. */
  predicate Lags(f: Option<Profile>, p: Profile) {
    f.Some? && f.value == p.(sqn := f.value.sqn) && f.value.sqn <= p.sqn
  }

  /** Every profile in memory is in its file, and every file's profile is in memory. */
  ghost predicate Agree(fs: FileSystem, m: Memory, disk: Disk) {
    && (forall k :: k in m.profiles ==> m.profiles[k].iccid == k && Lags(FileOf(fs, disk, k), m.profiles[k]))
    && (forall k :: FileOf(fs, disk, k).Some? ==> k in m.profiles)
  }

  /** The active ICCID names exactly the enabled profile. */
  ghost predicate ActiveNamed(m: Memory) {
    && (m.active.Some? ==> m.active.value in m.profiles)
    && (forall k :: k in m.profiles ==> (m.profiles[k].state == ENABLED <==> m.active == Some(k)))
  }

  /** Every readable file is the file of its profile's ICCID. */
  ghost predicate Named(fs: FileSystem, disk: Disk) {
    forall name :: name in disk && Readable(disk[name]).Some? ==> PlaceOf(fs, Readable(disk[name]).value.iccid) == Inside(name)
  }

  ghost predicate Inv(fs: FileSystem, m: Memory, disk: Disk) {
    m.ready && Named(fs, disk) && Agree(fs, m, disk) && ActiveNamed(m)
  }

  predicate EnabledFile(disk: Disk, name: string) {
    name in disk && Readable(disk[name]).Some? && Readable(disk[name]).value.state == ENABLED
  }

  ghost predicate AtMostOneEnabled(disk: Disk) {
    forall a, b :: EnabledFile(disk, a) && EnabledFile(disk, b) ==> a == b
  }

  predicate EnabledOnDisk(fs: FileSystem, disk: Disk, k: string) {
    FileOf(fs, disk, k).Some? && FileOf(fs, disk, k).value.state == ENABLED
  }

  // ---- Files --------------------------------------------------------------

  lemma ReadableWhole(p: Profile)
    ensures Readable(Whole(ToDict(p))) == Some(p) && Readable(Torn).None?
  {
    ProfileRoundTrip(p);
  }

  /** Where every file is its profile's own, one enabled ICCID is one enabled file. */
  lemma OneEnabled(fs: FileSystem, disk: Disk)
    requires Named(fs, disk)
    requires forall a, b :: EnabledOnDisk(fs, disk, a) && EnabledOnDisk(fs, disk, b) ==> a == b
    ensures AtMostOneEnabled(disk)
  {
    hide Readable, PlaceOf;
    forall a, b | EnabledFile(disk, a) && EnabledFile(disk, b)
      ensures a == b
    {
      var p, q := Readable(disk[a]).value, Readable(disk[b]).value;
      assert EnabledOnDisk(fs, disk, p.iccid) && EnabledOnDisk(fs, disk, q.iccid);
    }
  }

  /** An enabled ICCID's file is an enabled file. */
  lemma EnabledHasFile(fs: FileSystem, disk: Disk, k: string)
    requires EnabledOnDisk(fs, disk, k)
    ensures PlaceOf(fs, k).Inside? && EnabledFile(disk, PlaceOf(fs, k).name)
  {
  }

  lemma InvDisk(fs: FileSystem, m: Memory, disk: Disk)
    requires Inv(fs, m, disk)
    ensures Named(fs, disk) && AtMostOneEnabled(disk)
    ensures forall k :: EnabledOnDisk(fs, disk, k) <==> m.active == Some(k)
  {
    hide FileOf, PlaceOf;
    forall k
      ensures EnabledOnDisk(fs, disk, k) <==> m.active == Some(k)
    {
      if k in m.profiles {
        assert Lags(FileOf(fs, disk, k), m.profiles[k]);
      }
    }
    OneEnabled(fs, disk);
  }

  /** What a write to one file of the directory does to every ICCID's file */
  lemma WrittenFile(fs: FileSystem, disk: Disk, name: string, f: File, k: string)
    ensures FileOf(fs, disk[name := f], k)
            == if PlaceOf(fs, k) != Inside(name) then FileOf(fs, disk, k)
               else if Readable(f).Some? && Readable(f).value.iccid == k then Readable(f)
               else None
  {
  }

  /** A saved profile is what its ICCID's file holds; another ICCID's file is untouched if it is another file. */
  lemma SavedFile(fs: FileSystem, disk: Disk, p: Profile, k: string)
    requires PlaceOf(fs, p.iccid).Inside?
    ensures FileOf(fs, Saved(fs, disk, p), k)
            == if PlaceOf(fs, k) != PlaceOf(fs, p.iccid) then FileOf(fs, disk, k)
               else if k == p.iccid then Some(p)
               else None
  {
    hide Readable, ToDict, FileOf, PlaceOf;
    ReadableWhole(p);
    WrittenFile(fs, disk, PlaceOf(fs, p.iccid).name, Whole(ToDict(p)), k);
  }

  lemma TornFile(fs: FileSystem, disk: Disk, p: Profile, k: string)
    requires PlaceOf(fs, p.iccid).Inside?
    ensures FileOf(fs, Saving(fs, disk, p)[0], k) == if PlaceOf(fs, k) != PlaceOf(fs, p.iccid) then FileOf(fs, disk, k) else None
  {
    hide Readable, ToDict, FileOf, PlaceOf;
    ReadableWhole(p);
    WrittenFile(fs, disk, PlaceOf(fs, p.iccid).name, Torn, k);
  }

  lemma SavedNamed(fs: FileSystem, disk: Disk, p: Profile)
    requires Named(fs, disk) && PlaceOf(fs, p.iccid).Inside?
    ensures Named(fs, Saving(fs, disk, p)[0]) && Named(fs, Saved(fs, disk, p)) && Saving(fs, disk, p)[1] == Saved(fs, disk, p)
  {
    hide Readable, ToDict, PlaceOf;
    ReadableWhole(p);
  }

  /** Saving a profile that memory has just changed keeps memory and disk in agreement, if no other profile has its file. */
  lemma SavedAgrees(fs: FileSystem, m: Memory, disk: Disk, p: Profile)
    requires Agree(fs, m, disk) && PlaceOf(fs, p.iccid).Inside?
    requires forall k :: k in m.profiles && k != p.iccid ==> PlaceOf(fs, k) != PlaceOf(fs, p.iccid)
    ensures Agree(fs, m.(profiles := m.profiles[p.iccid := p]), Saved(fs, disk, p))
  {
    hide FileOf, Saved, PlaceOf;
    var m', disk' := m.(profiles := m.profiles[p.iccid := p]), Saved(fs, disk, p);
    forall k | k in m'.profiles
      ensures m'.profiles[k].iccid == k && Lags(FileOf(fs, disk', k), m'.profiles[k])
    {
      SavedFile(fs, disk, p, k);
    }
    forall k | FileOf(fs, disk', k).Some?
      ensures k in m'.profiles
    {
      SavedFile(fs, disk, p, k);
    }
  }

  /** In agreement, no two profiles in memory have one file. */
  lemma FilesDiffer(fs: FileSystem, m: Memory, disk: Disk, a: string, b: string)
    requires Agree(fs, m, disk) && a in m.profiles && b in m.profiles && a != b
    ensures PlaceOf(fs, a).Inside? && PlaceOf(fs, a) != PlaceOf(fs, b)
  {
    hide Readable, PlaceOf;
    assert FileOf(fs, disk, a).Some? && FileOf(fs, disk, b).Some?;
  }

  // ---- Reload -------------------------------------------------------------

  /** The order lists the ICCID's file. */
  predicate Listed(fs: FileSystem, order: seq<string>, k: string) {
    PlaceOf(fs, k).Inside? && PlaceOf(fs, k).name in order
  }

  /** What loading finds, whatever the order */
  ghost predicate LoadedFrom(fs: FileSystem, m: Memory, disk: Disk, order: seq<string>) {
    && (forall k :: k in m.profiles <==> Listed(fs, order, k) && FileOf(fs, disk, k).Some?)
    && (forall k :: k in m.profiles ==> FileOf(fs, disk, k) == Some(m.profiles[k]))
    && (forall k :: m.active == Some(k) <==> Listed(fs, order, k) && EnabledOnDisk(fs, disk, k))
  }

  lemma {:induction false} LoadFinds(fs: FileSystem, disk: Disk, order: seq<string>)
    requires Named(fs, disk) && AtMostOneEnabled(disk) && forall name :: name in order ==> name in disk
    ensures LoadedFrom(fs, LoadFiles(Blank(), disk, order), disk, order)
  {
    hide Readable, PlaceOf, LoadFile, FileOf;
    if order != [] {
      var n := |order| - 1;
      LoadFinds(fs, disk, order[..n]);
      LoadOneMore(fs, LoadFiles(Blank(), disk, order[..n]), disk, order[..n], order[n]);
      assert order == order[..n] + [order[n]];
    }
  }

  lemma LoadOneMore(fs: FileSystem, m: Memory, disk: Disk, order: seq<string>, name: string)
    requires Named(fs, disk) && AtMostOneEnabled(disk) && name in disk && LoadedFrom(fs, m, disk, order)
    ensures LoadedFrom(fs, LoadFile(m, disk[name]), disk, order + [name])
  {
    hide Readable, PlaceOf;
    var f := Readable(disk[name]);
    if f.Some? {
      assert PlaceOf(fs, f.value.iccid) == Inside(name);
      assert FileOf(fs, disk, f.value.iccid) == f;
    }
    NewlyListed(fs, disk, order, name);
    var m' := LoadFile(m, disk[name]);
    forall k
      ensures m'.active == Some(k) <==> Listed(fs, order + [name], k) && EnabledOnDisk(fs, disk, k)
    {
      OneActive(fs, m, disk, order, name, k);
    }
  }

  /** One name more lists the file of one ICCID more, the one its profile has. */
  lemma NewlyListed(fs: FileSystem, disk: Disk, order: seq<string>, name: string)
    requires Named(fs, disk) && name in disk
    ensures forall k :: FileOf(fs, disk, k).Some? ==>
              (Listed(fs, order + [name], k)
               <==> Listed(fs, order, k) || (Readable(disk[name]).Some? && Readable(disk[name]).value.iccid == k))
  {
    hide Readable, PlaceOf;
  }

  lemma OneActive(fs: FileSystem, m: Memory, disk: Disk, order: seq<string>, name: string, k: string)
    requires Named(fs, disk) && AtMostOneEnabled(disk) && name in disk && LoadedFrom(fs, m, disk, order)
    ensures LoadFile(m, disk[name]).active == Some(k) <==> Listed(fs, order + [name], k) && EnabledOnDisk(fs, disk, k)
  {
    hide Readable, PlaceOf;
    NewlyListed(fs, disk, order, name);
    if EnabledFile(disk, name) {
      var p := Readable(disk[name]).value;
      assert FileOf(fs, disk, p.iccid) == Some(p);
      if EnabledOnDisk(fs, disk, k) {
        EnabledHasFile(fs, disk, k);
      }
    }
  }

  /** The order lists the files of the directory. */
  ghost predicate Lists(order: seq<string>, disk: Disk) {
    forall name :: name in order <==> name in disk
  }

  lemma AllListed(fs: FileSystem, disk: Disk, order: seq<string>)
    requires Lists(order, disk)
    ensures forall k :: FileOf(fs, disk, k).Some? ==> Listed(fs, order, k)
  {
    hide Readable, PlaceOf;
  }

  /** Reloading depends on the disk alone, not on the order of its files. */
  lemma OrderIrrelevant(fs: FileSystem, disk: Disk, a: seq<string>, b: seq<string>)
    requires Named(fs, disk) && AtMostOneEnabled(disk) && Lists(a, disk) && Lists(b, disk)
    ensures Reload(disk, a) == Reload(disk, b)
  {
    hide FileOf, EnabledOnDisk, AtMostOneEnabled, Named, Listed;
    LoadFinds(fs, disk, a);
    LoadFinds(fs, disk, b);
    AllListed(fs, disk, a);
    AllListed(fs, disk, b);
    LoadedSame(fs, LoadFiles(Blank(), disk, a), LoadFiles(Blank(), disk, b), disk, a, b);
    LoadKeepsRest(disk, a);
    LoadKeepsRest(disk, b);
  }

  lemma SameOption(a: Option<string>, b: Option<string>)
    requires forall k :: a == Some(k) <==> b == Some(k)
    ensures a == b
  {
    if a.Some? {
      assert b == Some(a.value);
    }
    if b.Some? {
      assert a == Some(b.value);
    }
  }

  lemma LoadedSame(fs: FileSystem, x: Memory, y: Memory, disk: Disk, a: seq<string>, b: seq<string>)
    requires LoadedFrom(fs, x, disk, a) && LoadedFrom(fs, y, disk, b)
    requires forall k :: FileOf(fs, disk, k).Some? ==> Listed(fs, a, k) && Listed(fs, b, k)
    ensures x.profiles == y.profiles && x.active == y.active
  {
    hide FileOf, Listed;
    SameOption(x.active, y.active);
    assert forall k :: k in x.profiles <==> k in y.profiles;
    assert forall k :: k in x.profiles ==> Some(x.profiles[k]) == Some(y.profiles[k]);
  }

  lemma {:induction false} LoadKeepsRest(disk: Disk, order: seq<string>)
    requires forall name :: name in order ==> name in disk
    ensures var m := LoadFiles(Blank(), disk, order); m.freeNvram == Blank().freeNvram && m.ready == Blank().ready
  {
    hide Readable;
    if order != [] {
      LoadKeepsRest(disk, order[..|order| - 1]);
    }
  }

  /** After a crash at any such disk, the reloaded eUICC is sound and its active profile is the enabled file's. */
  lemma ReloadSound(fs: FileSystem, disk: Disk, order: seq<string>)
    requires Named(fs, disk) && AtMostOneEnabled(disk) && Lists(order, disk)
    ensures Inv(fs, Reload(disk, order), disk)
    ensures forall k :: Reload(disk, order).active == Some(k) <==> EnabledOnDisk(fs, disk, k)
  {
    hide AtMostOneEnabled, Named, Listed, LoadedFrom, LoadFiles, FileOf, EnabledOnDisk, Agree, ActiveNamed;
    LoadFinds(fs, disk, order);
    AllListed(fs, disk, order);
    var m := LoadFiles(Blank(), disk, order);
    LoadedInv(fs, m, disk, order);
    AgreeIgnores(fs, m, m.(ready := true), disk);
    NamedIgnores(m);
  }

  lemma NamedIgnores(m: Memory)
    requires ActiveNamed(m)
    ensures ActiveNamed(m.(ready := true))
  {
  }

  lemma LoadedInv(fs: FileSystem, m: Memory, disk: Disk, order: seq<string>)
    requires LoadedFrom(fs, m, disk, order) && forall k :: FileOf(fs, disk, k).Some? ==> Listed(fs, order, k)
    ensures Agree(fs, m, disk) && ActiveNamed(m)
    ensures forall k :: m.active == Some(k) <==> EnabledOnDisk(fs, disk, k)
  {
    hide PlaceOf, Readable, Listed;
    forall k | k in m.profiles
      ensures m.profiles[k].iccid == k && Lags(FileOf(fs, disk, k), m.profiles[k])
      ensures m.profiles[k].state == ENABLED <==> m.active == Some(k)
    {
      assert FileOf(fs, disk, k) == Some(m.profiles[k]);
    }
    if m.active.Some? {
      assert EnabledOnDisk(fs, disk, m.active.value);
    }
  }

  /** A restart between operations brings back every profile, up to its SQN, and the same active one. */
  lemma RestartRestores(fs: FileSystem, m: Memory, disk: Disk, order: seq<string>)
    requires Inv(fs, m, disk) && Lists(order, disk)
    ensures var m' := Reload(disk, order);
            && m'.active == m.active && m'.profiles.Keys == m.profiles.Keys
            && forall k :: k in m.profiles ==>
                 m'.profiles[k] == m.profiles[k].(sqn := m'.profiles[k].sqn) && m'.profiles[k].sqn <= m.profiles[k].sqn
  {
    hide FileOf, EnabledOnDisk, AtMostOneEnabled, Named, Listed;
    InvDisk(fs, m, disk);
    ReloadSound(fs, disk, order);
    LoadFinds(fs, disk, order);
    var m' := Reload(disk, order);
    assert forall k :: m'.active == Some(k) <==> m.active == Some(k);
    SameOption(m.active, m'.active);
    forall k
      ensures k in m'.profiles <==> k in m.profiles
    {
      assert k in m.profiles ==> Lags(FileOf(fs, disk, k), m.profiles[k]);
      assert k in m'.profiles ==> Lags(FileOf(fs, disk, k), m'.profiles[k]);
    }
    forall k | k in m.profiles
      ensures m'.profiles[k] == m.profiles[k].(sqn := m'.profiles[k].sqn) && m'.profiles[k].sqn <= m.profiles[k].sqn
    {
      assert Lags(FileOf(fs, disk, k), m.profiles[k]);
      assert FileOf(fs, disk, k) == Some(m'.profiles[k]);
    }
  }

  // ---- Every operation ----------------------------------------------------

  datatype Event =
    | DoInstall(data: Dict, freshAid: string)
    | DoEnable(iccid: string)
    | DoDisable(iccid: string)
    | DoDelete(iccid: string)
    | DoIncrement(iccid: string)

  function Run(fs: FileSystem, m: Memory, disk: Disk, event: Event): Effect {
    match event
    case DoInstall(data, freshAid) => Install(fs, m, disk, data, freshAid)
    case DoEnable(iccid) => Enable(fs, m, disk, iccid)
    case DoDisable(iccid) => Disable(fs, m, disk, iccid)
    case DoDelete(iccid) => Delete(fs, m, disk, iccid)
    case DoIncrement(iccid) => Effect(IncrementSqn(m, iccid), [], true)
  }

  /** The ICCID names a file of the directory that no installed profile has. */
  ghost predicate OwnFile(fs: FileSystem, m: Memory, iccid: string) {
    PlaceOf(fs, iccid).Inside? && forall k :: k in m.profiles ==> PlaceOf(fs, k) != PlaceOf(fs, iccid)
  }

  /**
   * What the operations do not check. Install takes any ICCID, also one whose path
   * leaves the directory, cannot be written, or is another profile's file. Enable does
   * not take a profile under the empty ICCID for active, and leaves it enabled.
   */
  ghost predicate Guard(fs: FileSystem, m: Memory, event: Event) {
    match event
    case DoInstall(data, _) => Accepted(m, data) ==> OwnFile(fs, m, data[KIccid].text)
    case DoEnable(iccid) => m.active == Some("") && iccid in m.profiles ==> iccid == ""
    case _ => true
  }

  /** Every state of the disk during the operation has at most one enabled profile: one that was or is to be. */
  ghost predicate Safe(fs: FileSystem, m: Memory, steps: seq<Disk>, event: Event) {
    forall i :: 0 <= i < |steps| ==> SafeDisk(fs, m, steps[i], event)
  }

  ghost predicate SafeDisk(fs: FileSystem, m: Memory, disk: Disk, event: Event) {
    && Named(fs, disk) && AtMostOneEnabled(disk)
    && forall k :: EnabledOnDisk(fs, disk, k) ==> m.active == Some(k) || (event.DoEnable? && event.iccid == k)
  }

  lemma RunKeeps(fs: FileSystem, m: Memory, disk: Disk, event: Event)
    requires Inv(fs, m, disk) && Guard(fs, m, event)
    ensures var e := Run(fs, m, disk, event);
            Safe(fs, m, e.steps, event) && Inv(fs, e.memory, Final(disk, e.steps))
  {
    hide Inv, Safe, Install, Enable, Disable, Delete, OwnFile, Accepted;
    match event
    case DoInstall(data, freshAid) => InstallKeeps(fs, m, disk, data, freshAid);
    case DoEnable(iccid) => EnableKeeps(fs, m, disk, iccid);
    case DoDisable(iccid) => DisableKeeps(fs, m, disk, iccid);
    case DoDelete(iccid) => DeleteKeeps(fs, m, disk, iccid);
    case DoIncrement(iccid) => IncrementKeeps(fs, m, disk, iccid);
  }

  /** A save keeps a safe disk safe, if its profile is not enabled, or is the one to enable and no other file is. */
  lemma TwoSafe(fs: FileSystem, m: Memory, disk: Disk, p: Profile, event: Event)
    requires SafeDisk(fs, m, disk, event) && PlaceOf(fs, p.iccid).Inside?
    requires p.state == ENABLED ==> event == DoEnable(p.iccid) && forall k :: EnabledOnDisk(fs, disk, k) ==> k == p.iccid
    ensures Safe(fs, m, Saving(fs, disk, p), event) && SafeDisk(fs, m, Saved(fs, disk, p), event)
  {
    hide Named, AtMostOneEnabled, FileOf, Saving, Saved, PlaceOf;
    SavedNamed(fs, disk, p);
    var torn, whole := Saving(fs, disk, p)[0], Saved(fs, disk, p);
    forall k
      ensures EnabledOnDisk(fs, torn, k) ==> EnabledOnDisk(fs, disk, k)
      ensures EnabledOnDisk(fs, whole, k) ==> if p.state == ENABLED then k == p.iccid else EnabledOnDisk(fs, disk, k)
    {
      TornFile(fs, disk, p, k);
      SavedFile(fs, disk, p, k);
    }
    OneOf(fs, disk);
    OneEnabled(fs, torn);
    OneEnabled(fs, whole);
  }

  lemma OneOf(fs: FileSystem, disk: Disk)
    requires Named(fs, disk) && AtMostOneEnabled(disk)
    ensures forall a, b :: EnabledOnDisk(fs, disk, a) && EnabledOnDisk(fs, disk, b) ==> a == b
  {
    hide Readable, PlaceOf;
    forall a, b | EnabledOnDisk(fs, disk, a) && EnabledOnDisk(fs, disk, b)
      ensures a == b
    {
      EnabledHasFile(fs, disk, a);
      EnabledHasFile(fs, disk, b);
    }
  }

  lemma InvSafe(fs: FileSystem, m: Memory, disk: Disk, event: Event)
    requires Inv(fs, m, disk)
    ensures SafeDisk(fs, m, disk, event)
  {
    hide FileOf;
    InvDisk(fs, m, disk);
  }

  lemma SafeNamed(fs: FileSystem, m: Memory, disk: Disk, event: Event)
    requires SafeDisk(fs, m, disk, event)
    ensures Named(fs, disk)
  {
  }

  lemma FinalSaved(fs: FileSystem, disk: Disk, p: Profile, steps: seq<Disk>)
    requires PlaceOf(fs, p.iccid).Inside?
    ensures Final(disk, steps + Saving(fs, disk, p)) == Final(disk, Saving(fs, disk, p)) == Saved(fs, disk, p)
  {
  }

  lemma AgreeIgnores(fs: FileSystem, a: Memory, b: Memory, disk: Disk)
    requires Agree(fs, a, disk) && a.profiles == b.profiles
    ensures Agree(fs, b, disk)
  {
  }

  lemma NewIsDisabled(d: Dict, iccid: string, freshAid: string)
    requires KImsi in d && KKi in d && KOpc in d
    ensures NewProfile(d, iccid, freshAid).state == DISABLED && NewProfile(d, iccid, freshAid).iccid == iccid
  {
  }

  lemma InstallKeeps(fs: FileSystem, m: Memory, disk: Disk, d: Dict, freshAid: string)
    requires Inv(fs, m, disk) && Guard(fs, m, DoInstall(d, freshAid))
    ensures var e := Install(fs, m, disk, d, freshAid);
            Safe(fs, m, e.steps, DoInstall(d, freshAid)) && Inv(fs, e.memory, Final(disk, e.steps))
  {
    hide SafeDisk, Agree, NewProfile, Saving, Saved, Named, PlaceOf, Final;
    var event := DoInstall(d, freshAid);
    if Accepted(m, d) {
      var p := NewProfile(d, d[KIccid].text, freshAid);
      NewIsDisabled(d, d[KIccid].text, freshAid);
      InvSafe(fs, m, disk, event);
      TwoSafe(fs, m, disk, p, event);
      SafeNamed(fs, m, Saved(fs, disk, p), event);
      SavedAgrees(fs, m, disk, p);
      FinalSaved(fs, disk, p, []);
      AgreeIgnores(fs, m.(profiles := m.profiles[p.iccid := p]), Install(fs, m, disk, d, freshAid).memory, Saved(fs, disk, p));
    } else {
      NoSteps(fs, m, disk, event);
    }
  }

  lemma NoSteps(fs: FileSystem, m: Memory, disk: Disk, event: Event)
    ensures Safe(fs, m, [], event) && Final(disk, []) == disk
  {
  }

  lemma DisableKeeps(fs: FileSystem, m: Memory, disk: Disk, iccid: string)
    requires Inv(fs, m, disk)
    ensures var e := Disable(fs, m, disk, iccid);
            Safe(fs, m, e.steps, DoDisable(iccid)) && Inv(fs, e.memory, Final(disk, e.steps))
  {
    hide SafeDisk, Agree, Saving, Saved, Named, PlaceOf, Final, FileOf, ActiveNamed;
    var event := DoDisable(iccid);
    if iccid in m.profiles && m.profiles[iccid].state != DISABLED {
      var off := m.profiles[iccid].(state := DISABLED);
      OwnFiles(fs, m, disk, iccid);
      InvSafe(fs, m, disk, event);
      TwoSafe(fs, m, disk, off, event);
      SafeNamed(fs, m, Saved(fs, disk, off), event);
      SavedAgrees(fs, m, disk, off);
      FinalSaved(fs, disk, off, []);
      var e := Disable(fs, m, disk, iccid);
      AgreeIgnores(fs, m.(profiles := m.profiles[iccid := off]), e.memory, Saved(fs, disk, off));
      OffNamed(m, iccid);
    } else {
      NoSteps(fs, m, disk, event);
    }
  }

  lemma OffNamed(m: Memory, iccid: string)
    requires ActiveNamed(m) && iccid in m.profiles
    ensures ActiveNamed(SwitchedOff(m, iccid).(active := if m.active == Some(iccid) then None else m.active))
  {
  }

  /** In agreement, a profile has a file of its own, under its ICCID. */
  lemma OwnFiles(fs: FileSystem, m: Memory, disk: Disk, iccid: string)
    requires Agree(fs, m, disk) && iccid in m.profiles
    ensures m.profiles[iccid].iccid == iccid && PlaceOf(fs, iccid).Inside?
    ensures forall k :: k in m.profiles && k != iccid ==> PlaceOf(fs, k) != PlaceOf(fs, iccid)
  {
    hide PlaceOf, Readable;
    assert FileOf(fs, disk, iccid).Some?;
    forall k | k in m.profiles && k != iccid
      ensures PlaceOf(fs, k) != PlaceOf(fs, iccid)
    {
      FilesDiffer(fs, m, disk, iccid, k);
    }
  }

  lemma DeleteKeeps(fs: FileSystem, m: Memory, disk: Disk, iccid: string)
    requires Inv(fs, m, disk)
    ensures var e := Delete(fs, m, disk, iccid);
            Safe(fs, m, e.steps, DoDelete(iccid)) && Inv(fs, e.memory, Final(disk, e.steps))
  {
    hide SafeDisk, PlaceOf, Named, Unlinked, Agree, ActiveNamed;
    var event := DoDelete(iccid);
    if iccid in m.profiles {
      OwnFiles(fs, m, disk, iccid);
      InvSafe(fs, m, disk, event);
      UnlinkSafe(fs, m, disk, iccid, event);
      SafeNamed(fs, m, Unlinked(fs, disk, iccid), event);
      UnlinkAgrees(fs, m, disk, iccid);
      AgreeIgnores(fs, m.(profiles := m.profiles - {iccid}), Delete(fs, m, disk, iccid).memory, Unlinked(fs, disk, iccid));
      GoneNamed(m, iccid);
    } else {
      NoSteps(fs, m, disk, event);
    }
  }

  lemma UnlinkAgrees(fs: FileSystem, m: Memory, disk: Disk, iccid: string)
    requires Agree(fs, m, disk) && iccid in m.profiles && PlaceOf(fs, iccid).Inside?
    requires forall k :: k in m.profiles && k != iccid ==> PlaceOf(fs, k) != PlaceOf(fs, iccid)
    ensures Agree(fs, m.(profiles := m.profiles - {iccid}), Unlinked(fs, disk, iccid))
  {
    hide FileOf, PlaceOf, Unlinked;
    forall k
      ensures FileOf(fs, Unlinked(fs, disk, iccid), k) == if PlaceOf(fs, k) != PlaceOf(fs, iccid) then FileOf(fs, disk, k) else None
    {
      UnlinkedFile(fs, disk, iccid, k);
    }
  }

  lemma GoneNamed(m: Memory, iccid: string)
    requires ActiveNamed(m) && iccid in m.profiles
    ensures ActiveNamed(m.(profiles := m.profiles - {iccid}, active := if m.active == Some(iccid) then None else m.active))
  {
  }

  lemma UnlinkedFile(fs: FileSystem, disk: Disk, iccid: string, k: string)
    requires PlaceOf(fs, iccid).Inside?
    ensures FileOf(fs, Unlinked(fs, disk, iccid), k) == if PlaceOf(fs, k) != PlaceOf(fs, iccid) then FileOf(fs, disk, k) else None
  {
    hide Readable, PlaceOf;
  }

  lemma UnlinkSafe(fs: FileSystem, m: Memory, disk: Disk, iccid: string, event: Event)
    requires SafeDisk(fs, m, disk, event) && PlaceOf(fs, iccid).Inside?
    ensures SafeDisk(fs, m, Unlinked(fs, disk, iccid), event)
  {
    hide Readable, PlaceOf, FileOf;
    var after := Unlinked(fs, disk, iccid);
    forall k
      ensures EnabledOnDisk(fs, after, k) ==> EnabledOnDisk(fs, disk, k)
    {
      UnlinkedFile(fs, disk, iccid, k);
    }
    assert forall a :: EnabledFile(after, a) ==> EnabledFile(disk, a);
  }

  lemma IncrementKeeps(fs: FileSystem, m: Memory, disk: Disk, iccid: string)
    requires Inv(fs, m, disk)
    ensures Inv(fs, IncrementSqn(m, iccid), disk) && Safe(fs, m, [], DoIncrement(iccid))
  {
    hide FileOf, Named, Lags;
    var m' := IncrementSqn(m, iccid);
    forall k | k in m'.profiles
      ensures m'.profiles[k].iccid == k && Lags(FileOf(fs, disk, k), m'.profiles[k])
    {
      LagsMore(FileOf(fs, disk, k), m.profiles[k]);
    }
  }

  lemma LagsMore(f: Option<Profile>, p: Profile)
    requires Lags(f, p)
    ensures Lags(f, p.(sqn := p.sqn + 1))
  {
  }

  lemma EnableKeeps(fs: FileSystem, m: Memory, disk: Disk, iccid: string)
    requires Inv(fs, m, disk) && Guard(fs, m, DoEnable(iccid))
    ensures var e := Enable(fs, m, disk, iccid);
            Safe(fs, m, e.steps, DoEnable(iccid)) && Inv(fs, e.memory, Final(disk, e.steps))
  {
    hide SafeDisk, Agree, Safe, Saving, Saved, Named, PlaceOf, Final, FileOf;
    if iccid in m.profiles && m.profiles[iccid].state != ENABLED {
      if m.active.Some? && m.active.value != "" && m.active.value in m.profiles {
        SwitchKeeps(fs, m, disk, iccid);
      } else {
        InvSafe(fs, m, disk, DoEnable(iccid));
        TurnOnKeeps(fs, m, m, disk, iccid);
        FinalSaved(fs, disk, SwitchedOn(m, iccid).profiles[iccid], []);
      }
    } else {
      NoSteps(fs, m, disk, DoEnable(iccid));
    }
  }

  /** Enabling with nothing active, from a disk that is safe for the memory m0 the operation began with */
  lemma TurnOnKeeps(fs: FileSystem, m0: Memory, m: Memory, disk: Disk, iccid: string)
    requires Inv(fs, m, disk) && iccid in m.profiles && m.active.None? && SafeDisk(fs, m0, disk, DoEnable(iccid))
    ensures var m1 := SwitchedOn(m, iccid);
            var on := m1.profiles[iccid];
            && on.iccid == iccid && PlaceOf(fs, iccid).Inside?
            && Safe(fs, m0, Saving(fs, disk, on), DoEnable(iccid))
            && Inv(fs, m1, Saved(fs, disk, on))
  {
    hide SafeDisk, Agree, Safe, Saving, Saved, Named, PlaceOf, FileOf, EnabledOnDisk, ActiveNamed;
    var on := m.profiles[iccid].(state := ENABLED);
    OwnFiles(fs, m, disk, iccid);
    InvDisk(fs, m, disk);
    TwoSafe(fs, m0, disk, on, DoEnable(iccid));
    SafeNamed(fs, m0, Saved(fs, disk, on), DoEnable(iccid));
    SavedAgrees(fs, m, disk, on);
    AgreeIgnores(fs, m.(profiles := m.profiles[iccid := on]), SwitchedOn(m, iccid), Saved(fs, disk, on));
    OnNamed(m, iccid);
  }

  lemma OnNamed(m: Memory, iccid: string)
    requires ActiveNamed(m) && m.active.None? && iccid in m.profiles
    ensures ActiveNamed(SwitchedOn(m, iccid))
  {
  }

  /** Enabling while another profile is active: that one is switched off first, in memory and on disk. */
  lemma SwitchKeeps(fs: FileSystem, m: Memory, disk: Disk, iccid: string)
    requires Inv(fs, m, disk) && iccid in m.profiles && m.profiles[iccid].state != ENABLED
    requires m.active.Some? && m.active.value != "" && m.active.value in m.profiles
    ensures var e := Enable(fs, m, disk, iccid);
            Safe(fs, m, e.steps, DoEnable(iccid)) && Inv(fs, e.memory, Final(disk, e.steps))
  {
    hide SafeDisk, Agree, Safe, Saving, Saved, Named, PlaceOf, FileOf, EnabledOnDisk, Final;
    var event, prev := DoEnable(iccid), m.active.value;
    var off := m.profiles[prev].(state := DISABLED);
    assert iccid != prev;
    OwnFiles(fs, m, disk, prev);
    InvSafe(fs, m, disk, event);
    TwoSafe(fs, m, disk, off, event);
    SafeNamed(fs, m, Saved(fs, disk, off), event);
    SavedAgrees(fs, m, disk, off);
    var m1, disk1 := SwitchedOff(m, prev), Saved(fs, disk, off);
    var none := m1.(active := None);
    AgreeIgnores(fs, m.(profiles := m.profiles[prev := off]), none, disk1);
    TurnOnKeeps(fs, m, none, disk1, iccid);
    var on := SwitchedOn(m1, iccid).profiles[iccid];
    assert SwitchedOn(none, iccid) == SwitchedOn(m1, iccid);
    BothSafe(fs, m, Saving(fs, disk, off), Saving(fs, disk1, on), event);
    LastSaved(fs, disk, Saving(fs, disk, off), disk1, on);
  }

  lemma LastSaved(fs: FileSystem, disk: Disk, steps: seq<Disk>, disk1: Disk, p: Profile)
    requires PlaceOf(fs, p.iccid).Inside?
    ensures Final(disk, steps + Saving(fs, disk1, p)) == Saved(fs, disk1, p)
  {
  }

  lemma BothSafe(fs: FileSystem, m: Memory, a: seq<Disk>, b: seq<Disk>, event: Event)
    requires Safe(fs, m, a, event) && Safe(fs, m, b, event)
    ensures Safe(fs, m, a + b, event)
  {
    hide SafeDisk;
  }

  // ---- Where it ends ------------------------------------------------------

  /** An operation keeps the invariant if and only if it meets the guard. */
  lemma GuardIsExact(fs: FileSystem, m: Memory, disk: Disk, event: Event)
    requires Inv(fs, m, disk)
    ensures var e := Run(fs, m, disk, event);
            Inv(fs, e.memory, Final(disk, e.steps)) <==> Guard(fs, m, event)
  {
    hide Inv, Install, Enable, Disable, Delete, OwnFile, Accepted;
    if Guard(fs, m, event) {
      RunKeeps(fs, m, disk, event);
    } else {
      match event
      case DoInstall(data, freshAid) => InstallBreaks(fs, m, disk, data, freshAid);
      case DoEnable(iccid) => EmptyStays(fs, m, disk, iccid);
    }
  }

  /** A profile whose file is elsewhere, cannot be written, or was another's: memory has a profile the directory has not. */
  lemma InstallBreaks(fs: FileSystem, m: Memory, disk: Disk, d: Dict, freshAid: string)
    requires Inv(fs, m, disk) && Accepted(m, d) && !OwnFile(fs, m, d[KIccid].text)
    ensures var e := Install(fs, m, disk, d, freshAid);
            var m', disk' := e.memory, Final(disk, e.steps);
            && (exists k :: k in m'.profiles && FileOf(fs, disk', k).None?)
            && !Inv(fs, m', disk')
  {
    hide NewProfile, PlaceOf, Saved, Saving;
    var iccid := d[KIccid].text;
    var p := NewProfile(d, iccid, freshAid);
    NewIsDisabled(d, iccid, freshAid);
    var e := Install(fs, m, disk, d, freshAid);
    if PlaceOf(fs, iccid).Inside? {
      var k :| k in m.profiles && PlaceOf(fs, k) == PlaceOf(fs, iccid);
      FinalSaved(fs, disk, p, []);
      SavedFile(fs, disk, p, k);
      assert k in e.memory.profiles;
    } else {
      assert iccid in e.memory.profiles;
    }
  }

  lemma EmptyStays(fs: FileSystem, m: Memory, disk: Disk, iccid: string)
    requires Inv(fs, m, disk) && m.active == Some("") && iccid in m.profiles && iccid != ""
    ensures var e := Enable(fs, m, disk, iccid);
            !AtMostOneEnabled(Final(disk, e.steps)) && !Inv(fs, e.memory, Final(disk, e.steps))
  {
    hide Readable, ToDict, FileOf, PlaceOf, Saved, Saving, Final;
    InvDisk(fs, m, disk);
    OwnFiles(fs, m, disk, iccid);
    OwnFiles(fs, m, disk, "");
    var e := Enable(fs, m, disk, iccid);
    var on := m.profiles[iccid].(state := ENABLED);
    FinalSaved(fs, disk, on, []);
    var last := Saved(fs, disk, on);
    assert e.steps == Saving(fs, disk, on) && e.memory.active == Some(iccid);
    SavedFile(fs, disk, on, "");
    SavedFile(fs, disk, on, iccid);
    assert EnabledOnDisk(fs, disk, "");
    EnabledHasFile(fs, last, "");
    EnabledHasFile(fs, last, iccid);
  }

  function Package(iccid: string): Dict {
    map[KIccid := Text(iccid), KImsi := Null, KKi := Null, KOpc := Null]
  }

  /** Memory and disk after some events, from a first start in an empty directory */
  function After(fs: FileSystem, events: seq<Event>): (Memory, Disk) {
    if events == [] then (Blank().(ready := true), map[])
    else
      var (m, disk) := After(fs, events[..|events| - 1]);
      var e := Run(fs, m, disk, events[|events| - 1]);
      (e.memory, Final(disk, e.steps))
  }

  lemma AfterNext(fs: FileSystem, events: seq<Event>, event: Event)
    ensures var (m, disk) := After(fs, events);
            var e := Run(fs, m, disk, event);
            After(fs, events + [event]) == (e.memory, Final(disk, e.steps))
  {
    assert (events + [event])[..|events|] == events;
  }

  /** A first install of a package that fits */
  lemma FirstInstall(fs: FileSystem, k: string)
    requires PlaceOf(fs, k).Inside?
    ensures var (m, disk) := After(fs, [DoInstall(Package(k), "")]);
            && m.profiles == map[k := NewProfile(Package(k), k, "")] && m.active.None? && m.freeNvram == 458752 && m.ready
            && Inv(fs, m, disk)
  {
    hide PlaceOf, NewProfile, Saving, Final;
    NewIsDisabled(Package(k), k, "");
    AfterNext(fs, [], DoInstall(Package(k), ""));
    StartInv(fs);
    InstallKeeps(fs, Blank().(ready := true), map[], Package(k), "");
    assert [] + [DoInstall(Package(k), "")] == [DoInstall(Package(k), "")];
  }

  /** "x" and then "./x", for any relative ICCID: two profiles in memory, and a reload loses the first. */
  lemma AliasRun(fs: FileSystem, k: string, order: seq<string>)
    requires Mounted(fs) && !Absolute(k) && PlaceOf(fs, k).Inside?
    requires Lists(order, After(fs, [DoInstall(Package(k), ""), DoInstall(Package("./" + k), "")]).1)
    ensures var (m, disk) := After(fs, [DoInstall(Package(k), ""), DoInstall(Package("./" + k), "")]);
            k in m.profiles && "./" + k in m.profiles && k !in Reload(disk, order).profiles
  {
    hide PlaceOf, NewProfile, FileOf, Inv, Saving, Saved, Final, Listed, After, ActiveNamed, AtMostOneEnabled;
    var dotted := "./" + k;
    DotSlashSame(fs, k);
    FirstInstall(fs, k);
    var first, second := DoInstall(Package(k), ""), DoInstall(Package(dotted), "");
    var (m, disk) := After(fs, [first]);
    AfterNext(fs, [first], second);
    assert [first] + [second] == [first, second];
    var p := NewProfile(Package(dotted), dotted, "");
    NewIsDisabled(Package(dotted), dotted, "");
    InvSafe(fs, m, disk, second);
    TwoSafe(fs, m, disk, p, second);
    FinalSaved(fs, disk, p, []);
    var last := Saved(fs, disk, p);
    assert dotted != k;
    assert After(fs, [first, second]).1 == last;
    SavedFile(fs, disk, p, k);
    SafeNamed(fs, m, last, second);
    SafeOne(fs, m, last, second);
    LoadFinds(fs, last, order);
  }

  lemma SafeOne(fs: FileSystem, m: Memory, disk: Disk, event: Event)
    requires SafeDisk(fs, m, disk, event)
    ensures AtMostOneEnabled(disk)
  {
  }

  /** Two installs and two enables, the first under the empty ICCID, leave two enabled files. */
  lemma EmptyIccidRun(fs: FileSystem, k: string)
    requires k != "" && PlaceOf(fs, "").Inside? && PlaceOf(fs, k).Inside? && PlaceOf(fs, "") != PlaceOf(fs, k)
    ensures !AtMostOneEnabled(After(fs, [DoInstall(Package(""), ""), DoInstall(Package(k), ""), DoEnable(""), DoEnable(k)]).1)
  {
    hide PlaceOf, NewProfile, Inv, Saving, Saved, Final, After, AtMostOneEnabled;
    var e1, e2, e3, e4 := DoInstall(Package(""), ""), DoInstall(Package(k), ""), DoEnable(""), DoEnable(k);
    FirstInstall(fs, "");
    NewIsDisabled(Package(""), "", "");
    NewIsDisabled(Package(k), k, "");
    AfterNext(fs, [e1], e2);
    AfterNext(fs, [e1, e2], e3);
    AfterNext(fs, [e1, e2, e3], e4);
    assert [e1] + [e2] == [e1, e2] && [e1, e2] + [e3] == [e1, e2, e3] && [e1, e2, e3] + [e4] == [e1, e2, e3, e4];
    var (m1, d1) := After(fs, [e1]);
    InstallKeeps(fs, m1, d1, Package(k), "");
    var (m2, d2) := After(fs, [e1, e2]);
    assert m2 == Install(fs, m1, d1, Package(k), "").memory;
    assert m2.profiles == map["" := NewProfile(Package(""), "", ""), k := NewProfile(Package(k), k, "")];
    EnableKeeps(fs, m2, d2, "");
    var (m3, d3) := After(fs, [e1, e2, e3]);
    EmptyStays(fs, m3, d3, k);
  }

  // ---- Every run ----------------------------------------------------------

  /** An operation, or one that crashes after some of its writes and a reload in some order */
  datatype Happening = Done(event: Event) | Crashed(event: Event, writes: nat, order: seq<string>)

  function DiskAfter(disk: Disk, steps: seq<Disk>, writes: nat): Disk {
    if writes == 0 || writes > |steps| then disk else steps[writes - 1]
  }

  ghost predicate Possible(fs: FileSystem, m: Memory, disk: Disk, h: Happening) {
    && Guard(fs, m, h.event)
    && (h.Crashed? ==> Lists(h.order, DiskAfter(disk, Run(fs, m, disk, h.event).steps, h.writes)))
  }

  function Happens(fs: FileSystem, m: Memory, disk: Disk, h: Happening): (Memory, Disk)
    requires Possible(fs, m, disk, h)
  {
    var e := Run(fs, m, disk, h.event);
    if h.Done? then (e.memory, Final(disk, e.steps))
    else
      var d := DiskAfter(disk, e.steps, h.writes);
      (Reload(d, h.order), d)
  }

  lemma HappensKeeps(fs: FileSystem, m: Memory, disk: Disk, h: Happening)
    requires Inv(fs, m, disk) && Possible(fs, m, disk, h)
    ensures var (m', disk') := Happens(fs, m, disk, h); Inv(fs, m', disk')
  {
    hide Inv, Run, Named, AtMostOneEnabled, EnabledOnDisk, LoadFiles, Guard;
    RunKeeps(fs, m, disk, h.event);
    InvDisk(fs, m, disk);
    if h.Crashed? {
      var steps := Run(fs, m, disk, h.event).steps;
      var d := DiskAfter(disk, steps, h.writes);
      if h.writes > 0 && h.writes <= |steps| {
        assert SafeDisk(fs, m, steps[h.writes - 1], h.event);
      }
      ReloadSound(fs, d, h.order);
    }
  }

  /** A run: each happening is possible where it happens, and leads to the next state. */
  ghost predicate IsRun(fs: FileSystem, states: seq<(Memory, Disk)>, hs: seq<Happening>) {
    && |states| == |hs| + 1
    && states[0] == (Blank().(ready := true), map[])
    && forall i :: 0 <= i < |hs| ==>
         Possible(fs, states[i].0, states[i].1, hs[i]) && states[i + 1] == Happens(fs, states[i].0, states[i].1, hs[i])
  }

  /** On every run with crashes, memory and disk agree, and the active ICCID names exactly the enabled profile. */
  lemma {:induction false} EveryRunAgrees(fs: FileSystem, states: seq<(Memory, Disk)>, hs: seq<Happening>)
    requires IsRun(fs, states, hs)
    ensures forall i :: 0 <= i < |states| ==> Inv(fs, states[i].0, states[i].1)
  {
    hide Inv, Possible, Happens;
    if hs == [] {
      StartInv(fs);
    } else {
      var n := |hs| - 1;
      assert IsRun(fs, states[..n + 1], hs[..n]);
      EveryRunAgrees(fs, states[..n + 1], hs[..n]);
      assert states[..n + 1][n] == states[n];
      HappensKeeps(fs, states[n].0, states[n].1, hs[n]);
      forall i | 0 <= i < |states|
        ensures Inv(fs, states[i].0, states[i].1)
      {
        if i <= n {
          assert states[..n + 1][i] == states[i];
        }
      }
    }
  }

  lemma StartInv(fs: FileSystem)
    ensures Inv(fs, Blank().(ready := true), map[])
  {
  }
}
