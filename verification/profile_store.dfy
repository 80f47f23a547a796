/**
 * The eUICC's profiles in memory and on disk: install, enable, disable, delete and
 * reload, with the state of the disk after every single file write.
 */
module ProfileStore {
  import opened Isdp
  import opened ProfileFiles
  import opened Wrappers

  /** A profile file: a whole dictionary, or one whose writing was cut short. */
  datatype File = Whole(dict: Dict) | Torn

  /** The profile directory, by file name */
  type Disk = map<string, File>

  datatype Memory = Memory(profiles: map<string, Profile>, active: Option<string>, freeNvram: int, ready: bool)

  // ---- Files --------------------------------------------------------------

  /** The disk after each write of saving a profile: truncated, then written. Writes elsewhere leave it alone. */
  function Saving(fs: FileSystem, disk: Disk, p: Profile): (steps: seq<Disk>)
    ensures |steps| == if PlaceOf(fs, p.iccid).Nowhere? then 0 else 2
  {
    match PlaceOf(fs, p.iccid)
    case Inside(name) => [disk[name := Torn], disk[name := Whole(ToDict(p))]]
    case Outside => [disk, disk]
    case Nowhere => []
  }

  /** Saving a profile: the disk after it */
  function Saved(fs: FileSystem, disk: Disk, p: Profile): Disk {
    match PlaceOf(fs, p.iccid)
    case Inside(name) => disk[name := Whole(ToDict(p))]
    case _ => disk
  }

  /** A file that cannot be opened is an exception, after memory has changed. */
  predicate Saves(fs: FileSystem, p: Profile) {
    !PlaceOf(fs, p.iccid).Nowhere?
  }

  function Unlinked(fs: FileSystem, disk: Disk, iccid: string): Disk {
    match PlaceOf(fs, iccid)
    case Inside(name) => disk - {name}
    case _ => disk
  }

  /** The profile a file holds, if it can be read. */
  function Readable(f: File): Option<Profile> {
    match f
    case Torn => None
    case Whole(dict) => match FromDict(dict) case Err => None case Ok(p) => Some(p)
  }

  /** One file of the loading loop */
  function LoadFile(m: Memory, f: File): Memory {
    match Readable(f)
    case None => m
    case Some(p) =>
      m.(profiles := m.profiles[p.iccid := p], active := if p.state == ENABLED then Some(p.iccid) else m.active)
  }

  /** The loop over the files in the order the directory lists them */
  function LoadFiles(m: Memory, disk: Disk, order: seq<string>): Memory
    requires forall k :: k in order ==> k in disk
  {
    if order == [] then m else LoadFile(LoadFiles(m, disk, order[..|order| - 1]), disk[order[|order| - 1]])
  }

  // ---- Operations ---------------------------------------------------------

  /** What an operation leaves: memory, the disk after each write, and whether it returned. */
  datatype Effect = Effect(memory: Memory, steps: seq<Disk>, ok: bool)

  function Final(disk: Disk, steps: seq<Disk>): Disk {
    if steps == [] then disk else steps[|steps| - 1]
  }

  function NewProfile(d: Dict, iccid: string, freshAid: string): Profile
    requires KImsi in d && KKi in d && KOpc in d
  {
    Profile(iccid, d[KImsi], Get(d, KAid, Text(freshAid)), d[KKi], d[KOpc], Get(d, KMcc, Text("001")), Get(d, KMnc, Text("01")),
            Get(d, KSpn, Text("Virtual Operator")), Get(d, KMsisdn, Null), Null, Null, Get(d, KImpi, Null), Get(d, KImpu, Null),
            Get(d, KHomeDomain, Null), DISABLED, OPERATIONAL, 0)
  }

  /** The package is complete, its ICCID new, and there is room. */
  predicate Accepted(m: Memory, d: Dict) {
    && m.ready && KIccid in d && d[KIccid].Text? && d[KIccid].text !in m.profiles
    && Get(d, KSize, Number(65536)).Number? && Get(d, KSize, Number(65536)).n <= m.freeNvram
    && KImsi in d && KKi in d && KOpc in d
  }

  function Install(fs: FileSystem, m: Memory, disk: Disk, d: Dict, freshAid: string): Effect {
    if !Accepted(m, d) then Effect(m, [], false)
    else
      var p := NewProfile(d, d[KIccid].text, freshAid);
      Effect(m.(profiles := m.profiles[p.iccid := p], freeNvram := m.freeNvram - Get(d, KSize, Number(65536)).n),
             Saving(fs, disk, p), Saves(fs, p))
  }

  function SwitchedOff(m: Memory, iccid: string): Memory
    requires iccid in m.profiles
  {
    m.(profiles := m.profiles[iccid := m.profiles[iccid].(state := DISABLED)])
  }

  function SwitchedOn(m: Memory, iccid: string): Memory
    requires iccid in m.profiles
  {
    m.(profiles := m.profiles[iccid := m.profiles[iccid].(state := ENABLED)], active := Some(iccid))
  }

  function Enable(fs: FileSystem, m: Memory, disk: Disk, iccid: string): Effect {
    if !m.ready || iccid !in m.profiles then Effect(m, [], false)
    else if m.profiles[iccid].state == ENABLED then Effect(m, [], true)
    else if m.active.Some? && m.active.value != "" && m.active.value in m.profiles then
      var m1 := SwitchedOff(m, m.active.value);
      var off := m1.profiles[m.active.value];
      if !Saves(fs, off) then Effect(m1, [], false)
      else
        var m2 := SwitchedOn(m1, iccid);
        var on := m2.profiles[iccid];
        Effect(m2, Saving(fs, disk, off) + Saving(fs, Saved(fs, disk, off), on), Saves(fs, on))
    else
      var m1 := SwitchedOn(m, iccid);
      Effect(m1, Saving(fs, disk, m1.profiles[iccid]), Saves(fs, m1.profiles[iccid]))
  }

  function Disable(fs: FileSystem, m: Memory, disk: Disk, iccid: string): Effect {
    if !m.ready || iccid !in m.profiles then Effect(m, [], false)
    else if m.profiles[iccid].state == DISABLED then Effect(m, [], true)
    else
      var m1 := SwitchedOff(m, iccid);
      var off := m1.profiles[iccid];
      if !Saves(fs, off) then Effect(m1, [], false)
      else Effect(m1.(active := if m.active == Some(iccid) then None else m.active), Saving(fs, disk, off), true)
  }

  function Delete(fs: FileSystem, m: Memory, disk: Disk, iccid: string): Effect {
    if !m.ready || iccid !in m.profiles then Effect(m, [], false)
    else
      Effect(m.(profiles := m.profiles - {iccid}, active := if m.active == Some(iccid) then None else m.active),
             [Unlinked(fs, disk, iccid)], true)
  }

  /** `increment_sqn` on a profile in memory */
  function IncrementSqn(m: Memory, iccid: string): Memory {
    if iccid !in m.profiles then m
    else m.(profiles := m.profiles[iccid := m.profiles[iccid].(sqn := m.profiles[iccid].sqn + 1)])
  }

  function Blank(): Memory {
    Memory(map[], None, 512 * 1024, false)
  }

  /** A new process: `initialize` over the files in some order */
  function Reload(disk: Disk, order: seq<string>): Memory
    requires forall k :: k in order ==> k in disk
  {
    LoadFiles(Blank(), disk, order).(ready := true)
  }

  // ---- The object ---------------------------------------------------------

  /** The directory, with a ghost record of every state it has been in since it was opened. */
  class ProfileDir {
    const fs: FileSystem
    var files: Disk
    ghost var log: seq<Disk>

    constructor (fs: FileSystem, files: Disk)
      ensures this.fs == fs && this.files == files && log == []
    {
      this.fs, this.files, log := fs, files, [];
    }

    method Save(p: Profile) returns (ok: bool)
      modifies this
      ensures ok == Saves(fs, p)
      ensures files == Saved(fs, old(files), p) && log == old(log) + Saving(fs, old(files), p)
    {
      var place := PlaceOf(fs, p.iccid);
      if place.Nowhere? {
        return false;
      }
      if place.Inside? {
        files := files[place.name := Torn];
      }
      log := log + [files];
      if place.Inside? {
        files := files[place.name := Whole(ToDict(p))];
      }
      log := log + [files];
      ok := true;
      assert files == Saved(fs, old(files), p);
    }

    method Unlink(iccid: string)
      modifies this
      ensures files == Unlinked(fs, old(files), iccid) && log == old(log) + [files]
    {
      var place := PlaceOf(fs, iccid);
      if place.Inside? {
        files := files - {place.name};
      }
      log := log + [files];
    }
  }

  class VirtualEuicc {
    const dir: ProfileDir
    var profiles: map<string, Profile>
    var active: Option<string>
    var freeNvram: int
    var ready: bool

    constructor (dir: ProfileDir)
      ensures this.dir == dir && State() == Blank()
    {
      this.dir := dir;
      profiles, active, freeNvram, ready := map[], None, 512 * 1024, false;
    }

    function State(): Memory
      reads this
    {
      Memory(profiles, active, freeNvram, ready)
    }

    /** The files are listed in any order. */
    method Initialize(order: seq<string>)
      requires forall k :: k in order ==> k in dir.files
      modifies this
      ensures State() == LoadFiles(old(State()), dir.files, order).(ready := true)
    {
      hide Readable;
      ghost var before := State();
      for i := 0 to |order|
        invariant State() == LoadFiles(before, dir.files, order[..i])
      {
        assert order[..i + 1][..i] == order[..i];
        var isdp := Readable(dir.files[order[i]]);
        if isdp.Some? {
          profiles := profiles[isdp.value.iccid := isdp.value];
          if isdp.value.state == ENABLED {
            active := Some(isdp.value.iccid);
          }
        }
      }
      assert order[..|order|] == order;
      ready := true;
    }

    method InstallProfile(data: Dict, freshAid: string) returns (r: Result<Profile>)
      modifies this, dir
      ensures var e := Install(dir.fs, old(State()), old(dir.files), data, freshAid);
              State() == e.memory && dir.files == Final(old(dir.files), e.steps) && dir.log == old(dir.log) + e.steps
              && r.Ok? == e.ok
    {
      if !ready || KIccid !in data || !data[KIccid].Text? || data[KIccid].text in profiles {
        return Err;
      }
      var iccid, required := data[KIccid].text, Get(data, KSize, Number(65536));
      if !required.Number? || required.n > freeNvram || KImsi !in data || KKi !in data || KOpc !in data {
        return Err;
      }
      var isdp := NewProfile(data, iccid, freshAid);
      profiles := profiles[iccid := isdp];
      freeNvram := freeNvram - required.n;
      var saved := dir.Save(isdp);
      r := if saved then Ok(isdp) else Err;
    }

    method EnableProfile(iccid: string) returns (ok: bool)
      modifies this, dir
      ensures var e := Enable(dir.fs, old(State()), old(dir.files), iccid);
              State() == e.memory && dir.files == Final(old(dir.files), e.steps) && dir.log == old(dir.log) + e.steps && ok == e.ok
    {
      hide ToDict, PlaceOf;
      if !ready || iccid !in profiles {
        return false;
      }
      if profiles[iccid].state == ENABLED {
        return true;
      }
      if active.Some? && active.value != "" && active.value in profiles {
        var current := profiles[active.value].(state := DISABLED);
        profiles := profiles[active.value := current];
        var saved := dir.Save(current);
        if !saved {
          return false;
        }
      }
      profiles := profiles[iccid := profiles[iccid].(state := ENABLED)];
      active := Some(iccid);
      ok := dir.Save(profiles[iccid]);
    }

    method DisableProfile(iccid: string) returns (ok: bool)
      modifies this, dir
      ensures var e := Disable(dir.fs, old(State()), old(dir.files), iccid);
              State() == e.memory && dir.files == Final(old(dir.files), e.steps) && dir.log == old(dir.log) + e.steps && ok == e.ok
    {
      if !ready || iccid !in profiles {
        return false;
      }
      if profiles[iccid].state == DISABLED {
        return true;
      }
      profiles := profiles[iccid := profiles[iccid].(state := DISABLED)];
      ok := dir.Save(profiles[iccid]);
      if !ok {
        return;
      }
      if active == Some(iccid) {
        active := None;
      }
    }

    method DeleteProfile(iccid: string) returns (ok: bool)
      modifies this, dir
      ensures var e := Delete(dir.fs, old(State()), old(dir.files), iccid);
              State() == e.memory && dir.files == Final(old(dir.files), e.steps) && dir.log == old(dir.log) + e.steps && ok == e.ok
    {
      if !ready || iccid !in profiles {
        return false;
      }
      if active == Some(iccid) {
        active := None;
      }
      profiles := profiles - {iccid};
      dir.Unlink(iccid);
      ok := true;
    }

    /** `profiles[iccid].increment_sqn()` */
    method IncrementProfileSqn(iccid: string)
      modifies this
      ensures State() == IncrementSqn(old(State()), iccid)
    {
      if iccid in profiles {
        profiles := profiles[iccid := profiles[iccid].(sqn := profiles[iccid].sqn + 1)];
      }
    }
  }
}
