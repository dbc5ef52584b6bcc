// The machine that runs the hypervisor, seen as three sets of resources, and
// the paths of differencing disks.
module Host {
  import opened Basics

  /** An absolute path, resolved: its components from the root down. */
  type Path = seq<string>

  const DISK_SUFFIX := "_system.vhdx"

  function VmName(id: string): (name: string)
    ensures name != ""
  {
    "bunker_" + id
  }

  function SwitchName(id: string): (name: string)
    ensures name != ""
  {
    "lumenos_" + id + "_switch"
  }

  /** Splits at '/', keeping empty parts. */
  function Split(s: string): (parts: seq<string>)
    ensures |parts| > 0
    ensures '/' !in s ==> parts == [s]
  {
    if s == "" then [""]
    else if s[0] == '/' then [""] + Split(s[1..])
    else
      var rest := Split(s[1..]);
      assert s == [s[0]] + s[1..];
      [[s[0]] + rest[0]] + rest[1..]
  }

  /** Follows relative components from a directory: "." stays, ".." climbs. */
  function Resolve(base: Path, parts: seq<string>): Path
    decreases |parts|
  {
    if parts == [] then base
    else if parts[0] == "" || parts[0] == "." then Resolve(base, parts[1..])
    else if parts[0] == ".." then Resolve(if base == [] then [] else base[..|base| - 1], parts[1..])
    else Resolve(base + [parts[0]], parts[1..])
  }

  /** Where the differencing disk of a bunker id lies; an absolute id escapes the directory. */
  function DiskPath(snapshots: Path, id: string): Path {
    Resolve(if id != "" && id[0] == '/' then [] else snapshots, Split(id + DISK_SUFFIX))
  }

  /** The disk lies directly in the snapshots directory. */
  predicate Confined(snapshots: Path, p: Path) {
    p != [] && p[..|p| - 1] == snapshots
  }

  lemma ConfinedMeans(snapshots: Path, p: Path)
    ensures Confined(snapshots, p) <==> exists leaf :: p == snapshots + [leaf]
  {
    if Confined(snapshots, p) {
      assert p == snapshots + [p[|p| - 1]];
    }
  }

  /** An id without '/' names a disk directly in the snapshots directory, and only its own. */
  lemma PlainIdIsConfined(snapshots: Path, id: string)
    requires '/' !in id
    ensures DiskPath(snapshots, id) == snapshots + [id + DISK_SUFFIX]
    ensures Confined(snapshots, DiskPath(snapshots, id))
  {
    var name := id + DISK_SUFFIX;
    assert Split(name) == [name];
    assert name[|name| - 1] == 'x';
    assert Resolve(snapshots, [name]) == Resolve(snapshots + [name], []);
  }

  lemma SplitStep(c: char, rest: string)
    requires c != '/'
    ensures Split([c] + rest) == [[c] + Split(rest)[0]] + Split(rest)[1..]
  {
    assert ([c] + rest)[1..] == rest;
  }

  lemma ClimbingSplit(leaf: string)
    requires '/' !in leaf
    ensures Split("../" + leaf) == ["..", leaf]
  {
    var rest := ['/'] + leaf;
    assert Split(rest) == ["", leaf] by { assert rest[1..] == leaf; }
    hide Split;
    var once := ['.'] + rest;
    SplitStep('.', rest);
    assert ['.'] + "" == "." && ["", leaf][1..] == [leaf];
    assert Split(once) == [".", leaf];
    SplitStep('.', once);
    assert ['.'] + "." == ".." && [".", leaf][1..] == [leaf];
    assert ['.'] + once == "../" + leaf;
  }

  /** The confinement has bite: an id that climbs out of the snapshots directory names a disk beside it. */
  lemma ClimbingIdIsNotConfined(snapshots: Path, name: string)
    requires snapshots != [] && '/' !in name
    ensures DiskPath(snapshots, "../" + name) == snapshots[..|snapshots| - 1] + [name + DISK_SUFFIX]
    ensures !Confined(snapshots, DiskPath(snapshots, "../" + name))
  {
    hide Split;
    var leaf := name + DISK_SUFFIX;
    assert leaf[|leaf| - 1] == 'x';
    assert "../" + name + DISK_SUFFIX == "../" + leaf;
    ClimbingSplit(leaf);
    var parent := snapshots[..|snapshots| - 1];
    assert ["..", leaf][1..] == [leaf];
    assert Resolve(parent, [leaf]) == Resolve(parent + [leaf], []);
    assert Resolve(snapshots, ["..", leaf]) == Resolve(parent, [leaf]);
  }

  lemma AliasSplit(leaf: string)
    requires '/' !in leaf
    ensures Split("x/../" + leaf) == ["x", "..", leaf]
  {
    var tail := "../" + leaf;
    ClimbingSplit(leaf);
    var slashed := ['/'] + tail;
    assert Split(slashed) == [""] + Split(tail) by { assert slashed[1..] == tail; }
    hide Split;
    SplitStep('x', slashed);
    assert ['x'] + "" == "x" && ["", "..", leaf][1..] == ["..", leaf];
    assert ['x'] + slashed == "x/../" + leaf;
  }

  /** An id that leaves a directory and comes back names the disk of another id, and passes the confinement. */
  lemma AliasSharesDisk(snapshots: Path, name: string)
    requires '/' !in name
    ensures DiskPath(snapshots, "x/../" + name) == DiskPath(snapshots, name)
    ensures Confined(snapshots, DiskPath(snapshots, "x/../" + name))
  {
    var leaf := name + DISK_SUFFIX;
    assert leaf[|leaf| - 1] == 'x';
    assert "x/../" + name + DISK_SUFFIX == "x/../" + leaf;
    AliasSplit(leaf);
    PlainIdIsConfined(snapshots, name);
    hide Split;
    var inside := snapshots + ["x"];
    assert ["x", "..", leaf][1..] == ["..", leaf] && ["..", leaf][1..] == [leaf] && [leaf][1..] == [];
    assert Resolve(snapshots, ["x", "..", leaf]) == Resolve(inside, ["..", leaf]);
    assert inside[..|inside| - 1] == snapshots;
    assert Resolve(inside, ["..", leaf]) == Resolve(snapshots, [leaf]);
    assert Resolve(snapshots, [leaf]) == Resolve(snapshots + [leaf], []) == snapshots + [leaf];
  }

  /** Two ids never share a VM or a switch; two ids without '/' never share a disk. */
  lemma NamesAreInjective(snapshots: Path, id: string, other: string)
    requires id != other
    ensures VmName(id) != VmName(other) && SwitchName(id) != SwitchName(other)
    ensures '/' !in id && '/' !in other ==> DiskPath(snapshots, id) != DiskPath(snapshots, other)
  {
    assert VmName(id)[7..] == id && VmName(other)[7..] == other;
    assert SwitchName(id)[8..|SwitchName(id)| - 7] == id && SwitchName(other)[8..|SwitchName(other)| - 7] == other;
    if '/' !in id && '/' !in other {
      PlainIdIsConfined(snapshots, id);
      PlainIdIsConfined(snapshots, other);
      var name, name' := id + DISK_SUFFIX, other + DISK_SUFFIX;
      assert name[..|name| - 12] == id && name'[..|name'| - 12] == other;
      assert DiskPath(snapshots, id)[|snapshots|] == name && DiskPath(snapshots, other)[|snapshots|] == name';
    }
  }

  datatype HostData = HostData(snapshots: Path, vms: set<string>, switches: set<string>, files: set<Path>) {
    function CreateSwitch(name: string, a: Answer): HostData {
      this.(switches := if a.done then switches + {name} else switches)
    }

    function CreateVm(name: string, disk: Path, a: Answer): HostData {
      this.(vms := if a.done then vms + {name} else vms,
            files := if a.disk then files + {disk} else files)
    }

    function RemoveVm(name: string, disk: Path, a: Answer): HostData {
      this.(vms := if a.done then vms - {name} else vms,
            files := if a.disk then files - {disk} else files)
    }

    function RemoveSwitch(name: string, a: Answer): HostData {
      this.(switches := if a.done then switches - {name} else switches)
    }

    function DeleteFile(p: Path, a: Answer): HostData {
      this.(files := if a.done then files - {p} else files)
    }
  }

  /** The hypervisor backend: every call changes the resource sets as its answer says. */
  class Backend {
    const snapshots: Path
    var vms: set<string>
    var switches: set<string>
    var files: set<Path>

    ghost function Data(): HostData
      reads this
    {
      HostData(snapshots, vms, switches, files)
    }

    constructor (snapshots: Path, vms: set<string>, switches: set<string>, files: set<Path>)
      ensures Data() == HostData(snapshots, vms, switches, files)
    {
      this.snapshots, this.vms, this.switches, this.files := snapshots, vms, switches, files;
    }

    method CreateSwitch(name: string, a: Answer) returns (r: Reply)
      modifies this
      ensures Data() == old(Data()).CreateSwitch(name, a) && r == a.reply
    {
      if a.done { switches := switches + {name}; }
      r := a.reply;
    }

    method CreateVm(name: string, disk: Path, a: Answer) returns (r: Reply)
      modifies this
      ensures Data() == old(Data()).CreateVm(name, disk, a) && r == a.reply
    {
      if a.done { vms := vms + {name}; }
      if a.disk { files := files + {disk}; }
      r := a.reply;
    }

    method RemoveVm(name: string, disk: Path, a: Answer) returns (r: Reply)
      modifies this
      ensures Data() == old(Data()).RemoveVm(name, disk, a) && r == a.reply
    {
      if a.done { vms := vms - {name}; }
      if a.disk { files := files - {disk}; }
      r := a.reply;
    }

    method RemoveSwitch(name: string, a: Answer) returns (r: Reply)
      modifies this
      ensures Data() == old(Data()).RemoveSwitch(name, a) && r == a.reply
    {
      if a.done { switches := switches - {name}; }
      r := a.reply;
    }

    method DeleteFile(p: Path, a: Answer) returns (r: Reply)
      modifies this
      ensures Data() == old(Data()).DeleteFile(p, a) && r == a.reply
    {
      if a.done { files := files - {p}; }
      r := a.reply;
    }
  }
}
