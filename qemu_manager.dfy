/** `QemuManager`: launching a virtual machine with `qemu-system-x86_64` and creating a
    disk image with `qemu-img`. */
module QemuManager {
  import opened Wrappers
  import opened Text
  import opened ShellWords
  import opened CmdRunner
  import opened FileSystems

  const VM_BINARY := "qemu-system-x86_64"
  const DISK_ERROR := "Disk path does not exist or is invalid."
  const ISO_ERROR := "ISO path provided but does not exist."

  /** What `subprocess.Popen` did with a command line: the detached process was started,
      or it raised an exception with this text. */
  datatype SpawnOutcome = Spawned | SpawnFailed(message: string)

  /** Starting a detached process through the shell, as far as the model can see it. */
  type Launcher = string -> SpawnOutcome

  /** The disk passes the check: a non-empty path that exists. */
  predicate DiskValid(fs: FileSystem, disk: string)
    reads fs
  {
    disk != "" && fs.Exists(disk)
  }

  /** The ISO passes the check: none was given, or the one given exists. */
  predicate IsoValid(fs: FileSystem, iso: string)
    reads fs
  {
    iso == "" || fs.Exists(iso)
  }

  /** The entries of `cmd_parts` on the way to a launch, in order: the binary, the memory
      flag when a RAM size is given, the CPU flag when a core count is given, the quoted
      disk, the quoted ISO when one is given. */
  function VmCommandParts(cpu: string, ram: string, disk: string, iso: string): seq<string> {
    [VM_BINARY]
    + (if ram != "" then ["-m " + ram] else [])
    + (if cpu != "" then ["-smp " + cpu] else [])
    + ["-hda \"" + disk + "\""]
    + (if iso != "" then ["-cdrom \"" + iso + "\""] else [])
  }

  /** `start_vm`: checks the disk, then the ISO, and only when both pass launches the
      space-joined command; `launched` is the command line handed to `Popen`, `None` when
      nothing was launched. */
  method StartVm(fs: FileSystem, cpu: string, ram: string, disk: string, iso: string, launch: Launcher)
    returns (result: CommandResult, launched: Option<string>)
    ensures !DiskValid(fs, disk) ==> launched == None && result == CommandResult(false, DISK_ERROR)
    ensures DiskValid(fs, disk) && !IsoValid(fs, iso) ==> launched == None && result == CommandResult(false, ISO_ERROR)
    ensures DiskValid(fs, disk) && IsoValid(fs, iso) ==> launched == Some(Join(" ", VmCommandParts(cpu, ram, disk, iso)))
    ensures launched.Some? && launch(launched.value).Spawned? ==>
              result == CommandResult(true, "VM Launching: " + launched.value)
    ensures launched.Some? && launch(launched.value).SpawnFailed? ==>
              result == CommandResult(false, launch(launched.value).message)
  {
    var parts := [VM_BINARY];
    if ram != "" {
      parts := parts + ["-m " + ram];
    }
    assert parts == [VM_BINARY] + (if ram != "" then ["-m " + ram] else []);
    if cpu != "" {
      parts := parts + ["-smp " + cpu];
    }
    assert parts == [VM_BINARY] + (if ram != "" then ["-m " + ram] else [])
                    + (if cpu != "" then ["-smp " + cpu] else []);
    if disk != "" && fs.Exists(disk) {
      parts := parts + ["-hda \"" + disk + "\""];
    } else {
      return CommandResult(false, DISK_ERROR), None;
    }
    if iso != "" {
      if fs.Exists(iso) {
        parts := parts + ["-cdrom \"" + iso + "\""];
      } else {
        return CommandResult(false, ISO_ERROR), None;
      }
    }
    assert parts == VmCommandParts(cpu, ram, disk, iso);
    var command := Join(" ", parts);
    launched := Some(command);
    match launch(command)
    case Spawned =>
      result := CommandResult(true, "VM Launching: " + command);
    case SpawnFailed(message) =>
      result := CommandResult(false, message);
  }

  /** One optional entry of `cmd_parts`, written from its arguments. */
  lemma OptionalPart(groups: seq<seq<Arg>>, present: bool, g: seq<Arg>, part: string)
    requires g != [] && JoinArgs(g) == part
    requires forall i :: 0 <= i < |groups| ==> groups[i] != []
    ensures var more := groups + (if present then [g] else []);
      && RenderGroups(more) == RenderGroups(groups) + (if present then [part] else [])
      && forall i :: 0 <= i < |more| ==> more[i] != []
  {
    if present {
      RenderGroupsAppend(groups, [g]);
    } else {
      assert groups + [] == groups;
    }
  }

  /** The words one optional entry of `cmd_parts` contributes. */
  lemma OptionalWords(groups: seq<seq<Arg>>, present: bool, g: seq<Arg>, words: seq<string>)
    requires Texts(g) == words
    requires present ==> AllWellFormed(g)
    requires AllWellFormed(Flatten(groups))
    ensures var more := groups + (if present then [g] else []);
      && Texts(Flatten(more)) == Texts(Flatten(groups)) + (if present then words else [])
      && AllWellFormed(Flatten(more))
  {
    if present {
      AddGroup(groups, g);
    } else {
      assert groups + [] == groups;
    }
  }

  /** The arguments behind the entries of `cmd_parts` before the disk. */
  function VmFrontGroups(cpu: string, ram: string): seq<seq<Arg>> {
    [[Bare(VM_BINARY)]]
    + (if ram != "" then [[Bare("-m"), Bare(ram)]] else [])
    + (if cpu != "" then [[Bare("-smp"), Bare(cpu)]] else [])
  }

  /** The arguments behind each entry of `cmd_parts`. */
  function VmArgGroups(cpu: string, ram: string, disk: string, iso: string): seq<seq<Arg>> {
    VmFrontGroups(cpu, ram)
    + [[Bare("-hda"), Quoted(disk)]]
    + (if iso != "" then [[Bare("-cdrom"), Quoted(iso)]] else [])
  }

  lemma VmFrontGroupsRendered(cpu: string, ram: string)
    ensures var groups := VmFrontGroups(cpu, ram);
      && RenderGroups(groups)
         == [VM_BINARY] + (if ram != "" then ["-m " + ram] else []) + (if cpu != "" then ["-smp " + cpu] else [])
      && forall i :: 0 <= i < |groups| ==> groups[i] != []
  {
    var g0: seq<seq<Arg>> := [[Bare(VM_BINARY)]];
    assert RenderGroups(g0) == [VM_BINARY];
    ArgPair(Bare("-m"), Bare(ram));
    ArgPair(Bare("-smp"), Bare(cpu));
    OptionalPart(g0, ram != "", [Bare("-m"), Bare(ram)], "-m " + ram);
    var g1 := g0 + (if ram != "" then [[Bare("-m"), Bare(ram)]] else []);
    OptionalPart(g1, cpu != "", [Bare("-smp"), Bare(cpu)], "-smp " + cpu);
  }

  lemma VmArgGroupsRendered(cpu: string, ram: string, disk: string, iso: string)
    ensures var groups := VmArgGroups(cpu, ram, disk, iso);
      && RenderGroups(groups) == VmCommandParts(cpu, ram, disk, iso)
      && forall i :: 0 <= i < |groups| ==> groups[i] != []
  {
    var g2 := VmFrontGroups(cpu, ram);
    VmFrontGroupsRendered(cpu, ram);
    ArgPair(Bare("-hda"), Quoted(disk));
    ArgPair(Bare("-cdrom"), Quoted(iso));
    OptionalPart(g2, true, [Bare("-hda"), Quoted(disk)], "-hda \"" + disk + "\"");
    var g3 := g2 + [[Bare("-hda"), Quoted(disk)]];
    OptionalPart(g3, iso != "", [Bare("-cdrom"), Quoted(iso)], "-cdrom \"" + iso + "\"");
  }

  lemma VmBinaryWellFormed()
    ensures WellFormed(Bare(VM_BINARY))
  {
  }

  lemma VmFlagsWellFormed()
    ensures WellFormed(Bare("-m")) && WellFormed(Bare("-smp"))
    ensures WellFormed(Bare("-hda")) && WellFormed(Bare("-cdrom"))
  {
  }

  lemma VmFrontGroupsWords(cpu: string, ram: string)
    requires ram != "" ==> WellFormed(Bare(ram))
    requires cpu != "" ==> WellFormed(Bare(cpu))
    ensures var groups := VmFrontGroups(cpu, ram);
      && Texts(Flatten(groups))
         == [VM_BINARY] + (if ram != "" then ["-m", ram] else []) + (if cpu != "" then ["-smp", cpu] else [])
      && AllWellFormed(Flatten(groups))
  {
    var g0: seq<seq<Arg>> := [[Bare(VM_BINARY)]];
    assert Flatten(g0) == [Bare(VM_BINARY)] + [];
    VmBinaryWellFormed();
    VmFlagsWellFormed();
    ArgPair(Bare("-m"), Bare(ram));
    ArgPair(Bare("-smp"), Bare(cpu));
    OptionalWords(g0, ram != "", [Bare("-m"), Bare(ram)], ["-m", ram]);
    var g1 := g0 + (if ram != "" then [[Bare("-m"), Bare(ram)]] else []);
    OptionalWords(g1, cpu != "", [Bare("-smp"), Bare(cpu)], ["-smp", cpu]);
  }

  lemma VmArgGroupsWords(cpu: string, ram: string, disk: string, iso: string)
    requires ram != "" ==> WellFormed(Bare(ram))
    requires cpu != "" ==> WellFormed(Bare(cpu))
    requires WellFormed(Quoted(disk)) && WellFormed(Quoted(iso))
    ensures var groups := VmArgGroups(cpu, ram, disk, iso);
      && Texts(Flatten(groups))
         == [VM_BINARY]
            + (if ram != "" then ["-m", ram] else [])
            + (if cpu != "" then ["-smp", cpu] else [])
            + ["-hda", disk]
            + (if iso != "" then ["-cdrom", iso] else [])
      && AllWellFormed(Flatten(groups))
  {
    var g2 := VmFrontGroups(cpu, ram);
    VmFrontGroupsWords(cpu, ram);
    VmFlagsWellFormed();
    ArgPair(Bare("-hda"), Quoted(disk));
    ArgPair(Bare("-cdrom"), Quoted(iso));
    OptionalWords(g2, true, [Bare("-hda"), Quoted(disk)], ["-hda", disk]);
    var g3 := g2 + [[Bare("-hda"), Quoted(disk)]];
    OptionalWords(g3, iso != "", [Bare("-cdrom"), Quoted(iso)], ["-cdrom", iso]);
  }

  /** The launched program receives exactly: the binary, `-m` and the RAM size if given,
      `-smp` and the core count if given, `-hda` and the disk path, `-cdrom` and the ISO
      path if given; the quotes keep a path with blanks in it one argument. */
  lemma VmCommandArgv(cpu: string, ram: string, disk: string, iso: string)
    requires ram != "" ==> WellFormed(Bare(ram))
    requires cpu != "" ==> WellFormed(Bare(cpu))
    requires WellFormed(Quoted(disk)) && WellFormed(Quoted(iso))
    ensures Words(Join(" ", VmCommandParts(cpu, ram, disk, iso)))
            == [VM_BINARY]
               + (if ram != "" then ["-m", ram] else [])
               + (if cpu != "" then ["-smp", cpu] else [])
               + ["-hda", disk]
               + (if iso != "" then ["-cdrom", iso] else [])
  {
    var groups := VmArgGroups(cpu, ram, disk, iso);
    VmArgGroupsRendered(cpu, ram, disk, iso);
    VmArgGroupsWords(cpu, ram, disk, iso);
    JoinRenderGroups(groups);
    WordsOfJoinArgs(Flatten(groups));
  }

  /** The disk image name `create_disk_image` uses: a name already ending in `.qcow2` or
      `.img` is kept, any other gets `.qcow2` appended once. */
  function NormalizeDiskName(location: string): (r: string)
    ensures EndsWith(r, ".qcow2") || EndsWith(r, ".img")
    ensures EndsWith(location, ".qcow2") || EndsWith(location, ".img") ==> r == location
    ensures !EndsWith(location, ".qcow2") && !EndsWith(location, ".img") ==> r == location + ".qcow2"
  {
    if !EndsWith(location, ".qcow2") && !EndsWith(location, ".img") then
      var r := location + ".qcow2";
      assert r[|r| - |".qcow2"|..] == ".qcow2";
      r
    else
      location
  }

  /** Normalising a normalised name changes nothing. */
  lemma NormalizeDiskNameIdempotent(location: string)
    ensures NormalizeDiskName(NormalizeDiskName(location)) == NormalizeDiskName(location)
  {
  }

  /** The `qemu-img create` command line: always the qcow2 format, the normalised name in
      quotes, the size with `G` appended. */
  function DiskImageCommand(sizeGb: string, location: string): string {
    "qemu-img create -f qcow2 \"" + NormalizeDiskName(location) + "\" " + sizeGb + "G"
  }

  /** `create_disk_image`: runs the disk command and hands back the runner's result. */
  function CreateDiskImage(sizeGb: string, location: string, shell: Shell): CommandResult {
    RunCommand(shell, DiskImageCommand(sizeGb, location))
  }

  /** The fixed words in front of every disk command. */
  const DISK_TOOL_ARGS := [Bare("qemu-img"), Bare("create"), Bare("-f"), Bare("qcow2")]

  lemma DiskToolArgsWellFormed()
    ensures AllWellFormed(DISK_TOOL_ARGS)
  {
    var d := DISK_TOOL_ARGS;
    assert WellFormed(d[0]) && WellFormed(d[1]);
    assert WellFormed(d[2]) && WellFormed(d[3]);
  }

  lemma DiskToolArgsWritten()
    ensures JoinArgs(DISK_TOOL_ARGS) == "qemu-img create -f qcow2"
    ensures Texts(DISK_TOOL_ARGS) == ["qemu-img", "create", "-f", "qcow2"]
  {
    var front := [Bare("qemu-img"), Bare("create")];
    var back := [Bare("-f"), Bare("qcow2")];
    ArgPair(Bare("qemu-img"), Bare("create"));
    ArgPair(Bare("-f"), Bare("qcow2"));
    JoinArgsAppend(front, back);
    assert front + back == DISK_TOOL_ARGS;
    assert "qemu-img create" + " " + "-f qcow2" == "qemu-img create -f qcow2";
  }

  lemma DiskImageCommandWritten(sizeGb: string, location: string)
    ensures var tail := [Quoted(NormalizeDiskName(location)), Bare(sizeGb + "G")];
      JoinArgs(DISK_TOOL_ARGS + tail) == DiskImageCommand(sizeGb, location)
  {
    var name := NormalizeDiskName(location);
    var tail := [Quoted(name), Bare(sizeGb + "G")];
    ArgPair(Quoted(name), Bare(sizeGb + "G"));
    DiskToolArgsWritten();
    JoinArgsAppend(DISK_TOOL_ARGS, tail);
  }

  /** `qemu-img` receives `create -f qcow2`, the normalised name as one argument and the
      size in gigabytes, even when the name ends in `.img`. */
  lemma DiskImageArgv(sizeGb: string, location: string)
    requires WellFormed(Quoted(location)) && WellFormed(Bare(sizeGb + "G"))
    ensures Words(DiskImageCommand(sizeGb, location))
            == ["qemu-img", "create", "-f", "qcow2", NormalizeDiskName(location), sizeGb + "G"]
  {
    var name := NormalizeDiskName(location);
    var tail := [Quoted(name), Bare(sizeGb + "G")];
    var args := DISK_TOOL_ARGS + tail;
    DiskImageCommandWritten(sizeGb, location);
    DiskToolArgsWellFormed();
    DiskToolArgsWritten();
    ArgPair(Quoted(name), Bare(sizeGb + "G"));
    assert AllWellFormed(args);
    WordsOfJoinArgs(args);
    TextsAppend(DISK_TOOL_ARGS, tail);
  }
}
