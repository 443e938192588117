/** The exact commands the setup issues and the fixed sequences they come
    in. Each sequence is run fail-fast (`Effects.Run`). */
module Mounts {
  import opened Effects

  const RecPrivateCmd: Command := ["mount", "--make-rprivate", "/"]
  const PivotRootCmd: Command := ["pivot_root", ".", "."]
  const LazyUnmountCmd: Command := ["umount", "-l", "."]
  const ShellCmd: Command := ["/bin/sh"]

  /** `os.MkdirAll(dir)`, recorded as `mkdir -p`. */
  function MkdirCmd(dir: string): Command
  {
    ["mkdir", "-p", dir]
  }

  /** `mount -t <fstype> <source> <target>`. */
  function MountCmd(fstype: string, source: string, target: string): Command
  {
    ["mount", "-t", fstype, source, target]
  }

  function OverlayCmd(options: string, target: string): Command
  {
    ["mount", "-t", "overlay", "overlay", "-o", options, target]
  }

  function BindCmd(source: string, target: string): Command
  {
    ["mount", "--bind", source, target]
  }

  /** `os.Chdir(dir)`, recorded as `cd`. */
  function ChdirCmd(dir: string): Command
  {
    ["cd", dir]
  }

  /** A mount of an overlay filesystem, whatever its options and target. */
  predicate IsOverlayMount(c: Command)
  {
    |c| >= 3 && c[0] == "mount" && c[1] == "-t" && c[2] == "overlay"
  }

  /** `prepareDirs`: create the base directory, put a tmpfs on it, then
      create each of `dirs`. */
  function PreparePlan(base: string, dirs: seq<string>): (plan: seq<Command>)
    ensures |plan| == 2 + |dirs|
  {
    [MkdirCmd(base), MountCmd("tmpfs", "tmpfs", base)] + seq(|dirs|, i requires 0 <= i < |dirs| => MkdirCmd(dirs[i]))
  }

  /** `mountBaseFs`: the seven pseudo-filesystems, in this order. */
  function BaseFsPlan(target: string): seq<Command>
  {
    [ MountCmd("proc", "none", target + "/proc"),
      MountCmd("sysfs", "none", target + "/sys"),
      MountCmd("devtmpfs", "devtmpfs", target + "/dev"),
      MountCmd("devpts", "devpts", target + "/dev/pts"),
      MountCmd("tmpfs", "shm", target + "/dev/shm"),
      MountCmd("tmpfs", "tmpfs", target + "/run"),
      MountCmd("tmpfs", "tmpfs", target + "/tmp") ]
  }

  /** `mountVolume` once the volume directory is known to exist. */
  function VolumePlan(volume: string, target: string): seq<Command>
  {
    [MkdirCmd(target + "/volume"), BindCmd(volume, target + "/volume")]
  }

  /** `chroot`: enter the new root, pivot onto it, detach the old root. */
  function ChrootPlan(target: string): seq<Command>
  {
    [ChdirCmd(target), PivotRootCmd, LazyUnmountCmd]
  }

  /** Every command of a run that is followed by another one succeeded. */
  lemma IssuedBeforeAnotherSucceeded(plan: seq<Command>, hist: seq<Command>, w: World, j: nat)
    requires j + 1 < |Run(plan, hist, w).issued|
    ensures w.succeeds(hist + plan[..j], plan[j])
  {
    RunSucceededBefore(plan, hist, w, j);
  }

  /** At most the seven base mounts are issued, as a prefix of the fixed
      order; `dev/pts` and `dev/shm` are mounted only after the `dev`
      mount succeeded. */
  lemma BaseFsDevFirst(target: string, hist: seq<Command>, w: World)
    ensures var t := Run(BaseFsPlan(target), hist, w);
      |t.issued| <= 7 && t.issued <= BaseFsPlan(target) &&
      (|t.issued| > 3 ==>
        t.issued[2] == MountCmd("devtmpfs", "devtmpfs", target + "/dev") &&
        w.succeeds(hist + t.issued[..2], t.issued[2]))
  {
    var t := Run(BaseFsPlan(target), hist, w);
    if |t.issued| > 3 {
      IssuedBeforeAnotherSucceeded(BaseFsPlan(target), hist, w, 2);
      assert t.issued[..2] == BaseFsPlan(target)[..2];
    }
  }

  /** The old root is detached only after `chdir` and `pivot_root` both
      succeeded, and `pivot_root` is attempted only after `chdir` did. */
  lemma ChrootOrder(target: string, hist: seq<Command>, w: World)
    ensures var t := Run(ChrootPlan(target), hist, w);
      (|t.issued| >= 2 ==> w.succeeds(hist, ChdirCmd(target))) &&
      (|t.issued| == 3 ==> w.succeeds(hist + [ChdirCmd(target)], PivotRootCmd))
  {
    var plan := ChrootPlan(target);
    var t := Run(plan, hist, w);
    if |t.issued| >= 2 {
      IssuedBeforeAnotherSucceeded(plan, hist, w, 0);
      assert hist + plan[..0] == hist;
    }
    if |t.issued| == 3 {
      IssuedBeforeAnotherSucceeded(plan, hist, w, 1);
      assert plan[..1] == [ChdirCmd(target)];
    }
  }
}

/** The command-line contract of the program: the parent re-executes
    itself with the `child` sentinel and four paths, inside new
    namespaces; `main` picks the child path from its arguments. */
module Launch {

  const ConfigPath: string := "/tmp/proxy_pool/config.json"
  const ManifestPath: string := "/tmp/proxy_pool/manifest.json"
  const BaseDir: string := "/tmp/proxy_pool/overlay"
  const VolumeDir: string := "/tmp/proxy_pool/volume"
  const SelfExe: string := "/proc/self/exe"
  const ChildSentinel: string := "child"

  /** What `main` does with its arguments (`os.Args`, program name first). */
  datatype Mode =
    | Parent
    | Child(configPath: string, manifestPath: string, baseDir: string, volumeDir: string)
    | UsageError

  /** `main`'s dispatch: the `child` sentinel as first argument selects the
      child path, which needs exactly four more arguments. */
  function Dispatch(args: seq<string>): (m: Mode)
    ensures m.UsageError? <==> |args| > 1 && args[1] == ChildSentinel && |args| != 6
    ensures m.Parent? <==> |args| <= 1 || args[1] != ChildSentinel
    ensures m.Child? ==>
      args == [args[0], ChildSentinel, m.configPath, m.manifestPath, m.baseDir, m.volumeDir]
  {
    if |args| > 1 && args[1] == ChildSentinel then
      if |args| != 6 then UsageError
      else Child(args[2], args[3], args[4], args[5])
    else Parent
  }

  /** The argument vector `runInNamespace` re-executes the program with. */
  function LaunchArgv(configPath: string, manifestPath: string, baseDir: string, volumeDir: string): seq<string>
  {
    [SelfExe, ChildSentinel, configPath, manifestPath, baseDir, volumeDir]
  }

  /** The re-executed program takes the child path with the same four
      paths the parent passed. */
  lemma LaunchArgvDispatchesToChild(configPath: string, manifestPath: string, baseDir: string, volumeDir: string)
    ensures Dispatch(LaunchArgv(configPath, manifestPath, baseDir, volumeDir)) ==
      Child(configPath, manifestPath, baseDir, volumeDir)
  {
  }
}
