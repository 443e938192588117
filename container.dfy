/** The container setup as the child and parent processes run it: a
    process whose effects are recorded in a command log and whose
    environment is a map, with one method per stage function of the
    program (`mountTmpfs` is issued inline by `PrepareDirs`, and
    `loadConfig` and `loadManifest` are the world's loaders), each proved
    to issue exactly what its stage specification says. */
module Container {
  import opened Descriptors
  import opened GoStrings
  import opened Effects
  import opened Environment
  import opened Overlay
  import opened Mounts
  import opened Launch
  import opened Pipeline

  class Process {
    /** Every command issued so far, oldest first. */
    var log: seq<Command>
    /** The process environment. */
    var env: map<string, string>
    /** Outcomes of commands, `os.Stat` and the descriptor loaders. */
    const world: World

    constructor (w: World, initialEnv: map<string, string>)
      ensures world == w && log == [] && env == initialEnv
    {
      world := w;
      log := [];
      env := initialEnv;
    }

    /** Run one command; the world decides whether it succeeds. */
    method Issue(c: Command) returns (ok: bool)
      modifies this`log
      ensures log == old(log) + [c] && ok == world.succeeds(old(log), c)
    {
      ok := world.succeeds(log, c);
      log := log + [c];
    }

    /** Run the next command of a fixed sequence. */
    method Exec(c: Command, ghost plan: seq<Command>, ghost start: seq<Command>, ghost k: nat) returns (ok: bool)
      requires Resumes(plan, start, log, world) && |log| == |start| + k && k < |plan| && plan[k] == c
      modifies this`log
      ensures log == old(log) + [c] && ok == world.succeeds(old(log), c)
      ensures ok ==> Resumes(plan, start, log, world) && |log| == |start| + k + 1
      ensures !ok ==> log == start + FromTrace(Run(plan, start, world)).issued &&
                      FromTrace(Run(plan, start, world)).outcome == Failed(CommandFailed(c))
    {
      if world.succeeds(log, c) {
        ResumeStep(plan, start, log, world);
      } else {
        ResumeFail(plan, start, log, world);
      }
      ok := Issue(c);
    }

    /** `mountRecPrivate`: `mount --make-rprivate /`. */
    method MountRecPrivate() returns (outcome: Outcome)
      modifies this`log
      ensures log == old(log) + RecPrivateSpec(old(log), world).issued
      ensures outcome == RecPrivateSpec(old(log), world).outcome
    {
      var ok := Issue(RecPrivateCmd);
      if !ok {
        return Failed(CommandFailed(RecPrivateCmd));
      }
      return Done;
    }

    /** `setEnv`: load the `Env` list and apply it entry by entry. */
    method SetEnv(configPath: string) returns (err: Option<Failure>)
      modifies this`env
      ensures EnvResult(env, err) == SetEnvSpec(world.loadConfig(configPath), configPath, old(env))
    {
      var loaded := world.loadConfig(configPath);
      if loaded.None? {
        return Some(LoadFailed(configPath));
      }
      var entries := loaded.value;
      var i := 0;
      while i < |entries|
        invariant 0 <= i <= |entries|
        invariant ApplyEnv(entries, old(env)) == ApplyEnv(entries[i..], env)
      {
        assert entries[i..][1..] == entries[i + 1..];
        var parts := SplitN2(entries[i], '=');
        if |parts| != 2 {
          return Some(InvalidEnv(entries[i]));
        }
        if !SetenvAccepts(parts[0], parts[1]) {
          return Some(SetenvFailed(parts[0]));
        }
        env := env[parts[0] := parts[1]];
        i := i + 1;
      }
      return None;
    }

    /** `prepareDirs`: `mkdir -p` the base, mount a tmpfs on it (the
        `mountTmpfs` helper), then `mkdir -p` each directory. */
    method PrepareDirs(base: string, dirs: seq<string>) returns (ok: bool)
      modifies this`log
      ensures log == old(log) + Run(PreparePlan(base, dirs), old(log), world).issued
      ensures ok == Run(PreparePlan(base, dirs), old(log), world).completed
    {
      ghost var plan, start := PreparePlan(base, dirs), log;
      ResumeStart(plan, log, world);
      ok := Exec(MkdirCmd(base), plan, start, 0);
      if !ok {
        return;
      }
      ok := Exec(MountCmd("tmpfs", "tmpfs", base), plan, start, 1);
      if !ok {
        return;
      }
      var i := 0;
      while i < |dirs|
        invariant 0 <= i <= |dirs|
        invariant |log| - |start| == 2 + i
        invariant Resumes(plan, start, log, world)
      {
        ok := Exec(MkdirCmd(dirs[i]), plan, start, 2 + i);
        if !ok {
          return;
        }
        i := i + 1;
      }
      ResumeEnd(plan, start, log, world);
    }

    /** `mountOverlayFS`: one overlay mount with the joined lower directories. */
    method MountOverlayFS(lowerDirs: seq<string>, upperDir: string, workDir: string, target: string)
      returns (outcome: Outcome)
      modifies this`log
      ensures log == old(log) + OverlaySpec(lowerDirs, upperDir, workDir, target, old(log), world).issued
      ensures outcome == OverlaySpec(lowerDirs, upperDir, workDir, target, old(log), world).outcome
    {
      var lowerdir := Join(lowerDirs, ':');
      var options := "lowerdir=" + lowerdir + ",upperdir=" + upperDir + ",workdir=" + workDir;
      var cmd := OverlayCmd(options, target);
      var ok := Issue(cmd);
      if !ok {
        return Failed(CommandFailed(cmd));
      }
      return Done;
    }

    /** `setLayers`: load the manifest, prepare the directories (ignoring
        the result), collect the lower directories, mount the overlay. */
    method SetLayers(manifestPath: string, base: string, target: string) returns (outcome: Outcome)
      modifies this`log
      ensures log == old(log) + LayersSpec(manifestPath, base, target, old(log), world).issued
      ensures outcome == LayersSpec(manifestPath, base, target, old(log), world).outcome
    {
      var loaded := world.loadManifest(manifestPath);
      if loaded.None? {
        return Failed(LoadFailed(manifestPath));
      }
      var upperDir := base + "/upper";
      var workDir := base + "/work";
      var _ := PrepareDirs(base, [upperDir, workDir, target]);
      var lowerDirs := CollectLowerDirs(loaded.value);
      if lowerDirs.None? {
        return Panic;
      }
      outcome := MountOverlayFS(lowerDirs.value, upperDir, workDir, target);
    }

    /** `mountBaseFs`: the seven pseudo-filesystems, stopping at the first failure. */
    method MountBaseFs(target: string) returns (outcome: Outcome)
      modifies this`log
      ensures log == old(log) + BaseFsSpec(target, old(log), world).issued
      ensures outcome == BaseFsSpec(target, old(log), world).outcome
    {
      ghost var plan, start := BaseFsPlan(target), log;
      ResumeStart(plan, log, world);
      var cmd := MountCmd("proc", "none", target + "/proc");
      var ok := Exec(cmd, plan, start, 0);
      if !ok {
        return Failed(CommandFailed(cmd));
      }
      cmd := MountCmd("sysfs", "none", target + "/sys");
      ok := Exec(cmd, plan, start, 1);
      if !ok {
        return Failed(CommandFailed(cmd));
      }
      cmd := MountCmd("devtmpfs", "devtmpfs", target + "/dev");
      ok := Exec(cmd, plan, start, 2);
      if !ok {
        return Failed(CommandFailed(cmd));
      }
      cmd := MountCmd("devpts", "devpts", target + "/dev/pts");
      ok := Exec(cmd, plan, start, 3);
      if !ok {
        return Failed(CommandFailed(cmd));
      }
      cmd := MountCmd("tmpfs", "shm", target + "/dev/shm");
      ok := Exec(cmd, plan, start, 4);
      if !ok {
        return Failed(CommandFailed(cmd));
      }
      cmd := MountCmd("tmpfs", "tmpfs", target + "/run");
      ok := Exec(cmd, plan, start, 5);
      if !ok {
        return Failed(CommandFailed(cmd));
      }
      cmd := MountCmd("tmpfs", "tmpfs", target + "/tmp");
      ok := Exec(cmd, plan, start, 6);
      if !ok {
        return Failed(CommandFailed(cmd));
      }
      ResumeEnd(plan, start, log, world);
      return Done;
    }

    /** `mountVolume`: stop if the volume directory does not exist, else
        create `<target>/volume` and bind-mount the volume onto it. */
    method MountVolume(volumeDir: string, target: string) returns (outcome: Outcome)
      modifies this`log
      ensures log == old(log) + VolumeSpec(volumeDir, target, old(log), world).issued
      ensures outcome == VolumeSpec(volumeDir, target, old(log), world).outcome
    {
      if world.stat(log, volumeDir) == Missing {
        return Failed(VolumeMissing(volumeDir));
      }
      ghost var plan, start := VolumePlan(volumeDir, target), log;
      ResumeStart(plan, log, world);
      var targetVolumeDir := target + "/volume";
      var cmd := MkdirCmd(targetVolumeDir);
      var ok := Exec(cmd, plan, start, 0);
      if !ok {
        return Failed(CommandFailed(cmd));
      }
      cmd := BindCmd(volumeDir, targetVolumeDir);
      ok := Exec(cmd, plan, start, 1);
      if !ok {
        return Failed(CommandFailed(cmd));
      }
      ResumeEnd(plan, start, log, world);
      return Done;
    }

    /** `chroot`: `cd <target>`, `pivot_root . .`, `umount -l .`. */
    method Chroot(target: string) returns (outcome: Outcome)
      modifies this`log
      ensures log == old(log) + ChrootSpec(target, old(log), world).issued
      ensures outcome == ChrootSpec(target, old(log), world).outcome
    {
      ghost var plan, start := ChrootPlan(target), log;
      ResumeStart(plan, log, world);
      var cmd := ChdirCmd(target);
      var ok := Exec(cmd, plan, start, 0);
      if !ok {
        return Failed(CommandFailed(cmd));
      }
      ok := Exec(PivotRootCmd, plan, start, 1);
      if !ok {
        return Failed(CommandFailed(PivotRootCmd));
      }
      ok := Exec(LazyUnmountCmd, plan, start, 2);
      if !ok {
        return Failed(CommandFailed(LazyUnmountCmd));
      }
      ResumeEnd(plan, start, log, world);
      return Done;
    }

    /** `childProcess`: the stages in order, returning at the first error,
        then the shell. */
    method ChildProcess(configPath: string, manifestPath: string, baseDir: string, volumeDir: string)
      returns (result: ChildResult)
      modifies this`log, this`env
      ensures var r := ChildSpec(configPath, manifestPath, baseDir, volumeDir, old(log), old(env), world);
        log == old(log) + r.issued && env == r.env && result == r.result
    {
      ghost var hist := log;
      var outcome := MountRecPrivate();
      if !outcome.Done? {
        return Aborted(Stage.RecPrivate, outcome.failure);
      }
      var err := SetEnv(configPath);
      if err.Some? {
        return Aborted(Stage.SetEnv, err.value);
      }
      ghost var h := log;
      AppendAssoc(hist, RecPrivateSpec(hist, world).issued,
                  RootFsSpec(manifestPath, baseDir, volumeDir, h, world).issued);
      var targetDir := baseDir + "/merged";
      outcome := SetLayers(manifestPath, baseDir, targetDir);
      ghost var log3 := LayersSpec(manifestPath, baseDir, targetDir, h, world).issued;
      if outcome.Panic? {
        return Panicked;
      }
      if outcome.Failed? {
        return Aborted(Stage.SetLayers, outcome.failure);
      }
      outcome := MountBaseFs(targetDir);
      ghost var s4 := BaseFsSpec(targetDir, h + log3, world);
      ghost var log4 := log3 + s4.issued;
      AppendAssoc(h, log3, s4.issued);
      if !outcome.Done? {
        return Aborted(Stage.MountBaseFs, outcome.failure);
      }
      outcome := MountVolume(volumeDir, targetDir);
      ghost var s5 := VolumeSpec(volumeDir, targetDir, h + log4, world);
      ghost var log5 := log4 + s5.issued;
      AppendAssoc(h, log4, s5.issued);
      if !outcome.Done? {
        return Aborted(Stage.MountVolume, outcome.failure);
      }
      outcome := Chroot(targetDir);
      ghost var s6 := ChrootSpec(targetDir, h + log5, world);
      ghost var log6 := log5 + s6.issued;
      AppendAssoc(h, log5, s6.issued);
      if !outcome.Done? {
        return Aborted(Stage.Chroot, outcome.failure);
      }
      AppendAssoc(h, log6, [ShellCmd]);
      var ok := Issue(ShellCmd);
      return ShellExited(ok);
    }

    /** `runInNamespace`: re-execute the program as the child, in new
        namespaces, and wait for it. */
    method RunInNamespace(configPath: string, manifestPath: string, baseDir: string, volumeDir: string)
      returns (ok: bool)
      modifies this`log
      ensures log == old(log) + [LaunchArgv(configPath, manifestPath, baseDir, volumeDir)]
      ensures ok == world.succeeds(old(log), LaunchArgv(configPath, manifestPath, baseDir, volumeDir))
    {
      ok := Issue(LaunchArgv(configPath, manifestPath, baseDir, volumeDir));
    }

    /** `main`, given `os.Args`; returns the exit status. */
    method Program(args: seq<string>) returns (status: int)
      modifies this`log, this`env
      ensures var p := ProgramSpec(args, old(log), old(env), world);
        log == old(log) + p.issued && env == p.env && status == p.status
    {
      match Dispatch(args)
      case UsageError =>
        return 1;
      case Child(configPath, manifestPath, baseDir, volumeDir) =>
        var result := ChildProcess(configPath, manifestPath, baseDir, volumeDir);
        return if result.Panicked? then 2 else 0;
      case Parent =>
        var ok := Issue(MkdirCmd(VolumeDir));
        if !ok {
          return 0;
        }
        ok := RunInNamespace(ConfigPath, ManifestPath, BaseDir, VolumeDir);
        return 0;
    }
  }
}
