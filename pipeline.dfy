/** What each stage of the child's setup issues and returns, and the
    child orchestration composed from them: a fail-fast sequence of
    stages that ends by starting the shell. */
module Pipeline {
  import opened Descriptors
  import opened Effects
  import opened Environment
  import opened Overlay
  import opened Mounts
  import opened Launch

  /** `mountRecPrivate`. */
  function RecPrivateSpec(hist: seq<Command>, w: World): Step
  {
    FromTrace(Run([RecPrivateCmd], hist, w))
  }

  /** `mountOverlayFS`: one overlay mount with the derived options. */
  function OverlaySpec(lowerDirs: seq<string>, upperDir: string, workDir: string, target: string,
                       hist: seq<Command>, w: World): Step
  {
    FromTrace(Run([OverlayCmd(OverlayOptions(lowerDirs, upperDir, workDir), target)], hist, w))
  }

  function UpperDir(base: string): string { base + "/upper" }
  function WorkDir(base: string): string { base + "/work" }
  function MergedDir(base: string): string { base + "/merged" }

  /** The directories `setLayers` asks `prepareDirs` to create. */
  function LayerDirs(base: string, target: string): seq<string>
  {
    [UpperDir(base), WorkDir(base), target]
  }

  /** `setLayers`: load the manifest; run `prepareDirs` and ignore its
      result; derive the lower directories (panicking on a digest with no
      `:`); mount the overlay. */
  function LayersSpec(manifestPath: string, base: string, target: string, hist: seq<Command>, w: World): Step
  {
    match w.loadManifest(manifestPath)
    case None => Step([], Failed(LoadFailed(manifestPath)))
    case Some(layers) =>
      var prep := Run(PreparePlan(base, LayerDirs(base, target)), hist, w);
      if !WellFormed(layers) then Step(prep.issued, Panic)
      else
        var o := OverlaySpec(LowerDirs(layers), UpperDir(base), WorkDir(base), target, hist + prep.issued, w);
        Step(prep.issued + o.issued, o.outcome)
  }

  /** `mountBaseFs`. */
  function BaseFsSpec(target: string, hist: seq<Command>, w: World): Step
  {
    FromTrace(Run(BaseFsPlan(target), hist, w))
  }

  /** `mountVolume`: only a volume directory that `os.Stat` reports as
      missing stops it before any command. */
  function VolumeSpec(volume: string, target: string, hist: seq<Command>, w: World): Step
  {
    if w.stat(hist, volume) == Missing then Step([], Failed(VolumeMissing(volume)))
    else FromTrace(Run(VolumePlan(volume, target), hist, w))
  }

  /** `chroot`. */
  function ChrootSpec(target: string, hist: seq<Command>, w: World): Step
  {
    FromTrace(Run(ChrootPlan(target), hist, w))
  }

  /** `mountVolume` issues nothing exactly when `os.Stat` reports the
      volume directory missing; otherwise the bind mount is attempted only
      after `mkdir -p <target>/volume` succeeded, and the stage returns nil
      exactly when both commands succeed. */
  lemma VolumeBindAfterMkdir(volume: string, target: string, hist: seq<Command>, w: World)
    ensures var s := VolumeSpec(volume, target, hist, w);
      var mk, bind := MkdirCmd(target + "/volume"), BindCmd(volume, target + "/volume");
      (s.issued == [] <==> w.stat(hist, volume) == Missing) &&
      (w.stat(hist, volume) == Missing ==> s == Step([], Failed(VolumeMissing(volume)))) &&
      (|s.issued| == 2 ==> s.issued[1] == bind && w.succeeds(hist, mk)) &&
      (s.outcome.Done? <==>
        w.stat(hist, volume) != Missing && w.succeeds(hist, mk) && w.succeeds(hist + [mk], bind))
  {
    var plan := VolumePlan(volume, target);
    if w.stat(hist, volume) != Missing {
      RunCompletes(plan, hist, w);
      assert hist + plan[..0] == hist && plan[..1] == [plan[0]];
      if |Run(plan, hist, w).issued| == 2 {
        IssuedBeforeAnotherSucceeded(plan, hist, w, 0);
      }
    }
  }

  datatype Stage = RecPrivate | SetEnv | SetLayers | MountBaseFs | MountVolume | Chroot

  /** How the child ends: a stage returned an error (logged, then the
      child returns), a stage panicked, or the shell ran and exited
      (successfully or not). */
  datatype ChildResult = Aborted(stage: Stage, failure: Failure) | Panicked | ShellExited(ok: bool)

  datatype ChildRun = ChildRun(issued: seq<Command>, env: map<string, string>, result: ChildResult)

  /** The commands issued from `setLayers` on, and how the child ends. */
  datatype RootFsRun = RootFsRun(issued: seq<Command>, result: ChildResult)

  /** `childProcess` once the environment is set: build the root
      filesystem stage by stage, each stage started only when the one
      before it returned nil, then start the shell in it. */
  function RootFsSpec(manifestPath: string, baseDir: string, volumeDir: string,
                      hist: seq<Command>, w: World): RootFsRun
  {
    var target := MergedDir(baseDir);
    var s3 := LayersSpec(manifestPath, baseDir, target, hist, w);
    if s3.outcome.Panic? then RootFsRun(s3.issued, Panicked)
    else if s3.outcome.Failed? then RootFsRun(s3.issued, Aborted(SetLayers, s3.outcome.failure))
    else BaseFsOn(volumeDir, target, hist, s3.issued, w)
  }

  /** The stages from `mountBaseFs` on, after `log` was issued since `hist`. */
  function BaseFsOn(volumeDir: string, target: string, hist: seq<Command>, log: seq<Command>, w: World): RootFsRun
  {
    var s4 := BaseFsSpec(target, hist + log, w);
    var log4 := log + s4.issued;
    if !s4.outcome.Done? then RootFsRun(log4, Aborted(MountBaseFs, s4.outcome.failure))
    else VolumeOn(volumeDir, target, hist, log4, w)
  }

  /** The stages from `mountVolume` on, after `log` was issued since `hist`. */
  function VolumeOn(volumeDir: string, target: string, hist: seq<Command>, log: seq<Command>, w: World): RootFsRun
  {
    var s5 := VolumeSpec(volumeDir, target, hist + log, w);
    var log5 := log + s5.issued;
    if !s5.outcome.Done? then RootFsRun(log5, Aborted(MountVolume, s5.outcome.failure))
    else ChrootOn(target, hist, log5, w)
  }

  /** `chroot` and then the shell, after `log` was issued since `hist`. */
  function ChrootOn(target: string, hist: seq<Command>, log: seq<Command>, w: World): RootFsRun
  {
    var s6 := ChrootSpec(target, hist + log, w);
    var log6 := log + s6.issued;
    if !s6.outcome.Done? then RootFsRun(log6, Aborted(Chroot, s6.outcome.failure))
    else RootFsRun(log6 + [ShellCmd], ShellExited(w.succeeds(hist + log6, ShellCmd)))
  }

  /** `childProcess`: make every mount private, apply the environment,
      then build the root filesystem and start the shell; the first stage
      that returns an error ends the child. */
  function ChildSpec(configPath: string, manifestPath: string, baseDir: string, volumeDir: string,
                     hist: seq<Command>, env: map<string, string>, w: World): ChildRun
  {
    var s1 := RecPrivateSpec(hist, w);
    if !s1.outcome.Done? then ChildRun(s1.issued, env, Aborted(RecPrivate, s1.outcome.failure))
    else
      var e := SetEnvSpec(w.loadConfig(configPath), configPath, env);
      if e.err.Some? then ChildRun(s1.issued, e.env, Aborted(SetEnv, e.err.value))
      else
        var m := RootFsSpec(manifestPath, baseDir, volumeDir, hist + s1.issued, w);
        ChildRun(s1.issued + m.issued, e.env, m.result)
  }

  /** The trace `prepareDirs` leaves in the child, after `mount --make-rprivate /`. */
  function PrepareTrace(baseDir: string, hist: seq<Command>, w: World): Trace
  {
    Run(PreparePlan(baseDir, LayerDirs(baseDir, MergedDir(baseDir))), hist + [RecPrivateCmd], w)
  }

  /** The overlay mount of an image. */
  function ImageOverlayCmd(layers: seq<Layer>, baseDir: string): Command
    requires WellFormed(layers)
  {
    OverlayCmd(OverlayOptions(LowerDirs(layers), UpperDir(baseDir), WorkDir(baseDir)), MergedDir(baseDir))
  }

  /** Every command issued from `setLayers` on when every stage succeeds,
      in order, after the commands `prepareDirs` issued. */
  function RootFsPath(layers: seq<Layer>, baseDir: string, volumeDir: string, prep: seq<Command>): seq<Command>
    requires WellFormed(layers)
  {
    var target := MergedDir(baseDir);
    prep + [ImageOverlayCmd(layers, baseDir)] + BaseFsPlan(target)
      + VolumePlan(volumeDir, target) + ChrootPlan(target) + [ShellCmd]
  }

  /** Every command the child issues when every stage succeeds, in order. */
  function HappyPath(layers: seq<Layer>, baseDir: string, volumeDir: string, prep: seq<Command>): seq<Command>
    requires WellFormed(layers)
  {
    [RecPrivateCmd] + RootFsPath(layers, baseDir, volumeDir, prep)
  }

  /** `mount --make-rprivate /` is always the first command of the child;
      when it fails nothing else is issued and the environment is left
      alone; when the environment cannot be applied no mount besides it is
      issued, and the entries before the bad one stay applied. */
  lemma ChildStartsPrivate(configPath: string, manifestPath: string, baseDir: string, volumeDir: string,
                           hist: seq<Command>, env: map<string, string>, w: World)
    ensures var r := ChildSpec(configPath, manifestPath, baseDir, volumeDir, hist, env, w);
      |r.issued| >= 1 && r.issued[0] == RecPrivateCmd &&
      (!w.succeeds(hist, RecPrivateCmd) ==>
        r.issued == [RecPrivateCmd] && r.env == env && r.result == Aborted(RecPrivate, CommandFailed(RecPrivateCmd))) &&
      (r.result.Aborted? && r.result.stage == SetEnv ==>
        r.issued == [RecPrivateCmd] &&
        match w.loadConfig(configPath)
        case None => r.env == env && r.result.failure == LoadFailed(configPath)
        case Some(entries) =>
          var j := FirstBad(entries);
          j < |entries| && r.env == ApplyEnv(entries[..j], env).env &&
          r.result.failure == EntryError(entries[j]))
  {
    RecPrivateIssuesOne(hist, w);
    var e := SetEnvSpec(w.loadConfig(configPath), configPath, env);
    if w.succeeds(hist, RecPrivateCmd) && e.err.Some? {
      match w.loadConfig(configPath)
      case None =>
      case Some(entries) => ApplyEnvStopsAtFirstBad(entries, env);
    }
  }

  /** `mountRecPrivate` issues exactly its one command and returns nil
      exactly when that command succeeds. */
  lemma RecPrivateIssuesOne(hist: seq<Command>, w: World)
    ensures var s := RecPrivateSpec(hist, w);
      s.issued == [RecPrivateCmd] &&
      (s.outcome.Done? <==> w.succeeds(hist, RecPrivateCmd)) &&
      (!s.outcome.Done? ==> s.outcome == Failed(CommandFailed(RecPrivateCmd)))
  {
    assert [RecPrivateCmd][1..] == [];
  }

  /** The commands of the happy path other than the shell have at least two words. */
  lemma HappyPathNoShellBeforeEnd(layers: seq<Layer>, baseDir: string, volumeDir: string, prep: seq<Command>)
    requires WellFormed(layers) && prep <= PreparePlan(baseDir, LayerDirs(baseDir, MergedDir(baseDir)))
    ensures var p := HappyPath(layers, baseDir, volumeDir, prep);
      p[|p| - 1] == ShellCmd && forall i :: 0 <= i < |p| - 1 ==> |p[i]| >= 2
  {
    var plan := PreparePlan(baseDir, LayerDirs(baseDir, MergedDir(baseDir)));
    forall i | 0 <= i < |prep| ensures |prep[i]| >= 2 {
      assert prep[i] == plan[i];
    }
  }

  /** Appending to both sides keeps a prefix a prefix. */
  lemma PrefixExtend(pre: seq<Command>, x: seq<Command>, y: seq<Command>, z: seq<Command>)
    requires x <= y
    ensures pre + x <= pre + y + z
  {
    assert (pre + y + z)[..|pre + x|] == pre + x;
  }

  /** From `chroot` on, the log grows along the rest of the happy path,
      and reaches its end exactly when the shell ran. */
  lemma ChrootOnFollowsPath(target: string, hist: seq<Command>, log: seq<Command>, w: World)
    ensures var m := ChrootOn(target, hist, log, w);
      var q := log + ChrootPlan(target) + [ShellCmd];
      m.issued <= q && (m.result.ShellExited? <==> m.issued == q)
  {
    var s6 := ChrootSpec(target, hist + log, w);
    PrefixExtend(log, s6.issued, ChrootPlan(target), [ShellCmd]);
  }

  /** From `mountVolume` on, the log grows along the rest of the happy
      path, and reaches its end exactly when the shell ran. */
  lemma VolumeOnFollowsPath(volumeDir: string, target: string, hist: seq<Command>, log: seq<Command>, w: World)
    ensures var m := VolumeOn(volumeDir, target, hist, log, w);
      var q := log + VolumePlan(volumeDir, target) + ChrootPlan(target) + [ShellCmd];
      m.issued <= q && (m.result.ShellExited? <==> m.issued == q)
  {
    var s5 := VolumeSpec(volumeDir, target, hist + log, w);
    var log5 := log + s5.issued;
    var q := log + VolumePlan(volumeDir, target) + ChrootPlan(target) + [ShellCmd];
    if s5.outcome.Done? {
      ChrootOnFollowsPath(target, hist, log5, w);
    } else {
      PrefixExtend(log, s5.issued, VolumePlan(volumeDir, target), q[|log| + 2..]);
      assert q == log + VolumePlan(volumeDir, target) + q[|log| + 2..];
    }
  }

  /** From `mountBaseFs` on, the log grows along the rest of the happy
      path, and reaches its end exactly when the shell ran. */
  lemma BaseFsOnFollowsPath(volumeDir: string, target: string, hist: seq<Command>, log: seq<Command>, w: World)
    ensures var m := BaseFsOn(volumeDir, target, hist, log, w);
      var q := log + BaseFsPlan(target) + VolumePlan(volumeDir, target) + ChrootPlan(target) + [ShellCmd];
      m.issued <= q && (m.result.ShellExited? <==> m.issued == q)
  {
    var s4 := BaseFsSpec(target, hist + log, w);
    var log4 := log + s4.issued;
    var q := log + BaseFsPlan(target) + VolumePlan(volumeDir, target) + ChrootPlan(target) + [ShellCmd];
    var k := |log| + |BaseFsPlan(target)|;
    if s4.outcome.Done? {
      VolumeOnFollowsPath(volumeDir, target, hist, log4, w);
    } else {
      PrefixExtend(log, s4.issued, BaseFsPlan(target), q[k..]);
      assert q == log + BaseFsPlan(target) + q[k..];
    }
  }

  /** Fail-fast from `setLayers` on: the log is always a prefix of the
      happy path (with the `prepareDirs` trace actually produced), and it
      is the whole happy path exactly when the shell ran. */
  lemma RootFsFollowsPath(manifestPath: string, baseDir: string, volumeDir: string,
                          hist: seq<Command>, w: World, layers: seq<Layer>)
    requires w.loadManifest(manifestPath) == Some(layers) && WellFormed(layers)
    ensures var m := RootFsSpec(manifestPath, baseDir, volumeDir, hist, w);
      var prep := Run(PreparePlan(baseDir, LayerDirs(baseDir, MergedDir(baseDir))), hist, w).issued;
      var q := RootFsPath(layers, baseDir, volumeDir, prep);
      m.issued <= q && (m.result.ShellExited? <==> m.issued == q)
  {
    var target := MergedDir(baseDir);
    var prep := Run(PreparePlan(baseDir, LayerDirs(baseDir, target)), hist, w).issued;
    var q := RootFsPath(layers, baseDir, volumeDir, prep);
    var b := prep + [ImageOverlayCmd(layers, baseDir)];
    var s3 := LayersSpec(manifestPath, baseDir, target, hist, w);
    assert s3.issued == b;
    if s3.outcome.Done? {
      BaseFsOnFollowsPath(volumeDir, target, hist, b, w);
    } else {
      assert q == b + q[|b|..];
    }
  }

  /** Fail-fast orchestration: the child's log is always a prefix of the
      happy path (with the `prepareDirs` trace it actually produced), and
      it is the whole happy path exactly when the shell ran. */
  lemma ChildLogFollowsHappyPath(configPath: string, manifestPath: string, baseDir: string, volumeDir: string,
                                 hist: seq<Command>, env: map<string, string>, w: World, layers: seq<Layer>)
    requires w.loadManifest(manifestPath) == Some(layers) && WellFormed(layers)
    ensures var r := ChildSpec(configPath, manifestPath, baseDir, volumeDir, hist, env, w);
      var p := HappyPath(layers, baseDir, volumeDir, PrepareTrace(baseDir, hist, w).issued);
      r.issued <= p && (r.result.ShellExited? <==> r.issued == p)
  {
    var r := ChildSpec(configPath, manifestPath, baseDir, volumeDir, hist, env, w);
    var prep := PrepareTrace(baseDir, hist, w).issued;
    var q := RootFsPath(layers, baseDir, volumeDir, prep);
    var a := [RecPrivateCmd];
    RecPrivateIssuesOne(hist, w);
    if !w.succeeds(hist, RecPrivateCmd) || SetEnvSpec(w.loadConfig(configPath), configPath, env).err.Some? {
      assert r.issued == a && a <= a + q;
      return;
    }
    var m := RootFsSpec(manifestPath, baseDir, volumeDir, hist + a, w);
    RootFsFollowsPath(manifestPath, baseDir, volumeDir, hist + a, w, layers);
    assert r.issued == a + m.issued;
    assert (a + m.issued)[1..] == m.issued && (a + q)[1..] == q;
    PrefixExtend(a, m.issued, q, []);
    assert a + q + [] == a + q;
  }

  /** The shell is in the child's log exactly when the child ended by
      running it, whatever the descriptors hold. */
  lemma ShellInLogIffExited(configPath: string, manifestPath: string, baseDir: string, volumeDir: string,
                            hist: seq<Command>, env: map<string, string>, w: World)
    ensures var r := ChildSpec(configPath, manifestPath, baseDir, volumeDir, hist, env, w);
      ShellCmd in r.issued <==> r.result.ShellExited?
  {
    var r := ChildSpec(configPath, manifestPath, baseDir, volumeDir, hist, env, w);
    var prep := PrepareTrace(baseDir, hist, w).issued;
    var loaded := w.loadManifest(manifestPath);
    if loaded.Some? && WellFormed(loaded.value) {
      var p := HappyPath(loaded.value, baseDir, volumeDir, prep);
      ChildLogFollowsHappyPath(configPath, manifestPath, baseDir, volumeDir, hist, env, w, loaded.value);
      HappyPathNoShellBeforeEnd(loaded.value, baseDir, volumeDir, prep);
      if r.result.ShellExited? {
        assert r.issued[|p| - 1] == ShellCmd;
      }
    } else {
      NoShellWithoutLayers(configPath, manifestPath, baseDir, volumeDir, hist, env, w);
    }
  }

  /** A child whose manifest is missing or malformed never starts the
      shell: every command it issues has at least two words. */
  lemma NoShellWithoutLayers(configPath: string, manifestPath: string, baseDir: string, volumeDir: string,
                             hist: seq<Command>, env: map<string, string>, w: World)
    requires w.loadManifest(manifestPath).None? || !WellFormed(w.loadManifest(manifestPath).value)
    ensures var r := ChildSpec(configPath, manifestPath, baseDir, volumeDir, hist, env, w);
      !r.result.ShellExited? && forall i :: 0 <= i < |r.issued| ==> |r.issued[i]| >= 2
  {
    var r := ChildSpec(configPath, manifestPath, baseDir, volumeDir, hist, env, w);
    var prep := PrepareTrace(baseDir, hist, w).issued;
    RecPrivateIssuesOne(hist, w);
    var plan := PreparePlan(baseDir, LayerDirs(baseDir, MergedDir(baseDir)));
    assert r.issued <= [RecPrivateCmd] + prep;
    forall i | 0 <= i < |r.issued| ensures |r.issued[i]| >= 2 {
      if i > 0 {
        assert r.issued[i] == plan[i - 1];
      }
    }
  }

  /** Every stage of the child succeeds, read off the world alone: the
      rprivate mount succeeds, the `Env` list applies, the manifest loads
      and is well formed, the overlay mount succeeds after whatever
      `prepareDirs` issued, the base mounts all succeed, the volume is not
      missing and is made and bound, and the pivot completes; each after
      the commands issued before it. */
  ghost predicate AllStagesSucceed(configPath: string, manifestPath: string, baseDir: string, volumeDir: string,
                                   hist: seq<Command>, env: map<string, string>, w: World)
  {
    var target := MergedDir(baseDir);
    var h1 := hist + [RecPrivateCmd];
    var prep := PrepareTrace(baseDir, hist, w).issued;
    w.succeeds(hist, RecPrivateCmd) &&
    SetEnvSpec(w.loadConfig(configPath), configPath, env).err.None? &&
    w.loadManifest(manifestPath).Some? && WellFormed(w.loadManifest(manifestPath).value) &&
    var ov := ImageOverlayCmd(w.loadManifest(manifestPath).value, baseDir);
    var log4 := prep + [ov] + BaseFsPlan(target);
    w.succeeds(h1 + prep, ov) &&
    Run(BaseFsPlan(target), h1 + (prep + [ov]), w).completed &&
    w.stat(h1 + log4, volumeDir) != Missing &&
    Run(VolumePlan(volumeDir, target), h1 + log4, w).completed &&
    Run(ChrootPlan(target), h1 + (log4 + VolumePlan(volumeDir, target)), w).completed
  }

  /** From `mountBaseFs` on, the shell runs exactly when the base mounts,
      the volume and the pivot all succeed. */
  lemma BaseFsOnReachesShell(volumeDir: string, target: string, hist: seq<Command>, log: seq<Command>, w: World)
    ensures var log4 := log + BaseFsPlan(target);
      BaseFsOn(volumeDir, target, hist, log, w).result.ShellExited? <==>
      Run(BaseFsPlan(target), hist + log, w).completed &&
      w.stat(hist + log4, volumeDir) != Missing &&
      Run(VolumePlan(volumeDir, target), hist + log4, w).completed &&
      Run(ChrootPlan(target), hist + (log4 + VolumePlan(volumeDir, target)), w).completed
  {
  }

  /** From `setLayers` on, the shell runs exactly when the manifest loads
      and is well formed, the overlay mount succeeds after whatever
      `prepareDirs` issued, and every later stage succeeds. */
  lemma RootFsReachesShell(manifestPath: string, baseDir: string, volumeDir: string, hist: seq<Command>, w: World)
    ensures var target := MergedDir(baseDir);
      var prep := Run(PreparePlan(baseDir, LayerDirs(baseDir, target)), hist, w).issued;
      RootFsSpec(manifestPath, baseDir, volumeDir, hist, w).result.ShellExited? <==>
      w.loadManifest(manifestPath).Some? && WellFormed(w.loadManifest(manifestPath).value) &&
      var ov := ImageOverlayCmd(w.loadManifest(manifestPath).value, baseDir);
      w.succeeds(hist + prep, ov) &&
      BaseFsOn(volumeDir, target, hist, prep + [ov], w).result.ShellExited?
  {
    if w.loadManifest(manifestPath).Some? && WellFormed(w.loadManifest(manifestPath).value) {
      var ov := ImageOverlayCmd(w.loadManifest(manifestPath).value, baseDir);
      assert [ov][1..] == [];
    }
  }

  /** The shell is started only once every stage has succeeded: it is in
      the child's log exactly when every stage succeeded, whatever the
      descriptors hold. */
  lemma ChildShellOnlyAfterAllStages(configPath: string, manifestPath: string, baseDir: string, volumeDir: string,
                                     hist: seq<Command>, env: map<string, string>, w: World)
    ensures var r := ChildSpec(configPath, manifestPath, baseDir, volumeDir, hist, env, w);
      (ShellCmd in r.issued <==> AllStagesSucceed(configPath, manifestPath, baseDir, volumeDir, hist, env, w)) &&
      (ShellCmd in r.issued <==> r.result.ShellExited?)
  {
    ShellInLogIffExited(configPath, manifestPath, baseDir, volumeDir, hist, env, w);
    RecPrivateIssuesOne(hist, w);
    var h1 := hist + [RecPrivateCmd];
    RootFsReachesShell(manifestPath, baseDir, volumeDir, h1, w);
    if w.loadManifest(manifestPath).Some? && WellFormed(w.loadManifest(manifestPath).value) {
      var ov := ImageOverlayCmd(w.loadManifest(manifestPath).value, baseDir);
      var prep := PrepareTrace(baseDir, hist, w).issued;
      BaseFsOnReachesShell(volumeDir, MergedDir(baseDir), h1, prep + [ov], w);
    }
  }

  /** How the child ends, read as a stage outcome: a shell that exits
      unsuccessfully counts as the shell command failing. */
  function ResultOutcome(r: ChildResult): Outcome
  {
    match r
    case Aborted(_, f) => Failed(f)
    case Panicked => Panic
    case ShellExited(ok) => if ok then Done else Failed(CommandFailed(ShellCmd))
  }

  /** `setLayers` is fail-fast from the overlay mount on: only the commands
      of `prepareDirs` may fail and be followed by another. A manifest that
      cannot be loaded stops it before any command; a malformed digest
      panics right after `prepareDirs`; and it returns nil exactly when the
      overlay mount, issued right after `prepareDirs`' commands, succeeds. */
  lemma LayersFailFast(manifestPath: string, base: string, target: string, hist: seq<Command>, w: World)
    ensures var s := LayersSpec(manifestPath, base, target, hist, w);
      var prep := Run(PreparePlan(base, LayerDirs(base, target)), hist, w).issued;
      var loaded := w.loadManifest(manifestPath);
      FailFast(s, hist, |prep|, w) && (s.issued != [] ==> prep <= s.issued) &&
      (loaded.None? ==> s == Step([], Failed(LoadFailed(manifestPath)))) &&
      (loaded.Some? && !WellFormed(loaded.value) ==> s == Step(prep, Panic)) &&
      (loaded.Some? && WellFormed(loaded.value) ==>
        var ov := OverlayCmd(OverlayOptions(LowerDirs(loaded.value), UpperDir(base), WorkDir(base)), target);
        s.issued == prep + [ov] &&
        (s.outcome.Done? <==> w.succeeds(hist + prep, ov)) &&
        (!s.outcome.Done? ==> s.outcome == Failed(CommandFailed(ov))))
  {
    var prep := Run(PreparePlan(base, LayerDirs(base, target)), hist, w).issued;
    match w.loadManifest(manifestPath)
    case None =>
    case Some(layers) =>
      if WellFormed(layers) {
        var ov := OverlayCmd(OverlayOptions(LowerDirs(layers), UpperDir(base), WorkDir(base)), target);
        RunFailFast([ov], hist + prep, w);
        FailFastAfter(prep, FromTrace(Run([ov], hist + prep, w)), hist, |prep|, w);
        assert (hist + prep) + [ov][..0] == hist + prep;
      }
  }

  /** `mountVolume` is fail-fast. */
  lemma VolumeFailFast(volume: string, target: string, hist: seq<Command>, w: World)
    ensures FailFast(VolumeSpec(volume, target, hist, w), hist, 0, w)
  {
    if w.stat(hist, volume) != Missing {
      RunFailFast(VolumePlan(volume, target), hist, w);
    }
  }

  /** `chroot` and the shell are fail-fast after commands that all
      succeeded from position `lo` on. */
  lemma ChrootOnFailFast(target: string, hist: seq<Command>, log: seq<Command>, lo: nat, w: World)
    requires lo <= |log| && FailFast(Step(log, Done), hist, lo, w)
    ensures var m := ChrootOn(target, hist, log, w);
      FailFast(Step(m.issued, ResultOutcome(m.result)), hist, lo, w) && log <= m.issued &&
      (m.result.ShellExited? ==> |log| < |m.issued| && m.issued[|m.issued| - 1] == ShellCmd)
  {
    var s6 := ChrootSpec(target, hist + log, w);
    RunFailFast(ChrootPlan(target), hist + log, w);
    FailFastAfter(log, s6, hist, lo, w);
    if s6.outcome.Done? {
      var log6 := log + s6.issued;
      assert Step(log6, s6.outcome) == Step(log6, Done);
      ShellFailFast(hist, log6, lo, w);
    }
  }

  /** Starting the shell after commands that all succeeded from position
      `lo` on: the child ends with the shell, and its result is the
      shell's. */
  lemma ShellFailFast(hist: seq<Command>, log: seq<Command>, lo: nat, w: World)
    requires lo <= |log| && FailFast(Step(log, Done), hist, lo, w)
    ensures FailFast(Step(log + [ShellCmd], ResultOutcome(ShellExited(w.succeeds(hist + log, ShellCmd)))), hist, lo, w)
  {
    var ok := w.succeeds(hist + log, ShellCmd);
    var sh := Step([ShellCmd], ResultOutcome(ShellExited(ok)));
    assert hist + log + [ShellCmd][..0] == hist + log;
    FailFastAfter(log, sh, hist, lo, w);
  }

  /** From `mountVolume` on, the child is fail-fast after commands that
      all succeeded from position `lo` on. */
  lemma VolumeOnFailFast(volumeDir: string, target: string, hist: seq<Command>, log: seq<Command>, lo: nat, w: World)
    requires lo <= |log| && FailFast(Step(log, Done), hist, lo, w)
    ensures var m := VolumeOn(volumeDir, target, hist, log, w);
      FailFast(Step(m.issued, ResultOutcome(m.result)), hist, lo, w) && log <= m.issued &&
      (m.result.ShellExited? ==> |log| < |m.issued| && m.issued[|m.issued| - 1] == ShellCmd)
  {
    var s5 := VolumeSpec(volumeDir, target, hist + log, w);
    VolumeFailFast(volumeDir, target, hist + log, w);
    FailFastAfter(log, s5, hist, lo, w);
    if s5.outcome.Done? {
      var log5 := log + s5.issued;
      assert Step(log5, s5.outcome) == Step(log5, Done);
      ChrootOnFailFast(target, hist, log5, lo, w);
    }
  }

  /** From `mountBaseFs` on, the child is fail-fast after commands that
      all succeeded from position `lo` on. */
  lemma BaseFsOnFailFast(volumeDir: string, target: string, hist: seq<Command>, log: seq<Command>, lo: nat, w: World)
    requires lo <= |log| && FailFast(Step(log, Done), hist, lo, w)
    ensures var m := BaseFsOn(volumeDir, target, hist, log, w);
      FailFast(Step(m.issued, ResultOutcome(m.result)), hist, lo, w) && log <= m.issued &&
      (m.result.ShellExited? ==> |log| < |m.issued| && m.issued[|m.issued| - 1] == ShellCmd)
  {
    var s4 := BaseFsSpec(target, hist + log, w);
    RunFailFast(BaseFsPlan(target), hist + log, w);
    FailFastAfter(log, s4, hist, lo, w);
    if s4.outcome.Done? {
      var log4 := log + s4.issued;
      assert Step(log4, s4.outcome) == Step(log4, Done);
      VolumeOnFailFast(volumeDir, target, hist, log4, lo, w);
    }
  }

  /** From `setLayers` on, the child is fail-fast once `prepareDirs` is
      done: every later command but the last succeeded, and the child ends
      with the error of the command it stopped at, or with the shell; the
      log starts with what `prepareDirs` issued. */
  lemma RootFsFailFast(manifestPath: string, baseDir: string, volumeDir: string, hist: seq<Command>, w: World)
    ensures var m := RootFsSpec(manifestPath, baseDir, volumeDir, hist, w);
      var prep := Run(PreparePlan(baseDir, LayerDirs(baseDir, MergedDir(baseDir))), hist, w).issued;
      FailFast(Step(m.issued, ResultOutcome(m.result)), hist, |prep|, w) &&
      (m.issued != [] ==> prep <= m.issued) &&
      (m.result.ShellExited? ==> |prep| < |m.issued| - 1 && m.issued[|m.issued| - 1] == ShellCmd)
  {
    var target := MergedDir(baseDir);
    var prep := Run(PreparePlan(baseDir, LayerDirs(baseDir, target)), hist, w).issued;
    var s3 := LayersSpec(manifestPath, baseDir, target, hist, w);
    LayersFailFast(manifestPath, baseDir, target, hist, w);
    if s3.outcome.Done? {
      assert s3 == Step(s3.issued, Done);
      BaseFsOnFailFast(volumeDir, target, hist, s3.issued, |prep|, w);
    }
  }

  /** Fail-fast orchestration: once a command fails no later stage runs
      (`ChildStopsAtSetLayers` covers the two failures of `setLayers` that
      are not a command's, and `ChildStopsAtMissingVolume` the missing
      volume). Every command the child issues before its last succeeded after the
      ones before it, except the last command of a `prepareDirs` run that
      stopped early (its result is discarded); a child that ends with a
      command's error stopped right after that command, which failed; and
      a child that ran the shell ended with it, reporting its result. */
  lemma ChildFailFast(configPath: string, manifestPath: string, baseDir: string, volumeDir: string,
                      hist: seq<Command>, env: map<string, string>, w: World)
    ensures var r := ChildSpec(configPath, manifestPath, baseDir, volumeDir, hist, env, w);
      var prep := PrepareTrace(baseDir, hist, w);
      var n := |r.issued|;
      n >= 1 &&
      (forall i :: 0 <= i < n - 1 && (i != |prep.issued| || prep.completed) ==>
        w.succeeds(hist + r.issued[..i], r.issued[i])) &&
      (r.result.Aborted? && r.result.failure.CommandFailed? ==>
        r.issued[n - 1] == r.result.failure.cmd && !w.succeeds(hist + r.issued[..n - 1], r.issued[n - 1])) &&
      (r.result.ShellExited? ==>
        r.issued[n - 1] == ShellCmd && (r.result.ok <==> w.succeeds(hist + r.issued[..n - 1], ShellCmd)))
  {
    if w.succeeds(hist, RecPrivateCmd) && SetEnvSpec(w.loadConfig(configPath), configPath, env).err.None? {
      ChildFailFastPastEnv(manifestPath, baseDir, volumeDir, hist, w);
      RecPrivateIssuesOne(hist, w);
      var m := RootFsSpec(manifestPath, baseDir, volumeDir, hist + [RecPrivateCmd], w);
      var r := ChildSpec(configPath, manifestPath, baseDir, volumeDir, hist, env, w);
      assert r.issued == [RecPrivateCmd] + m.issued && r.result == m.result;
    } else {
      ChildFailFastEarly(configPath, manifestPath, baseDir, volumeDir, hist, env, w);
      assert hist + [RecPrivateCmd][..0] == hist;
    }
  }

  /** A child that stops at the rprivate mount or at `setEnv` issued only
      the rprivate mount, and reports its error only when it failed. */
  lemma ChildFailFastEarly(configPath: string, manifestPath: string, baseDir: string, volumeDir: string,
                           hist: seq<Command>, env: map<string, string>, w: World)
    requires !w.succeeds(hist, RecPrivateCmd) || SetEnvSpec(w.loadConfig(configPath), configPath, env).err.Some?
    ensures var r := ChildSpec(configPath, manifestPath, baseDir, volumeDir, hist, env, w);
      r.issued == [RecPrivateCmd] && !r.result.ShellExited? &&
      (r.result.Aborted? && r.result.failure.CommandFailed? ==>
        r.result.failure.cmd == RecPrivateCmd && !w.succeeds(hist, RecPrivateCmd))
  {
    RecPrivateIssuesOne(hist, w);
    if w.succeeds(hist, RecPrivateCmd) && w.loadConfig(configPath).Some? {
      ApplyEnvStopsAtFirstBad(w.loadConfig(configPath).value, env);
    }
  }

  /** A child past `setEnv` whose `setLayers` cannot go on ends there: a
      manifest that cannot be loaded ends it after the rprivate mount
      alone, before `prepareDirs`, with the load error; a digest with no
      `:` panics right after `prepareDirs`' commands. No later stage runs
      in either case. */
  lemma ChildStopsAtSetLayers(configPath: string, manifestPath: string, baseDir: string, volumeDir: string,
                              hist: seq<Command>, env: map<string, string>, w: World)
    requires w.succeeds(hist, RecPrivateCmd)
    requires SetEnvSpec(w.loadConfig(configPath), configPath, env).err.None?
    ensures var r := ChildSpec(configPath, manifestPath, baseDir, volumeDir, hist, env, w);
      var loaded := w.loadManifest(manifestPath);
      (loaded.None? ==>
        r.issued == [RecPrivateCmd] && r.result == Aborted(SetLayers, LoadFailed(manifestPath))) &&
      (loaded.Some? && !WellFormed(loaded.value) ==>
        r.issued == [RecPrivateCmd] + PrepareTrace(baseDir, hist, w).issued && r.result == Panicked)
  {
    RecPrivateIssuesOne(hist, w);
    LayersFailFast(manifestPath, baseDir, MergedDir(baseDir), hist + [RecPrivateCmd], w);
  }

  /** A child whose stages up to `mountBaseFs` succeeded and whose volume
      directory `os.Stat` reports missing ends at `mountVolume` with that
      error, having issued nothing after the base mounts: no mkdir, bind,
      pivot or shell. */
  lemma ChildStopsAtMissingVolume(configPath: string, manifestPath: string, baseDir: string, volumeDir: string,
                                  hist: seq<Command>, env: map<string, string>, w: World, layers: seq<Layer>)
    requires w.succeeds(hist, RecPrivateCmd)
    requires SetEnvSpec(w.loadConfig(configPath), configPath, env).err.None?
    requires w.loadManifest(manifestPath) == Some(layers) && WellFormed(layers)
    requires var h1, prep := hist + [RecPrivateCmd], PrepareTrace(baseDir, hist, w).issued;
      var ov, t := ImageOverlayCmd(layers, baseDir), MergedDir(baseDir);
      w.succeeds(h1 + prep, ov) && Run(BaseFsPlan(t), h1 + (prep + [ov]), w).completed &&
      w.stat(h1 + (prep + [ov] + BaseFsPlan(t)), volumeDir) == Missing
    ensures var r := ChildSpec(configPath, manifestPath, baseDir, volumeDir, hist, env, w);
      var prep := PrepareTrace(baseDir, hist, w).issued;
      var ov, t := ImageOverlayCmd(layers, baseDir), MergedDir(baseDir);
      r.issued == [RecPrivateCmd] + (prep + [ov] + BaseFsPlan(t)) &&
      r.result == Aborted(MountVolume, VolumeMissing(volumeDir))
  {
    var h1, t := hist + [RecPrivateCmd], MergedDir(baseDir);
    RecPrivateIssuesOne(hist, w);
    LayersFailFast(manifestPath, baseDir, t, h1, w);
    var log3 := LayersSpec(manifestPath, baseDir, t, h1, w).issued;
    var log4 := log3 + BaseFsSpec(t, h1 + log3, w).issued;
    assert log4 == log3 + BaseFsPlan(t);
    VolumeBindAfterMkdir(volumeDir, t, h1 + log4, w);
  }

  /** A child past `setEnv`: its log is the rprivate mount followed by the
      log from `setLayers` on, which is fail-fast once `prepareDirs` is
      done. */
  lemma ChildFailFastPastEnv(manifestPath: string, baseDir: string, volumeDir: string, hist: seq<Command>, w: World)
    requires w.succeeds(hist, RecPrivateCmd)
    ensures var m := RootFsSpec(manifestPath, baseDir, volumeDir, hist + [RecPrivateCmd], w);
      var log := [RecPrivateCmd] + m.issued;
      var prep := PrepareTrace(baseDir, hist, w);
      var n := |log|;
      n >= 1 &&
      (forall i :: 0 <= i < n - 1 && (i != |prep.issued| || prep.completed) ==>
        w.succeeds(hist + log[..i], log[i])) &&
      (m.result.Aborted? && m.result.failure.CommandFailed? ==>
        log[n - 1] == m.result.failure.cmd && !w.succeeds(hist + log[..n - 1], log[n - 1])) &&
      (m.result.ShellExited? ==>
        log[n - 1] == ShellCmd && (m.result.ok <==> w.succeeds(hist + log[..n - 1], ShellCmd)))
  {
    var h1 := hist + [RecPrivateCmd];
    var plan := PreparePlan(baseDir, LayerDirs(baseDir, MergedDir(baseDir)));
    var prep := Run(plan, h1, w);
    var m := RootFsSpec(manifestPath, baseDir, volumeDir, h1, w);
    RootFsFailFast(manifestPath, baseDir, volumeDir, h1, w);
    FailFastShift([RecPrivateCmd], Step(m.issued, ResultOutcome(m.result)), hist, |prep.issued|, w);
    ChildLogFailFast(plan, hist, [RecPrivateCmd] + m.issued, m.issued, m.result, prep, w);
  }

  /** The child's log after a successful rprivate mount and `setEnv`,
      read command by command, given that the part from `setLayers` on is
      fail-fast once `prepareDirs` is done. */
  lemma ChildLogFailFast(plan: seq<Command>, hist: seq<Command>, log: seq<Command>, tail: seq<Command>,
                         result: ChildResult, prep: Trace, w: World)
    requires log == [RecPrivateCmd] + tail && w.succeeds(hist, RecPrivateCmd)
    requires prep == Run(plan, hist + [RecPrivateCmd], w)
    requires FailFast(Step(log, ResultOutcome(result)), hist, 1 + |prep.issued|, w)
    requires tail != [] ==> prep.issued <= tail
    requires result.ShellExited? ==> |prep.issued| < |tail| - 1 && tail[|tail| - 1] == ShellCmd
    ensures var n := |log|;
      n >= 1 &&
      (forall i :: 0 <= i < n - 1 && (i != |prep.issued| || prep.completed) ==>
        w.succeeds(hist + log[..i], log[i])) &&
      (result.Aborted? && result.failure.CommandFailed? ==>
        log[n - 1] == result.failure.cmd && !w.succeeds(hist + log[..n - 1], log[n - 1])) &&
      (result.ShellExited? ==>
        log[n - 1] == ShellCmd && (result.ok <==> w.succeeds(hist + log[..n - 1], ShellCmd)))
  {
    var n := |log|;
    forall i | 0 <= i < n - 1 && (i != |prep.issued| || prep.completed)
      ensures w.succeeds(hist + log[..i], log[i])
    {
      if i == 0 {
        assert hist + log[..0] == hist;
      } else if i <= |prep.issued| {
        PrepareInChildLog(plan, hist, tail, i - 1, w);
      }
    }
  }

  /** A command of `prepareDirs` other than the last of a run that stopped
      early succeeded, read off the child's log. */
  lemma PrepareInChildLog(plan: seq<Command>, hist: seq<Command>, tail: seq<Command>, j: nat, w: World)
    requires var prep := Run(plan, hist + [RecPrivateCmd], w);
      prep.issued <= tail && j < |prep.issued| && (j < |prep.issued| - 1 || prep.completed)
    ensures var log := [RecPrivateCmd] + tail;
      w.succeeds(hist + log[..j + 1], log[j + 1])
  {
    var h1 := hist + [RecPrivateCmd];
    var log := [RecPrivateCmd] + tail;
    assert log[..j + 1] == [RecPrivateCmd] + plan[..j] && log[j + 1] == plan[j];
    AppendAssoc(hist, [RecPrivateCmd], plan[..j]);
    RunSucceededBefore(plan, h1, w, j);
  }

  /** `prepareDirs`' result is discarded: once the environment is set and
      the manifest is well formed, the overlay mount is issued right after
      whatever `prepareDirs` issued, failed or not, with the option string
      `lowerdir=<reversed layer paths joined by ':'>,upperdir=<base>/upper,
      workdir=<base>/work` onto `<base>/merged`; it is the only overlay
      mount the child ever issues. */
  lemma ChildOverlayMountedOnce(configPath: string, manifestPath: string, baseDir: string, volumeDir: string,
                                hist: seq<Command>, env: map<string, string>, w: World, layers: seq<Layer>)
    requires w.loadManifest(manifestPath) == Some(layers) && WellFormed(layers)
    requires w.succeeds(hist, RecPrivateCmd)
    requires SetEnvSpec(w.loadConfig(configPath), configPath, env).err.None?
    ensures var r := ChildSpec(configPath, manifestPath, baseDir, volumeDir, hist, env, w);
      var k := 1 + |PrepareTrace(baseDir, hist, w).issued|;
      k < |r.issued| && r.issued[k] == ImageOverlayCmd(layers, baseDir) &&
      forall i :: 0 <= i < |r.issued| && i != k ==> !IsOverlayMount(r.issued[i])
  {
    var r := ChildSpec(configPath, manifestPath, baseDir, volumeDir, hist, env, w);
    var prep := PrepareTrace(baseDir, hist, w).issued;
    var p := HappyPath(layers, baseDir, volumeDir, prep);
    ChildLogFollowsHappyPath(configPath, manifestPath, baseDir, volumeDir, hist, env, w, layers);
    ChildPassesLayers(configPath, manifestPath, baseDir, volumeDir, hist, env, w, layers);
    HappyPathOverlayOnce(layers, baseDir, volumeDir, prep);
    assert forall i :: 0 <= i < |r.issued| ==> r.issued[i] == p[i];
  }

  /** Once the environment is set, a child with a well-formed manifest
      issues at least everything up to the overlay mount. */
  lemma ChildPassesLayers(configPath: string, manifestPath: string, baseDir: string, volumeDir: string,
                          hist: seq<Command>, env: map<string, string>, w: World, layers: seq<Layer>)
    requires w.loadManifest(manifestPath) == Some(layers) && WellFormed(layers)
    requires w.succeeds(hist, RecPrivateCmd)
    requires SetEnvSpec(w.loadConfig(configPath), configPath, env).err.None?
    ensures |ChildSpec(configPath, manifestPath, baseDir, volumeDir, hist, env, w).issued|
      > 1 + |PrepareTrace(baseDir, hist, w).issued|
  {
    var target := MergedDir(baseDir);
    var s3 := LayersSpec(manifestPath, baseDir, target, hist + [RecPrivateCmd], w);
    assert |s3.issued| == |PrepareTrace(baseDir, hist, w).issued| + 1;
  }

  /** The happy path holds one overlay mount, right after `prepareDirs`' commands. */
  lemma HappyPathOverlayOnce(layers: seq<Layer>, baseDir: string, volumeDir: string, prep: seq<Command>)
    requires WellFormed(layers) && prep <= PreparePlan(baseDir, LayerDirs(baseDir, MergedDir(baseDir)))
    ensures var p := HappyPath(layers, baseDir, volumeDir, prep);
      var k := 1 + |prep|;
      k < |p| && p[k] == ImageOverlayCmd(layers, baseDir) &&
      forall i :: 0 <= i < |p| && i != k ==> !IsOverlayMount(p[i])
  {
    var plan := PreparePlan(baseDir, LayerDirs(baseDir, MergedDir(baseDir)));
    var p := HappyPath(layers, baseDir, volumeDir, prep);
    forall i | 0 <= i < |prep| ensures !IsOverlayMount(prep[i]) {
      assert prep[i] == plan[i];
    }
  }

  /** What the whole program does with its arguments: the commands issued
      in this process, its environment, and its exit status. */
  datatype ProgramRun = ProgramRun(issued: seq<Command>, env: map<string, string>, status: int)

  /** `main`: a usage error exits with status 1; the child path runs the
      orchestration (a panic exits with the Go runtime's status 2, every
      reported error with 0); the parent path creates the volume
      directory and re-executes itself in new namespaces. */
  function ProgramSpec(args: seq<string>, hist: seq<Command>, env: map<string, string>, w: World): ProgramRun
  {
    match Dispatch(args)
    case UsageError => ProgramRun([], env, 1)
    case Child(c, m, b, v) =>
      var r := ChildSpec(c, m, b, v, hist, env, w);
      ProgramRun(r.issued, r.env, if r.result.Panicked? then 2 else 0)
    case Parent =>
      var mk := Run([MkdirCmd(VolumeDir)], hist, w);
      if !mk.completed then ProgramRun(mk.issued, env, 0)
      else ProgramRun(mk.issued + [LaunchArgv(ConfigPath, ManifestPath, BaseDir, VolumeDir)], env, 0)
  }

  /** The exit status is non-zero only for the usage error, which issues
      nothing, and for a panic in the child; every other failure is only
      reported and the program exits 0. */
  lemma ProgramExitStatus(args: seq<string>, hist: seq<Command>, env: map<string, string>, w: World)
    ensures var p := ProgramSpec(args, hist, env, w);
      (p.status == 1 <==> Dispatch(args).UsageError?) &&
      (p.status == 1 ==> p.issued == [] && p.env == env) &&
      (p.status == 2 <==>
        (Dispatch(args).Child? &&
         var m := Dispatch(args);
         ChildSpec(m.configPath, m.manifestPath, m.baseDir, m.volumeDir, hist, env, w).result.Panicked?)) &&
      (p.status == 0 || p.status == 1 || p.status == 2)
  {
  }

  /** The parent's launch reaches the child path: the program run on the
      argument vector the parent launches behaves as the child
      orchestration on the four fixed paths. */
  lemma ParentLaunchesChild(hist: seq<Command>, env: map<string, string>, w: World)
    ensures var p := ProgramSpec(LaunchArgv(ConfigPath, ManifestPath, BaseDir, VolumeDir), hist, env, w);
      var r := ChildSpec(ConfigPath, ManifestPath, BaseDir, VolumeDir, hist, env, w);
      p.issued == r.issued && p.env == r.env
  {
    LaunchArgvDispatchesToChild(ConfigPath, ManifestPath, BaseDir, VolumeDir);
  }
}
