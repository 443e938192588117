# runInNamespace — a verified model of the container setup

`runInNamespace` starts an interactive shell inside an isolated container
assembled from an already-pulled image. The parent process creates the
volume directory. It then re-executes itself as `/proc/self/exe child
<config> <manifest> <base> <volume>` inside new UTS, IPC, network, mount and
PID namespaces. The child then runs these stages in order:

1. make every mount private (`mount --make-rprivate /`);
2. apply the image's `Env` list to its environment;
3. prepare the overlay directories;
4. mount the image's layers as an overlay filesystem on `<base>/merged`;
5. mount `proc`, `sys`, `dev`, `dev/pts`, `dev/shm`, `run` and `tmp`;
6. bind-mount the volume;
7. pivot into the new root;
8. run `/bin/sh`.

Each stage stops at its first error. The child stops after every stage
that returns an error, with one exception: `setLayers` discards the
result of its directory preparation (step 3), so step 4 runs even when a
directory could not be made.

This project models that decision logic in Dafny:
- which commands are issued, in which order, with which arguments;
- what happens when one fails;
- how the environment is changed;
- how the overlay's lower directories and option string are derived from
  the manifest's layers;
- how `main` dispatches on its arguments, and the exit status it ends with.

## Structure

- `strings.dfy`, module `GoStrings`: the Go string helpers the program uses
  with a one-character separator: `strings.Split`, `strings.SplitN(_, _, 2)`
  and `strings.Join`. Round-trip lemmas relate them.
- `effects.dfy`:
  - Module `Descriptors` holds the layer record.
  - Module `Effects` holds the abstraction of the outside world. An issued
    command is its argument vector. A `World` decides three things: whether
    a command succeeds given everything issued before it; what `os.Stat`
    reports; and what the two JSON loaders return.
  - `Run` is the one definition of "issue these commands in order, stop
    right after the first failure". Its lemmas characterise it command by
    command.
  - `Resumes` and its lemmas let a straight-line method be proved
    against `Run` one command at a time.
  - `FailFast` reads a stage's log command by command: every command
    before the last succeeded, and a stage that returned a command's error
    stopped right after that command, which failed. `FailFastAfter` and
    `FailFastShift` compose stages.
- `environment.dfy`, module `Environment`: `setEnv`'s loop as a function
  on a map, with its fail-fast, no-rollback and last-wins properties.
- `overlay.dfy`, module `Overlay`: the layer cache paths, the reversed
  lower-directory list, the overlay option string, and the descending loop
  of `setLayers` as a method proved against the list.
- `mounts.dfy`:
  - Module `Mounts` holds the exact commands and the fixed command
    sequences of `prepareDirs`, `mountBaseFs`, `mountVolume` and `chroot`.
  - Module `Launch` holds the command-line contract: the four fixed paths,
    the `child` sentinel, `main`'s dispatch, and the argument vector the
    parent launches.
- `pipeline.dfy`, module `Pipeline`:
  - One specification function per stage.
  - The child orchestration `ChildSpec`: `mountRecPrivate`, then `setEnv`,
    then `RootFsSpec` for everything from `setLayers` to the shell.
    `RootFsSpec` hands over to `BaseFsOn`, `VolumeOn` and `ChrootOn`, one
    per remaining stage, each started only when the one before it
    returned nil.
  - The whole program, `ProgramSpec`.
  - Lemmas about all of these.
- `container.dfy`, module `Container`: class `Process` holds the command
  log and the environment map. It has a method for each of `main`,
  `runInNamespace`, `childProcess`, `mountRecPrivate`, `setEnv`,
  `prepareDirs`, `setLayers`, `mountOverlayFS`, `mountBaseFs`,
  `mountVolume` and `chroot`. Each method is written as the Go code is
  (loops, early returns) and proved to produce exactly what its
  specification function says. Three functions of the program have no
  method of their own:
  - `mountTmpfs` is the second command of `PrepareDirs`, issued inline.
  - `loadConfig` and `loadManifest` are the `World`'s loaders.

### Modelling decisions

- **Commands.** `os.MkdirAll`, `os.Chdir` and `syscall.PivotRoot` are
  recorded in the same log as the external commands. Their forms are
  `["mkdir", "-p", d]`, `["cd", d]` and `["pivot_root", ".", "."]`.
  The shell is `["/bin/sh"]`. The launch is the argument vector
  `LaunchArgv`.
- **Go's `os.Setenv` on Unix.** It rejects an empty key, a key containing
  `=` or NUL, and a value containing NUL. The model states this rule
  (`SetenvAccepts`) rather than leaving it abstract.
- **Panics.** `strings.Split(digest, ":")[1]` panics on a digest without
  `:`. That is modelled as the stage outcome `Panic`. The Go runtime then
  ends the child with exit status 2.
- **Exit status.** A wrong argument count after `child` exits with status 1.
  Every error that is returned is only printed, and the program then exits
  with status 0.
- **`os.Stat` has three results.** Only "does not exist" stops
  `mountVolume`. Any other stat error lets it go on.
- **Two errors are not propagated.**
  - `setLayers` calls `prepareDirs` and ignores its result
    (runInNamespace/runInNamespace.go:140). The overlay mount is attempted even when a
    directory could not be made. `ChildFailFast` therefore exempts the
    last command of a `prepareDirs` run that stopped early.
  - `main` only prints the error of `os.MkdirAll` or `runInNamespace` and
    returns (runInNamespace/runInNamespace.go:339-350). The parent's exit status is 0
    whatever the child did.

## Model

| member | source | states |
|---|---|---|
| GoStrings.IndexOf | runInNamespace/runInNamespace.go:89 | the position of the first occurrence: it holds the character and no earlier position does |
| GoStrings.Split | runInNamespace/runInNamespace.go:146 | there is always at least one piece, and exactly one when the separator does not occur |
| GoStrings.SplitN2 | runInNamespace/runInNamespace.go:89 | two pieces exactly when the separator occurs; the first piece is free of it, and piece, separator and rest reassemble the input; otherwise the input alone |
| GoStrings.SplitPartsFree | runInNamespace/runInNamespace.go:146 | no piece of a split contains the separator |
| GoStrings.JoinSplit | runInNamespace/runInNamespace.go:160 | joining the pieces of a split gives back the string |
| GoStrings.SplitJoin | runInNamespace/runInNamespace.go:160 | splitting a join of separator-free pieces gives back the pieces |
| GoStrings.IndexAfterPrefix | runInNamespace/runInNamespace.go:146 | in `a + sep + b` with `a` free of the separator, the first separator is right after `a` |
| GoStrings.SplitN2IsSplitHead | runInNamespace/runInNamespace.go:89 | SplitN's first piece is Split's first field, and its second is the remaining fields joined back with their separators |
| Effects.Run | runInNamespace/runInNamespace.go:174-218 | a fail-fast run issues a prefix of its plan; the whole plan if it completed, at least one command if it stopped |
| Effects.StageStopsAt | runInNamespace/runInNamespace.go:174-218 | a fail-fast stage whose command k is the first to fail issues exactly the commands up to and including k and returns the error of command k |
| Effects.StageCompletes | runInNamespace/runInNamespace.go:174-218 | a fail-fast stage issues its whole plan and returns nil exactly when every command succeeds after the ones before it |
| Effects.RunSucceededBefore | runInNamespace/runInNamespace.go:174-218 | an issued command succeeded exactly when the run completed or it is not the last issued |
| Effects.RunCompletes | runInNamespace/runInNamespace.go:174-218 | a run completes exactly when every command succeeds after the ones before it |
| Effects.RunStopsAt | runInNamespace/runInNamespace.go:174-218 | a run whose command k is the first to fail issues exactly the commands up to and including k |
| Effects.ResumeStep | runInNamespace/runInNamespace.go:174-218 | a next command that succeeds continues the run |
| Effects.ResumeFail | runInNamespace/runInNamespace.go:174-218 | a next command that fails ends the run: the log holds exactly what it issued and the stage returns that command's error |
| Effects.ResumeEnd | runInNamespace/runInNamespace.go:174-218 | once every command is issued, the run completed and the log holds the whole plan |
| Effects.RunFailFast | runInNamespace/runInNamespace.go:174-218 | in every fail-fast run, each command before the last succeeded, and so did the last when the run completed; a run that stopped ends with the failing command, whose error it returns |
| Effects.FailFastAfter | runInNamespace/runInNamespace.go:276-311 | commands that all succeeded, followed by a fail-fast stage, make a fail-fast log |
| Effects.FailFastShift | runInNamespace/runInNamespace.go:276-311 | a fail-fast log stays fail-fast, at shifted positions, once earlier commands are put in front of it |
| Environment.Key | runInNamespace/runInNamespace.go:89-93 | the key of an entry contains no `=` |
| Environment.FirstBad | runInNamespace/runInNamespace.go:88-97 | every entry before the returned position can be applied and the one at it cannot |
| Environment.KeyValueSplit | runInNamespace/runInNamespace.go:89-93 | key, `=` and value reassemble the entry; the key is the first field and the value keeps every later `=` |
| Environment.ApplyEnvSucceeds | runInNamespace/runInNamespace.go:88-98 | the loop returns no error exactly when every entry can be applied |
| Environment.ApplyEnvStopsAtFirstBad | runInNamespace/runInNamespace.go:88-97 | the environment is that of the entries before the first bad one, and the error is that entry's (no `=`, or rejected by `os.Setenv`) |
| Environment.ApplyEnvIgnoresTail | runInNamespace/runInNamespace.go:88-97 | entries after a bad one never change the result |
| Environment.ApplyEnvSnoc | runInNamespace/runInNamespace.go:88-97 | applying one more good entry sets exactly its key to its value |
| Environment.ApplyEnvLastWins | runInNamespace/runInNamespace.go:88-97 | entries are applied in list order: each variable ends with the value of the last entry setting it, or its old value |
| Overlay.DigestHex | runInNamespace/runInNamespace.go:146 | the digest field used as the directory name contains no `:` |
| Overlay.DigestHexOfDescriptor | runInNamespace/runInNamespace.go:146 | for an `algorithm:encoded` digest the directory is named `encoded` |
| Overlay.DigestHexIsSecondField | runInNamespace/runInNamespace.go:146 | the field is the text between the first `:` and the next `:` or the end |
| Overlay.LowerDirs | runInNamespace/runInNamespace.go:142-148 | one lower directory per layer |
| Overlay.LowerDirsAt | runInNamespace/runInNamespace.go:142-148 | lower directory i is the cache path of layer n-1-i: reverse manifest order |
| Overlay.LayerPathColonFree | runInNamespace/runInNamespace.go:146 | no layer cache path contains `:` |
| Overlay.LowerDirsColonFree | runInNamespace/runInNamespace.go:142-148 | no lower directory contains the `:` that joins them |
| Overlay.LowerDirsRoundTrip | runInNamespace/runInNamespace.go:159-161 | the `lowerdir=` value of a non-empty image splits back into exactly the lower directories |
| Overlay.CollectLowerDirs | runInNamespace/runInNamespace.go:142-148 | the descending append loop yields the lower directories exactly when every digest has a `:`, and stops otherwise (where the program panics) |
| Mounts.PreparePlan | runInNamespace/runInNamespace.go:111-128 | prepareDirs issues two commands and then one per directory |
| Mounts.IssuedBeforeAnotherSucceeded | runInNamespace/runInNamespace.go:174-218 | every issued command followed by another one succeeded |
| Mounts.BaseFsDevFirst | runInNamespace/runInNamespace.go:174-218 | at most seven mounts, a prefix of the fixed order; `dev/pts` and later only after the `dev` mount succeeded |
| Mounts.ChrootOrder | runInNamespace/runInNamespace.go:238-254 | `pivot_root` only after `chdir` succeeded, `umount -l .` only after both did |
| Launch.Dispatch | runInNamespace/runInNamespace.go:323-332 | usage error exactly for `child` with an argument count other than 6; parent path exactly without `child`; the child path takes the four arguments in order |
| Launch.LaunchArgvDispatchesToChild | runInNamespace/runInNamespace.go:258 | the argument vector the parent launches takes the child path with the same four paths |
| Pipeline.RecPrivateIssuesOne | runInNamespace/runInNamespace.go:70-78 | mountRecPrivate issues exactly its one command and returns nil exactly when it succeeds |
| Pipeline.VolumeBindAfterMkdir | runInNamespace/runInNamespace.go:220-236 | nothing is issued exactly when the volume is missing, and then the stage returns the missing-volume error; the bind only after `mkdir -p <target>/volume` succeeded; nil exactly when both succeed |
| Pipeline.ChildStartsPrivate | runInNamespace/runInNamespace.go:276-286 | the rprivate mount is always first; its failure ends the child with nothing else done; a setEnv failure leaves the entries before the bad one applied and issues no other command |
| Pipeline.ChrootOnFollowsPath | runInNamespace/runInNamespace.go:307-320 | from `chroot` on, the log is a prefix of the pivot commands and the shell, and all of them exactly when the shell ran |
| Pipeline.VolumeOnFollowsPath | runInNamespace/runInNamespace.go:301-320 | from `mountVolume` on, the log is a prefix of the rest of the happy path, and all of it exactly when the shell ran |
| Pipeline.BaseFsOnFollowsPath | runInNamespace/runInNamespace.go:295-320 | from `mountBaseFs` on, the log is a prefix of the rest of the happy path, and all of it exactly when the shell ran |
| Pipeline.RootFsFollowsPath | runInNamespace/runInNamespace.go:288-320 | from setLayers on, the log is a prefix of the happy path and is all of it exactly when the shell ran |
| Pipeline.ChildLogFollowsHappyPath | runInNamespace/runInNamespace.go:276-320 | with a well-formed manifest, the child's log is a prefix of the happy path, and all of it exactly when the shell ran |
| Pipeline.LayersFailFast | runInNamespace/runInNamespace.go:130-156 | after whatever `prepareDirs` issued, `setLayers` is fail-fast. A manifest that cannot be loaded stops it before any command with the load error. A malformed digest panics right after `prepareDirs`' commands. Otherwise the log is `prepareDirs`' commands followed by the overlay mount of the reversed layer paths, and the stage returns nil exactly when that mount succeeds |
| Pipeline.VolumeFailFast | runInNamespace/runInNamespace.go:220-236 | `mountVolume` is fail-fast: every command before its last succeeded, and a command error ends it right after that failed command |
| Pipeline.ChrootOnFailFast | runInNamespace/runInNamespace.go:307-320 | after commands that succeeded, `chroot` and the shell keep the log fail-fast, and a child that ran the shell ends with it |
| Pipeline.ShellFailFast | runInNamespace/runInNamespace.go:313-320 | the shell, run after commands that succeeded, ends the log, and the child's result is whether it succeeded |
| Pipeline.VolumeOnFailFast | runInNamespace/runInNamespace.go:301-320 | after commands that succeeded, the stages from `mountVolume` on keep the log fail-fast |
| Pipeline.BaseFsOnFailFast | runInNamespace/runInNamespace.go:295-320 | after commands that succeeded, the stages from `mountBaseFs` on keep the log fail-fast |
| Pipeline.RootFsFailFast | runInNamespace/runInNamespace.go:288-320 | from `setLayers` on, after `prepareDirs`' commands, every command but the last succeeded; a command error ends the log with that failed command; the shell, when run, is last |
| Pipeline.ChildFailFast | runInNamespace/runInNamespace.go:276-320 | once a command fails no later stage runs (a manifest load error and a digest panic are covered by `ChildStopsAtSetLayers`, a missing volume by `ChildStopsAtMissingVolume`). Every command but the last succeeded after the ones before it, except the last command of a `prepareDirs` run that stopped early. A command error ends the log with that failed command. A child that ran the shell ends with it, and its result is the shell's |
| Pipeline.ChildStopsAtSetLayers | runInNamespace/runInNamespace.go:130-147 | once the environment is set (and since `childProcess` returns on `setLayers`' error, lines 288-293), a manifest that cannot be loaded ends the child after the rprivate mount alone, with the load error; a digest with no `:` ends it with a panic right after `prepareDirs`' commands; no later stage runs in either case |
| Pipeline.ChildStopsAtMissingVolume | runInNamespace/runInNamespace.go:220-223 | when `setLayers` and `mountBaseFs` succeeded and `os.Stat` reports the volume directory missing, the child ends at `mountVolume` with that error (since `childProcess` returns on it, lines 301-305), its log ending with the base mounts: no mkdir, bind, pivot or shell follows |
| Pipeline.ChildFailFastEarly | runInNamespace/runInNamespace.go:276-286 | a child that stops at the rprivate mount or at `setEnv` issued only the rprivate mount, never ran the shell, and reports a command error only when that mount failed |
| Pipeline.ShellInLogIffExited | runInNamespace/runInNamespace.go:312-320 | the shell is in the child's log exactly when the child ended by running it |
| Pipeline.NoShellWithoutLayers | runInNamespace/runInNamespace.go:130-148 | a child whose manifest is missing or malformed never starts the shell |
| Pipeline.BaseFsOnReachesShell | runInNamespace/runInNamespace.go:295-320 | from `mountBaseFs` on, the shell runs exactly when the base mounts complete, the volume is not missing and is made and bound, and the pivot completes |
| Pipeline.RootFsReachesShell | runInNamespace/runInNamespace.go:288-320 | from `setLayers` on, the shell runs exactly when the manifest loads and is well formed, the overlay mount succeeds, and every later stage succeeds |
| Pipeline.ChildShellOnlyAfterAllStages | runInNamespace/runInNamespace.go:276-320 | for any descriptors, the shell is issued exactly when every stage succeeded: the rprivate mount, the `Env` list, a well-formed manifest, the overlay mount, the base mounts, the volume and the pivot |
| Pipeline.ChildOverlayMountedOnce | runInNamespace/runInNamespace.go:138-166 | right after whatever prepareDirs issued (failed or not) comes the one overlay mount, with the derived options onto `<base>/merged`; no other overlay mount is issued |
| Pipeline.ChildPassesLayers | runInNamespace/runInNamespace.go:138-151 | once the environment is set, a well-formed manifest gets the child at least to the overlay mount |
| Pipeline.HappyPathOverlayOnce | runInNamespace/runInNamespace.go:160-166 | the happy path holds one overlay mount, right after prepareDirs' commands |
| Pipeline.ProgramExitStatus | runInNamespace/runInNamespace.go:323-351 | status 1 exactly for the usage error, which does nothing; 2 exactly for a panic in the child; 0 otherwise |
| Pipeline.ParentLaunchesChild | runInNamespace/runInNamespace.go:257-273 | the program run on the launched argument vector behaves as the child on the four fixed paths |
| Container.Process.Issue | runInNamespace/runInNamespace.go:72-73 | a command is appended to the log and succeeds as the world decides |
| Container.Process.MountRecPrivate | runInNamespace/runInNamespace.go:70-78 | issues and returns exactly `Pipeline.RecPrivateSpec`: the one rprivate mount, and nil exactly when it succeeds |
| Container.Process.SetEnv | runInNamespace/runInNamespace.go:81-99 | the loop leaves the environment and the error that applying the loaded list specifies |
| Container.Process.PrepareDirs | runInNamespace/runInNamespace.go:111-128 | issues exactly the fail-fast run of mkdir base, tmpfs on base, mkdir of each directory, and reports whether it completed |
| Container.Process.MountOverlayFS | runInNamespace/runInNamespace.go:159-172 | issues the one overlay mount with the option string built from the joined lower directories |
| Container.Process.SetLayers | runInNamespace/runInNamespace.go:130-156 | issues and returns exactly `Pipeline.LayersSpec`: the load error before any command, `prepareDirs` with its result ignored, the panic on a malformed digest, then the overlay mount |
| Container.Process.MountBaseFs | runInNamespace/runInNamespace.go:174-218 | issues exactly the fail-fast run of the seven mounts and returns the error of the one it stopped at |
| Container.Process.MountVolume | runInNamespace/runInNamespace.go:220-236 | issues and returns exactly `Pipeline.VolumeSpec`: nothing when the volume is missing, otherwise the fail-fast mkdir and bind mount |
| Container.Process.Chroot | runInNamespace/runInNamespace.go:238-254 | issues exactly the fail-fast run of chdir, pivot_root, lazy unmount |
| Container.Process.ChildProcess | runInNamespace/runInNamespace.go:276-321 | the log, environment and result are those of the child orchestration |
| Container.Process.RunInNamespace | runInNamespace/runInNamespace.go:257-273 | issues exactly the self re-execution with the `child` sentinel and the four paths |
| Container.Process.Program | runInNamespace/runInNamespace.go:323-351 | the log, environment and exit status are exactly those of `Pipeline.ProgramSpec` |

## Left out

- The image puller (`docker2fs`) is not part of this model. It is registry
  access, decompression and tar extraction through foreign libraries.
- JSON decoding of `config.json` and `manifest.json` is left out. The
  loaders are functions of the `World` that return the `Env` list or the
  `Layers` list, or nothing when the file cannot be opened or decoded.
- Kernel semantics are left out: what a mount, `pivot_root`, `umount` or
  overlayfs merge does to the filesystem. Each is a logged command whose
  success the `World` decides from the history.
- The clone flags (new UTS, IPC, network, mount and PID namespaces) are
  left out. Namespace creation has no observable effect in the model.
- Process plumbing is left out: stdio inheritance, `cmd.Run` waiting, and
  what `/bin/sh` does. The shell and the launch are single logged commands.
- `fmt` output and the wording of wrapped errors are left out. A failure
  carries only its kind and the command, path, entry or key involved.
- `filepath.Join` path cleaning is left out. Paths are joined with a plain
  `/`, so a digest with an empty or `..` field gives a different path than
  Go would.
- The Go runtime behaviour the model relies on is stated, not derived: the
  `os.Setenv` acceptance rule, and exit status 2 after a panic.
