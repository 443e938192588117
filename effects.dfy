/** The image descriptors the child process reads: the layer records of
    `manifest.json` and the loader results. */
module Descriptors {

  datatype Option<+T> = None | Some(value: T)

  /** One entry of the manifest's `Layers` array, listed base-first. */
  datatype Layer = Layer(digest: string, mediaType: string, size: nat)
}

/** The effects the container setup performs, abstracted: every command
    the process issues is recorded in a log, and whether it succeeds is
    decided by a `World` that may look at everything issued before it.
    A fixed sequence of commands run with early returns is `Run`. */
module Effects {
  import opened Descriptors

  /** An issued command as its argument vector: external `mount`/`umount`
      invocations, and the system calls `mkdir -p`, `cd` and `pivot_root`
      recorded in the same form. */
  type Command = seq<string>

  /** What `os.Stat` reports: the path exists, it does not exist, or the
      call failed for another reason. */
  datatype StatResult = Present | Missing | StatError

  /** Everything outside the model: command outcomes, `os.Stat`, and the
      JSON loaders of `config.json` (the `Env` list) and `manifest.json`
      (the `Layers` list); a loader yields `None` when the file cannot be
      opened or decoded. */
  datatype World = World(
    succeeds: (seq<Command>, Command) -> bool,
    stat: (seq<Command>, string) -> StatResult,
    loadConfig: string -> Option<seq<string>>,
    loadManifest: string -> Option<seq<Layer>>)

  /** Why a stage of the setup returned an error. */
  datatype Failure =
    | LoadFailed(path: string)
    | InvalidEnv(entry: string)
    | SetenvFailed(key: string)
    | CommandFailed(cmd: Command)
    | VolumeMissing(dir: string)

  /** The outcome of one stage: it returned nil, it returned an error, or
      it panicked (an out-of-range index on a malformed digest). */
  datatype Outcome = Done | Failed(failure: Failure) | Panic

  /** The commands a run issued, and whether it got through its whole plan. */
  datatype Trace = Trace(issued: seq<Command>, completed: bool)

  /** The commands a stage issued and its outcome. */
  datatype Step = Step(issued: seq<Command>, outcome: Outcome)

  /** Issue the commands of `plan` in order after `hist`, stopping right
      after the first one that fails. */
  function Run(plan: seq<Command>, hist: seq<Command>, w: World): (t: Trace)
    ensures t.issued <= plan
    ensures t.completed ==> t.issued == plan
    ensures !t.completed ==> |t.issued| >= 1
    decreases |plan|
  {
    if plan == [] then Trace([], true)
    else if w.succeeds(hist, plan[0]) then
      var rest := Run(plan[1..], hist + [plan[0]], w);
      Trace([plan[0]] + rest.issued, rest.completed)
    else
      Trace([plan[0]], false)
  }

  /** A fail-fast stage reports the command it stopped at. */
  function FromTrace(t: Trace): Step
    requires t.completed || |t.issued| >= 1
  {
    if t.completed then Step(t.issued, Done)
    else Step(t.issued, Failed(CommandFailed(t.issued[|t.issued| - 1])))
  }

  /** The history before command `i` of a plan, seen from the rest of the
      plan after its first command has been issued. */
  lemma HistoryStep(plan: seq<Command>, hist: seq<Command>, i: nat)
    requires 0 < i <= |plan|
    ensures hist + [plan[0]] + plan[1..][..i - 1] == hist + plan[..i]
  {
    assert [plan[0]] + plan[1..][..i - 1] == plan[..i];
  }

  /** Fail-fast, command by command: an issued command succeeded exactly
      when it is not the last command of a run that stopped early. */
  lemma {:induction false} RunSucceededBefore(plan: seq<Command>, hist: seq<Command>, w: World, i: nat)
    requires i < |Run(plan, hist, w).issued|
    ensures var t := Run(plan, hist, w);
      w.succeeds(hist + plan[..i], plan[i]) <==> (t.completed || i < |t.issued| - 1)
    decreases |plan|
  {
    if i > 0 {
      assert w.succeeds(hist, plan[0]);
      RunSucceededBefore(plan[1..], hist + [plan[0]], w, i - 1);
      HistoryStep(plan, hist, i);
    } else {
      assert hist + plan[..0] == hist;
    }
  }

  /** A run gets through its whole plan exactly when every command of the
      plan succeeds after the ones before it. */
  lemma RunCompletes(plan: seq<Command>, hist: seq<Command>, w: World)
    ensures Run(plan, hist, w).completed <==>
      forall i :: 0 <= i < |plan| ==> w.succeeds(hist + plan[..i], plan[i])
  {
    var t := Run(plan, hist, w);
    if t.completed {
      forall i | 0 <= i < |plan| ensures w.succeeds(hist + plan[..i], plan[i]) {
        RunSucceededBefore(plan, hist, w, i);
      }
    } else {
      var k := |t.issued| - 1;
      RunSucceededBefore(plan, hist, w, k);
    }
  }

  /** Regrouping a log that grew by two pieces. */
  lemma AppendAssoc(a: seq<Command>, b: seq<Command>, c: seq<Command>)
    ensures a + (b + c) == a + b + c
  {
  }

  /** A run stops right after the first command that fails. */
  lemma RunStopsAt(plan: seq<Command>, hist: seq<Command>, w: World, k: nat)
    requires k < |plan|
    requires forall i :: 0 <= i < k ==> w.succeeds(hist + plan[..i], plan[i])
    requires !w.succeeds(hist + plan[..k], plan[k])
    ensures Run(plan, hist, w) == Trace(plan[..k + 1], false)
  {
    var t := Run(plan, hist, w);
    RunCompletes(plan, hist, w);
    var m := |t.issued| - 1;
    RunSucceededBefore(plan, hist, w, m);
    if m < k {
      assert false;
    } else if m > k {
      RunSucceededBefore(plan, hist, w, k);
    }
  }

  /** A fail-fast stage whose command k is the first to fail issues the
      commands up to and including k and returns k's error. */
  lemma StageStopsAt(plan: seq<Command>, hist: seq<Command>, w: World, k: nat)
    requires k < |plan|
    requires forall i :: 0 <= i < k ==> w.succeeds(hist + plan[..i], plan[i])
    requires !w.succeeds(hist + plan[..k], plan[k])
    ensures FromTrace(Run(plan, hist, w)) == Step(plan[..k + 1], Failed(CommandFailed(plan[k])))
  {
    RunStopsAt(plan, hist, w, k);
    assert plan[..k + 1][k] == plan[k];
  }

  /** A fail-fast stage issues its whole plan and returns nil exactly when
      every command succeeds after the ones before it. */
  lemma StageCompletes(plan: seq<Command>, hist: seq<Command>, w: World)
    ensures FromTrace(Run(plan, hist, w)) == Step(plan, Done) <==>
      forall i :: 0 <= i < |plan| ==> w.succeeds(hist + plan[..i], plan[i])
  {
    RunCompletes(plan, hist, w);
  }

  /** Read off a stage's log after `hist`, from position `lo` on: every
      command before the last succeeded after the ones before it, the
      last one too when the stage returned nil, and a stage that returned
      a command's error stopped right after that command, which failed. */
  ghost predicate FailFast(s: Step, hist: seq<Command>, lo: nat, w: World)
  {
    var n := |s.issued|;
    (forall i :: lo <= i < n && (i < n - 1 || s.outcome.Done?) ==>
      w.succeeds(hist + s.issued[..i], s.issued[i])) &&
    (s.outcome.Failed? && s.outcome.failure.CommandFailed? ==>
      lo < n && s.issued[n - 1] == s.outcome.failure.cmd &&
      !w.succeeds(hist + s.issued[..n - 1], s.issued[n - 1]))
  }

  /** Every fail-fast run of a plan is fail-fast from its first command. */
  lemma RunFailFast(plan: seq<Command>, hist: seq<Command>, w: World)
    ensures FailFast(FromTrace(Run(plan, hist, w)), hist, 0, w)
  {
    var t := Run(plan, hist, w);
    forall i | 0 <= i < |t.issued| && (i < |t.issued| - 1 || t.completed)
      ensures w.succeeds(hist + t.issued[..i], t.issued[i])
    {
      RunSucceededBefore(plan, hist, w, i);
      assert t.issued[..i] == plan[..i];
    }
    if !t.completed {
      var n := |t.issued|;
      RunSucceededBefore(plan, hist, w, n - 1);
      assert t.issued[..n - 1] == plan[..n - 1];
    }
  }

  /** Commands that all succeeded, followed by a fail-fast stage, make a
      fail-fast stage. */
  lemma FailFastAfter(pre: seq<Command>, s: Step, hist: seq<Command>, lo: nat, w: World)
    requires lo <= |pre|
    requires FailFast(Step(pre, Done), hist, lo, w)
    requires FailFast(s, hist + pre, 0, w)
    ensures FailFast(Step(pre + s.issued, s.outcome), hist, lo, w)
  {
    var log := pre + s.issued;
    var n := |log|;
    forall i | lo <= i < n && (i < n - 1 || s.outcome.Done?)
      ensures w.succeeds(hist + log[..i], log[i])
    {
      if i < |pre| {
        assert log[..i] == pre[..i];
      } else {
        var j := i - |pre|;
        assert log[..i] == pre + s.issued[..j];
        AppendAssoc(hist, pre, s.issued[..j]);
      }
    }
    if s.outcome.Failed? && s.outcome.failure.CommandFailed? {
      var m := |s.issued|;
      assert log[..n - 1] == pre + s.issued[..m - 1];
      AppendAssoc(hist, pre, s.issued[..m - 1]);
    }
  }

  /** A stage that is fail-fast after `hist + pre` from position `lo` on
      is fail-fast after `hist` from position `|pre| + lo` on once `pre`
      is put in front of its log. */
  lemma FailFastShift(pre: seq<Command>, s: Step, hist: seq<Command>, lo: nat, w: World)
    requires FailFast(s, hist + pre, lo, w)
    ensures FailFast(Step(pre + s.issued, s.outcome), hist, |pre| + lo, w)
  {
    var log := pre + s.issued;
    var n := |log|;
    forall i | |pre| + lo <= i < n && (i < n - 1 || s.outcome.Done?)
      ensures w.succeeds(hist + log[..i], log[i])
    {
      var j := i - |pre|;
      assert log[..i] == pre + s.issued[..j];
      AppendAssoc(hist, pre, s.issued[..j]);
    }
    if s.outcome.Failed? && s.outcome.failure.CommandFailed? {
      var m := |s.issued|;
      assert log[..n - 1] == pre + s.issued[..m - 1];
      AppendAssoc(hist, pre, s.issued[..m - 1]);
    }
  }

  /** `log` is `start` followed by the first commands of `plan`, each of
      which succeeded. */
  ghost predicate Resumes(plan: seq<Command>, start: seq<Command>, log: seq<Command>, w: World)
  {
    |start| <= |log| && |log| - |start| <= |plan| &&
    log == start + plan[..|log| - |start|] &&
    forall i :: 0 <= i < |log| - |start| ==> w.succeeds(start + plan[..i], plan[i])
  }

  /** Nothing of a plan is issued yet. */
  lemma ResumeStart(plan: seq<Command>, log: seq<Command>, w: World)
    ensures Resumes(plan, log, log, w)
  {
    assert plan[..0] == [] && log + [] == log;
  }

  /** Issuing the next command of a plan successfully: the plan goes on. */
  lemma ResumeStep(plan: seq<Command>, start: seq<Command>, log: seq<Command>, w: World)
    requires Resumes(plan, start, log, w) && |log| - |start| < |plan|
    requires w.succeeds(log, plan[|log| - |start|])
    ensures Resumes(plan, start, log + [plan[|log| - |start|]], w)
  {
    var k := |log| - |start|;
    assert plan[..k + 1] == plan[..k] + [plan[k]];
  }

  /** The next command of a plan fails: the run is over, the log holds
      exactly what it issued, and the stage reports that command. */
  lemma ResumeFail(plan: seq<Command>, start: seq<Command>, log: seq<Command>, w: World)
    requires Resumes(plan, start, log, w) && |log| - |start| < |plan|
    requires !w.succeeds(log, plan[|log| - |start|])
    ensures var c := plan[|log| - |start|];
      log + [c] == start + FromTrace(Run(plan, start, w)).issued &&
      FromTrace(Run(plan, start, w)).outcome == Failed(CommandFailed(c))
  {
    var k := |log| - |start|;
    assert plan[..k + 1] == plan[..k] + [plan[k]];
    RunStopsAt(plan, start, w, k);
    assert plan[..k + 1][k] == plan[k];
  }

  /** The whole plan has been issued: the run completed. */
  lemma ResumeEnd(plan: seq<Command>, start: seq<Command>, log: seq<Command>, w: World)
    requires Resumes(plan, start, log, w) && |log| - |start| == |plan|
    ensures log == start + Run(plan, start, w).issued && Run(plan, start, w).completed
  {
    assert plan[..|plan|] == plan;
    RunCompletes(plan, start, w);
  }
}
