/** Applying the image's `Env` list (`KEY=VALUE` entries) to the process
    environment, entry by entry, stopping at the first entry that cannot
    be applied and keeping the ones applied before it. */
module Environment {
  import opened Descriptors
  import opened GoStrings
  import opened Effects

  /** The environment after applying a list, and the error that stopped it. */
  datatype EnvResult = EnvResult(env: map<string, string>, err: Option<Failure>)

  /** The key of an entry: the text before its first `=`. */
  function Key(entry: string): (k: string)
    requires '=' in entry
    ensures '=' !in k
  {
    SplitN2(entry, '=')[0]
  }

  /** The value of an entry: everything after its first `=`. */
  function Value(entry: string): string
    requires '=' in entry
  {
    SplitN2(entry, '=')[1]
  }

  /** What Go's `os.Setenv` accepts on Unix: a non-empty key without `=`
      or NUL, and a value without NUL. */
  predicate SetenvAccepts(key: string, value: string)
  {
    key != "" && '=' !in key && '\0' !in key && '\0' !in value
  }

  /** An entry that the loop applies without returning an error. */
  predicate Applicable(entry: string)
  {
    '=' in entry && SetenvAccepts(Key(entry), Value(entry))
  }

  /** The error the loop returns for an entry it cannot apply. */
  function EntryError(entry: string): Failure
  {
    if '=' !in entry then InvalidEnv(entry) else SetenvFailed(Key(entry))
  }

  /** The loop of `setEnv`: split each entry on its first `=`, fail on an
      entry with no `=`, otherwise set the variable, in list order. */
  function ApplyEnv(entries: seq<string>, env: map<string, string>): EnvResult
    decreases |entries|
  {
    if entries == [] then EnvResult(env, None)
    else
      var parts := SplitN2(entries[0], '=');
      if |parts| != 2 then EnvResult(env, Some(InvalidEnv(entries[0])))
      else if !SetenvAccepts(parts[0], parts[1]) then EnvResult(env, Some(SetenvFailed(parts[0])))
      else ApplyEnv(entries[1..], env[parts[0] := parts[1]])
  }

  /** The whole of `setEnv`: load the list, then apply it. */
  function SetEnvSpec(config: Option<seq<string>>, configPath: string, env: map<string, string>): EnvResult
  {
    match config
    case None => EnvResult(env, Some(LoadFailed(configPath)))
    case Some(entries) => ApplyEnv(entries, env)
  }

  /** The position of the first entry that cannot be applied, or the
      length of the list when every entry can. */
  function FirstBad(entries: seq<string>): (j: nat)
    ensures j <= |entries|
    ensures forall i :: 0 <= i < j ==> Applicable(entries[i])
    ensures j < |entries| ==> !Applicable(entries[j])
    decreases |entries|
  {
    if entries == [] then 0
    else if !Applicable(entries[0]) then 0
    else 1 + FirstBad(entries[1..])
  }

  /** An entry is split into key and value around its first `=`, so the
      value keeps every later `=`. */
  lemma KeyValueSplit(entry: string)
    requires '=' in entry
    ensures Key(entry) + "=" + Value(entry) == entry
    ensures Key(entry) == Split(entry, '=')[0]
    ensures Value(entry) == Join(Split(entry, '=')[1..], '=')
  {
    SplitN2IsSplitHead(entry, '=');
  }

  /** The list applies without error exactly when every entry is applicable. */
  lemma {:induction false} ApplyEnvSucceeds(entries: seq<string>, env: map<string, string>)
    ensures ApplyEnv(entries, env).err.None? <==>
      forall i :: 0 <= i < |entries| ==> Applicable(entries[i])
    decreases |entries|
  {
    if entries != [] && Applicable(entries[0]) {
      ApplyEnvSucceeds(entries[1..], env[Key(entries[0]) := Value(entries[0])]);
      assert forall i :: 1 <= i < |entries| ==> entries[i] == entries[1..][i - 1];
    }
  }

  /** Fail-fast without rollback: the result is that of the entries before
      the first bad one, with the error that bad entry raises. */
  lemma {:induction false} ApplyEnvStopsAtFirstBad(entries: seq<string>, env: map<string, string>)
    ensures var j := FirstBad(entries);
      ApplyEnv(entries, env).env == ApplyEnv(entries[..j], env).env &&
      ApplyEnv(entries, env).err == (if j < |entries| then Some(EntryError(entries[j])) else None)
    decreases |entries|
  {
    if entries != [] && Applicable(entries[0]) {
      var env' := env[Key(entries[0]) := Value(entries[0])];
      ApplyEnvStopsAtFirstBad(entries[1..], env');
      var j := FirstBad(entries);
      assert entries[..j][0] == entries[0];
      assert entries[..j][1..] == entries[1..][..j - 1];
    }
  }

  /** Entries after a bad one are never applied: whatever follows it, the
      result is the same. */
  lemma {:induction false} ApplyEnvIgnoresTail(entries: seq<string>, tail: seq<string>, env: map<string, string>)
    requires entries != [] && !Applicable(entries[|entries| - 1])
    ensures ApplyEnv(entries + tail, env) == ApplyEnv(entries, env)
    decreases |entries|
  {
    if |entries| > 1 && Applicable(entries[0]) {
      assert (entries + tail)[1..] == entries[1..] + tail;
      ApplyEnvIgnoresTail(entries[1..], tail, env[Key(entries[0]) := Value(entries[0])]);
    }
  }

  /** Applying one more applicable entry after a list of applicable ones. */
  lemma {:induction false} ApplyEnvSnoc(entries: seq<string>, e: string, env: map<string, string>)
    requires forall i :: 0 <= i < |entries| ==> Applicable(entries[i])
    requires Applicable(e)
    ensures ApplyEnv(entries + [e], env) ==
      EnvResult(ApplyEnv(entries, env).env[Key(e) := Value(e)], None)
    decreases |entries|
  {
    if entries == [] {
      assert [] + [e] == [e];
    } else {
      assert (entries + [e])[1..] == entries[1..] + [e];
      ApplyEnvSnoc(entries[1..], e, env[Key(entries[0]) := Value(entries[0])]);
    }
  }

  /** What a variable holds after applying `entries` on top of `env`, read
      from the end: the value of the last entry that sets it, or else its
      earlier value. */
  function Final(entries: seq<string>, env: map<string, string>, k: string): Option<string>
    requires forall i :: 0 <= i < |entries| ==> Applicable(entries[i])
  {
    if entries == [] then (if k in env then Some(env[k]) else None)
    else
      var last := entries[|entries| - 1];
      assert Applicable(last);
      if Key(last) == k then Some(Value(last))
      else Final(entries[..|entries| - 1], env, k)
  }

  /** Entries are applied in list order: each variable ends up with the
      value of the last entry that sets it. */
  lemma {:induction false} ApplyEnvLastWins(entries: seq<string>, env: map<string, string>, k: string)
    requires forall i :: 0 <= i < |entries| ==> Applicable(entries[i])
    ensures var r := ApplyEnv(entries, env);
      r.err.None? && Final(entries, env, k) == (if k in r.env then Some(r.env[k]) else None)
    decreases |entries|
  {
    if entries == [] {
    } else {
      var n := |entries| - 1;
      var init := entries[..n];
      assert entries == init + [entries[n]];
      ApplyEnvLastWins(init, env, k);
      ApplyEnvSnoc(init, entries[n], env);
    }
  }
}
