/** Laying the YAML overlay over the imported tasks (src/config/merge.rs). */
module ConfigMerge {
  import opened Prelude
  import opened Text
  import opened ConfigYaml

  type TaskMap = map<string, Task>

  datatype Entry = Entry(raw: Raw, patch: Patch)

  type Entries = map<string, Entry>

  function DefaultTask(name: string): Task {
    Task(name, "", [], ".", map[], false, true, false, DEFAULT_STOP_TIMEOUT_MS, false, None)
  }

  /** `cron` says which schedule expressions parse. */
  predicate ValidTask(cron: string -> bool, t: Task) {
    && !IsBlank(t.name) && !IsBlank(t.command) && !IsBlank(t.cwd)
    && 1 <= t.stopTimeoutMs <= MAX_STOP_TIMEOUT_MS
    && NamesFilled(t.env)
    && (t.schedule.Some? ==> cron(t.schedule.value))
  }

  predicate NamesFilled(env: StringMap) {
    forall k :: k in env ==> !IsBlank(k)
  }

  /** A task is valid if and only if its label, command and working directory and the
      names of its environment have something in them besides white space, its timeout
      is between 1 and 300,000 ms, and its schedule parses if it has one. */
  lemma ValidTaskExactly(cron: string -> bool, t: Task)
    ensures ValidTask(cron, t) <==>
              && !OnlyBlanks(t.name) && !OnlyBlanks(t.command) && !OnlyBlanks(t.cwd)
              && 0 < t.stopTimeoutMs <= 300_000
              && (forall k :: k in t.env ==> !OnlyBlanks(k))
              && (t.schedule == None || cron(t.schedule.value))
  {
    BlankExactly(t.name);
    BlankExactly(t.command);
    BlankExactly(t.cwd);
    forall k ensures IsBlank(k) <==> OnlyBlanks(k) {
      BlankExactly(k);
    }
  }

  // ---- Applying one patch ------------------------------------------------------

  function PatchedEnv(env: StringMap, diff: map<string, Option<string>>): StringMap {
    map k | k in env.Keys + diff.Keys && (k in diff ==> diff[k].Some?) ::
      if k in diff then diff[k].value else env[k]
  }

  function GetOr<T>(o: Option<T>, default: T): T {
    if o.Some? then o.value else default
  }

  function Overridden(t: Task, p: Patch): Task {
    Task(t.name, GetOr(p.command, t.command), GetOr(p.args, t.args), GetOr(p.cwd, t.cwd),
         if p.env.Some? then PatchedEnv(t.env, p.env.value) else t.env, t.clearEnv,
         GetOr(p.shell, t.shell), GetOr(p.autoStart, t.autoStart), GetOr(p.stopTimeoutMs, t.stopTimeoutMs),
         GetOr(p.clearLogsOnRestart, t.clearLogsOnRestart), if p.schedule.Some? then p.schedule else t.schedule)
  }

  method ApplyEnv(env: StringMap, diff: map<string, Option<string>>) returns (r: StringMap)
    ensures r == PatchedEnv(env, diff)
  {
    r := env;
    var rest := diff.Keys;
    while rest != {}
      invariant rest <= diff.Keys
      invariant r == map k | k in env.Keys + diff.Keys
                     && (if k in diff && k !in rest then diff[k].Some? else k in env) ::
                     if k in diff && k !in rest then diff[k].value else env[k]
      decreases rest
    {
      var k :| k in rest;
      rest := rest - {k};
      match diff[k] {
        case Some(v) => r := r[k := v];
        case None => r := r - {k};
      }
    }
  }

  method ApplyOverride(task: Task, patch: Patch) returns (t: Task)
    ensures t == Overridden(task, patch)
  {
    t := task.(command := GetOr(patch.command, task.command));
    t := t.(args := GetOr(patch.args, t.args));
    t := t.(cwd := GetOr(patch.cwd, t.cwd));
    if patch.env.Some? {
      var env := ApplyEnv(t.env, patch.env.value);
      t := t.(env := env);
    }
    t := t.(shell := GetOr(patch.shell, t.shell));
    t := t.(autoStart := GetOr(patch.autoStart, t.autoStart));
    t := t.(stopTimeoutMs := GetOr(patch.stopTimeoutMs, t.stopTimeoutMs));
    t := t.(clearLogsOnRestart := GetOr(patch.clearLogsOnRestart, t.clearLogsOnRestart));
    t := t.(schedule := if patch.schedule.Some? then patch.schedule else t.schedule);
  }

  // ---- Merging all tasks ---------------------------------------------------------

  predicate Disabled(entries: Entries, name: string) {
    name in entries && entries[name].patch.enabled == Some(false)
  }

  function BaseOf(base: TaskMap, name: string): Task {
    if name in base then base[name] else DefaultTask(name)
  }

  function MergedTask(base: TaskMap, entries: Entries, name: string): Task
    requires name in base || name in entries
  {
    if name in entries then Overridden(BaseOf(base, name), entries[name].patch) else base[name]
  }

  function Merged(base: TaskMap, entries: Entries): TaskMap {
    map name | name in base.Keys + entries.Keys && !Disabled(entries, name) :: MergedTask(base, entries, name)
  }

  ghost predicate MergesValid(cron: string -> bool, base: TaskMap, entries: Entries) {
    forall name :: name in entries && !Disabled(entries, name) ==> ValidTask(cron, MergedTask(base, entries, name))
  }

  /** A task under a patch, field by field: what the patch has, and otherwise what was
      there before; an environment name is set, kept or taken out on its own. */
  ghost predicate Overlays(t: Task, p: Patch, before: Task) {
    && t.name == before.name && t.clearEnv == before.clearEnv
    && t.command == (if p.command.Some? then p.command.value else before.command)
    && t.args == (if p.args.Some? then p.args.value else before.args)
    && t.cwd == (if p.cwd.Some? then p.cwd.value else before.cwd)
    && t.shell == (if p.shell.Some? then p.shell.value else before.shell)
    && t.autoStart == (if p.autoStart.Some? then p.autoStart.value else before.autoStart)
    && t.stopTimeoutMs == (if p.stopTimeoutMs.Some? then p.stopTimeoutMs.value else before.stopTimeoutMs)
    && t.clearLogsOnRestart
         == (if p.clearLogsOnRestart.Some? then p.clearLogsOnRestart.value else before.clearLogsOnRestart)
    && t.schedule == (if p.schedule.Some? then p.schedule else before.schedule)
    && forall k ::
         if p.env.Some? && k in p.env.value then
           match p.env.value[k] case Some(v) => k in t.env && t.env[k] == v case None => k !in t.env
         else (k in t.env <==> k in before.env) && (k in t.env ==> t.env[k] == before.env[k])
  }

  /** What merging gives: imports without an entry as they are, none that is disabled,
      and every other entry laid over its import, or over the values of a task that
      says nothing: no arguments, the project directory, no environment, run by a shell,
      not started by itself, three seconds to stop, logs kept, no schedule. */
  ghost predicate IsMerge(base: TaskMap, entries: Entries, tasks: TaskMap) {
    forall name ::
      if name !in entries then (name in tasks <==> name in base) && (name in base ==> tasks[name] == base[name])
      else if entries[name].patch.enabled == Some(false) then name !in tasks
      else
        && name in tasks
        && Overlays(tasks[name], entries[name].patch,
                    if name in base then base[name]
                    else Task(name, "", [], ".", map[], false, true, false, 3_000, false, None))
  }

  lemma OverriddenOverlays(t: Task, p: Patch)
    ensures Overlays(Overridden(t, p), p, t)
  {
  }

  lemma MergedIsMerge(base: TaskMap, entries: Entries)
    ensures IsMerge(base, entries, Merged(base, entries))
  {
    forall name | name in entries ensures Overlays(Overridden(BaseOf(base, name), entries[name].patch),
                                                   entries[name].patch, BaseOf(base, name)) {
      OverriddenOverlays(BaseOf(base, name), entries[name].patch);
    }
  }

  lemma MergedOneMore(base: TaskMap, done: Entries, name: string, entry: Entry)
    requires name !in done
    ensures Merged(base, done[name := entry])
         == if entry.patch.enabled == Some(false) then Merged(base, done) - {name}
            else Merged(base, done)[name := Overridden(BaseOf(base, name), entry.patch)]
  {
  }

  method MergeTasks(cron: string -> bool, base: TaskMap, entries: Entries) returns (r: Result<TaskMap, string>)
    ensures r.Ok? <==> MergesValid(cron, base, entries)
    ensures r.Ok? ==> r.value == Merged(base, entries) && IsMerge(base, entries, r.value)
    ensures r.Err? ==> r.error in entries && !Disabled(entries, r.error)
                       && !ValidTask(cron, MergedTask(base, entries, r.error))
  {
    var tasks := base;
    var rest := entries.Keys;
    ghost var done: Entries := map[];
    while rest != {}
      invariant rest !! done.Keys && rest + done.Keys == entries.Keys
      invariant forall name :: name in done ==> done[name] == entries[name]
      invariant tasks == Merged(base, done) && MergesValid(cron, base, done)
      decreases rest
    {
      var name :| name in rest;
      rest := rest - {name};
      var patch := entries[name].patch;
      MergedOneMore(base, done, name, entries[name]);
      done := done[name := entries[name]];
      if patch.enabled == Some(false) {
        tasks := tasks - {name};
      } else {
        var task := ApplyOverride(BaseOf(base, name), patch);
        if !ValidTask(cron, task) {
          return Err(name);
        }
        tasks := tasks[name := task];
      }
    }
    assert done == entries;
    MergedIsMerge(base, entries);
    return Ok(tasks);
  }

  // ---- Task order ------------------------------------------------------------------

  /** Labels of `more` that name a task and were not listed before. */
  function Extended(order: seq<string>, more: seq<string>, tasks: TaskMap): seq<string>
    decreases |more|
  {
    if more == [] then order
    else Extended(if more[0] in tasks && more[0] !in order then order + [more[0]] else order, more[1..], tasks)
  }

  ghost predicate ConfiguredOk(configured: seq<string>, tasks: TaskMap) {
    Distinct(configured) && forall name :: name in configured ==> name in tasks
  }

  ghost predicate ListsEachOnce(order: seq<string>, tasks: TaskMap) {
    Distinct(order) && forall name :: name in order <==> name in tasks
  }

  lemma {:induction false} ExtendedLists(order: seq<string>, more: seq<string>, tasks: TaskMap)
    requires ConfiguredOk(order, tasks)
    ensures var r := Extended(order, more, tasks);
            && ConfiguredOk(r, tasks) && order <= r
            && (forall name :: name in tasks && (name in more || name in order) ==> name in r)
    decreases |more|
  {
    if more == [] {
    } else {
      var next := if more[0] in tasks && more[0] !in order then order + [more[0]] else order;
      assert more == [more[0]] + more[1..];
      ExtendedLists(next, more[1..], tasks);
    }
  }

  lemma {:induction false} ExtendedComplete(order: seq<string>, more: seq<string>, tasks: TaskMap)
    requires ListsEachOnce(order, tasks)
    ensures Extended(order, more, tasks) == order
    decreases |more|
  {
    if more == [] {
    } else {
      ExtendedComplete(order, more[1..], tasks);
    }
  }

  /** From position `start` on, labels come in the order in which `all` first has them. */
  ghost predicate InOrderOf(order: seq<string>, start: nat, all: seq<string>) {
    forall i, j :: start <= i < j < |order| ==> FirstIndex(all, order[i]) < FirstIndex(all, order[j])
  }

  lemma {:induction false} ExtendedInOrder(order: seq<string>, start: nat, all: seq<string>, at: nat, tasks: TaskMap)
    requires at <= |all| && start <= |order| && InOrderOf(order, start, all)
    requires forall i :: start <= i < |order| ==> FirstIndex(all, order[i]) < at
    requires forall i :: 0 <= i < at && all[i] in tasks ==> all[i] in order
    ensures InOrderOf(Extended(order, all[at..], tasks), start, all)
    decreases |all| - at
  {
    if at == |all| {
    } else {
      var x := all[at];
      assert all[at..][1..] == all[at + 1..];
      if x in tasks && x !in order {
        assert FirstIndex(all, x) == at;
        ExtendedInOrder(order + [x], start, all, at + 1, tasks);
      } else {
        ExtendedInOrder(order, start, all, at + 1, tasks);
      }
    }
  }

  /** `keys` are the labels of `tasks` in map order. */
  method ResolveTaskOrder(configured: seq<string>, source: seq<string>, keys: seq<string>, tasks: TaskMap)
    returns (r: Option<seq<string>>)
    requires forall name :: name in keys <==> name in tasks
    ensures r.Some? <==> ConfiguredOk(configured, tasks)
    ensures r.Some? ==> r.value == Extended(configured, source + keys, tasks)
    ensures r.Some? ==> ListsEachOnce(r.value, tasks) && configured <= r.value
    ensures r.Some? ==> InOrderOf(r.value, |configured|, source + keys)
  {
    var order: seq<string> := [];
    for i := 0 to |configured|
      invariant order == configured[..i] && ConfiguredOk(order, tasks)
    {
      if configured[i] in order || configured[i] !in tasks {
        return None;
      }
      TakeOneMore(configured, i);
      order := order + [configured[i]];
    }
    ExtendedLists(configured, source + keys, tasks);
    var more := source + keys;
    assert order == configured && more[0..] == more;
    ExtendedInOrder(order, |order|, more, 0, tasks);
    for i := 0 to |more|
      invariant Extended(order, more[i..], tasks) == Extended(configured, more, tasks)
    {
      assert more[i..][1..] == more[i + 1..];
      if more[i] in tasks && more[i] !in order {
        order := order + [more[i]];
      }
    }
    return Some(order);
  }

  // ---- A built mapping undoes itself on the task it was built for -----------------

  /** Equal but for the one-shot `clear_env` flag of a submission. */
  predicate SameTask(a: Task, b: Task) {
    a.(clearEnv := false) == b.(clearEnv := false)
  }

  lemma EnvDiffApplies(base: Task, t: Task)
    ensures PatchedEnv(base.env, EnvDiff(base, t)) == t.env
    ensures EnvDiff(base, t) == map[] ==> base.env == t.env
    ensures !t.clearEnv ==> forall k :: k in EnvDiff(base, t) <==>
                              (k in base.env) != (k in t.env) || (k in base.env && base.env[k] != t.env[k])
    ensures t.clearEnv ==> forall k :: k in EnvDiff(base, t) <==> k in base.env || k in t.env
  {
    var diff := EnvDiff(base, t);
    if diff == map[] {
      forall k ensures k in base.env <==> k in t.env
      ensures k in base.env && k in t.env ==> base.env[k] == t.env[k] {
        assert k !in diff;
      }
    }
  }

  /** An imported task comes back as submitted unless the submission drops a
      schedule that the import has: a null schedule overrides nothing. */
  lemma ImportedTaskReturns(base: Task, t: Task)
    requires base.name == t.name
    ensures SameTask(Overridden(base, ImportedPatch(base, t)), t) <==> !(base.schedule.Some? && t.schedule.None?)
  {
    EnvDiffApplies(base, t);
    var back := Overridden(base, ImportedPatch(base, t));
    assert back.(clearEnv := t.clearEnv, schedule := t.schedule) == t;
  }

  function KeptEnv(priorEnv: Option<map<string, Option<string>>>): StringMap {
    if priorEnv.Some? then PatchedEnv(map[], priorEnv.value) else map[]
  }

  /** A YAML-only task comes back as submitted, except that an empty environment
      sent without `clear_env` brings back what the file had. */
  lemma YamlTaskReturns(t: Task, priorEnv: Option<map<string, Option<string>>>)
    ensures var back := Overridden(DefaultTask(t.name), YamlPatch(t, priorEnv));
            && back.schedule == t.schedule
            && SameTask(back, t.(env := if t.clearEnv || t.env != map[] then t.env else KeptEnv(priorEnv)))
  {
    assert PatchedEnv(map[], AllPresent(t.env)) == t.env;
  }
}
