/** Reading and building the YAML overlay of a project (src/config/yaml.rs). */
module ConfigYaml {
  import opened Prelude

  const MAX_STOP_TIMEOUT_MS: nat := 300_000
  const DEFAULT_STOP_TIMEOUT_MS: nat := 3_000

  type StringMap = map<string, string>

  datatype Task = Task(
    name: string, command: string, args: seq<string>, cwd: string, env: StringMap, clearEnv: bool,
    shell: bool, autoStart: bool, stopTimeoutMs: nat, clearLogsOnRestart: bool, schedule: Option<string>)

  datatype Value =
    | Null
    | Bool(b: bool)
    | Number(n: int)
    | Str(s: string)
    | List(items: seq<Value>)
    | Mapping(fields: map<string, Value>)

  /** A task mapping: one entry for each key the program knows, and all other keys. */
  datatype Raw = Raw(
    enabled: Option<Value>, command: Option<Value>, args: Option<Value>, cwd: Option<Value>, env: Option<Value>,
    shell: Option<Value>, autoStart: Option<Value>, stopTimeoutMs: Option<Value>,
    clearLogsOnRestart: Option<Value>, schedule: Option<Value>, others: map<string, Value>)

  const EMPTY_RAW := Raw(None, None, None, None, None, None, None, None, None, None, map[])

  /** A parsed task mapping; `None` stands for a key that is absent or null. */
  datatype Patch = Patch(
    enabled: Option<bool>, command: Option<string>, args: Option<seq<string>>, cwd: Option<string>,
    env: Option<map<string, Option<string>>>, shell: Option<bool>, autoStart: Option<bool>,
    stopTimeoutMs: Option<nat>, clearLogsOnRestart: Option<bool>, schedule: Option<string>)

  // ---- Encoding and decoding values ------------------------------------------

  function Strings(xs: seq<string>): Value {
    List(seq(|xs|, i requires 0 <= i < |xs| => Str(xs[i])))
  }

  function OptionalStringMap(m: map<string, Option<string>>): Value {
    Mapping(map k | k in m :: match m[k] case Some(v) => Str(v) case None => Null)
  }

  function PlainStringMap(m: StringMap): Value {
    Mapping(map k | k in m :: Str(m[k]))
  }

  /** An absent key reads like a null one. */
  function Present(field: Option<Value>): Value {
    if field.Some? then field.value else Null
  }

  function AsBool(field: Option<Value>): Option<Option<bool>> {
    match Present(field) case Null => Some(None) case Bool(b) => Some(Some(b)) case _ => None
  }

  function AsString(field: Option<Value>): Option<Option<string>> {
    match Present(field) case Null => Some(None) case Str(s) => Some(Some(s)) case _ => None
  }

  function AsNat(field: Option<Value>): Option<Option<nat>> {
    match Present(field)
    case Null => Some(None)
    case Number(n) => if n >= 0 then Some(Some(n)) else None
    case _ => None
  }

  predicate AllStrings(items: seq<Value>) {
    forall i :: 0 <= i < |items| ==> items[i].Str?
  }

  function DecodeStrings(items: seq<Value>): seq<string>
    requires AllStrings(items)
  {
    seq(|items|, i requires 0 <= i < |items| => items[i].s)
  }

  function AsStrings(field: Option<Value>): Option<Option<seq<string>>> {
    match Present(field)
    case Null => Some(None)
    case List(items) => if AllStrings(items) then Some(Some(DecodeStrings(items))) else None
    case _ => None
  }

  predicate AllStringsOrNull(fields: map<string, Value>) {
    forall k :: k in fields ==> fields[k].Null? || fields[k].Str?
  }

  function DecodeOptional(fields: map<string, Value>): map<string, Option<string>>
    requires AllStringsOrNull(fields)
  {
    map k | k in fields :: if fields[k].Str? then Some(fields[k].s) else Option<string>.None
  }

  function AsOptionalMap(field: Option<Value>): Option<Option<map<string, Option<string>>>> {
    match Present(field)
    case Null => Some(None)
    case Mapping(fields) => if AllStringsOrNull(fields) then Some(Some(DecodeOptional(fields))) else None
    case _ => None
  }

  lemma StringsDecode(xs: seq<string>)
    ensures AsStrings(Some(Strings(xs))) == Some(Some(xs))
  {
    assert DecodeStrings(Strings(xs).items) == xs;
  }

  lemma OptionalMapDecodes(m: map<string, Option<string>>)
    ensures AsOptionalMap(Some(OptionalStringMap(m))) == Some(Some(m))
  {
    assert DecodeOptional(OptionalStringMap(m).fields) == m;
  }

  function AllPresent(m: StringMap): map<string, Option<string>> {
    map k | k in m :: Some(m[k])
  }

  lemma PlainMapDecodes(m: StringMap)
    ensures AsOptionalMap(Some(PlainStringMap(m))) == Some(Some(AllPresent(m)))
  {
    assert DecodeOptional(PlainStringMap(m).fields) == AllPresent(m);
  }

  function ParsePatch(raw: Raw): Option<Patch> {
    var enabled, shell := AsBool(raw.enabled), AsBool(raw.shell);
    var autoStart, clearLogs := AsBool(raw.autoStart), AsBool(raw.clearLogsOnRestart);
    var command, cwd := AsString(raw.command), AsString(raw.cwd);
    var schedule, timeout := AsString(raw.schedule), AsNat(raw.stopTimeoutMs);
    var args, env := AsStrings(raw.args), AsOptionalMap(raw.env);
    if enabled.None? || shell.None? || autoStart.None? || clearLogs.None? || command.None? || cwd.None?
       || schedule.None? || timeout.None? || args.None? || env.None?
    then None
    else if timeout.value.Some? && !(1 <= timeout.value.value <= MAX_STOP_TIMEOUT_MS) then None
    else Some(Patch(enabled.value, command.value, args.value, cwd.value, env.value, shell.value,
                    autoStart.value, timeout.value, clearLogs.value, schedule.value))
  }

  lemma ParsesTo(raw: Raw, p: Patch)
    requires AsBool(raw.enabled) == Some(p.enabled) && AsString(raw.command) == Some(p.command)
    requires AsStrings(raw.args) == Some(p.args) && AsString(raw.cwd) == Some(p.cwd)
    requires AsOptionalMap(raw.env) == Some(p.env) && AsBool(raw.shell) == Some(p.shell)
    requires AsBool(raw.autoStart) == Some(p.autoStart) && AsNat(raw.stopTimeoutMs) == Some(p.stopTimeoutMs)
    requires AsBool(raw.clearLogsOnRestart) == Some(p.clearLogsOnRestart) && AsString(raw.schedule) == Some(p.schedule)
    requires p.stopTimeoutMs.Some? ==> 1 <= p.stopTimeoutMs.value <= MAX_STOP_TIMEOUT_MS
    ensures ParsePatch(raw) == Some(p)
  {
  }

  /** A key that is there and not null. */
  predicate Given(field: Option<Value>) {
    field.Some? && !field.value.Null?
  }

  /** Every key that is given has a value of its own kind. */
  ghost predicate WellFormed(raw: Raw) {
    && (Given(raw.enabled) ==> raw.enabled.value.Bool?)
    && (Given(raw.command) ==> raw.command.value.Str?)
    && (Given(raw.args) ==> raw.args.value.List? && forall v :: v in raw.args.value.items ==> v.Str?)
    && (Given(raw.cwd) ==> raw.cwd.value.Str?)
    && (Given(raw.env) ==>
          && raw.env.value.Mapping?
          && forall k :: k in raw.env.value.fields ==> raw.env.value.fields[k].Null? || raw.env.value.fields[k].Str?)
    && (Given(raw.shell) ==> raw.shell.value.Bool?)
    && (Given(raw.autoStart) ==> raw.autoStart.value.Bool?)
    && (Given(raw.stopTimeoutMs) ==> raw.stopTimeoutMs.value.Number? && 0 < raw.stopTimeoutMs.value.n <= 300_000)
    && (Given(raw.clearLogsOnRestart) ==> raw.clearLogsOnRestart.value.Bool?)
    && (Given(raw.schedule) ==> raw.schedule.value.Str?)
  }

  /** The patch has exactly the values of the keys that are given. */
  ghost predicate Says(raw: Raw, p: Patch)
    requires WellFormed(raw)
  {
    && p.enabled == (if Given(raw.enabled) then Some(raw.enabled.value.b) else None)
    && p.command == (if Given(raw.command) then Some(raw.command.value.s) else None)
    && (if Given(raw.args) then
          && p.args.Some? && |p.args.value| == |raw.args.value.items|
          && forall i :: 0 <= i < |p.args.value| ==> raw.args.value.items[i] == Str(p.args.value[i])
        else p.args.None?)
    && p.cwd == (if Given(raw.cwd) then Some(raw.cwd.value.s) else None)
    && (if Given(raw.env) then
          && p.env.Some? && p.env.value.Keys == raw.env.value.fields.Keys
          && forall k :: k in p.env.value ==>
               raw.env.value.fields[k] == match p.env.value[k] case Some(v) => Str(v) case None => Null
        else p.env.None?)
    && p.shell == (if Given(raw.shell) then Some(raw.shell.value.b) else None)
    && p.autoStart == (if Given(raw.autoStart) then Some(raw.autoStart.value.b) else None)
    && p.stopTimeoutMs == (if Given(raw.stopTimeoutMs) then Some(raw.stopTimeoutMs.value.n) else None)
    && p.clearLogsOnRestart == (if Given(raw.clearLogsOnRestart) then Some(raw.clearLogsOnRestart.value.b) else None)
    && p.schedule == (if Given(raw.schedule) then Some(raw.schedule.value.s) else None)
  }

  lemma ArgsParse(field: Option<Value>)
    ensures AsStrings(field).Some? <==>
              (Given(field) ==> field.value.List? && forall v :: v in field.value.items ==> v.Str?)
  {
    if Given(field) && field.value.List? && AllStrings(field.value.items) {
      forall v | v in field.value.items ensures v.Str? {
        var i :| 0 <= i < |field.value.items| && field.value.items[i] == v;
      }
    }
  }

  /** A mapping is read if and only if it is well formed, whoever wrote it, and then it
      is read for what it says. */
  lemma ParsesExactly(raw: Raw)
    ensures ParsePatch(raw).Some? <==> WellFormed(raw)
    ensures ParsePatch(raw).Some? ==> Says(raw, ParsePatch(raw).value)
  {
    ArgsParse(raw.args);
  }

  // ---- Building task mappings --------------------------------------------------

  function PutIf(condition: bool, v: Value): Option<Value> {
    if condition then Some(v) else None
  }

  /** All known keys are rewritten; the keys the program does not know stay. */
  function BuildYamlTaskMapping(t: Task, prior: Raw): Raw {
    Raw(None,
        Some(Str(t.command)),
        Some(Strings(t.args)),
        Some(Str(t.cwd)),
        if t.clearEnv || t.env != map[] then Some(PlainStringMap(t.env)) else prior.env,
        Some(Bool(t.shell)),
        Some(Bool(t.autoStart)),
        Some(Number(t.stopTimeoutMs)),
        Some(Bool(t.clearLogsOnRestart)),
        if t.schedule.Some? then Some(Str(t.schedule.value)) else None,
        prior.others)
  }

  function BuildDisabledImportMapping(prior: Raw): Raw {
    Raw(Some(Bool(false)), None, None, None, None, None, None, None, None, None, prior.others)
  }

  function EnvDiff(base: Task, t: Task): map<string, Option<string>> {
    if t.clearEnv then
      (map k | k in base.env.Keys + t.env.Keys :: if k in t.env then Some(t.env[k]) else Option<string>.None)
    else
      (map k | k in base.env.Keys + t.env.Keys && (k !in t.env || k !in base.env || base.env[k] != t.env[k]) ::
         if k in t.env then Some(t.env[k]) else Option<string>.None)
  }

  /** Submitted values that the import does not have, and tombstones for names the
      submission leaves out. */
  method BuildImportedEnvDiff(base: Task, t: Task) returns (diff: map<string, Option<string>>)
    ensures diff == EnvDiff(base, t.(clearEnv := false))
  {
    diff := map[];
    var rest := t.env.Keys;
    while rest != {}
      invariant rest <= t.env.Keys
      invariant diff == map k | k in t.env.Keys - rest && !(k in base.env && base.env[k] == t.env[k]) :: Some(t.env[k])
      decreases rest
    {
      var k :| k in rest;
      rest := rest - {k};
      if !(k in base.env && base.env[k] == t.env[k]) {
        diff := diff[k := Some(t.env[k])];
      }
    }
    ghost var changed := diff;
    rest := base.env.Keys;
    while rest != {}
      invariant rest <= base.env.Keys
      invariant forall k :: k in diff <==> k in changed || (k in base.env.Keys - rest && k !in t.env)
      invariant forall k :: k in diff ==> diff[k] == if k in changed then changed[k] else None
      decreases rest
    {
      var k :| k in rest;
      rest := rest - {k};
      if k !in t.env {
        diff := diff[k := None];
      }
    }
  }

  /** Clearing: tombstones for every imported name, then the submitted values. */
  method BuildClearedEnvDiff(base: Task, t: Task) returns (diff: map<string, Option<string>>)
    ensures diff == EnvDiff(base, t.(clearEnv := true))
  {
    diff := map k | k in base.env :: None;
    var rest := t.env.Keys;
    while rest != {}
      invariant rest <= t.env.Keys
      invariant forall k :: k in diff <==> k in base.env || k in t.env.Keys - rest
      invariant forall k :: k in diff ==> diff[k] == if k in t.env && k !in rest then Some(t.env[k]) else None
      decreases rest
    {
      var k :| k in rest;
      rest := rest - {k};
      diff := diff[k := Some(t.env[k])];
    }
  }

  /** Only what differs from the imported task is written. */
  function BuildImportedTaskMapping(base: Task, t: Task, prior: Raw): Raw {
    Raw(None,
        PutIf(t.command != base.command, Str(t.command)),
        PutIf(t.args != base.args, Strings(t.args)),
        PutIf(t.cwd != base.cwd, Str(t.cwd)),
        PutIf(EnvDiff(base, t) != map[], OptionalStringMap(EnvDiff(base, t))),
        PutIf(t.shell != base.shell, Bool(t.shell)),
        PutIf(t.autoStart != base.autoStart, Bool(t.autoStart)),
        PutIf(t.stopTimeoutMs != base.stopTimeoutMs, Number(t.stopTimeoutMs)),
        PutIf(t.clearLogsOnRestart != base.clearLogsOnRestart, Bool(t.clearLogsOnRestart)),
        PutIf(t.schedule != base.schedule, if t.schedule.Some? then Str(t.schedule.value) else Null),
        prior.others)
  }

  // ---- What a built mapping says when it is read back ---------------------------

  function Changed<T(==)>(before: T, after: T): Option<T> {
    if before == after then None else Some(after)
  }

  ghost function ImportedPatch(base: Task, t: Task): Patch {
    Patch(None, Changed(base.command, t.command), Changed(base.args, t.args), Changed(base.cwd, t.cwd),
          Changed(map[], EnvDiff(base, t)), Changed(base.shell, t.shell), Changed(base.autoStart, t.autoStart),
          Changed(base.stopTimeoutMs, t.stopTimeoutMs), Changed(base.clearLogsOnRestart, t.clearLogsOnRestart),
          if t.schedule == base.schedule then None else t.schedule)
  }

  lemma ArgsDiffParses(before: seq<string>, after: seq<string>)
    ensures AsStrings(PutIf(after != before, Strings(after))) == Some(Changed(before, after))
  {
    StringsDecode(after);
  }

  lemma EnvDiffParses(diff: map<string, Option<string>>)
    ensures AsOptionalMap(PutIf(diff != map[], OptionalStringMap(diff))) == Some(Changed(map[], diff))
  {
    OptionalMapDecodes(diff);
  }

  /** Reading back a diff against an imported task gives exactly what changed. */
  lemma ImportedMappingParses(base: Task, t: Task, prior: Raw)
    requires 1 <= t.stopTimeoutMs <= MAX_STOP_TIMEOUT_MS
    ensures var raw := BuildImportedTaskMapping(base, t, prior);
            raw.others == prior.others && ParsePatch(raw) == Some(ImportedPatch(base, t))
  {
    ArgsDiffParses(base.args, t.args);
    EnvDiffParses(EnvDiff(base, t));
    ParsesTo(BuildImportedTaskMapping(base, t, prior), ImportedPatch(base, t));
  }

  ghost function YamlPatch(t: Task, priorEnv: Option<map<string, Option<string>>>): Patch {
    Patch(None, Some(t.command), Some(t.args), Some(t.cwd),
          if t.clearEnv || t.env != map[] then Some(AllPresent(t.env)) else priorEnv,
          Some(t.shell), Some(t.autoStart), Some(t.stopTimeoutMs), Some(t.clearLogsOnRestart), t.schedule)
  }

  lemma YamlMappingParses(t: Task, prior: Raw)
    requires 1 <= t.stopTimeoutMs <= MAX_STOP_TIMEOUT_MS
    requires ParsePatch(prior).Some?
    ensures var raw := BuildYamlTaskMapping(t, prior);
            raw.others == prior.others && ParsePatch(raw) == Some(YamlPatch(t, ParsePatch(prior).value.env))
  {
    StringsDecode(t.args);
    PlainMapDecodes(t.env);
    ParsesTo(BuildYamlTaskMapping(t, prior), YamlPatch(t, ParsePatch(prior).value.env));
  }

  lemma DisabledMappingParses(prior: Raw)
    ensures var raw := BuildDisabledImportMapping(prior);
            && raw.others == prior.others
            && ParsePatch(raw).Some? && ParsePatch(raw).value.enabled == Some(false)
  {
  }
}
