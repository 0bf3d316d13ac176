/** Writing a submitted configuration and loading it back (src/config/session_config.rs). */
module ConfigSession {
  import opened Prelude
  import opened Text
  import opened ConfigYaml
  import opened ConfigMerge

  datatype Node = Fields(raw: Raw) | NoFields | NotFields

  datatype Tasks = Table(nodes: map<string, Node>) | NoTable | NotATable

  /** The top-level mapping of taskdeck.yaml. */
  datatype Root = Root(
    version: Option<Value>, session: Option<Value>, workspaceEnv: Option<Value>, taskOrder: Option<Value>,
    tasks: Option<Tasks>, others: map<string, Value>)

  const EMPTY_ROOT := Root(None, None, None, None, None, map[])

  datatype Document = Document(root: Root, workspaceEnv: StringMap, taskOrder: seq<string>, entries: Entries)

  // ---- Loading -------------------------------------------------------------------

  predicate AllStringValues(fields: map<string, Value>) {
    forall k :: k in fields ==> fields[k].Str?
  }

  function DecodePlain(fields: map<string, Value>): StringMap
    requires AllStringValues(fields)
  {
    map k | k in fields :: fields[k].s
  }

  function AsPlainMap(field: Option<Value>): Option<StringMap> {
    match field
    case None => Some(map[])
    case Some(Mapping(fields)) => if AllStringValues(fields) then Some(DecodePlain(fields)) else None
    case _ => None
  }

  lemma PlainMapLoads(env: StringMap)
    ensures AsPlainMap(Some(PlainStringMap(env))) == Some(env)
  {
    assert DecodePlain(PlainStringMap(env).fields) == env;
  }

  function AsLabels(field: Option<Value>): Option<seq<string>> {
    match field
    case None => Some([])
    case Some(List(items)) => if AllStrings(items) then Some(DecodeStrings(items)) else None
    case _ => None
  }

  function RawOf(node: Node): Raw {
    if node.Fields? then node.raw else EMPTY_RAW
  }

  predicate NodeOk(node: Node) {
    !node.NotFields? && ParsePatch(RawOf(node)).Some?
  }

  function AsEntries(tasks: Option<Tasks>): Option<Entries> {
    match tasks
    case None => Some(map[])
    case Some(NoTable) => Some(map[])
    case Some(Table(nodes)) =>
      if forall name :: name in nodes ==> NodeOk(nodes[name])
      then Some(map name | name in nodes && NodeOk(nodes[name]) ::
                  Entry(RawOf(nodes[name]), ParsePatch(RawOf(nodes[name])).value))
      else None
    case Some(NotATable) => None
  }

  lemma TableLoads(nodes: map<string, Node>)
    requires forall name :: name in nodes ==> NodeOk(nodes[name])
    ensures var entries := AsEntries(Some(Table(nodes)));
            && entries.Some? && entries.value.Keys == nodes.Keys
            && forall name :: name in nodes ==>
                 entries.value[name] == Entry(RawOf(nodes[name]), ParsePatch(RawOf(nodes[name])).value)
  {
  }

  function LoadYamlDocument(root: Root): Option<Document> {
    var env, order, entries := AsPlainMap(root.workspaceEnv), AsLabels(root.taskOrder), AsEntries(root.tasks);
    if (root.version.Some? && root.version.value != Number(1)) || AsString(root.session).None?
       || env.None? || order.None? || entries.None?
    then None
    else Some(Document(root, env.value, order.value, entries.value))
  }

  ghost predicate TasksWellFormed(tasks: Option<Tasks>) {
    tasks.Some? ==>
      && !tasks.value.NotATable?
      && (tasks.value.Table? ==>
            forall name :: name in tasks.value.nodes ==>
              match tasks.value.nodes[name]
              case Fields(raw) => WellFormed(raw)
              case NoFields => true
              case NotFields => false)
  }

  /** The entries are the nodes, one for one; an empty node says nothing. */
  ghost predicate EntriesSay(tasks: Option<Tasks>, entries: Entries) {
    if tasks.Some? && tasks.value.Table? then
      && entries.Keys == tasks.value.nodes.Keys
      && forall name :: name in entries ==>
           && entries[name].raw == (match tasks.value.nodes[name] case Fields(raw) => raw case _ => EMPTY_RAW)
           && WellFormed(entries[name].raw) && Says(entries[name].raw, entries[name].patch)
    else entries == map[]
  }

  /** The file loads if and only if its version is 1 or left out, and every other key
      that is there is of its own kind. */
  ghost predicate RootWellFormed(root: Root) {
    && (root.version.Some? ==> root.version.value == Number(1))
    && (root.session.Some? ==> root.session.value.Null? || root.session.value.Str?)
    && (root.workspaceEnv.Some? ==>
          && root.workspaceEnv.value.Mapping?
          && forall k :: k in root.workspaceEnv.value.fields ==> root.workspaceEnv.value.fields[k].Str?)
    && (root.taskOrder.Some? ==>
          root.taskOrder.value.List? && forall v :: v in root.taskOrder.value.items ==> v.Str?)
    && TasksWellFormed(root.tasks)
  }

  ghost predicate DocumentSays(root: Root, d: Document)
    requires RootWellFormed(root)
  {
    && d.root == root && EntriesSay(root.tasks, d.entries)
    && (if root.workspaceEnv.Some? then
          && d.workspaceEnv.Keys == root.workspaceEnv.value.fields.Keys
          && forall k :: k in d.workspaceEnv ==> root.workspaceEnv.value.fields[k] == Str(d.workspaceEnv[k])
        else d.workspaceEnv == map[])
    && (if root.taskOrder.Some? then
          && |d.taskOrder| == |root.taskOrder.value.items|
          && forall i :: 0 <= i < |d.taskOrder| ==> root.taskOrder.value.items[i] == Str(d.taskOrder[i])
        else d.taskOrder == [])
  }

  lemma EntriesExactly(tasks: Option<Tasks>)
    ensures AsEntries(tasks).Some? <==> TasksWellFormed(tasks)
    ensures AsEntries(tasks).Some? ==> EntriesSay(tasks, AsEntries(tasks).value)
  {
    if tasks.Some? && tasks.value.Table? {
      var nodes := tasks.value.nodes;
      forall name | name in nodes
        ensures NodeOk(nodes[name]) <==>
                  match nodes[name] case Fields(raw) => WellFormed(raw) case NoFields => true case NotFields => false
        ensures NodeOk(nodes[name]) ==>
                  && WellFormed(RawOf(nodes[name]))
                  && Says(RawOf(nodes[name]), ParsePatch(RawOf(nodes[name])).value)
      {
        ParsesExactly(RawOf(nodes[name]));
      }
    }
  }

  lemma LabelsExactly(field: Option<Value>)
    ensures AsLabels(field).Some? <==>
              (field.Some? ==> field.value.List? && forall v :: v in field.value.items ==> v.Str?)
  {
    if field.Some? && field.value.List? && AllStrings(field.value.items) {
      forall v | v in field.value.items ensures v.Str? {
        var i :| 0 <= i < |field.value.items| && field.value.items[i] == v;
      }
    }
  }

  /** Loading takes exactly the well-formed files, and for what they say. */
  lemma LoadsExactly(root: Root)
    ensures LoadYamlDocument(root).Some? <==> RootWellFormed(root)
    ensures LoadYamlDocument(root).Some? ==> DocumentSays(root, LoadYamlDocument(root).value)
  {
    EntriesExactly(root.tasks);
    LabelsExactly(root.taskOrder);
  }

  // ---- Writing -------------------------------------------------------------------

  function PriorRaw(prior: Option<Document>, name: string): Raw {
    if prior.Some? && name in prior.value.entries then prior.value.entries[name].raw else EMPTY_RAW
  }

  function SubmittedMapping(base: TaskMap, prior: Option<Document>, t: Task, name: string): Raw {
    if name in base then BuildImportedTaskMapping(base[name], t, PriorRaw(prior, name))
    else BuildYamlTaskMapping(t, PriorRaw(prior, name))
  }

  /** One node for each submitted task that needs one. */
  function SubmittedNodes(base: TaskMap, prior: Option<Document>, submitted: TaskMap): map<string, Node> {
    map name | name in submitted && SubmittedMapping(base, prior, submitted[name], name) != EMPTY_RAW ::
      Fields(SubmittedMapping(base, prior, submitted[name], name))
  }

  /** A marker for each imported task that the submission leaves out. */
  function DisabledNodes(base: TaskMap, prior: Option<Document>, submitted: TaskMap): map<string, Node> {
    map name | name in base && name !in submitted :: Fields(BuildDisabledImportMapping(PriorRaw(prior, name)))
  }

  function WrittenNodes(base: TaskMap, prior: Option<Document>, submitted: TaskMap): map<string, Node> {
    SubmittedNodes(base, prior, submitted) + DisabledNodes(base, prior, submitted)
  }

  function WrittenRoot(base: TaskMap, prior: Option<Document>, submitted: TaskMap, order: seq<string>,
                       env: StringMap): Root {
    var root := if prior.Some? then prior.value.root else EMPTY_ROOT;
    Root(Some(Number(1)), root.session, if env == map[] then None else Some(PlainStringMap(env)),
         Some(Strings(order)), Some(Table(WrittenNodes(base, prior, submitted))), root.others)
  }

  datatype WriteError = StaleRevision(current: string) | Validation

  datatype Prepared = Prepared(root: Root, submitted: TaskMap, order: seq<string>, workspaceEnv: StringMap)

  ghost predicate Submittable(cron: string -> bool, tasks: seq<Task>) {
    && (forall t :: t in tasks ==> ValidTask(cron, t))
    && forall i, j :: 0 <= i < j < |tasks| ==> tasks[i].name != tasks[j].name
  }

  /** `submitted` and `order` index the submitted list by label. */
  ghost predicate Indexes(cron: string -> bool, submitted: TaskMap, order: seq<string>) {
    && ListsEachOnce(order, submitted)
    && forall name :: name in submitted ==> submitted[name].name == name && ValidTask(cron, submitted[name])
  }

  lemma IndexOneMore(cron: string -> bool, submitted: TaskMap, order: seq<string>, t: Task)
    requires Indexes(cron, submitted, order) && ValidTask(cron, t) && t.name !in submitted
    ensures Indexes(cron, submitted[t.name := t], order + [t.name])
  {
  }

  ghost predicate SameTasks(tasks: seq<Task>, submitted: TaskMap, order: seq<string>) {
    && |order| == |tasks|
    && forall i :: 0 <= i < |tasks| ==>
         order[i] == tasks[i].name && order[i] in submitted && submitted[order[i]] == tasks[i]
  }

  method ValidateSubmittedTasks(cron: string -> bool, tasks: seq<Task>)
    returns (ok: bool, submitted: TaskMap, order: seq<string>)
    ensures ok <==> Submittable(cron, tasks)
    ensures ok ==> Indexes(cron, submitted, order) && SameTasks(tasks, submitted, order)
  {
    submitted, order := map[], [];
    for i := 0 to |tasks|
      invariant Indexes(cron, submitted, order) && SameTasks(tasks[..i], submitted, order)
      invariant Submittable(cron, tasks[..i])
    {
      var task := tasks[i];
      if !ValidTask(cron, task) {
        assert task in tasks;
        return false, submitted, order;
      }
      if task.name in submitted {
        ghost var j :| 0 <= j < i && order[j] == task.name;
        assert tasks[..i][j].name == tasks[i].name;
        return false, submitted, order;
      }
      IndexOneMore(cron, submitted, order, task);
      TakeOneMore(tasks, i);
      order := order + [task.name];
      submitted := submitted[task.name := task];
    }
    assert tasks[..|tasks|] == tasks;
    return true, submitted, order;
  }

  lemma SubmittedNodesOneMore(base: TaskMap, prior: Option<Document>, done: TaskMap, name: string, t: Task)
    requires name !in done
    ensures var mapping := SubmittedMapping(base, prior, t, name);
            var before := SubmittedNodes(base, prior, done);
            SubmittedNodes(base, prior, done[name := t])
              == if mapping != EMPTY_RAW then before[name := Fields(mapping)] else before
  {
  }

  method BuildNodes(base: TaskMap, prior: Option<Document>, submitted: TaskMap) returns (nodes: map<string, Node>)
    ensures nodes == WrittenNodes(base, prior, submitted)
  {
    nodes := map[];
    var rest := submitted.Keys;
    ghost var done: TaskMap := map[];
    while rest != {}
      invariant rest !! done.Keys && rest + done.Keys == submitted.Keys
      invariant forall name :: name in done ==> done[name] == submitted[name]
      invariant nodes == SubmittedNodes(base, prior, done)
      decreases rest
    {
      var name :| name in rest;
      rest := rest - {name};
      SubmittedNodesOneMore(base, prior, done, name, submitted[name]);
      done := done[name := submitted[name]];
      var mapping := SubmittedMapping(base, prior, submitted[name], name);
      if mapping != EMPTY_RAW {
        nodes := nodes[name := Fields(mapping)];
      }
    }
    assert done == submitted;
    var markers := BuildMarkers(base, prior, submitted);
    nodes := nodes + markers;
  }

  method BuildMarkers(base: TaskMap, prior: Option<Document>, submitted: TaskMap) returns (markers: map<string, Node>)
    ensures markers == DisabledNodes(base, prior, submitted)
  {
    markers := map[];
    var rest := base.Keys;
    while rest != {}
      invariant rest <= base.Keys
      invariant markers == map name | name in base.Keys - rest && name !in submitted ::
                  Fields(BuildDisabledImportMapping(PriorRaw(prior, name)))
      decreases rest
    {
      var name :| name in rest;
      rest := rest - {name};
      if name !in submitted {
        markers := markers[name := Fields(BuildDisabledImportMapping(PriorRaw(prior, name)))];
      }
    }
  }

  method PrepareSessionConfigWrite(cron: string -> bool, base: TaskMap, prior: Option<Document>,
                                   current: string, revision: string, tasks: seq<Task>,
                                   workspaceEnv: Option<StringMap>)
    returns (r: Result<Prepared, WriteError>)
    ensures r.Err? && r.error.StaleRevision? <==> revision != current
    ensures var env := if workspaceEnv.Some? then workspaceEnv.value
                       else if prior.Some? then prior.value.workspaceEnv else map[];
            && (r.Ok? <==> revision == current && NamesFilled(env) && Submittable(cron, tasks))
            && (r.Ok? ==>
                  && Indexes(cron, r.value.submitted, r.value.order) && r.value.workspaceEnv == env
                  && r.value.root == WrittenRoot(base, prior, r.value.submitted, r.value.order, env))
  {
    if revision != current {
      return Err(StaleRevision(current));
    }
    var env := if workspaceEnv.Some? then workspaceEnv.value
               else if prior.Some? then prior.value.workspaceEnv else map[];
    if !NamesFilled(env) {
      return Err(Validation);
    }
    var ok, submitted, order := ValidateSubmittedTasks(cron, tasks);
    if !ok {
      return Err(Validation);
    }
    var nodes := BuildNodes(base, prior, submitted);
    var root := if prior.Some? then prior.value.root else EMPTY_ROOT;
    root := root.(version := Some(Number(1)), taskOrder := Some(Strings(order)),
                  workspaceEnv := if env == map[] then None else Some(PlainStringMap(env)),
                  tasks := Some(Table(nodes)));
    return Ok(Prepared(root, submitted, order, env));
  }

  // ---- Writing and loading undo each other -------------------------------------

  /** What VS Code tasks always are: keyed by label, and without a schedule. */
  ghost predicate IsImport(base: TaskMap) {
    forall name :: name in base ==> base[name].name == name && base[name].schedule.None?
  }

  ghost predicate WasLoaded(prior: Option<Document>) {
    prior.Some? ==> LoadYamlDocument(prior.value.root) == Some(prior.value)
  }

  function PriorEnv(prior: Option<Document>, name: string): StringMap {
    if prior.Some? && name in prior.value.entries then KeptEnv(prior.value.entries[name].patch.env) else map[]
  }

  /** The one case in which a submission does not replace what it covers. */
  predicate KeepsPriorEnv(base: TaskMap, prior: Option<Document>, t: Task) {
    t.name !in base && !t.clearEnv && t.env == map[] && PriorEnv(prior, t.name) != map[]
  }

  /** The task that a submission amounts to. */
  function Effective(base: TaskMap, prior: Option<Document>, t: Task): Task {
    if KeepsPriorEnv(base, prior, t) then t.(env := PriorEnv(prior, t.name)) else t
  }

  lemma PriorParses(prior: Option<Document>, name: string)
    requires WasLoaded(prior)
    ensures var patch := ParsePatch(PriorRaw(prior, name));
            patch.Some? && KeptEnv(patch.value.env) == PriorEnv(prior, name)
  {
  }

  /** One submitted task: its mapping reads back as the task, keeps the keys the
      program does not know, and is only left out when it would say nothing. */
  lemma SubmittedTaskReturns(base: TaskMap, prior: Option<Document>, t: Task)
    requires IsImport(base) && WasLoaded(prior)
    requires 1 <= t.stopTimeoutMs <= MAX_STOP_TIMEOUT_MS
    ensures var raw := SubmittedMapping(base, prior, t, t.name);
            && raw.others == PriorRaw(prior, t.name).others
            && (raw == EMPTY_RAW <==>
                  && t.name in base && SameTask(base[t.name], t) && (t.clearEnv ==> t.env == map[])
                  && PriorRaw(prior, t.name).others == map[])
            && ParsePatch(raw).Some? && ParsePatch(raw).value.enabled.None?
            && SameTask(Overridden(BaseOf(base, t.name), ParsePatch(raw).value), Effective(base, prior, t))
  {
    PriorParses(prior, t.name);
    if t.name in base {
      ImportedReturns(base[t.name], t, PriorRaw(prior, t.name));
    } else {
      YamlReturns(base, prior, t);
    }
  }

  lemma YamlReturns(base: TaskMap, prior: Option<Document>, t: Task)
    requires WasLoaded(prior) && t.name !in base && 1 <= t.stopTimeoutMs <= MAX_STOP_TIMEOUT_MS
    ensures var raw := BuildYamlTaskMapping(t, PriorRaw(prior, t.name));
            && raw.others == PriorRaw(prior, t.name).others && raw != EMPTY_RAW
            && ParsePatch(raw).Some? && ParsePatch(raw).value.enabled.None?
            && SameTask(Overridden(DefaultTask(t.name), ParsePatch(raw).value), Effective(base, prior, t))
  {
    PriorParses(prior, t.name);
    YamlMappingParses(t, PriorRaw(prior, t.name));
    YamlTaskReturns(t, ParsePatch(PriorRaw(prior, t.name)).value.env);
  }

  lemma ImportedReturns(base: Task, t: Task, prior: Raw)
    requires base.name == t.name && base.schedule.None?
    requires 1 <= t.stopTimeoutMs <= MAX_STOP_TIMEOUT_MS
    ensures var raw := BuildImportedTaskMapping(base, t, prior);
            && raw.others == prior.others
            && (raw == EMPTY_RAW <==>
                  SameTask(base, t) && (t.clearEnv ==> t.env == map[]) && prior.others == map[])
            && ParsePatch(raw).Some? && ParsePatch(raw).value.enabled.None?
            && SameTask(Overridden(base, ParsePatch(raw).value), t)
  {
    ImportedMappingParses(base, t, prior);
    ImportedTaskReturns(base, t);
    EmptyPatchOverridesNothing(base);
  }

  lemma EmptyPatchOverridesNothing(t: Task)
    ensures ParsePatch(EMPTY_RAW).Some? && Overridden(t, ParsePatch(EMPTY_RAW).value) == t
  {
  }

  /** The entries that will be found at the next load. */
  ghost function LoadedEntries(base: TaskMap, prior: Option<Document>, submitted: TaskMap): Option<Entries> {
    AsEntries(Some(Table(WrittenNodes(base, prior, submitted))))
  }

  function NodeRaw(base: TaskMap, prior: Option<Document>, submitted: TaskMap, name: string): Raw {
    if name in submitted then SubmittedMapping(base, prior, submitted[name], name)
    else BuildDisabledImportMapping(PriorRaw(prior, name))
  }

  predicate HasNode(base: TaskMap, prior: Option<Document>, submitted: TaskMap, name: string) {
    (name in submitted || name in base) && NodeRaw(base, prior, submitted, name) != EMPTY_RAW
  }

  lemma NodeIs(base: TaskMap, prior: Option<Document>, submitted: TaskMap, name: string)
    ensures var nodes := WrittenNodes(base, prior, submitted);
            && (name in nodes <==> HasNode(base, prior, submitted, name))
            && (name in nodes ==> nodes[name] == Fields(NodeRaw(base, prior, submitted, name)))
  {
  }

  lemma NodeReads(cron: string -> bool, base: TaskMap, prior: Option<Document>, submitted: TaskMap, order: seq<string>,
                  name: string)
    requires IsImport(base) && WasLoaded(prior) && Indexes(cron, submitted, order)
    ensures var patch := ParsePatch(NodeRaw(base, prior, submitted, name));
            && patch.Some?
            && (patch.value.enabled == Some(false) <==> name !in submitted)
            && (name in submitted ==>
                  && (!HasNode(base, prior, submitted, name) ==>
                        name in base && SameTask(base[name], Effective(base, prior, submitted[name])))
                  && SameTask(Overridden(BaseOf(base, name), patch.value), Effective(base, prior, submitted[name])))
  {
    if name in submitted {
      SubmittedTaskReturns(base, prior, submitted[name]);
    } else {
      DisabledMappingParses(PriorRaw(prior, name));
    }
  }

  /** What `LoadedEntries` holds, said entry by entry. */
  ghost predicate EntriesRead(base: TaskMap, prior: Option<Document>, submitted: TaskMap, entries: Entries) {
    forall name :: EntryReads(base, prior, submitted, entries, name)
  }

  ghost predicate EntryReads(base: TaskMap, prior: Option<Document>, submitted: TaskMap, entries: Entries,
                             name: string) {
    if HasNode(base, prior, submitted, name) then
      && name in entries && entries[name].raw == NodeRaw(base, prior, submitted, name)
      && ParsePatch(entries[name].raw) == Some(entries[name].patch)
    else
      name !in entries
  }

  lemma NodesParse(cron: string -> bool, base: TaskMap, prior: Option<Document>, submitted: TaskMap, order: seq<string>)
    requires IsImport(base) && WasLoaded(prior) && Indexes(cron, submitted, order)
    ensures var nodes := WrittenNodes(base, prior, submitted); forall name :: name in nodes ==> NodeOk(nodes[name])
  {
    var nodes := WrittenNodes(base, prior, submitted);
    forall name | name in nodes ensures NodeOk(nodes[name]) {
      NodeIs(base, prior, submitted, name);
      NodeReads(cron, base, prior, submitted, order, name);
    }
  }

  lemma EntryIsRead(base: TaskMap, prior: Option<Document>, submitted: TaskMap, entries: Entries, name: string)
    requires var nodes := WrittenNodes(base, prior, submitted);
             && entries.Keys == nodes.Keys
             && (name in nodes ==>
                   && NodeOk(nodes[name])
                   && entries[name] == Entry(RawOf(nodes[name]), ParsePatch(RawOf(nodes[name])).value))
    ensures EntryReads(base, prior, submitted, entries, name)
  {
    NodeIs(base, prior, submitted, name);
  }

  lemma EntriesLoad(cron: string -> bool, base: TaskMap, prior: Option<Document>, submitted: TaskMap,
                    order: seq<string>)
    requires IsImport(base) && WasLoaded(prior) && Indexes(cron, submitted, order)
    ensures LoadedEntries(base, prior, submitted).Some?
    ensures EntriesRead(base, prior, submitted, LoadedEntries(base, prior, submitted).value)
  {
    NodesParse(cron, base, prior, submitted, order);
    TableLoads(WrittenNodes(base, prior, submitted));
    var entries := LoadedEntries(base, prior, submitted).value;
    forall name ensures EntryReads(base, prior, submitted, entries, name) {
      EntryIsRead(base, prior, submitted, entries, name);
    }
  }

  lemma MergedNameReturns(cron: string -> bool, base: TaskMap, prior: Option<Document>, submitted: TaskMap,
                          order: seq<string>, entries: Entries, name: string)
    requires IsImport(base) && WasLoaded(prior) && Indexes(cron, submitted, order)
    requires EntriesRead(base, prior, submitted, entries)
    ensures name in Merged(base, entries) <==> name in submitted
    ensures name in submitted ==>
              SameTask(Merged(base, entries)[name], Effective(base, prior, submitted[name]))
  {
    NodeReads(cron, base, prior, submitted, order, name);
    assert EntryReads(base, prior, submitted, entries, name);
  }

  lemma MergedNames(cron: string -> bool, base: TaskMap, prior: Option<Document>, submitted: TaskMap,
                    order: seq<string>, entries: Entries)
    requires IsImport(base) && WasLoaded(prior) && Indexes(cron, submitted, order)
    requires EntriesRead(base, prior, submitted, entries)
    ensures Merged(base, entries).Keys == submitted.Keys
  {
    forall name ensures name in Merged(base, entries) <==> name in submitted {
      MergedNameReturns(cron, base, prior, submitted, order, entries, name);
    }
  }

  lemma MergedTasks(cron: string -> bool, base: TaskMap, prior: Option<Document>, submitted: TaskMap,
                    order: seq<string>, entries: Entries)
    requires IsImport(base) && WasLoaded(prior) && Indexes(cron, submitted, order)
    requires EntriesRead(base, prior, submitted, entries)
    ensures forall name :: name in submitted ==>
              && name in Merged(base, entries)
              && SameTask(Merged(base, entries)[name], Effective(base, prior, submitted[name]))
  {
    forall name | name in submitted
      ensures name in Merged(base, entries)
      ensures SameTask(Merged(base, entries)[name], Effective(base, prior, submitted[name]))
    {
      MergedNameReturns(cron, base, prior, submitted, order, entries, name);
    }
  }

  /** Laying what was written over the imports gives every submitted task, and no other. */
  lemma MergedIsSubmitted(cron: string -> bool, base: TaskMap, prior: Option<Document>, submitted: TaskMap,
                          order: seq<string>)
    requires IsImport(base) && WasLoaded(prior) && Indexes(cron, submitted, order)
    ensures LoadedEntries(base, prior, submitted).Some?
    ensures var merged := Merged(base, LoadedEntries(base, prior, submitted).value);
            && merged.Keys == submitted.Keys
            && forall name :: name in submitted ==> SameTask(merged[name], Effective(base, prior, submitted[name]))
  {
    EntriesLoad(cron, base, prior, submitted, order);
    MergedNames(cron, base, prior, submitted, order, LoadedEntries(base, prior, submitted).value);
    MergedTasks(cron, base, prior, submitted, order, LoadedEntries(base, prior, submitted).value);
  }

  /** Keys that the program does not know stay with their task, and keep it in the file. */
  lemma UnknownKeysStay(cron: string -> bool, base: TaskMap, prior: Option<Document>, submitted: TaskMap,
                        order: seq<string>, name: string)
    requires IsImport(base) && WasLoaded(prior) && Indexes(cron, submitted, order)
    requires prior.Some? && name in prior.value.entries && (name in submitted || name in base)
    ensures LoadedEntries(base, prior, submitted).Some?
    ensures var entries, others := LoadedEntries(base, prior, submitted).value, prior.value.entries[name].raw.others;
            && (name in entries ==> entries[name].raw.others == others)
            && (others != map[] ==> name in entries)
  {
    EntriesLoad(cron, base, prior, submitted, order);
    assert EntryReads(base, prior, submitted, LoadedEntries(base, prior, submitted).value, name);
    if name in submitted {
      SubmittedTaskReturns(base, prior, submitted[name]);
    }
  }

  lemma RootLoads(cron: string -> bool, base: TaskMap, prior: Option<Document>, submitted: TaskMap,
                  order: seq<string>, env: StringMap)
    requires IsImport(base) && WasLoaded(prior) && Indexes(cron, submitted, order)
    ensures var root := WrittenRoot(base, prior, submitted, order, env);
            && LoadedEntries(base, prior, submitted).Some?
            && LoadYamlDocument(root)
                 == Some(Document(root, env, order, LoadedEntries(base, prior, submitted).value))
  {
    EntriesLoad(cron, base, prior, submitted, order);
    StringsDecode(order);
    PlainMapLoads(env);
  }

  lemma EffectiveIsValid(cron: string -> bool, base: TaskMap, prior: Option<Document>, t: Task, back: Task)
    requires ValidTask(cron, t) && SameTask(back, Effective(base, prior, t))
    ensures ValidTask(cron, back) <==> (KeepsPriorEnv(base, prior, t) ==> NamesFilled(PriorEnv(prior, t.name)))
  {
  }

  lemma ValidWhenLoaded(cron: string -> bool, base: TaskMap, prior: Option<Document>, submitted: TaskMap,
                        order: seq<string>, entries: Entries, name: string)
    requires IsImport(base) && WasLoaded(prior) && Indexes(cron, submitted, order)
    requires EntriesRead(base, prior, submitted, entries) && name in submitted
    ensures name in base || name in entries
    ensures ValidTask(cron, MergedTask(base, entries, name)) <==>
              (KeepsPriorEnv(base, prior, submitted[name]) ==> NamesFilled(PriorEnv(prior, name)))
  {
    MergedNameReturns(cron, base, prior, submitted, order, entries, name);
    assert MergedTask(base, entries, name) == Merged(base, entries)[name];
    EffectiveIsValid(cron, base, prior, submitted[name], MergedTask(base, entries, name));
  }

  lemma KeptIsEnabled(cron: string -> bool, base: TaskMap, prior: Option<Document>, submitted: TaskMap,
                      order: seq<string>, entries: Entries, name: string)
    requires IsImport(base) && WasLoaded(prior) && Indexes(cron, submitted, order)
    requires EntriesRead(base, prior, submitted, entries) && name in submitted
    ensures KeepsPriorEnv(base, prior, submitted[name]) ==> name in entries && !Disabled(entries, name)
  {
    MergedNameReturns(cron, base, prior, submitted, order, entries, name);
    assert name in Merged(base, entries);
  }

  /** The entries validate exactly when no environment kept from the old file has a blank name. */
  lemma EntriesValidate(cron: string -> bool, base: TaskMap, prior: Option<Document>, submitted: TaskMap,
                        order: seq<string>, entries: Entries)
    requires IsImport(base) && WasLoaded(prior) && Indexes(cron, submitted, order)
    requires EntriesRead(base, prior, submitted, entries)
    ensures MergesValid(cron, base, entries) <==>
              forall name :: name in submitted && KeepsPriorEnv(base, prior, submitted[name])
                ==> NamesFilled(PriorEnv(prior, name))
  {
    forall name | name in submitted
      ensures name in base || name in entries
      ensures ValidTask(cron, MergedTask(base, entries, name)) <==>
                (KeepsPriorEnv(base, prior, submitted[name]) ==> NamesFilled(PriorEnv(prior, name)))
      ensures KeepsPriorEnv(base, prior, submitted[name]) ==> name in entries && !Disabled(entries, name)
    {
      ValidWhenLoaded(cron, base, prior, submitted, order, entries, name);
      KeptIsEnabled(cron, base, prior, submitted, order, entries, name);
    }
    forall name | name in entries && !Disabled(entries, name) ensures name in submitted {
      MergedNameReturns(cron, base, prior, submitted, order, entries, name);
      assert name in Merged(base, entries);
    }
  }

  /** The load is refused exactly when an environment kept from the old file has a
      blank name. */
  lemma LoadAccepts(cron: string -> bool, base: TaskMap, prior: Option<Document>, submitted: TaskMap,
                    order: seq<string>)
    requires IsImport(base) && WasLoaded(prior) && Indexes(cron, submitted, order)
    ensures LoadedEntries(base, prior, submitted).Some?
    ensures MergesValid(cron, base, LoadedEntries(base, prior, submitted).value) <==>
              forall name :: name in submitted && KeepsPriorEnv(base, prior, submitted[name])
                ==> NamesFilled(PriorEnv(prior, name))
  {
    EntriesLoad(cron, base, prior, submitted, order);
    EntriesValidate(cron, base, prior, submitted, order, LoadedEntries(base, prior, submitted).value);
  }

  /** The written configuration loads back as the submission: the same workspace
      environment, the same order, and each task as `Effective` has it. */
  lemma WriteThenLoad(cron: string -> bool, base: TaskMap, prior: Option<Document>, submitted: TaskMap,
                      order: seq<string>, env: StringMap, source: seq<string>)
    requires IsImport(base) && WasLoaded(prior) && Indexes(cron, submitted, order)
    ensures var root := WrittenRoot(base, prior, submitted, order, env);
            && root.version == Some(Number(1)) && (root.workspaceEnv.None? <==> env == map[])
            && root.session == (if prior.Some? then prior.value.root.session else None)
            && root.others == (if prior.Some? then prior.value.root.others else map[])
    ensures var doc := LoadYamlDocument(WrittenRoot(base, prior, submitted, order, env));
            && doc.Some? && doc.value.workspaceEnv == env && doc.value.taskOrder == order
            && var merged := Merged(base, doc.value.entries);
               && merged.Keys == submitted.Keys
               && (forall name :: name in submitted ==> SameTask(merged[name], Effective(base, prior, submitted[name])))
               && ConfiguredOk(order, merged) && Extended(order, source, merged) == order
  {
    RootLoads(cron, base, prior, submitted, order, env);
    MergedIsSubmitted(cron, base, prior, submitted, order);
    ExtendedComplete(order, source, Merged(base, LoadedEntries(base, prior, submitted).value));
  }

  /** Every submitted task returns, whatever the old file held, if and only if no
      YAML-only task is sent with an empty environment that the old file filled. */
  lemma RoundTripsExactly(cron: string -> bool, base: TaskMap, prior: Option<Document>, submitted: TaskMap,
                          order: seq<string>)
    requires IsImport(base) && WasLoaded(prior) && Indexes(cron, submitted, order)
    ensures LoadedEntries(base, prior, submitted).Some?
    ensures var merged := Merged(base, LoadedEntries(base, prior, submitted).value);
            && merged.Keys == submitted.Keys
            && ((forall name :: name in submitted ==> SameTask(merged[name], submitted[name])) <==>
                  forall name :: name in submitted ==> !KeepsPriorEnv(base, prior, submitted[name]))
  {
    MergedIsSubmitted(cron, base, prior, submitted, order);
    var merged := Merged(base, LoadedEntries(base, prior, submitted).value);
    forall name | name in submitted
      ensures SameTask(merged[name], submitted[name]) <==> !KeepsPriorEnv(base, prior, submitted[name])
    {
    }
  }

  /** A file that loads has no blank names in the environments that can be kept,
      unless the entry is a disabled one, which is never validated. */
  lemma LoadedEnvIsFilled(cron: string -> bool, base: TaskMap, prior: Document, name: string)
    requires MergesValid(cron, base, prior.entries) && name !in base
    requires name in prior.entries && !Disabled(prior.entries, name)
    ensures NamesFilled(PriorEnv(Some(prior), name))
  {
    assert ValidTask(cron, MergedTask(base, prior.entries, name));
  }

  lemma NodeIsStable(base: TaskMap, prior: Option<Document>, again: Option<Document>, submitted: TaskMap, name: string)
    requires name in submitted || name in base
    requires PriorRaw(again, name) == NodeRaw(base, prior, submitted, name)
    ensures NodeRaw(base, again, submitted, name) == NodeRaw(base, prior, submitted, name)
  {
  }

  lemma SameNodes(base: TaskMap, prior: Option<Document>, again: Option<Document>, submitted: TaskMap)
    requires forall name :: name in submitted || name in base ==>
               NodeRaw(base, again, submitted, name) == NodeRaw(base, prior, submitted, name)
    ensures WrittenNodes(base, again, submitted) == WrittenNodes(base, prior, submitted)
  {
    var first, second := WrittenNodes(base, prior, submitted), WrittenNodes(base, again, submitted);
    forall name
      ensures name in first <==> name in second
      ensures name in first ==> first[name] == second[name]
    {
      NodeIs(base, prior, submitted, name);
      NodeIs(base, again, submitted, name);
    }
  }

  lemma SavedRaw(base: TaskMap, prior: Option<Document>, again: Option<Document>, submitted: TaskMap, name: string)
    requires again.Some? && EntriesRead(base, prior, submitted, again.value.entries)
    requires name in submitted || name in base
    ensures PriorRaw(again, name) == NodeRaw(base, prior, submitted, name)
  {
    assert EntryReads(base, prior, submitted, again.value.entries, name);
  }

  lemma SavedNodesAreStable(base: TaskMap, prior: Option<Document>, again: Option<Document>, submitted: TaskMap)
    requires again.Some? && EntriesRead(base, prior, submitted, again.value.entries)
    ensures WrittenNodes(base, again, submitted) == WrittenNodes(base, prior, submitted)
  {
    forall name | name in submitted || name in base
      ensures NodeRaw(base, again, submitted, name) == NodeRaw(base, prior, submitted, name)
    {
      SavedRaw(base, prior, again, submitted, name);
      NodeIsStable(base, prior, again, submitted, name);
    }
    SameNodes(base, prior, again, submitted);
  }

  /** Saving the same submission again changes nothing in the file. */
  lemma WritingTwiceIsWritingOnce(cron: string -> bool, base: TaskMap, prior: Option<Document>, submitted: TaskMap,
                                  order: seq<string>, env: StringMap)
    requires IsImport(base) && WasLoaded(prior) && Indexes(cron, submitted, order)
    ensures var root := WrittenRoot(base, prior, submitted, order, env);
            && LoadYamlDocument(root).Some?
            && WrittenRoot(base, LoadYamlDocument(root), submitted, order, env) == root
  {
    var root := WrittenRoot(base, prior, submitted, order, env);
    RootLoads(cron, base, prior, submitted, order, env);
    EntriesLoad(cron, base, prior, submitted, order);
    SavedNodesAreStable(base, prior, LoadYamlDocument(root), submitted);
  }
}
