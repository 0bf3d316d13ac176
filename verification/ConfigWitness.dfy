/** Concrete configurations at which writing and loading do not undo each other. */
module ConfigWitnesses {
  import opened Prelude
  import opened Text
  import opened ConfigYaml
  import opened ConfigMerge
  import opened ConfigSession

  // An old file with one disabled entry, and a submission that takes its label up again.
  const BLANK_NAME_RAW := EMPTY_RAW.(enabled := Some(Bool(false)), env := Some(Mapping(map[" " := Str("x")])))
  const BLANK_NAME_ROOT := EMPTY_ROOT.(tasks := Some(Table(map["a" := Fields(BLANK_NAME_RAW)])))
  const BLANK_NAME_ENV: map<string, Option<string>> := map[" " := Some("x")]
  const BLANK_NAME_PATCH := Patch(Some(false), None, None, None, Some(BLANK_NAME_ENV), None, None, None, None, None)
  const BLANK_NAME_DOCUMENT := Document(BLANK_NAME_ROOT, map[], [], map["a" := Entry(BLANK_NAME_RAW, BLANK_NAME_PATCH)])
  const RESUBMITTED := DefaultTask("a").(command := "b")

  lemma BlankNameDocumentLoads()
    ensures LoadYamlDocument(BLANK_NAME_ROOT) == Some(BLANK_NAME_DOCUMENT)
  {
    OptionalMapDecodes(BLANK_NAME_ENV);
    assert OptionalStringMap(BLANK_NAME_ENV) == Mapping(map[" " := Str("x")]);
    ParsesTo(BLANK_NAME_RAW, BLANK_NAME_PATCH);
    assert AsEntries(BLANK_NAME_ROOT.tasks).value == BLANK_NAME_DOCUMENT.entries;
  }

  /** Such a disabled entry does break the next load: the old file is fine, the
      submission is fine, and the file they make is refused. */
  lemma DisabledEntryBreaksNextLoad(cron: string -> bool)
    ensures var prior, submitted := Some(BLANK_NAME_DOCUMENT), map["a" := RESUBMITTED];
            && WasLoaded(prior) && MergesValid(cron, map[], BLANK_NAME_DOCUMENT.entries)
            && Indexes(cron, submitted, ["a"])
            && LoadedEntries(map[], prior, submitted).Some?
            && !MergesValid(cron, map[], LoadedEntries(map[], prior, submitted).value)
  {
    BlankNameDocumentLoads();
    var prior, submitted := Some(BLANK_NAME_DOCUMENT), map["a" := RESUBMITTED];
    assert IsBlank(" ") && !IsBlank("a") && !IsBlank("b") && !IsBlank(".");
    assert Indexes(cron, submitted, ["a"]);
    assert " " in PriorEnv(prior, "a");
    LoadAccepts(cron, map[], prior, submitted, ["a"]);
    assert KeepsPriorEnv(map[], prior, submitted["a"]);
  }

  // An old file with one task that has an environment.
  const OLD_ENV: map<string, Option<string>> := map["X" := Some("1")]
  const OLD_ENV_RAW := EMPTY_RAW.(command := Some(Str("b")), env := Some(Mapping(map["X" := Str("1")])))
  const OLD_ENV_ROOT := EMPTY_ROOT.(tasks := Some(Table(map["a" := Fields(OLD_ENV_RAW)])))
  const OLD_ENV_PATCH := Patch(None, Some("b"), None, None, Some(OLD_ENV), None, None, None, None, None)
  const OLD_ENV_DOCUMENT := Document(OLD_ENV_ROOT, map[], [], map["a" := Entry(OLD_ENV_RAW, OLD_ENV_PATCH)])

  lemma OldEnvDocumentLoads()
    ensures LoadYamlDocument(OLD_ENV_ROOT) == Some(OLD_ENV_DOCUMENT)
  {
    OptionalMapDecodes(OLD_ENV);
    assert OptionalStringMap(OLD_ENV) == Mapping(map["X" := Str("1")]);
    ParsesTo(OLD_ENV_RAW, OLD_ENV_PATCH);
    assert AsEntries(OLD_ENV_ROOT.tasks).value == OLD_ENV_DOCUMENT.entries;
  }

  lemma OldEnvIsValid(cron: string -> bool)
    ensures MergesValid(cron, map[], OLD_ENV_DOCUMENT.entries)
    ensures Indexes(cron, map["a" := RESUBMITTED], ["a"])
  {
    assert !IsBlank("a") && !IsBlank("b") && !IsBlank(".") && !IsBlank("X");
  }

  lemma OldEnvIsKept()
    ensures PriorEnv(Some(OLD_ENV_DOCUMENT), "a") == map["X" := "1"]
    ensures KeepsPriorEnv(map[], Some(OLD_ENV_DOCUMENT), RESUBMITTED)
  {
    assert "X" in PriorEnv(Some(OLD_ENV_DOCUMENT), "a");
  }

  /** Sent without its environment and without the flag, the task comes back with the
      environment of the old file. */
  lemma EmptyEnvBringsBackOld(cron: string -> bool)
    ensures var prior, submitted := Some(OLD_ENV_DOCUMENT), map["a" := RESUBMITTED];
            && WasLoaded(prior) && MergesValid(cron, map[], OLD_ENV_DOCUMENT.entries)
            && Indexes(cron, submitted, ["a"]) && submitted["a"].env == map[]
            && LoadedEntries(map[], prior, submitted).Some?
            && var merged := Merged(map[], LoadedEntries(map[], prior, submitted).value);
               "a" in merged && merged["a"].env == map["X" := "1"]
  {
    OldEnvDocumentLoads();
    OldEnvIsValid(cron);
    OldEnvIsKept();
    MergedIsSubmitted(cron, map[], Some(OLD_ENV_DOCUMENT), map["a" := RESUBMITTED], ["a"]);
  }
}
