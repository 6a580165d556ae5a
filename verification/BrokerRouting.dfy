/**
 Which shell line a workflow job runs when privileged execution is routed to
 the broker, and when the gate has demanded EXEC_BASH for it.
 */
module BrokerRouting {
  import opened Common
  import opened Capabilities
  import opened StepScan
  import opened JobGate
  import Replay

  const COMMAND_KEY: string := "command"

  /** A parameter as decoded JSON; none if it is missing or cannot be serialised. */
  function Param(codec: Codec, job: Job, key: string): (j: Option<Json>) {
    if key in job.params then codec.asJson(job.params[key]) else None
  }

  function Get(fields: seq<StepScan.Field>, key: string): (j: Option<Json>) {
    if fields == [] then None
    else if fields[0].key == key then Some(fields[0].value)
    else Get(fields[1..], key)
  }

  /** What is not a text reads as the empty text, what is not an object as an empty one. */
  function TextOf(j: Option<Json>): (text: string) {
    if j.Some? && j.value.Text? then j.value.s else ""
  }

  function FieldsOf(j: Option<Json>): (fields: seq<StepScan.Field>) {
    if j.Some? && j.value.Object? then j.value.fields else []
  }

  /** The steps are a list whose first item is an object. */
  predicate HasFirstStep(steps: Option<Json>) {
    steps.Some? && steps.value.List? && steps.value.items != [] && steps.value.items[0].Object?
  }

  /** The shell line the broker gets: that of the first step, or of the job if there is no such step. */
  function WorkflowCommand(steps: Option<Json>, outer: Option<Json>): (command: string) {
    if HasFirstStep(steps) then TextOf(Get(FieldsOf(Get(steps.value.items[0].fields, "params")), COMMAND_KEY))
    else TextOf(outer)
  }

  function BrokerCommand(codec: Codec, job: Job): (command: string) {
    WorkflowCommand(Param(codec, job, STEPS_KEY), Param(codec, job, COMMAND_KEY))
  }

  lemma {:induction false} GotIsField(fields: seq<StepScan.Field>, key: string)
    requires Get(fields, key).Some?
    ensures exists k :: 0 <= k < |fields| && fields[k] == StepScan.Field(key, Get(fields, key).value)
  {
    if fields[0].key == key {
    } else {
      GotIsField(fields[1..], key);
      var k :| 0 <= k < |fields[1..]| && fields[1..][k] == StepScan.Field(key, Get(fields[1..], key).value);
      assert fields[k + 1] == StepScan.Field(key, Get(fields, key).value);
    }
  }

  /** An object with a `command` key mentions the type `command`, and so does one that holds it. */
  lemma KeyIsMentioned(s: Search, fields: seq<StepScan.Field>, key: string)
    requires Get(fields, key).Some?
    requires s.Hits(Quote(key, s.escape)) || s.Mentions(Get(fields, key).value)
    ensures s.Mentions(Object(fields))
  {
    GotIsField(fields, key);
    FieldsMention(s, fields);
    assert s.Mentions(Object(fields)) == s.MentionsField(fields);
  }

  /** A first step with a command mentions `command`, whatever type it claims. */
  lemma FirstStepMentionsCommand(steps: seq<Json>, outer: Option<Json>, fold: char -> char, escape: char -> string)
    requires HasFirstStep(Some(List(steps))) && WorkflowCommand(Some(List(steps)), outer) != ""
    ensures Mentions(List(steps), "command", fold, escape)
  {
    var s, params := SearchFor("command", fold, escape), Get(steps[0].fields, "params");
    FieldNamesAreNoTypes();
    KeyMentions("command", "command", fold, escape);
    WordMentionsItself("command", "command", fold, escape);
    KeyIsMentioned(s, FieldsOf(params), COMMAND_KEY);
    KeyIsMentioned(s, steps[0].fields, "params");
    SearchesList(s, steps);
  }

  /** The steps mention another step type and not `command`. */
  predicate SpeaksOfOthersOnly(codec: Codec, steps: Json) {
    && !Mentions(steps, "command", codec.fold, codec.escape)
    && exists u :: u in OTHER_TYPES && Mentions(steps, u, codec.fold, codec.escape)
  }

  /** What the gate demands of a workflow job, before any routing. */
  lemma BashIsDemandedExactlyWhen(codec: Codec, job: Job)
    requires job.jobType == "WORKFLOW_STEPS"
    ensures var steps := Param(codec, job, STEPS_KEY);
      "EXEC_BASH" in Required(codec, job) <==> !(steps.Some? && SpeaksOfOthersOnly(codec, steps.value))
  {
    if STEPS_KEY in job.params {
      var steps := codec.asJson(job.params[STEPS_KEY]);
      if steps.Some? {
        SerialisedStepsDemand(codec, job, steps.value);
      }
    } else {
      SerialisedStepsDemand(codec, job, Null);
      NullMentionsNothing(codec);
    }
  }

  lemma NullMentionsNothing(codec: Codec)
    ensures forall u :: u in OTHER_TYPES ==> !Mentions(Null, u, codec.fold, codec.escape)
  {}

  lemma SerialisedStepsDemand(codec: Codec, job: Job, steps: Json)
    requires job.jobType == "WORKFLOW_STEPS" && StepsJson(codec, job) == Marshal(steps, codec.escape)
    ensures "EXEC_BASH" in Required(codec, job) <==> !SpeaksOfOthersOnly(codec, steps)
  {
    DemandedExactlyWhenMentioned(steps, "command", codec.escape, codec.fold);
    if Marshal(steps, codec.escape) == "" {
      EmptyMentionsNothing(codec, steps);
    }
  }

  lemma EmptyMentionsNothing(codec: Codec, steps: Json)
    requires Marshal(steps, codec.escape) == ""
    ensures !SpeaksOfOthersOnly(codec, steps)
  {
    forall u | u in OTHER_TYPES
      ensures !Mentions(steps, u, codec.fold, codec.escape)
    {
      StepTypesAreLowerCase(u);
      ScanFindsMentions(steps, u, codec.fold, codec.escape);
    }
  }

  /**
   A shell line goes to the broker without EXEC_BASH having been demanded
   exactly when it is taken from the job itself, there being no first step that
   is an object, and the steps mention some other step type and not `command`.
   A shell line of the first step always comes with EXEC_BASH.
   */
  lemma ShellWithoutBashExactlyWhen(codec: Codec, job: Job)
    requires job.jobType == "WORKFLOW_STEPS" && BrokerCommand(codec, job) != ""
    ensures var steps := Param(codec, job, STEPS_KEY);
      "EXEC_BASH" !in Required(codec, job) <==>
        steps.Some? && !HasFirstStep(steps) && SpeaksOfOthersOnly(codec, steps.value)
  {
    BashIsDemandedExactlyWhen(codec, job);
    var steps := Param(codec, job, STEPS_KEY);
    if HasFirstStep(steps) {
      FirstStepMentionsCommand(steps.value.items, Param(codec, job, COMMAND_KEY), codec.fold, codec.escape);
    }
  }

  /** For instance with the steps `["package"]` and a command beside them. */
  lemma ShellBesidePackage(codec: Codec, job: Job, command: string)
    requires job.jobType == "WORKFLOW_STEPS" && command != ""
    requires Param(codec, job, STEPS_KEY) == Some(List([Text("package")]))
    requires Param(codec, job, COMMAND_KEY) == Some(Text(command))
    ensures BrokerCommand(codec, job) == command && "EXEC_BASH" !in Required(codec, job)
  {
    var steps := [Text("package")];
    assert !steps[0].Object?;
    assert OTHER_TYPES <= STEP_TYPES;
    StepTypesAreLowerCase("package");
    StepTypesAreLowerCase("command");
    KeyMentions("package", "package", codec.fold, codec.escape);
    KeyMentions("package", "command", codec.fold, codec.escape);
    OneItemMentions(steps[0], "package", codec.fold, codec.escape);
    OneItemMentions(steps[0], "command", codec.fold, codec.escape);
    assert SpeaksOfOthersOnly(codec, List(steps));
    BashIsDemandedExactlyWhen(codec, job);
  }

  lemma OneItemMentions(item: Json, t: string, fold: char -> char, escape: char -> string)
    ensures Mentions(List([item]), t, fold, escape) <==> Mentions(item, t, fold, escape)
  {
    ListMentions([item], t, fold, escape);
    assert [item][0] == item;
  }

  /** That one case aside, the signed request of an admitted job names EXEC_BASH for its shell line. */
  lemma AdmittedShellIsCovered(a: Agent, job: Job, r: Readings, t: Replay.Table)
    requires a.enforce && Judge(a, job, r, t).rejected.None?
    requires job.jobType == "WORKFLOW_STEPS" && BrokerCommand(a.codec, job) != ""
    requires var steps := Param(a.codec, job, STEPS_KEY);
      steps.None? || HasFirstStep(steps) || !SpeaksOfOthersOnly(a.codec, steps.value)
    ensures ENVELOPE_KEY in job.params && ParseEnvelope(a.codec, job.params[ENVELOPE_KEY]).Some?
    ensures "EXEC_BASH" in ParseEnvelope(a.codec, job.params[ENVELOPE_KEY]).value.requestedCapabilities
  {
    AdmittedExactlyWhen(a, job, r, t);
    ShellWithoutBashExactlyWhen(a.codec, job);
  }

  // ------------------------------------------------------------ reading the line

  /** A JSON object has each key once. */
  ghost predicate KeysAreDistinct(fields: seq<StepScan.Field>) {
    forall i, j :: 0 <= i < j < |fields| ==> fields[i].key != fields[j].key
  }

  lemma {:induction false} GetFindsExactly(fields: seq<StepScan.Field>, key: string, value: Json)
    requires KeysAreDistinct(fields)
    ensures Get(fields, key) == Some(value) <==> StepScan.Field(key, value) in fields
  {
    if fields == [] {
    } else {
      GetFindsExactly(fields[1..], key, value);
      if StepScan.Field(key, value) in fields[1..] {
        var k :| 0 <= k < |fields[1..]| && fields[1..][k] == StepScan.Field(key, value);
        assert fields[k + 1].key == key;
      }
      assert fields == [fields[0]] + fields[1..];
    }
  }

  /** The shell line of a first step is the text under `command` in the object under `params`. */
  lemma FirstStepCommandExactly(fields: seq<StepScan.Field>, params: seq<StepScan.Field>, rest: seq<Json>,
                                outer: Option<Json>, command: string)
    requires KeysAreDistinct(fields) && KeysAreDistinct(params)
    requires StepScan.Field("params", Object(params)) in fields && command != ""
    ensures WorkflowCommand(Some(List([Object(fields)] + rest)), outer) == command <==>
            StepScan.Field("command", Text(command)) in params
  {
    GetFindsExactly(fields, "params", Object(params));
    GetFindsExactly(params, "command", Text(command));
    assert ([Object(fields)] + rest)[0] == Object(fields);
  }

  /** A first step without such parameters gives no shell line, whatever stands outside. */
  lemma FirstStepHidesOuter(fields: seq<StepScan.Field>, rest: seq<Json>, outer: Option<Json>)
    requires Get(fields, "params").None? || !Get(fields, "params").value.Object?
    ensures WorkflowCommand(Some(List([Object(fields)] + rest)), outer) == ""
  {
    assert ([Object(fields)] + rest)[0] == Object(fields);
  }

  /** Without a first step that is an object, the shell line is the text outside. */
  lemma OuterCommandExactly(steps: Option<Json>, outer: Option<Json>, command: string)
    requires command != ""
    requires match steps
      case Some(List(items)) => items == [] || !items[0].Object?
      case _ => true
    ensures WorkflowCommand(steps, outer) == command <==> outer == Some(Text(command))
  {}
}
