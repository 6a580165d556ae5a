/**
 The capability registry of the agent, and the substring scan that decides
 which capabilities a list of workflow steps demands.
 */
module Capabilities {
  import opened Common

  datatype Risk = LOW | MEDIUM | HIGH | CRITICAL

  datatype Capability = Capability(name: string, risk: Risk)

  /** Job type to the capability it needs. */
  const REGISTRY: map<string, Capability> := map[
    "HEARTBEAT" := Capability("READ_SYSTEM", LOW),
    "FILE_READ" := Capability("READ_SYSTEM", LOW),
    "LOG_READ" := Capability("READ_LOGS", LOW),
    "SERVICE" := Capability("SERVICE_CONTROL", MEDIUM),
    "PACKAGE_UPDATE" := Capability("PACKAGE_MANAGEMENT", HIGH),
    "COMPLIANCE_REMEDIATE" := Capability("SECURITY_REMEDIATION", HIGH),
    "FIREWALL_CHANGE" := Capability("FIREWALL_CONFIGURATION", HIGH),
    "REBOOT" := Capability("REBOOT_HOST", HIGH),
    "FILE" := Capability("FILE_WRITE", MEDIUM),
    "WORKFLOW_STEPS" := Capability("EXEC_BASH", CRITICAL),
    "CUSTOM_COMMAND" := Capability("EXEC_BASH", CRITICAL),
    "ANSIBLE_PLAYBOOK" := Capability("EXEC_ANSIBLE", CRITICAL),
    "PLUGIN_INSTALL" := Capability("PLUGIN_INSTALL", CRITICAL)
  ]

  /** The risk of a capability name, entry by entry; names outside the registry have none. */
  function RiskOf(capability: string): (r: Option<Risk>) {
    if capability == "READ_SYSTEM" || capability == "READ_LOGS" then Some(LOW)
    else if capability == "SERVICE_CONTROL" || capability == "FILE_WRITE" then Some(MEDIUM)
    else if capability == "PACKAGE_MANAGEMENT" || capability == "SECURITY_REMEDIATION"
         || capability == "FIREWALL_CONFIGURATION" || capability == "REBOOT_HOST" then Some(HIGH)
    else if capability == "EXEC_BASH" || capability == "EXEC_ANSIBLE" || capability == "PLUGIN_INSTALL" then
      Some(CRITICAL)
    else None
  }

  /** All job types that need a capability agree on its risk. */
  lemma RegistryIsConsistent(jobType: string)
    requires jobType in REGISTRY
    ensures RiskOf(REGISTRY[jobType].name) == Some(REGISTRY[jobType].risk)
  {}

  lemma RegistryIsComplete(capability: string)
    requires RiskOf(capability).Some?
    ensures exists jobType :: jobType in REGISTRY && REGISTRY[jobType].name == capability
  {
    var jobType :=
      if capability == "READ_SYSTEM" then "HEARTBEAT"
      else if capability == "READ_LOGS" then "LOG_READ"
      else if capability == "SERVICE_CONTROL" then "SERVICE"
      else if capability == "FILE_WRITE" then "FILE"
      else if capability == "PACKAGE_MANAGEMENT" then "PACKAGE_UPDATE"
      else if capability == "SECURITY_REMEDIATION" then "COMPLIANCE_REMEDIATE"
      else if capability == "FIREWALL_CONFIGURATION" then "FIREWALL_CHANGE"
      else if capability == "REBOOT_HOST" then "REBOOT"
      else if capability == "EXEC_BASH" then "CUSTOM_COMMAND"
      else if capability == "EXEC_ANSIBLE" then "ANSIBLE_PLAYBOOK"
      else "PLUGIN_INSTALL";
    assert jobType in REGISTRY && REGISTRY[jobType].name == capability;
  }

  /** The first match in whatever order the map is walked is always the same risk. */
  method RiskFor(capability: string) returns (risk: Option<Risk>)
    ensures risk == RiskOf(capability)
  {
    var left := REGISTRY.Keys;
    while left != {}
      invariant left <= REGISTRY.Keys
      invariant forall k :: k in REGISTRY && REGISTRY[k].name == capability ==> k in left
      decreases left
    {
      var k :| k in left;
      if REGISTRY[k].name == capability {
        RegistryIsConsistent(k);
        return Some(REGISTRY[k].risk);
      }
      left := left - {k};
    }
    if RiskOf(capability).Some? {
      RegistryIsComplete(capability);
    }
    return None;
  }

  function RiskTier(risk: Option<Risk>): (r: nat) {
    match risk
    case Some(CRITICAL) => 3
    case Some(HIGH) => 2
    case Some(MEDIUM) => 1
    case _ => 0
  }

  // ------------------------------------------------------------ substring scan

  predicate OccursAt(text: string, part: string, i: nat) {
    i + |part| <= |text| && text[i..i + |part|] == part
  }

  predicate Contains(text: string, part: string) {
    exists i: nat :: i <= |text| && OccursAt(text, part, i)
  }

  /** Lower-casing rune by rune; what it does outside ASCII does not matter here. */
  function Lower(text: string, fold: char -> char): (r: string)
    ensures |r| == |text|
  {
    seq(|text|, i requires 0 <= i < |text| =>
      if 'A' <= text[i] <= 'Z' then text[i] + ' '
      else if text[i] < 128 as char then text[i]
      else fold(text[i]))
  }

  /** The step types the executor can dispatch, with the capability each one needs. */
  function StepCapability(stepType: string): (capability: Option<string>) {
    if stepType == "command" then Some("EXEC_BASH")
    else if stepType == "package" then Some("PACKAGE_MANAGEMENT")
    else if stepType == "service" then Some("SERVICE_CONTROL")
    else if stepType == "system" then Some("REBOOT_HOST")
    else if stepType == "file" then Some("FILE_WRITE")
    else if stepType == "ansible" then Some("EXEC_ANSIBLE")
    else None
  }

  /** The step types the scan looks for besides `command`. */
  const OTHER_TYPES: set<string> := {"package", "service", "ansible", "system", "file"}

  const STEP_TYPES: set<string> := OTHER_TYPES + {"command"}

  function Quoted(word: string): (s: string) { "\"" + word + "\"" }

  /** The scan finds a step type: the quoted word, lower-cased text allowed for all but `package`. */
  predicate Finds(stepsJson: string, fold: char -> char, stepType: string) {
    if stepType == "package" then Contains(stepsJson, Quoted("package")) || Contains(stepsJson, "'package'")
    else Contains(Lower(stepsJson, fold), Quoted(stepType))
  }

  /** What is found is demanded, and `command` also when nothing else is found. */
  predicate Demands(stepsJson: string, fold: char -> char, stepType: string) {
    || Finds(stepsJson, fold, stepType)
    || (stepType == "command" && forall t :: t in OTHER_TYPES ==> !Finds(stepsJson, fold, t))
  }

  /** The capabilities of some step types. */
  function CapabilitiesOf(types: set<string>): (caps: set<string>)
    requires types <= STEP_TYPES
  {
    set t | t in types :: StepCapability(t).value
  }

  function DemandedTypes(stepsJson: string, fold: char -> char): (types: set<string>) {
    set t | t in STEP_TYPES && Demands(stepsJson, fold, t)
  }

  /** The capabilities the scan demands for the serialised steps. */
  function StepCapabilities(stepsJson: string, fold: char -> char): (caps: set<string>) {
    CapabilitiesOf(DemandedTypes(stepsJson, fold))
  }

  /** Different step types need different capabilities, so each demand can be told from the set. */
  lemma DemandIsVisible(stepsJson: string, fold: char -> char, stepType: string)
    requires stepType in STEP_TYPES
    ensures StepCapability(stepType).value in StepCapabilities(stepsJson, fold) <==> Demands(stepsJson, fold, stepType)
  {}

  /** Something is always demanded. */
  lemma SomethingIsDemanded(stepsJson: string, fold: char -> char)
    ensures StepCapabilities(stepsJson, fold) != {}
  {
    if t :| t in OTHER_TYPES && Finds(stepsJson, fold, t) {
      assert StepCapability(t).value in StepCapabilities(stepsJson, fold);
    } else {
      assert Demands(stepsJson, fold, "command");
      assert StepCapability("command").value in StepCapabilities(stepsJson, fold);
    }
  }

  /** The scan as it is run: six searches, each marking its capability; then the marks in any order. */
  method WorkflowStepCapabilities(stepsJson: string, fold: char -> char) returns (out: seq<string>)
    ensures forall c :: c in out <==> c in StepCapabilities(stepsJson, fold)
    ensures |out| == |StepCapabilities(stepsJson, fold)|
  {
    var seen := MarkFound(stepsJson, fold, "package", {}, {});
    seen := MarkFound(stepsJson, fold, "service", {"package"}, seen);
    seen := MarkFound(stepsJson, fold, "ansible", {"package", "service"}, seen);
    seen := MarkFound(stepsJson, fold, "system", {"package", "service", "ansible"}, seen);
    seen := MarkFound(stepsJson, fold, "file", {"package", "service", "ansible", "system"}, seen);
    assert OTHER_TYPES == {"package", "service", "ansible", "system"} + {"file"};
    if seen == {} {
      NothingElseFound(stepsJson, fold);
      seen := {"EXEC_BASH"};
    } else {
      seen := MarkFound(stepsJson, fold, "command", OTHER_TYPES, seen);
      SomethingElseFound(stepsJson, fold);
    }
    out := ListOf(seen);
  }

  function FoundTypes(stepsJson: string, fold: char -> char, among: set<string>): (types: set<string>) {
    set t | t in among && Finds(stepsJson, fold, t)
  }

  /** One search of the scan, after those for the types in `done`. */
  method MarkFound(stepsJson: string, fold: char -> char, stepType: string, ghost done: set<string>, seen: set<string>)
    returns (more: set<string>)
    requires stepType in STEP_TYPES && done <= STEP_TYPES
    requires seen == CapabilitiesOf(FoundTypes(stepsJson, fold, done))
    ensures more == CapabilitiesOf(FoundTypes(stepsJson, fold, done + {stepType}))
  {
    if Finds(stepsJson, fold, stepType) {
      assert FoundTypes(stepsJson, fold, done + {stepType}) == FoundTypes(stepsJson, fold, done) + {stepType};
      return seen + {StepCapability(stepType).value};
    }
    assert FoundTypes(stepsJson, fold, done + {stepType}) == FoundTypes(stepsJson, fold, done);
    return seen;
  }

  lemma FoundIsMarked(stepsJson: string, fold: char -> char, t: string)
    requires t in OTHER_TYPES && Finds(stepsJson, fold, t)
    ensures CapabilitiesOf(FoundTypes(stepsJson, fold, OTHER_TYPES)) != {}
  {
    assert t in FoundTypes(stepsJson, fold, OTHER_TYPES);
    assert StepCapability(t).value in CapabilitiesOf(FoundTypes(stepsJson, fold, OTHER_TYPES));
  }

  lemma NothingElseFound(stepsJson: string, fold: char -> char)
    requires CapabilitiesOf(FoundTypes(stepsJson, fold, OTHER_TYPES)) == {}
    ensures StepCapabilities(stepsJson, fold) == {"EXEC_BASH"}
  {
    forall t | t in OTHER_TYPES
      ensures !Finds(stepsJson, fold, t)
    {
      if Finds(stepsJson, fold, t) {
        FoundIsMarked(stepsJson, fold, t);
      }
    }
    assert DemandedTypes(stepsJson, fold) == {"command"};
  }

  lemma SomethingElseFound(stepsJson: string, fold: char -> char)
    requires CapabilitiesOf(FoundTypes(stepsJson, fold, OTHER_TYPES)) != {}
    ensures StepCapabilities(stepsJson, fold) == CapabilitiesOf(FoundTypes(stepsJson, fold, OTHER_TYPES + {"command"}))
  {
    var c :| c in CapabilitiesOf(FoundTypes(stepsJson, fold, OTHER_TYPES));
    var t :| t in FoundTypes(stepsJson, fold, OTHER_TYPES) && StepCapability(t).value == c;
    assert DemandedTypes(stepsJson, fold) == FoundTypes(stepsJson, fold, STEP_TYPES);
  }

  /** The members of a set, in the order some walk finds them. */
  method ListOf(members: set<string>) returns (out: seq<string>)
    ensures forall c :: c in out <==> c in members
    ensures |out| == |members|
  {
    out := [];
    var left := members;
    while left != {}
      invariant left <= members
      invariant forall c :: c in out <==> c in members - left
      invariant |out| + |left| == |members|
      decreases left
    {
      var c :| c in left;
      out := out + [c];
      left := left - {c};
    }
  }

  /** The capabilities a job type demands; workflow steps by scan, unknown types none. */
  function RequiredCapabilities(jobType: string, stepsJson: string, fold: char -> char): (caps: set<string>) {
    if jobType == "WORKFLOW_STEPS" && stepsJson != "" then StepCapabilities(stepsJson, fold)
    else if jobType in REGISTRY then {REGISTRY[jobType].name}
    else {}
  }

  // --------------------------------------------------------------- the registry

  /** The tiers keep the order of the risks, and an unknown capability counts as the lowest. */
  lemma TiersAreOrdered()
    ensures RiskTier(Some(LOW)) < RiskTier(Some(MEDIUM)) < RiskTier(Some(HIGH)) < RiskTier(Some(CRITICAL))
    ensures RiskTier(None) == RiskTier(Some(LOW))
  {}

  /** The job type whose executor a workflow step of that type runs. */
  function JobTypeOf(stepType: string): (jobType: string)
    requires stepType in STEP_TYPES
  {
    if stepType == "command" then "CUSTOM_COMMAND"
    else if stepType == "package" then "PACKAGE_UPDATE"
    else if stepType == "service" then "SERVICE"
    else if stepType == "system" then "REBOOT"
    else if stepType == "file" then "FILE"
    else "ANSIBLE_PLAYBOOK"
  }

  /** A step needs what the job type needs that runs the same executor. */
  lemma StepsNeedWhatJobsNeed(stepType: string)
    requires stepType in STEP_TYPES
    ensures JobTypeOf(stepType) in REGISTRY
    ensures StepCapability(stepType) == Some(REGISTRY[JobTypeOf(stepType)].name)
  {}

  /** The capability of each remaining job type, and that there are no others. */
  lemma RegistryExactly(jobType: string)
    ensures jobType in REGISTRY <==>
            || (exists t :: t in STEP_TYPES && JobTypeOf(t) == jobType)
            || jobType in {"HEARTBEAT", "FILE_READ", "LOG_READ", "COMPLIANCE_REMEDIATE", "FIREWALL_CHANGE",
                           "WORKFLOW_STEPS", "PLUGIN_INSTALL"}
    ensures jobType == "HEARTBEAT" || jobType == "FILE_READ" ==> REGISTRY[jobType] == Capability("READ_SYSTEM", LOW)
    ensures jobType == "LOG_READ" ==> REGISTRY[jobType] == Capability("READ_LOGS", LOW)
    ensures jobType == "COMPLIANCE_REMEDIATE" ==> REGISTRY[jobType] == Capability("SECURITY_REMEDIATION", HIGH)
    ensures jobType == "FIREWALL_CHANGE" ==> REGISTRY[jobType] == Capability("FIREWALL_CONFIGURATION", HIGH)
    ensures jobType == "WORKFLOW_STEPS" ==> REGISTRY[jobType] == Capability("EXEC_BASH", CRITICAL)
    ensures jobType == "PLUGIN_INSTALL" ==> REGISTRY[jobType] == Capability("PLUGIN_INSTALL", CRITICAL)
  {
    if jobType in REGISTRY {
      JobTypesOfSteps();
    }
  }

  lemma JobTypesOfSteps()
    ensures JobTypeOf("command") == "CUSTOM_COMMAND" && JobTypeOf("package") == "PACKAGE_UPDATE"
    ensures JobTypeOf("service") == "SERVICE" && JobTypeOf("system") == "REBOOT"
    ensures JobTypeOf("file") == "FILE" && JobTypeOf("ansible") == "ANSIBLE_PLAYBOOK"
  {}

  /** A registered job type without steps needs just its capability, an unregistered one none. */
  lemma RequiredOfJobs(jobType: string, stepsJson: string, fold: char -> char)
    requires jobType != "WORKFLOW_STEPS" || stepsJson == ""
    ensures jobType in REGISTRY ==> RequiredCapabilities(jobType, stepsJson, fold) == {REGISTRY[jobType].name}
    ensures jobType !in REGISTRY ==> RequiredCapabilities(jobType, stepsJson, fold) == {}
  {}

  /** The scan on the text itself: the quoted word, in any case but for `package`, also in single quotes there. */
  lemma FoundInText(json: string, t: string, fold: char -> char)
    requires t in STEP_TYPES
    ensures Finds(json, fold, t) <==>
            (|| (t != "package" && Contains(Lower(json, fold), "\"" + t + "\""))
             || (t == "package" && (Contains(json, "\"package\"") || Contains(json, "'package'"))))
  {
    assert Quoted("package") == "\"package\"";
  }

  /** A part occurs exactly when the text can be cut around it. */
  lemma ContainsExactly(text: string, part: string)
    ensures Contains(text, part) <==> exists before, after :: text == before + part + after
  {
    if Contains(text, part) {
      var i: nat :| i <= |text| && OccursAt(text, part, i);
      assert text == text[..i] + part + text[i + |part|..];
    }
    if before, after :| text == before + part + after {
      assert text[|before|..|before| + |part|] == part;
      assert OccursAt(text, part, |before|);
    }
  }

  /** Capital letters are lowered, other ASCII characters stay. */
  lemma LowerExactly(text: string, fold: char -> char, i: nat)
    requires i < |text| && text[i] < 128 as char
    ensures 'A' <= text[i] <= 'Z' ==> Lower(text, fold)[i] as int == text[i] as int + 32
    ensures !('A' <= text[i] <= 'Z') ==> Lower(text, fold)[i] == text[i]
  {}
}
