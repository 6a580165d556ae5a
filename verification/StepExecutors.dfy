/**
 The two sequential executors of the agent, for workflow steps and for
 remediation actions: sort by sequence number, run one after the other, stop
 at the first failure, collect the output.
 */
module StepExecutors {
  import opened Common
  import Capabilities
  import StepScan

  datatype Step = Step(sequence: int, kind: string, body: string)

  datatype StepResult = StepResult(exitCode: int, stdout: string, stderr: string, error: string)

  /** A step runs and gives a result, or is turned away before it runs. */
  datatype Attempt = Ran(result: StepResult) | TurnedAway(error: string) {
    predicate Fails() { TurnedAway? || result.exitCode != 0 || result.error != "" }

    function ExitCode(): (r: int) {
      if TurnedAway? || result.exitCode == 0 then 1 else result.exitCode
    }
  }

  /** What each step meets, by position and step; nothing is assumed of it. */
  type Outcomes = (nat, Step) -> Attempt

  datatype Final = Final(exitCode: int, stdout: string, stderr: string, error: string)

  predicate InSequence(s: seq<Step>) {
    forall i, j :: 0 <= i < j < |s| ==> s[i].sequence <= s[j].sequence
  }

  ghost predicate SortedPermutation(order: seq<Step>, steps: seq<Step>) {
    InSequence(order) && multiset(order) == multiset(steps)
  }

  /** How many steps are attempted from position `from` on: up to and with the first failure. */
  function Attempted(order: seq<Step>, outcomes: Outcomes, from: nat): (n: nat)
    requires from <= |order|
    ensures from <= n <= |order|
    decreases |order| - from
  {
    if from == |order| then from
    else if outcomes(from, order[from]).Fails() then from + 1
    else Attempted(order, outcomes, from + 1)
  }

  ghost predicate AllSucceed(order: seq<Step>, outcomes: Outcomes, n: nat)
    requires n <= |order|
  {
    forall k :: 0 <= k < n ==> Succeeds(outcomes(k, order[k]))
  }

  /** The step ran, its exit code is 0 and it gives no error. */
  ghost predicate Succeeds(a: Attempt) {
    a.Ran? && a.result.exitCode == 0 && a.result.error == ""
  }

  /** The code reported for a failed step: its own, or 1 if it has none. */
  ghost predicate IsFailureCode(a: Attempt, code: int) {
    if a.Ran? && a.result.exitCode != 0 then code == a.result.exitCode else code == 1
  }

  /** The attempted steps are the shortest prefix ending at the first failure, or all of them. */
  lemma {:induction false} AttemptedIsShortest(order: seq<Step>, outcomes: Outcomes, from: nat)
    requires from <= |order|
    ensures var n := Attempted(order, outcomes, from);
      && (forall k :: from <= k < n - 1 ==> Succeeds(outcomes(k, order[k])))
      && (n < |order| ==> n > from && !Succeeds(outcomes(n - 1, order[n - 1])))
    decreases |order| - from
  {
    if from < |order| && !outcomes(from, order[from]).Fails() {
      AttemptedIsShortest(order, outcomes, from + 1);
    }
  }

  const STDOUT: StepResult -> string := (r: StepResult) => r.stdout
  const STDERR: StepResult -> string := (r: StepResult) => r.stderr

  /** The outputs so far, with that of one more attempt if it gave any. */
  function Noted(parts: seq<string>, a: Attempt, pick: StepResult -> string, tagged: string): (more: seq<string>) {
    if a.TurnedAway? || pick(a.result) == "" then parts else parts + [tagged + pick(a.result)]
  }

  /** The non-empty outputs of the first `n` steps, each with its label. */
  function Outputs(order: seq<Step>, outcomes: Outcomes, n: nat, pick: StepResult -> string, tag: Step -> string)
    : (parts: seq<string>)
    requires n <= |order|
  {
    if n == 0 then [] else
    Noted(Outputs(order, outcomes, n - 1, pick, tag), outcomes(n - 1, order[n - 1]), pick, tag(order[n - 1]))
  }

  function Join(parts: seq<string>): (r: string) {
    if parts == [] then ""
    else if |parts| == 1 then parts[0]
    else Join(parts[..|parts| - 1]) + "\n" + parts[|parts| - 1]
  }

  lemma InsertKeepsSequence(order: seq<Step>, at: nat, step: Step)
    requires InSequence(order) && at <= |order|
    requires forall k :: 0 <= k < at ==> order[k].sequence <= step.sequence
    requires forall k :: at <= k < |order| ==> step.sequence <= order[k].sequence
    ensures InSequence(order[..at] + [step] + order[at..])
    ensures multiset(order[..at] + [step] + order[at..]) == multiset(order) + multiset{step}
  {
    assert order == order[..at] + order[at..];
  }

  /** Where a step goes: behind all that do not come after it. */
  method PlaceOf(order: seq<Step>, step: Step) returns (at: nat)
    requires InSequence(order)
    ensures at <= |order|
    ensures forall k :: 0 <= k < at ==> order[k].sequence <= step.sequence
    ensures forall k :: at <= k < |order| ==> step.sequence < order[k].sequence
  {
    at := |order|;
    while at > 0 && step.sequence < order[at - 1].sequence
      invariant at <= |order|
      invariant forall k :: at <= k < |order| ==> step.sequence < order[k].sequence
    {
      at := at - 1;
    }
  }

  /** The library sort: some permutation in sequence order; ties may fall either way. */
  method SortBySequence(steps: seq<Step>) returns (order: seq<Step>)
    ensures SortedPermutation(order, steps)
  {
    order := [];
    for i := 0 to |steps|
      invariant InSequence(order) && multiset(order) == multiset(steps[..i])
    {
      var at := PlaceOf(order, steps[i]);
      assert steps[..i + 1] == steps[..i] + [steps[i]];
      InsertKeepsSequence(order, at, steps[i]);
      order := order[..at] + [steps[i]] + order[at..];
    }
    assert steps[..|steps|] == steps;
  }

  /** Runs the steps in order; `executed` says which were attempted. */
  method Execute(steps: seq<Step>, outcomes: Outcomes, tag: Step -> string, failure: (Step, Attempt) -> string)
    returns (final: Final, order: seq<Step>, executed: nat)
    requires forall s, a: Attempt :: a.Fails() ==> failure(s, a) != ""
    ensures SortedPermutation(order, steps) && executed <= |order|
    ensures steps != [] ==> executed == Attempted(order, outcomes, 0)
    ensures final.exitCode == 0 <==> steps != [] && AllSucceed(order, outcomes, |order|)
    ensures final.error == "" <==> final.exitCode == 0
    ensures steps != [] && final.exitCode != 0 ==>
              && executed > 0 && !Succeeds(outcomes(executed - 1, order[executed - 1]))
              && IsFailureCode(outcomes(executed - 1, order[executed - 1]), final.exitCode)
              && final.error == failure(order[executed - 1], outcomes(executed - 1, order[executed - 1]))
    ensures steps == [] ==> final.exitCode == 1 && executed == 0
    ensures final.stdout == Join(Outputs(order, outcomes, executed, STDOUT, tag))
    ensures final.stderr == Join(Outputs(order, outcomes, executed, STDERR, tag))
  {
    order := SortBySequence(steps);
    executed := 0;
    if steps == [] {
      final := Final(1, "", "", "nothing supplied");
      return;
    }
    assert order != [] by {
      assert steps[0] in multiset(steps);
    }
    var exitCode, error, stdout, stderr;
    executed, exitCode, error, stdout, stderr := RunInOrder(order, outcomes, tag, failure);
    AttemptedIsShortest(order, outcomes, 0);
    final := Final(exitCode, Join(stdout), Join(stderr), error);
  }

  /** The loop over the ordered steps, up to and with the first failure. */
  method RunInOrder(order: seq<Step>, outcomes: Outcomes, tag: Step -> string, failure: (Step, Attempt) -> string)
    returns (executed: nat, exitCode: int, error: string, stdout: seq<string>, stderr: seq<string>)
    requires forall s, a: Attempt :: a.Fails() ==> failure(s, a) != ""
    ensures executed == Attempted(order, outcomes, 0)
    ensures exitCode == 0 ==> executed == |order| && error == "" && AllSucceed(order, outcomes, |order|)
    ensures exitCode != 0 ==>
              && executed > 0 && !Succeeds(outcomes(executed - 1, order[executed - 1])) && error != ""
              && IsFailureCode(outcomes(executed - 1, order[executed - 1]), exitCode)
              && error == failure(order[executed - 1], outcomes(executed - 1, order[executed - 1]))
    ensures stdout == Outputs(order, outcomes, executed, STDOUT, tag)
    ensures stderr == Outputs(order, outcomes, executed, STDERR, tag)
  {
    executed, exitCode, error, stdout, stderr := 0, 0, "", [], [];
    while executed < |order|
      invariant executed <= |order| && exitCode == 0 && error == ""
      invariant AllSucceed(order, outcomes, executed)
      invariant Attempted(order, outcomes, 0) == Attempted(order, outcomes, executed)
      invariant stdout == Outputs(order, outcomes, executed, STDOUT, tag)
      invariant stderr == Outputs(order, outcomes, executed, STDERR, tag)
      decreases |order| - executed
    {
      var step := order[executed];
      var attempt := outcomes(executed, step);
      executed := executed + 1;
      stdout := Noted(stdout, attempt, STDOUT, tag(step));
      stderr := Noted(stderr, attempt, STDERR, tag(step));
      if attempt.Fails() {
        exitCode, error := attempt.ExitCode(), failure(step, attempt);
        break;
      }
    }
  }

  // ------------------------------------------------------------ the two uses

  /** The step types a workflow may use. */
  const VOCABULARY: set<string> := {"command", "package", "service", "system", "file", "ansible"}

  /** A workflow step: the vocabulary, with the two kinds that need content. */
  function Dispatch(step: Step, run: Step -> StepResult): (r: StepResult) {
    if step.kind == "command" && step.body == "" then
      StepResult(1, "", "", "missing required parameter: command")
    else if step.kind == "ansible" && step.body == "" then
      StepResult(1, "", "", "missing required parameter: playbook_content")
    else if step.kind in VOCABULARY then run(step)
    else StepResult(1, "", "", "unsupported workflow step type: " + step.kind)
  }

  datatype Runner = Broker | Local(check: bool)

  /** Which runner a remediation provider gets; only real runs go through the broker. */
  function RunnerFor(provider: string, dryRun: bool, brokered: set<string>): (r: Option<Runner>) {
    if !dryRun && provider in brokered then Some(Broker)
    else if provider in {"shell", "ansible", "python"} then Some(Local(dryRun))
    else None
  }

  /** The white space the library trims. */
  predicate IsSpace(c: char) {
    || '\t' <= c <= '\r' || c == ' ' || c == '\U{85}' || c == '\U{A0}' || c == '\U{1680}'
    || '\U{2000}' <= c <= '\U{200A}' || c == '\U{2028}' || c == '\U{2029}'
    || c == '\U{202F}' || c == '\U{205F}' || c == '\U{3000}'
  }

  /** By code point: the six ASCII ones, next line, no-break space, and the Unicode spaces and separators. */
  lemma SpacesExactly(c: char)
    ensures IsSpace(c) <==>
            || 9 <= c as int <= 13 || c as int in {0x20, 0x85, 0xA0, 0x1680}
            || 0x2000 <= c as int <= 0x200A || c as int in {0x2028, 0x2029, 0x202F, 0x205F, 0x3000}
  {}

  predicate Blank(s: string) {
    forall i :: 0 <= i < |s| ==> IsSpace(s[i])
  }

  /** A remediation action: blank bodies and unknown providers are turned away before they run. */
  function Remediate(action: Step, dryRun: bool, brokered: set<string>, run: (Runner, Step) -> StepResult)
    : (r: Attempt)
  {
    if Blank(action.body) then TurnedAway("empty rendered_body") else
    match RunnerFor(action.kind, dryRun, brokered)
    case None => TurnedAway("unsupported remediation provider " + action.kind)
    case Some(runner) => Ran(run(runner, action))
  }

  /**
   A remediation plan succeeds only if every action has a body and a provider
   that exists, and a dry run never leaves the host's own check mode.
   */
  lemma SuccessMeansSupported(order: seq<Step>, dryRun: bool, brokered: set<string>,
                              run: (Runner, Step) -> StepResult, k: nat)
    requires k < |order|
    requires AllSucceed(order, (i: nat, s: Step) => Remediate(s, dryRun, brokered, run), |order|)
    ensures !Blank(order[k].body)
    ensures RunnerFor(order[k].kind, dryRun, brokered).Some?
    ensures dryRun ==> RunnerFor(order[k].kind, dryRun, brokered) == Some(Local(true))
  {
    var outcomes: Outcomes := (i: nat, s: Step) => Remediate(s, dryRun, brokered, run);
    assert !outcomes(k, order[k]).Fails();
  }

  /** An unknown step type anywhere in the list makes the whole job fail. */
  lemma UnknownStepFailsJob(order: seq<Step>, run: Step -> StepResult, k: nat)
    requires k < |order| && order[k].kind !in VOCABULARY
    ensures !AllSucceed(order, (i: nat, s: Step) => Ran(Dispatch(s, run)), |order|)
  {
    var outcomes: Outcomes := (i: nat, s: Step) => Ran(Dispatch(s, run));
    assert outcomes(k, order[k]).Fails();
  }

  /**
   A step that reaches a runner has a type the capability scan looks for: if
   its outcome depends on the runner at all, the scan of any serialised list
   holding that type demands its capability.
   */
  lemma WhatRunsIsDemanded(step: Step, run: Step -> StepResult, other: Step -> StepResult,
                           steps: seq<StepScan.Json>, i: nat, escape: char -> string, fold: char -> char)
    requires Dispatch(step, run) != Dispatch(step, other)
    requires i < |steps| && StepScan.HasType(steps[i], step.kind)
    ensures Capabilities.StepCapability(step.kind).Some?
    ensures Capabilities.StepCapability(step.kind).value
         in Capabilities.RequiredCapabilities("WORKFLOW_STEPS", StepScan.Marshal(StepScan.List(steps), escape), fold)
  {
    StepScan.ScanCoversDispatch(steps, i, step.kind, escape, fold);
  }

  // -------------------------------------------------------- what the parts give

  /** How many of the first `n` steps gave output. */
  function Given(order: seq<Step>, outcomes: Outcomes, n: nat, pick: StepResult -> string): (g: nat)
    requires n <= |order|
  {
    if n == 0 then 0 else
    Given(order, outcomes, n - 1, pick)
      + (if outcomes(n - 1, order[n - 1]).Ran? && pick(outcomes(n - 1, order[n - 1]).result) != "" then 1 else 0)
  }

  /** The output lists each step that gave some, in order, labelled, and nothing else. */
  lemma {:induction false} OutputsAre(order: seq<Step>, outcomes: Outcomes, n: nat, pick: StepResult -> string,
                                     tag: Step -> string, k: nat)
    requires k < n <= |order|
    ensures |Outputs(order, outcomes, n, pick, tag)| == Given(order, outcomes, n, pick)
    ensures outcomes(k, order[k]).Ran? && pick(outcomes(k, order[k]).result) != "" ==>
              && Given(order, outcomes, k, pick) < Given(order, outcomes, n, pick)
              && Outputs(order, outcomes, n, pick, tag)[Given(order, outcomes, k, pick)]
                   == tag(order[k]) + pick(outcomes(k, order[k]).result)
  {
    if n == 1 {
      assert Outputs(order, outcomes, 0, pick, tag) == [];
    } else if k < n - 1 {
      OutputsAre(order, outcomes, n - 1, pick, tag, k);
    } else {
      OutputsAre(order, outcomes, n - 1, pick, tag, 0);
    }
  }

  /** Parts are joined by line ends, from either side. */
  lemma {:induction false} JoinFromLeft(first: string, rest: seq<string>)
    ensures Join([]) == "" && Join([first]) == first
    ensures rest != [] ==> Join([first] + rest) == first + "\n" + Join(rest)
    decreases |rest|
  {
    if |rest| <= 1 {
      JoinTwo(first, if rest == [] then "" else rest[0]);
      assert rest != [] ==> [first] + rest == [first, rest[0]] && rest == [rest[0]];
    } else {
      var last := |rest| - 1;
      JoinFromLeft(first, rest[..last]);
      JoinUnfolds([first] + rest);
      JoinUnfolds(rest);
      assert ([first] + rest)[..|rest|] == [first] + rest[..last];
      Regroup(first + "\n", Join(rest[..last]), "\n", rest[last]);
    }
  }

  lemma JoinTwo(a: string, b: string)
    ensures Join([]) == "" && Join([a]) == a && Join([b]) == b && Join([a, b]) == a + "\n" + b
  {
    assert [a, b][..1] == [a];
  }

  lemma JoinUnfolds(parts: seq<string>)
    requires |parts| > 1
    ensures Join(parts) == Join(parts[..|parts| - 1]) + "\n" + parts[|parts| - 1]
  {}

  lemma Regroup(a: string, b: string, c: string, d: string)
    ensures a + b + c + d == a + (b + c + d)
  {}

  /** A workflow step reaches its runner exactly when its type is known and what it must carry is there. */
  lemma DispatchesExactlyWhen(step: Step, run: Step -> StepResult)
    ensures var reached := step.kind in {"command", "package", "service", "system", "file", "ansible"}
                           && (step.kind in {"command", "ansible"} ==> step.body != "");
      && (reached ==> Dispatch(step, run) == run(step))
      && (!reached ==> Dispatch(step, run).exitCode == 1 && Dispatch(step, run).error != ""
                       && Dispatch(step, run).stdout == "" && Dispatch(step, run).stderr == "")
  {}

  /** Real runs of a brokered provider go to the broker, the rest to the host, dry runs in check mode. */
  lemma RunnerExactly(provider: string, dryRun: bool, brokered: set<string>)
    ensures var r := RunnerFor(provider, dryRun, brokered);
      && (r == Some(Broker) <==> !dryRun && provider in brokered)
      && (r == Some(Local(false)) <==> !dryRun && provider !in brokered && provider in {"shell", "ansible", "python"})
      && (r == Some(Local(true)) <==> dryRun && provider in {"shell", "ansible", "python"})
  {}

  /** The body without white space at its front, then at its back. */
  function TrimLeft(s: string): (t: string) {
    if s != "" && IsSpace(s[0]) then TrimLeft(s[1..]) else s
  }

  function TrimRight(s: string): (t: string) {
    if s != "" && IsSpace(s[|s| - 1]) then TrimRight(s[..|s| - 1]) else s
  }

  lemma {:induction false} BlankTrims(s: string)
    ensures TrimLeft(s) == "" <==> Blank(s)
    ensures TrimLeft(s) != "" ==> !IsSpace(TrimLeft(s)[0])
  {
    if s == "" {
    } else if IsSpace(s[0]) {
      BlankTrims(s[1..]);
      assert forall i :: 1 <= i < |s| ==> s[i] == s[1..][i - 1];
    }
  }

  lemma {:induction false} TrimRightKeepsFirst(s: string)
    requires s != "" && !IsSpace(s[0])
    ensures TrimRight(s) != ""
  {
    if IsSpace(s[|s| - 1]) {
      assert s[..|s| - 1][0] == s[0];
      TrimRightKeepsFirst(s[..|s| - 1]);
    }
  }

  /** An action runs exactly when its trimmed body is not empty and its provider has a runner. */
  lemma RemediatesExactlyWhen(action: Step, dryRun: bool, brokered: set<string>, run: (Runner, Step) -> StepResult)
    ensures var runner := RunnerFor(action.kind, dryRun, brokered);
      var a := Remediate(action, dryRun, brokered, run);
      && (a.Ran? <==> TrimRight(TrimLeft(action.body)) != "" && runner.Some?)
      && (a.Ran? ==> a.result == run(runner.value, action))
  {
    BlankTrims(action.body);
    if TrimLeft(action.body) != "" {
      TrimRightKeepsFirst(TrimLeft(action.body));
    }
  }
}
