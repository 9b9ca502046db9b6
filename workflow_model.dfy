/**
 * The workflow schema: the raw document a request supplies, how the schema
 * casts it (trimming, defaults) and which constraints it enforces, the stored
 * workflow it yields, the unique (name, owner) index and the `progress`
 * virtual.
 */
module WorkflowModel {
  import opened Wrappers
  import opened Text
  import opened AuthMiddleware

  datatype WorkflowStatus = Active | Inactive | Draft
  datatype StepStatus = Pending | InProgress | Completed

  function WorkflowStatusName(s: WorkflowStatus): string {
    match s
    case Active => "active"
    case Inactive => "inactive"
    case Draft => "draft"
  }

  /** The workflow `status` enum: exactly the three names. */
  function ParseWorkflowStatus(s: string): (r: Option<WorkflowStatus>)
    ensures r.Some? ==> WorkflowStatusName(r.value) == s
    ensures r.None? ==> s != "active" && s != "inactive" && s != "draft"
  {
    if s == "active" then Some(Active)
    else if s == "inactive" then Some(Inactive)
    else if s == "draft" then Some(Draft)
    else None
  }

  function StepStatusName(s: StepStatus): string {
    match s
    case Pending => "pending"
    case InProgress => "in_progress"
    case Completed => "completed"
  }

  /** The step `status` enum: exactly the three names. */
  function ParseStepStatus(s: string): (r: Option<StepStatus>)
    ensures r.Some? ==> StepStatusName(r.value) == s
    ensures r.None? ==> s != "pending" && s != "in_progress" && s != "completed"
  {
    if s == "pending" then Some(Pending)
    else if s == "in_progress" then Some(InProgress)
    else if s == "completed" then Some(Completed)
    else None
  }

  /** Every status name parses back to its status. */
  lemma StatusNamesRoundTrip(w: WorkflowStatus, s: StepStatus)
    ensures ParseWorkflowStatus(WorkflowStatusName(w)) == Some(w)
    ensures ParseStepStatus(StepStatusName(s)) == Some(s)
  {
  }

  datatype Step = Step(name: Option<string>, description: Option<string>, order: Option<int>, status: StepStatus)

  /** A stored workflow. `createdAt` is the timestamp the schema's `timestamps` option records. */
  datatype Workflow = Workflow(
    id: nat,
    name: string,
    description: Option<string>,
    status: WorkflowStatus,
    createdBy: UserId,
    steps: seq<Step>,
    metadata: map<string, string>,
    createdAt: int)

  /** A step as supplied, before casting. */
  datatype StepInput = StepInput(name: Option<string>, description: Option<string>, order: Option<int>, status: Option<string>)

  /**
   * A workflow document as supplied, before casting: the schema's paths, each
   * possibly absent. `createdAt` is a path too, through the `timestamps`
   * option, and a supplied value is kept.
   */
  datatype WorkflowInput = WorkflowInput(
    name: Option<string>,
    description: Option<string>,
    status: Option<string>,
    createdBy: Option<UserId>,
    steps: Option<seq<StepInput>>,
    metadata: Option<map<string, string>>,
    createdAt: Option<int>)

  const MaxNameLength: nat := 100
  const MaxDescriptionLength: nat := 500
  const NameRequiredMessage: string := "Workflow name is required"
  const NameTooLongMessage: string := "Name cannot be more than 100 characters"
  const DescriptionTooLongMessage: string := "Description cannot be more than 500 characters"
  const CreatedByRequiredMessage: string := "Path `createdBy` is required."

  /** The schema library's default message for a value outside an enum. */
  function EnumMessage(value: string, path: string): string {
    "`" + value + "` is not a valid enum value for path `" + path + "`."
  }

  function NameViolations(name: Option<string>): seq<string> {
    if name.None? || Trim(name.value) == "" then [NameRequiredMessage]
    else if |Trim(name.value)| > MaxNameLength then [NameTooLongMessage]
    else []
  }

  function DescriptionViolations(description: Option<string>): seq<string> {
    if description.Some? && |Trim(description.value)| > MaxDescriptionLength then [DescriptionTooLongMessage] else []
  }

  function StatusViolations(status: Option<string>): seq<string> {
    if status.Some? && ParseWorkflowStatus(status.value).None? then [EnumMessage(status.value, "status")] else []
  }

  predicate StepStatusOk(s: StepInput) {
    s.status.None? || ParseStepStatus(s.status.value).Some?
  }

  function StepViolations(steps: seq<StepInput>): (msgs: seq<string>)
    ensures msgs == [] <==> forall i :: 0 <= i < |steps| ==> StepStatusOk(steps[i])
    decreases |steps|
  {
    if steps == [] then []
    else
      (if StepStatusOk(steps[0]) then [] else [EnumMessage(steps[0].status.value, "status")])
      + StepViolations(steps[1..])
  }

  /** Every validation message the document draws, in schema path order. */
  function Violations(input: WorkflowInput): seq<string> {
    NameViolations(input.name)
    + DescriptionViolations(input.description)
    + StatusViolations(input.status)
    + (if input.createdBy.None? then [CreatedByRequiredMessage] else [])
    + StepViolations(input.steps.GetOr([]))
  }

  /** The constraints every stored workflow satisfies. */
  predicate WellFormed(w: Workflow) {
    && Trimmed(w.name) && 0 < |w.name| <= MaxNameLength
    && (w.description.Some? ==> Trimmed(w.description.value) && |w.description.value| <= MaxDescriptionLength)
  }

  /** A step as the schema casts it: status defaults to pending. */
  function CastStep(s: StepInput): Step
    requires StepStatusOk(s)
  {
    Step(s.name, s.description, s.order,
         if s.status.None? then Pending else ParseStepStatus(s.status.value).value)
  }

  function CastSteps(steps: seq<StepInput>): (r: seq<Step>)
    requires forall i :: 0 <= i < |steps| ==> StepStatusOk(steps[i])
    ensures |r| == |steps|
    ensures forall i :: 0 <= i < |steps| ==> r[i] == CastStep(steps[i])
  {
    seq(|steps|, i requires 0 <= i < |steps| => CastStep(steps[i]))
  }

  /**
   * `stored` is `given` as the schema casts it: one step each, with name,
   * description and order kept, and the status given or else pending.
   */
  predicate StepsCast(given: seq<StepInput>, stored: seq<Step>) {
    && |stored| == |given|
    && forall i :: 0 <= i < |given| ==>
      && stored[i].name == given[i].name
      && stored[i].description == given[i].description
      && stored[i].order == given[i].order
      && (if given[i].status.None? then stored[i].status == Pending
          else ParseStepStatus(given[i].status.value) == Some(stored[i].status))
  }

  /**
   * What a saved document keeps of the supplied one: the trimmed description,
   * the given status or else draft, the metadata or else the empty map, and each step
   * as the schema casts it.
   */
  predicate KeepsInput(input: WorkflowInput, w: Workflow) {
    && w.description == (if input.description.Some? then Some(Trim(input.description.value)) else None)
    && (if input.status.None? then w.status == Draft else ParseWorkflowStatus(input.status.value) == Some(w.status))
    && w.metadata == input.metadata.GetOr(map[])
    && StepsCast(input.steps.GetOr([]), w.steps)
  }

  datatype Validation = Accepted(workflow: Workflow) | Rejected(messages: seq<string>)

  /**
   * Casting and validation of a document about to be saved as workflow `id`
   * at time `now`; the timestamp is `now` unless the document brings its own.
   */
  function Validate(input: WorkflowInput, id: nat, now: int): (r: Validation)
    ensures r.Rejected? <==> Violations(input) != []
    ensures r.Rejected? ==> r.messages == Violations(input)
    ensures r.Accepted? ==> WellFormed(r.workflow)
    ensures r.Accepted? ==> input.createdBy == Some(r.workflow.createdBy) && r.workflow.id == id && r.workflow.createdAt == input.createdAt.GetOr(now)
    ensures r.Accepted? ==> input.name.Some? && r.workflow.name == Trim(input.name.value)
    ensures r.Accepted? ==> KeepsInput(input, r.workflow)
  {
    if Violations(input) != [] then Rejected(Violations(input))
    else
      assert NameViolations(input.name) == [];
      assert StepViolations(input.steps.GetOr([])) == [];
      Accepted(Workflow(
        id,
        Trim(input.name.value),
        if input.description.Some? then Some(Trim(input.description.value)) else None,
        if input.status.None? then Draft else ParseWorkflowStatus(input.status.value).value,
        input.createdBy.value,
        CastSteps(input.steps.GetOr([])),
        input.metadata.GetOr(map[]),
        input.createdAt.GetOr(now)))
  }

  /** A document raises no message exactly when it keeps every schema rule. */
  lemma NoViolationsIff(input: WorkflowInput)
    ensures Violations(input) == [] <==>
      && input.name.Some? && Trim(input.name.value) != "" && |Trim(input.name.value)| <= MaxNameLength
      && (input.description.Some? ==> |Trim(input.description.value)| <= MaxDescriptionLength)
      && (input.status.Some? ==> ParseWorkflowStatus(input.status.value).Some?)
      && input.createdBy.Some?
      && forall i :: 0 <= i < |input.steps.GetOr([])| ==> StepStatusOk(input.steps.GetOr([])[i])
  {
    var name := NameViolations(input.name);
    var desc := DescriptionViolations(input.description);
    var status := StatusViolations(input.status);
    var owner := if input.createdBy.None? then [CreatedByRequiredMessage] else [];
    var steps := StepViolations(input.steps.GetOr([]));
    assert Violations(input) == [] <==> name == [] && desc == [] && status == [] && owner == [] && steps == [] by {
      assert Violations(input) == name + desc + status + owner + steps;
      assert |Violations(input)| == |name| + |desc| + |status| + |owner| + |steps|;
    }
    FieldViolationsIff(input);
  }

  /** The name, description and status rules one by one. */
  lemma FieldViolationsIff(input: WorkflowInput)
    ensures NameViolations(input.name) == [] <==>
      input.name.Some? && Trim(input.name.value) != "" && |Trim(input.name.value)| <= MaxNameLength
    ensures DescriptionViolations(input.description) == [] <==>
      (input.description.Some? ==> |Trim(input.description.value)| <= MaxDescriptionLength)
    ensures StatusViolations(input.status) == [] <==>
      (input.status.Some? ==> ParseWorkflowStatus(input.status.value).Some?)
  {
  }

  /** An absent status becomes draft, an absent step status pending. */
  lemma Defaults(input: WorkflowInput, id: nat, now: int)
    requires Validate(input, id, now).Accepted?
    ensures input.status.None? ==> Validate(input, id, now).workflow.status == Draft
    ensures forall i :: 0 <= i < |input.steps.GetOr([])| && input.steps.GetOr([])[i].status.None? ==>
      Validate(input, id, now).workflow.steps[i].status == Pending
  {
  }

  /** Each broken rule's message is among the messages the document is refused with. */
  lemma RequiredAndEnum(input: WorkflowInput, id: nat, now: int)
    ensures var r := Validate(input, id, now);
      (input.name.None? || Trim(input.name.value) == "") ==> r.Rejected? && NameRequiredMessage in r.messages
    ensures var r := Validate(input, id, now);
      input.name.Some? && |Trim(input.name.value)| > MaxNameLength ==> r.Rejected? && NameTooLongMessage in r.messages
    ensures var r := Validate(input, id, now);
      input.description.Some? && |Trim(input.description.value)| > MaxDescriptionLength ==>
        r.Rejected? && DescriptionTooLongMessage in r.messages
    ensures var r := Validate(input, id, now);
      input.status.Some? && ParseWorkflowStatus(input.status.value).None? ==>
        r.Rejected? && EnumMessage(input.status.value, "status") in r.messages
    ensures var r := Validate(input, id, now);
      input.createdBy.None? ==> r.Rejected? && CreatedByRequiredMessage in r.messages
    ensures var r := Validate(input, id, now); var steps := input.steps.GetOr([]);
      forall i :: 0 <= i < |steps| && !StepStatusOk(steps[i]) ==>
        r.Rejected? && EnumMessage(steps[i].status.value, "status") in r.messages
  {
    var name := NameViolations(input.name);
    var desc := DescriptionViolations(input.description);
    var status := StatusViolations(input.status);
    var owner := if input.createdBy.None? then [CreatedByRequiredMessage] else [];
    var steps := StepViolations(input.steps.GetOr([]));
    var v := Violations(input);
    assert v == name + desc + status + owner + steps;
    assert forall m :: m in v <==> m in name || m in desc || m in status || m in owner || m in steps;
    forall i | 0 <= i < |input.steps.GetOr([])| && !StepStatusOk(input.steps.GetOr([])[i])
      ensures EnumMessage(input.steps.GetOr([])[i].status.value, "status") in steps
    {
      StepMessageListed(input.steps.GetOr([]), i);
    }
  }

  /** A step with a status outside the enum contributes its enum message. */
  lemma {:induction false} StepMessageListed(steps: seq<StepInput>, i: nat)
    requires i < |steps| && !StepStatusOk(steps[i])
    ensures EnumMessage(steps[i].status.value, "status") in StepViolations(steps)
    decreases i
  {
    if i > 0 {
      StepMessageListed(steps[1..], i - 1);
    }
  }

  /** The unique index on (name, createdBy). */
  predicate UniqueNameOwner(ws: seq<Workflow>) {
    forall i, j :: 0 <= i < j < |ws| ==> ws[i].name != ws[j].name || ws[i].createdBy != ws[j].createdBy
  }

  /** The number of completed steps. */
  function CompletedCount(steps: seq<Step>): (c: nat)
    ensures c <= |steps|
    ensures c == 0 <==> forall i :: 0 <= i < |steps| ==> steps[i].status != Completed
    decreases |steps|
  {
    if steps == [] then 0
    else
      assert forall i :: 1 <= i < |steps| ==> steps[i] == steps[1..][i - 1];
      (if steps[0].status == Completed then 1 else 0) + CompletedCount(steps[1..])
  }

  /** All steps are completed exactly when all of them are counted. */
  lemma {:induction false} CompletedCountAll(steps: seq<Step>)
    ensures CompletedCount(steps) == |steps| <==> forall i :: 0 <= i < |steps| ==> steps[i].status == Completed
    decreases |steps|
  {
    if steps != [] {
      CompletedCountAll(steps[1..]);
      assert forall i :: 1 <= i < |steps| ==> steps[i] == steps[1..][i - 1];
    }
  }

  /** The `progress` virtual: the completed percentage, rounded half up, 0 without steps. */
  function Progress(steps: seq<Step>): (p: nat)
    ensures p <= 100
    ensures steps == [] ==> p == 0
    ensures steps != [] ==>
      2 * |steps| * p - |steps| <= 200 * CompletedCount(steps) < 2 * |steps| * p + |steps|
  {
    if |steps| == 0 then 0
    else
      var c, n := CompletedCount(steps), |steps|;
      RoundHalfUp(c, n);
      (200 * c + n) / (2 * n)
  }

  /** `(200c + n) / 2n` is `100c / n` rounded half up, and at most 100 when `c <= n`. */
  lemma RoundHalfUp(c: nat, n: nat)
    requires 0 < n && c <= n
    ensures (200 * c + n) / (2 * n) <= 100
    ensures var p := (200 * c + n) / (2 * n); 2 * n * p - n <= 200 * c < 2 * n * p + n
  {
    var x, d := 200 * c + n, 2 * n;
    var p := x / d;
    assert x < 101 * d;
    DivBelow(x, d, 101);
    assert x == p * d + x % d && 0 <= x % d < d;
    assert p * d == 2 * n * p;
  }

  lemma DivBelow(x: nat, d: nat, q: nat)
    requires d > 0 && x < q * d
    ensures x / d < q
  {
  }

  lemma MulMonotone(a: nat, b: nat, d: nat)
    requires a <= b
    ensures a * d <= b * d
  {
  }

  lemma DivAtLeast(x: nat, d: nat, q: nat)
    requires d > 0 && q * d <= x
    ensures q <= x / d
  {
    var k := x / d;
    assert x == k * d + x % d;
    assert q * d < (k + 1) * d;
    if q > k {
      MulMonotone(k + 1, q, d);
    }
  }

  lemma DivExact(x: nat, d: nat, q: nat)
    requires d > 0 && q * d <= x < (q + 1) * d
    ensures x / d == q
  {
    DivBelow(x, d, q + 1);
    DivAtLeast(x, d, q);
  }

  /**
   * Fewer than 200 steps: progress is 100 exactly when every step is
   * completed. (From 200 steps on, all but one completed rounds up to 100 too.)
   */
  lemma ProgressFullIffAllCompleted(steps: seq<Step>)
    requires 0 < |steps| < 200
    ensures Progress(steps) == 100 <==> forall i :: 0 <= i < |steps| ==> steps[i].status == Completed
  {
    CompletedCountAll(steps);
    var c, n := CompletedCount(steps), |steps|;
    if c == n {
      DivExact(200 * c + n, 2 * n, 100);
    } else {
      assert 200 * c + n < 100 * (2 * n);
      DivBelow(200 * c + n, 2 * n, 100);
    }
  }

  /** Completed then pending is 50 percent. */
  lemma ProgressHalf(a: Step, b: Step)
    requires a.status == Completed && b.status == Pending
    ensures Progress([a, b]) == 50
  {
    assert [a, b][1..] == [b];
    assert CompletedCount([a, b]) == 1;
  }

  /** A pending step followed by 200 completed ones shows 100 percent. */
  lemma ProgressRoundsUpNearlyComplete(p: Step, c: Step)
    requires p.status == Pending && c.status == Completed
    ensures var steps := [p] + seq(200, _ => c);
      Progress(steps) == 100 && steps[0].status != Completed
  {
    var tail := seq(200, _ => c);
    var steps := [p] + tail;
    CompletedCountAll(tail);
    assert steps[1..] == tail;
    assert CompletedCount(steps) == 200;
    DivExact(200 * 200 + 201, 2 * 201, 100);
  }
}
