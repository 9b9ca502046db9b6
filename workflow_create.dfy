/**
 * The editing logic of the workflow creation form: the initial form, the
 * top-level field handler and the step-list edits (change one field of one
 * step, append a step, remove a step by index). Every edit builds a new form
 * value, so all of them are functions.
 */
module WorkflowCreate {

  datatype FormStep = FormStep(name: string, description: string, order: int, status: string)

  datatype FormData = FormData(name: string, description: string, status: string, steps: seq<FormStep>)

  /** The inputs wired to `handleChange`, by their `name` attribute. */
  datatype FormField = NameField | DescriptionField | StatusField

  /** The fields the step inputs edit through `handleStepChange`. */
  datatype StepField = StepName | StepDescription

  /** A fresh step: blank, pending, at the given position. */
  function BlankStep(order: int): FormStep {
    FormStep("", "", order, "pending")
  }

  /** The form as first shown. */
  const InitialForm: FormData := FormData("", "", "draft", [BlankStep(1)])

  /** The value a top-level field currently holds. */
  function FieldOf(f: FormData, field: FormField): string {
    match field
    case NameField => f.name
    case DescriptionField => f.description
    case StatusField => f.status
  }

  /** `handleChange`: the named field takes the value, the rest of the form is kept. */
  function HandleChange(f: FormData, field: FormField, value: string): (r: FormData)
    ensures FieldOf(r, field) == value
    ensures forall other :: other != field ==> FieldOf(r, other) == FieldOf(f, other)
    ensures r.steps == f.steps
  {
    match field
    case NameField => f.(name := value)
    case DescriptionField => f.(description := value)
    case StatusField => f.(status := value)
  }

  /** Two changes to the same field: the later one wins. */
  lemma LastChangeWins(f: FormData, field: FormField, v1: string, v2: string)
    ensures HandleChange(HandleChange(f, field, v1), field, v2) == HandleChange(f, field, v2)
  {
  }

  /** Changes to different fields commute. */
  lemma ChangesCommute(f: FormData, a: FormField, b: FormField, va: string, vb: string)
    requires a != b
    ensures HandleChange(HandleChange(f, a, va), b, vb) == HandleChange(HandleChange(f, b, vb), a, va)
  {
  }

  /** Writing back the value a field holds changes nothing. */
  lemma ChangeToCurrentIsIdentity(f: FormData, field: FormField)
    ensures HandleChange(f, field, FieldOf(f, field)) == f
  {
  }

  function StepFieldOf(s: FormStep, field: StepField): string {
    match field
    case StepName => s.name
    case StepDescription => s.description
  }

  function SetStepField(s: FormStep, field: StepField, value: string): (r: FormStep)
    ensures StepFieldOf(r, field) == value
    ensures forall other :: other != field ==> StepFieldOf(r, other) == StepFieldOf(s, other)
    ensures r.order == s.order && r.status == s.status
  {
    match field
    case StepName => s.(name := value)
    case StepDescription => s.(description := value)
  }

  /** `handleStepChange(index, field, value)`: maps over the steps, editing the one at `index`. */
  function HandleStepChange(steps: seq<FormStep>, index: int, field: StepField, value: string): (r: seq<FormStep>)
    ensures |r| == |steps|
    ensures forall j :: 0 <= j < |steps| && j != index ==> r[j] == steps[j]
    ensures 0 <= index < |steps| ==> StepFieldOf(r[index], field) == value
    ensures 0 <= index < |steps| ==> r[index].order == steps[index].order && r[index].status == steps[index].status
    ensures 0 <= index < |steps| ==>
      forall other :: other != field ==> StepFieldOf(r[index], other) == StepFieldOf(steps[index], other)
    ensures !(0 <= index < |steps|) ==> r == steps
  {
    seq(|steps|, j requires 0 <= j < |steps| => if j == index then SetStepField(steps[j], field, value) else steps[j])
  }

  /** Putting the old value back undoes a step edit. */
  lemma StepChangeUndone(steps: seq<FormStep>, index: int, field: StepField, value: string)
    requires 0 <= index < |steps|
    ensures HandleStepChange(HandleStepChange(steps, index, field, value), index, field, StepFieldOf(steps[index], field))
            == steps
  {
    var once := HandleStepChange(steps, index, field, value);
    var twice := HandleStepChange(once, index, field, StepFieldOf(steps[index], field));
    assert twice[index] == steps[index] by {
      match field
      case StepName =>
      case StepDescription =>
    }
    assert forall j :: 0 <= j < |steps| ==> twice[j] == steps[j];
  }

  /** `addStep`: appends a blank pending step numbered one past the current length. */
  function AddStep(f: FormData): (r: FormData)
    ensures r.steps == f.steps + [BlankStep(|f.steps| + 1)]
    ensures r.name == f.name && r.description == f.description && r.status == f.status
  {
    f.(steps := f.steps + [BlankStep(|f.steps| + 1)])
  }

  /**
   * `steps.filter((_, i) => i !== index)`: drops the entry at `index`
   * (counting from the front as the filter does), keeps the rest in order
   * and leaves their `order` numbers as they were.
   */
  function WithoutIndex(steps: seq<FormStep>, index: int): (r: seq<FormStep>)
    ensures 0 <= index < |steps| ==> r == steps[..index] + steps[index + 1..]
    ensures !(0 <= index < |steps|) ==> r == steps
    decreases |steps|
  {
    if steps == [] then []
    else (if index == 0 then [] else [steps[0]]) + WithoutIndex(steps[1..], index - 1)
  }

  /** `removeStep(index)`. */
  function RemoveStep(f: FormData, index: int): (r: FormData)
    ensures 0 <= index < |f.steps| ==> |r.steps| == |f.steps| - 1
    ensures 0 <= index < |f.steps| ==> forall j :: 0 <= j < index ==> r.steps[j] == f.steps[j]
    ensures 0 <= index < |f.steps| ==> forall j :: index <= j < |r.steps| ==> r.steps[j] == f.steps[j + 1]
    ensures !(0 <= index < |f.steps|) ==> r == f
    ensures r.name == f.name && r.description == f.description && r.status == f.status
  {
    f.(steps := WithoutIndex(f.steps, index))
  }

  /** The form offers a Remove button only from the second step on. */
  predicate RemoveOffered(index: int) {
    index > 0
  }

  /** Removing through the form never removes the first step. */
  lemma FirstStepStays(f: FormData, index: int)
    requires f.steps != [] && RemoveOffered(index)
    ensures RemoveStep(f, index).steps != [] && RemoveStep(f, index).steps[0] == f.steps[0]
  {
  }

  /** The steps are numbered 1, 2, … in list order. */
  predicate NumberedInOrder(steps: seq<FormStep>) {
    forall j :: 0 <= j < |steps| ==> steps[j].order == j + 1
  }

  /** `n` presses of Add Step. */
  function AddSteps(f: FormData, n: nat): FormData
    decreases n
  {
    if n == 0 then f else AddSteps(AddStep(f), n - 1)
  }

  /** Adding only, the numbering stays 1..n and the new steps are blank and pending. */
  lemma {:induction false} AddKeepsNumbering(f: FormData, n: nat)
    requires NumberedInOrder(f.steps)
    ensures NumberedInOrder(AddSteps(f, n).steps)
    ensures |AddSteps(f, n).steps| == |f.steps| + n
    ensures AddSteps(f, n).steps[..|f.steps|] == f.steps
    ensures forall j :: |f.steps| <= j < |f.steps| + n ==> AddSteps(f, n).steps[j] == BlankStep(j + 1)
    decreases n
  {
    if n > 0 {
      var g := AddStep(f);
      assert NumberedInOrder(g.steps);
      AddKeepsNumbering(g, n - 1);
      assert AddSteps(f, n) == AddSteps(g, n - 1);
      assert g.steps[..|f.steps|] == f.steps;
    }
  }

  /** From the initial form, any number of additions gives steps numbered exactly 1..n+1. */
  lemma InitialThenAdds(n: nat)
    ensures |AddSteps(InitialForm, n).steps| == n + 1
    ensures NumberedInOrder(AddSteps(InitialForm, n).steps)
    ensures InitialForm.status == "draft"
    ensures forall j :: 0 <= j < n + 1 ==> AddSteps(InitialForm, n).steps[j].status == "pending"
  {
    assert NumberedInOrder(InitialForm.steps);
    AddKeepsNumbering(InitialForm, n);
  }

  /**
   * Since removal does not renumber and addition numbers by length, removing
   * the middle of three steps and adding one leaves two steps numbered 3.
   */
  lemma RemoveThenAddRepeatsOrder()
    ensures var f := AddStep(RemoveStep(AddSteps(InitialForm, 2), 1));
      |f.steps| == 3 && f.steps[0].order == 1 && f.steps[1].order == 3 && f.steps[2].order == 3
  {
    var three := AddSteps(InitialForm, 2);
    InitialThenAdds(2);
    var two := RemoveStep(three, 1);
    assert two.steps[0].order == 1 && two.steps[1].order == 3;
  }
}
