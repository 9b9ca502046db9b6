/**
 * The detail page: the effect that looks the route's id up in the fetched
 * list (selecting it as the current workflow, or reporting it missing and
 * going back to the list) and the two status-to-colour mappings.
 */
module WorkflowDetail {
  import opened Wrappers
  import opened WorkflowSlice
  import opened WorkflowList

  const ListRoute: string := "/workflows"
  const NotFoundMessage: string := "Workflow not found"

  /** The position of the first workflow with the id, as `find` scans. */
  function FindFirst(ws: seq<WorkflowView>, id: string): (r: Option<nat>)
    ensures r.Some? ==> r.value < |ws| && ws[r.value].id == id
    ensures r.Some? ==> forall j :: 0 <= j < r.value ==> ws[j].id != id
    ensures r.None? <==> forall j :: 0 <= j < |ws| ==> ws[j].id != id
    decreases |ws|
  {
    if ws == [] then None
    else if ws[0].id == id then Some(0)
    else
      match FindFirst(ws[1..], id)
      case None => None
      case Some(k) => Some(k + 1)
  }

  /** What the effect does: dispatch the selection, or toast and navigate. */
  datatype Effect = Select(workflow: WorkflowView) | NotFound(message: string, route: string)

  function Lookup(ws: seq<WorkflowView>, id: string): (e: Effect)
    ensures e.Select? <==> exists j :: 0 <= j < |ws| && ws[j].id == id
    ensures e.NotFound? ==> e == NotFound(NotFoundMessage, ListRoute)
  {
    match FindFirst(ws, id)
    case Some(k) => Select(ws[k])
    case None => NotFound(NotFoundMessage, ListRoute)
  }

  /**
   * A found workflow is the first with the id; dispatching it makes it the
   * current workflow and changes nothing else in the store.
   */
  lemma SelectSetsCurrent(s: State, id: string)
    requires Lookup(s.workflows, id).Select?
    ensures var w := Lookup(s.workflows, id).workflow;
      && w.id == id
      && (exists k :: 0 <= k < |s.workflows| && s.workflows[k] == w
                      && forall j :: 0 <= j < k ==> s.workflows[j].id != id)
      && Reduce(s, SetCurrentWorkflow(Some(w))) == s.(currentWorkflow := Some(w))
  {
    var k := FindFirst(s.workflows, id).value;
    assert s.workflows[k] == Lookup(s.workflows, id).workflow;
  }

  const Gray: string := "bg-gray-100 text-gray-800"

  /** `getStatusColor`. */
  function StatusColor(status: string): (c: string)
    ensures status == "active" ==> c == "bg-green-100 text-green-800"
    ensures status == "inactive" ==> c == "bg-red-100 text-red-800"
    ensures status == "draft" ==> c == "bg-yellow-100 text-yellow-800"
    ensures c == Gray <==> status !in {"active", "inactive", "draft"}
  {
    match status
    case "active" => "bg-green-100 text-green-800"
    case "inactive" => "bg-red-100 text-red-800"
    case "draft" => "bg-yellow-100 text-yellow-800"
    case _ => Gray
  }

  /** `getStepStatusColor`. */
  function StepStatusColor(status: string): (c: string)
    ensures status == "completed" ==> c == "bg-green-100 text-green-800"
    ensures status == "in_progress" ==> c == "bg-blue-100 text-blue-800"
    ensures status == "pending" ==> c == "bg-yellow-100 text-yellow-800"
    ensures c == Gray <==> status !in {"completed", "in_progress", "pending"}
  {
    match status
    case "completed" => "bg-green-100 text-green-800"
    case "in_progress" => "bg-blue-100 text-blue-800"
    case "pending" => "bg-yellow-100 text-yellow-800"
    case _ => Gray
  }

  /** The three named workflow statuses get three different colours. */
  lemma StatusColorsDistinct(a: string, b: string)
    requires a in {"active", "inactive", "draft"} && b in {"active", "inactive", "draft"} && a != b
    ensures StatusColor(a) != StatusColor(b)
  {
  }

  /** The three named step statuses get three different colours. */
  lemma StepStatusColorsDistinct(a: string, b: string)
    requires a in {"completed", "in_progress", "pending"} && b in {"completed", "in_progress", "pending"} && a != b
    ensures StepStatusColor(a) != StepStatusColor(b)
  {
  }

  /**
   * The detail page and the list badge agree on the three schema statuses;
   * any other status is gray here but yellow in the list.
   */
  lemma DetailAgreesWithBadge(status: string)
    ensures status in {"active", "inactive", "draft"} ==> StatusColor(status) == BadgeClass(status)
    ensures status !in {"active", "inactive", "draft"} ==> StatusColor(status) != BadgeClass(status)
  {
  }
}
