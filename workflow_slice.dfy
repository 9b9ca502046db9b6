/**
 * The client's workflow store: the request interceptor that attaches the
 * stored token, the slice state and every reducer case. `Reduce` is the
 * reducer as a function on state snapshots; `WorkflowState` is the slice
 * state its cases update in place.
 */
module WorkflowSlice {
  import opened Wrappers
  import opened Text
  import opened ClientCommon
  import AuthMiddleware

  datatype StepView = StepView(name: string, description: string, order: int, status: string)

  /** A workflow as the client holds it: the server's JSON, `_id` as `id`. */
  datatype WorkflowView = WorkflowView(
    id: string,
    name: string,
    description: Option<string>,
    status: string,
    steps: seq<StepView>)

  const AuthorizationHeader: string := "Authorization"

  /** The headers after the interceptor: a Bearer header exactly when a truthy token is stored. */
  function WithBearer(headers: map<string, string>, token: Option<string>): (r: map<string, string>)
    ensures Truthy(token) ==> AuthorizationHeader in r && r[AuthorizationHeader] == AuthMiddleware.BearerPrefix + token.value
    ensures !Truthy(token) ==> r == headers
    ensures forall k :: k != AuthorizationHeader ==> (k in r <==> k in headers) && (k in r ==> r[k] == headers[k])
  {
    if Truthy(token) then headers[AuthorizationHeader := "Bearer " + token.value] else headers
  }

  /** A request's configuration as the interceptor sees it. */
  class RequestConfig {
    var headers: map<string, string>

    constructor (headers: map<string, string>)
      ensures this.headers == headers
    {
      this.headers := headers;
    }

    /** The request interceptor: reads the stored token and sets the header in place. */
    method Intercept(storage: TokenStorage)
      modifies this
      ensures headers == WithBearer(old(headers), storage.token)
    {
      var token := storage.token;
      if Truthy(token) {
        headers := headers[AuthorizationHeader := "Bearer " + token.value];
      }
    }
  }

  /** The header the interceptor writes carries to the server's gate exactly the stored token. */
  lemma {:induction false} InterceptedHeaderReachesGate(headers: map<string, string>, token: string, verify: string -> AuthMiddleware.Verification)
    requires token != "" && ' ' !in token
    ensures var h := WithBearer(headers, Some(token))[AuthorizationHeader];
      AuthMiddleware.ReachesVerify(Some(h)) && AuthMiddleware.TokenOf(h) == token
  {
    var h := WithBearer(headers, Some(token))[AuthorizationHeader];
    assert h[|AuthMiddleware.BearerPrefix|..] == token;
    AuthMiddleware.TokenIsSecondSegment(h);
    TakeUntilWhole(token, ' ');
  }

  datatype State = State(
    workflows: seq<WorkflowView>,
    currentWorkflow: Option<WorkflowView>,
    loading: bool,
    error: Option<ErrorValue>)

  const InitialState: State := State([], None, false, None)

  /** The slice's actions; a rejection carries the `error` field of the failure reply. */
  datatype Action =
    | SetCurrentWorkflow(workflow: Option<WorkflowView>)
    | ClearError
    | CreatePending
    | CreateFulfilled(created: WorkflowView)
    | CreateRejected(reason: Option<ErrorValue>)
    | GetAllPending
    | GetAllFulfilled(list: seq<WorkflowView>)
    | GetAllRejected(reason: Option<ErrorValue>)

  /** The reducer, case by case. */
  function Reduce(s: State, a: Action): (r: State)
    ensures r.workflows == if a.CreateFulfilled? then s.workflows + [a.created] else if a.GetAllFulfilled? then a.list else s.workflows
    ensures r.currentWorkflow == if a.SetCurrentWorkflow? then a.workflow else s.currentWorkflow
    ensures r.loading <==> a.CreatePending? || a.GetAllPending? || (s.loading && (a.SetCurrentWorkflow? || a.ClearError?))
    ensures a.ClearError? || a.CreatePending? || a.GetAllPending? ==> r.error.None?
    ensures a.CreateRejected? || a.GetAllRejected? ==> r.error == a.reason
    ensures a.SetCurrentWorkflow? || a.CreateFulfilled? || a.GetAllFulfilled? ==> r.error == s.error
  {
    match a
    case SetCurrentWorkflow(w) => s.(currentWorkflow := w)
    case ClearError => s.(error := None)
    case CreatePending => s.(loading := true, error := None)
    case CreateFulfilled(w) => s.(loading := false, workflows := s.workflows + [w])
    case CreateRejected(e) => s.(loading := false, error := e)
    case GetAllPending => s.(loading := true, error := None)
    case GetAllFulfilled(ws) => s.(loading := false, workflows := ws)
    case GetAllRejected(e) => s.(loading := false, error := e)
  }

  /** A run of dispatches, one atomic transition each. */
  function ReduceAll(s: State, acts: seq<Action>): State
    decreases |acts|
  {
    if acts == [] then s else ReduceAll(Reduce(s, acts[0]), acts[1..])
  }

  /** The workflows the create requests in a run delivered, in order. */
  function CreatedIn(acts: seq<Action>): seq<WorkflowView>
    decreases |acts|
  {
    if acts == [] then []
    else (if acts[0].CreateFulfilled? then [acts[0].created] else []) + CreatedIn(acts[1..])
  }

  /**
   * Until the list is fetched again, the cached list only grows, at its end,
   * by the created workflows in the order they arrived.
   */
  lemma {:induction false} CreatesOnlyAppend(s: State, acts: seq<Action>)
    requires forall i :: 0 <= i < |acts| ==> !acts[i].GetAllFulfilled?
    ensures ReduceAll(s, acts).workflows == s.workflows + CreatedIn(acts)
    decreases |acts|
  {
    if acts != [] {
      var t := Reduce(s, acts[0]);
      var head := if acts[0].CreateFulfilled? then [acts[0].created] else [];
      assert !acts[0].GetAllFulfilled?;
      OneActionAppends(s, acts[0]);
      assert ReduceAll(s, acts) == ReduceAll(t, acts[1..]);
      assert forall i :: 0 <= i < |acts[1..]| ==> !acts[1..][i].GetAllFulfilled? by {
        assert forall i :: 0 <= i < |acts[1..]| ==> acts[1..][i] == acts[i + 1];
      }
      CreatesOnlyAppend(t, acts[1..]);
      assert CreatedIn(acts) == head + CreatedIn(acts[1..]);
      assert s.workflows + head + CreatedIn(acts[1..]) == s.workflows + (head + CreatedIn(acts[1..]));
    }
  }

  /** An action other than a fetch adds at most the created workflow, at the end. */
  lemma OneActionAppends(s: State, a: Action)
    requires !a.GetAllFulfilled?
    ensures Reduce(s, a).workflows == s.workflows + (if a.CreateFulfilled? then [a.created] else [])
  {
  }

  /**
   * The store starts empty, with no current workflow, not loading and no
   * error; until a fetch, its list is exactly the created workflows in order.
   */
  lemma FromInitialState(acts: seq<Action>)
    requires forall i :: 0 <= i < |acts| ==> !acts[i].GetAllFulfilled?
    ensures InitialState.workflows == [] && InitialState.currentWorkflow.None?
    ensures !InitialState.loading && InitialState.error.None?
    ensures ReduceAll(InitialState, acts).workflows == CreatedIn(acts)
  {
    CreatesOnlyAppend(InitialState, acts);
  }

  /** Only `setCurrentWorkflow` changes the current workflow. */
  lemma {:induction false} CurrentOnlyBySet(s: State, acts: seq<Action>)
    requires forall i :: 0 <= i < |acts| ==> !acts[i].SetCurrentWorkflow?
    ensures ReduceAll(s, acts).currentWorkflow == s.currentWorkflow
    decreases |acts|
  {
    if acts != [] {
      CurrentOnlyBySet(Reduce(s, acts[0]), acts[1..]);
    }
  }

  /** A completed request leaves the store not loading, with the error of its reply or none. */
  lemma RequestSettles(s: State, w: WorkflowView, ws: seq<WorkflowView>, e: Option<ErrorValue>)
    ensures ReduceAll(s, [CreatePending, CreateFulfilled(w)]) == s.(loading := false, error := None, workflows := s.workflows + [w])
    ensures ReduceAll(s, [CreatePending, CreateRejected(e)]) == s.(loading := false, error := e)
    ensures ReduceAll(s, [GetAllPending, GetAllFulfilled(ws)]) == s.(loading := false, error := None, workflows := ws)
    ensures ReduceAll(s, [GetAllPending, GetAllRejected(e)]) == s.(loading := false, error := e)
  {
    ReduceTwo(s, CreatePending, CreateFulfilled(w));
    ReduceTwo(s, CreatePending, CreateRejected(e));
    ReduceTwo(s, GetAllPending, GetAllFulfilled(ws));
    ReduceTwo(s, GetAllPending, GetAllRejected(e));
  }

  lemma ReduceTwo(s: State, a: Action, b: Action)
    ensures ReduceAll(s, [a, b]) == Reduce(Reduce(s, a), b)
  {
    assert [a, b][1..] == [b];
    assert [b][1..] == [];
    assert ReduceAll(Reduce(Reduce(s, a), b), []) == Reduce(Reduce(s, a), b);
    assert ReduceAll(Reduce(s, a), [b]) == ReduceAll(Reduce(Reduce(s, a), b), []);
  }

  /** The slice state, updated in place by the reducer cases. */
  class WorkflowState {
    var workflows: seq<WorkflowView>
    var currentWorkflow: Option<WorkflowView>
    var loading: bool
    var error: Option<ErrorValue>

    function Snapshot(): State
      reads this
    {
      State(workflows, currentWorkflow, loading, error)
    }

    /** The initial state: no workflows, no current one, not loading, no error. */
    constructor ()
      ensures Snapshot() == InitialState
    {
      workflows, currentWorkflow, loading, error := [], None, false, None;
    }

    method SetCurrent(w: Option<WorkflowView>)
      modifies this
      ensures currentWorkflow == w
      ensures workflows == old(workflows) && loading == old(loading) && error == old(error)
      ensures Snapshot() == Reduce(old(Snapshot()), SetCurrentWorkflow(w))
    {
      currentWorkflow := w;
    }

    method Clear()
      modifies this
      ensures error == None
      ensures workflows == old(workflows) && currentWorkflow == old(currentWorkflow) && loading == old(loading)
      ensures Snapshot() == Reduce(old(Snapshot()), ClearError)
    {
      error := None;
    }

    /** Both `pending` cases. */
    method Pending(a: Action)
      requires a == CreatePending || a == GetAllPending
      modifies this
      ensures loading && error == None
      ensures workflows == old(workflows) && currentWorkflow == old(currentWorkflow)
      ensures Snapshot() == Reduce(old(Snapshot()), a)
    {
      loading := true;
      error := None;
    }

    /** `createWorkflow.fulfilled`: the payload is pushed at the end. */
    method CreateDone(w: WorkflowView)
      modifies this
      ensures !loading
      ensures |workflows| == |old(workflows)| + 1 && workflows[..|old(workflows)|] == old(workflows) && workflows[|old(workflows)|] == w
      ensures currentWorkflow == old(currentWorkflow) && error == old(error)
      ensures Snapshot() == Reduce(old(Snapshot()), CreateFulfilled(w))
    {
      loading := false;
      workflows := workflows + [w];
    }

    /** `getWorkflows.fulfilled`: the payload replaces the list. */
    method GetAllDone(ws: seq<WorkflowView>)
      modifies this
      ensures !loading && workflows == ws
      ensures currentWorkflow == old(currentWorkflow) && error == old(error)
      ensures Snapshot() == Reduce(old(Snapshot()), GetAllFulfilled(ws))
    {
      loading := false;
      workflows := ws;
    }

    /** Both `rejected` cases. */
    method Rejected(a: Action)
      requires a.CreateRejected? || a.GetAllRejected?
      modifies this
      ensures !loading && error == a.reason
      ensures workflows == old(workflows) && currentWorkflow == old(currentWorkflow)
      ensures Snapshot() == Reduce(old(Snapshot()), a)
    {
      loading := false;
      error := a.reason;
    }
  }
}
