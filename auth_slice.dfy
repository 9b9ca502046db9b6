/**
 * The client's session store: the login and register thunks (which write the
 * returned token to storage), the slice state, `logout`, `clearError` and the
 * pending/fulfilled/rejected cases. `Reduce` is the reducer as a function on
 * state snapshots; `AuthState` is the slice state updated in place, next to
 * the token storage it shares with the request interceptor.
 */
module AuthSlice {
  import opened Wrappers
  import opened ClientCommon

  /** The account profile as the client receives it. */
  datatype UserView = UserView(id: string, name: string, email: string)

  /** The `data` of a successful login or register reply. */
  datatype AuthPayload = AuthPayload(user: UserView, token: string)

  datatype State = State(
    user: Option<UserView>,
    token: Option<string>,
    isAuthenticated: bool,
    loading: bool,
    error: Option<ErrorValue>)

  /** The initial state takes its token from storage but starts unauthenticated. */
  function InitialState(stored: Option<string>): State {
    State(None, stored, false, false, None)
  }

  datatype Action =
    | Logout
    | ClearError
    | LoginPending
    | LoginFulfilled(payload: AuthPayload)
    | LoginRejected(reason: Option<ErrorValue>)
    | RegisterPending
    | RegisterFulfilled(payload: AuthPayload)
    | RegisterRejected(reason: Option<ErrorValue>)

  /** The reducer's effect on the state (the storage side of `logout` is the class's). */
  function Reduce(s: State, a: Action): (r: State)
    ensures r.isAuthenticated <==> a.LoginFulfilled? || a.RegisterFulfilled? || (s.isAuthenticated && !a.Logout?)
    ensures a.Logout? ==> r.user.None? && r.token.None?
    ensures a.LoginFulfilled? || a.RegisterFulfilled? ==> r.user == Some(a.payload.user) && r.token == Some(a.payload.token)
    ensures !(a.Logout? || a.LoginFulfilled? || a.RegisterFulfilled?) ==> r.user == s.user && r.token == s.token
    ensures r.loading <==> a.LoginPending? || a.RegisterPending? || (s.loading && (a.Logout? || a.ClearError?))
    ensures a.ClearError? || a.LoginPending? || a.RegisterPending? ==> r.error.None?
    ensures a.LoginRejected? || a.RegisterRejected? ==> r.error == a.reason
    ensures a.Logout? || a.LoginFulfilled? || a.RegisterFulfilled? ==> r.error == s.error
  {
    match a
    case Logout => s.(user := None, token := None, isAuthenticated := false)
    case ClearError => s.(error := None)
    case LoginPending => s.(loading := true, error := None)
    case RegisterPending => s.(loading := true, error := None)
    case LoginFulfilled(p) => s.(loading := false, isAuthenticated := true, user := Some(p.user), token := Some(p.token))
    case RegisterFulfilled(p) => s.(loading := false, isAuthenticated := true, user := Some(p.user), token := Some(p.token))
    case LoginRejected(e) => s.(loading := false, error := e)
    case RegisterRejected(e) => s.(loading := false, error := e)
  }

  function ReduceAll(s: State, acts: seq<Action>): State
    decreases |acts|
  {
    if acts == [] then s else ReduceAll(Reduce(s, acts[0]), acts[1..])
  }

  /** An authenticated state always holds a user and a token. */
  predicate SessionConsistent(s: State) {
    s.isAuthenticated ==> s.user.Some? && s.token.Some?
  }

  /** From the initial state, whatever is dispatched, the session stays consistent. */
  lemma {:induction false} AuthenticatedHasSession(stored: Option<string>, acts: seq<Action>)
    ensures SessionConsistent(ReduceAll(InitialState(stored), acts))
  {
    ConsistencyPreserved(InitialState(stored), acts);
  }

  lemma {:induction false} ConsistencyPreserved(s: State, acts: seq<Action>)
    requires SessionConsistent(s)
    ensures SessionConsistent(ReduceAll(s, acts))
    decreases |acts|
  {
    if acts != [] {
      ConsistencyPreserved(Reduce(s, acts[0]), acts[1..]);
    }
  }

  /** Only a fulfilled login or register authenticates. */
  lemma {:induction false} OnlyFulfilledAuthenticates(s: State, acts: seq<Action>)
    requires !s.isAuthenticated
    requires forall i :: 0 <= i < |acts| ==> !acts[i].LoginFulfilled? && !acts[i].RegisterFulfilled?
    ensures !ReduceAll(s, acts).isAuthenticated
    decreases |acts|
  {
    if acts != [] {
      OnlyFulfilledAuthenticates(Reduce(s, acts[0]), acts[1..]);
    }
  }

  /** A token restored from storage does not by itself authenticate: only a fulfilled request does. */
  lemma StoredTokenNeedsLogin(stored: string, acts: seq<Action>)
    requires forall i :: 0 <= i < |acts| ==> !acts[i].LoginFulfilled? && !acts[i].RegisterFulfilled?
    ensures InitialState(Some(stored)).token == Some(stored)
    ensures !ReduceAll(InitialState(Some(stored)), acts).isAuthenticated
  {
    OnlyFulfilledAuthenticates(InitialState(Some(stored)), acts);
  }

  /**
   * A settled request: success authenticates with the payload's user and
   * token and clears the error; failure records the reply's error and keeps
   * the session as it was. Loading ends either way.
   */
  lemma RequestSettles(s: State, p: AuthPayload, e: Option<ErrorValue>)
    ensures ReduceAll(s, [LoginPending, LoginFulfilled(p)])
            == s.(loading := false, error := None, isAuthenticated := true, user := Some(p.user), token := Some(p.token))
    ensures ReduceAll(s, [RegisterPending, RegisterFulfilled(p)])
            == s.(loading := false, error := None, isAuthenticated := true, user := Some(p.user), token := Some(p.token))
    ensures ReduceAll(s, [LoginPending, LoginRejected(e)]) == s.(loading := false, error := e)
    ensures ReduceAll(s, [RegisterPending, RegisterRejected(e)]) == s.(loading := false, error := e)
  {
    var pending := [LoginPending, RegisterPending];
    var settled := [LoginFulfilled(p), RegisterFulfilled(p), LoginRejected(e), RegisterRejected(e)];
    forall a, b | a in pending && b in settled
      ensures ReduceAll(s, [a, b]) == Reduce(Reduce(s, a), b)
    {
      assert [a, b][1..] == [b] && [b][1..] == [];
      calc {
        ReduceAll(s, [a, b]);
        ReduceAll(Reduce(s, a), [b]);
        ReduceAll(Reduce(Reduce(s, a), b), []);
      }
    }
  }

  /** What the login or register request gave back. */
  datatype Reply = Success(payload: AuthPayload) | Failure(reason: Option<ErrorValue>)

  class AuthState {
    var user: Option<UserView>
    var token: Option<string>
    var isAuthenticated: bool
    var loading: bool
    var error: Option<ErrorValue>
    const storage: TokenStorage

    function Snapshot(): State
      reads this
    {
      State(user, token, isAuthenticated, loading, error)
    }

    /** The state's token is the stored one. */
    ghost predicate Synced()
      reads this, storage
    {
      token == storage.token
    }

    constructor (storage: TokenStorage)
      ensures this.storage == storage
      ensures Snapshot() == InitialState(storage.token)
      ensures Synced()
    {
      this.storage := storage;
      user, token, isAuthenticated, loading, error := None, storage.token, false, false, None;
    }

    /** `logout`: removes the stored token and ends the session; loading and error stay. */
    method SignOut()
      requires Synced()
      modifies this, storage
      ensures storage.token == None
      ensures user == None && token == None && !isAuthenticated
      ensures loading == old(loading) && error == old(error)
      ensures Snapshot() == Reduce(old(Snapshot()), Logout)
      ensures Synced()
    {
      storage.RemoveItem();
      user, token, isAuthenticated := None, None, false;
    }

    /** `clearError`. */
    method Clear()
      modifies this
      ensures error == None
      ensures user == old(user) && token == old(token) && isAuthenticated == old(isAuthenticated) && loading == old(loading)
      ensures Snapshot() == Reduce(old(Snapshot()), ClearError)
    {
      error := None;
    }

    /**
     * One login or register dispatch, `register` choosing which: the pending
     * case, then either the thunk storing the token and the fulfilled case, or
     * the rejected case.
     */
    method Authenticate(register: bool, reply: Reply)
      requires Synced()
      modifies this, storage
      ensures Synced()
      ensures var pending := if register then RegisterPending else LoginPending;
        reply.Success? ==>
          && storage.token == Some(reply.payload.token)
          && Snapshot() == Reduce(Reduce(old(Snapshot()), pending),
                                  if register then RegisterFulfilled(reply.payload) else LoginFulfilled(reply.payload))
      ensures var pending := if register then RegisterPending else LoginPending;
        reply.Failure? ==>
          && storage.token == old(storage.token)
          && Snapshot() == Reduce(Reduce(old(Snapshot()), pending),
                                  if register then RegisterRejected(reply.reason) else LoginRejected(reply.reason))
      ensures reply.Success? ==> !loading && isAuthenticated && user == Some(reply.payload.user) && token == Some(reply.payload.token)
      ensures reply.Failure? ==>
        && !loading && error == reply.reason
        && user == old(user) && token == old(token) && isAuthenticated == old(isAuthenticated)
    {
      loading := true;
      error := None;
      match reply
      case Success(p) =>
        storage.SetItem(p.token);
        loading := false;
        isAuthenticated := true;
        user := Some(p.user);
        token := Some(p.token);
      case Failure(e) =>
        loading := false;
        error := e;
    }
  }
}
