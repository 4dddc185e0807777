/** The session slice of the client-state container: two fields, an initial
    state, and the `login`, `logout` and `setUser` reducers. */
module Auth {
  import opened Common
  import opened AppStorage

  datatype AuthState = AuthState(isLoggedIn: bool, currentUser: Option<string>)

  /** The dispatched actions; a payload of `None` is JavaScript's null. */
  datatype Action = Login(payload: Option<string>) | Logout | SetUser(payload: Option<string>)

  const InitialState := AuthState(false, None)

  /** The reducer as a function of the old state and the action. */
  function Reduce(s: AuthState, a: Action): (r: AuthState)
    ensures a.Logout? ==> r == InitialState
    ensures a.Login? || a.SetUser? ==> r.isLoggedIn && r.currentUser == a.payload
  {
    match a
    case Login(p) => AuthState(true, p)
    case Logout => AuthState(false, None)
    case SetUser(p) => AuthState(true, p)
  }

  /** `setUser(p)` has the same effect as `login(p)`, from any state. */
  lemma SetUserIsLogin(s: AuthState, p: Option<string>)
    ensures Reduce(s, SetUser(p)) == Reduce(s, Login(p))
  {
  }

  /** The state a sequence of actions leads to from the initial state. */
  function Run(actions: seq<Action>): AuthState
  {
    if actions == [] then InitialState else Reduce(Run(actions[..|actions| - 1]), actions[|actions| - 1])
  }

  predicate NonNullPayload(a: Action)
  {
    a.Login? || a.SetUser? ==> a.payload.Some?
  }

  /** Logged in exactly when there is a current user. */
  predicate Consistent(s: AuthState)
  {
    s.isLoggedIn <==> s.currentUser.Some?
  }

  /** Every state reached by actions with non-null payloads is consistent. */
  lemma {:induction false} ReachableStatesConsistent(actions: seq<Action>)
    requires forall i :: 0 <= i < |actions| ==> NonNullPayload(actions[i])
    ensures Consistent(Run(actions))
  {
    if actions != [] {
      ReachableStatesConsistent(actions[..|actions| - 1]);
    }
  }

  /** A null payload breaks the correspondence: `login(null)` reports a
      logged-in state with no user. */
  lemma NullPayloadInconsistent()
    ensures !Consistent(Run([Login(None)]))
  {
    assert [Login(None)][..0] == [];
  }

  /** The drawer's logout button, once its confirmation is accepted: the
      stored "currentUser" key is removed and `logout` is dispatched. The
      stored lists stay, and the session ends logged out. */
  function ConfirmLogout(s: Storage, st: AuthState): (r: (Storage, AuthState))
    ensures r.0.currentUser.None? && r.0.users == s.users && r.0.tasks == s.tasks
    ensures r.1 == InitialState && Consistent(r.1) && !r.1.isLoggedIn
  {
    (s.(currentUser := None), Reduce(st, Logout))
  }

  /** The slice's state object, updated field by field by the reducers. */
  class AuthSlice {
    var isLoggedIn: bool
    var currentUser: Option<string>

    function State(): AuthState
      reads this
    {
      AuthState(isLoggedIn, currentUser)
    }

    /** `initialState`. */
    constructor()
      ensures State() == InitialState
    {
      isLoggedIn := false;
      currentUser := None;
    }

    method Login(payload: Option<string>)
      modifies this
      ensures State() == Reduce(old(State()), Action.Login(payload))
      ensures payload.Some? ==> Consistent(State())
    {
      isLoggedIn := true;
      currentUser := payload;
    }

    method Logout()
      modifies this
      ensures State() == Reduce(old(State()), Action.Logout)
      ensures State() == InitialState && Consistent(State())
    {
      isLoggedIn := false;
      currentUser := None;
    }

    method SetUser(payload: Option<string>)
      modifies this
      ensures State() == Reduce(old(State()), Action.SetUser(payload))
      ensures payload.Some? ==> Consistent(State())
    {
      isLoggedIn := true;
      currentUser := payload;
    }

    /** `dispatch(action)`. */
    method Dispatch(a: Action)
      modifies this
      ensures State() == Reduce(old(State()), a)
      ensures Consistent(old(State())) && NonNullPayload(a) ==> Consistent(State())
    {
      match a
      case Login(p) => Login(p);
      case Logout => Logout();
      case SetUser(p) => SetUser(p);
    }
  }
}
