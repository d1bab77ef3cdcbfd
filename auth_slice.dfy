/**
 * The session store (`authSlice`): the signed-in user, or none, and whether
 * the session is still being resolved. Two reducers assign its fields.
 */
module AuthSlice {
  import opened Wrappers

  /** The authentication provider's user record; only its identity matters here. */
  datatype User = User(id: string, email: Option<string>)

  datatype AuthState = AuthState(user: Option<User>, loading: bool)

  /** Nobody is signed in yet and the session is still being resolved. */
  const InitialState := AuthState(None, true)

  datatype AuthAction =
    | SetUser(payload: Option<User>)
    | SetLoading(flag: bool)

  /**
   * The two reducers: `setUser` also ends the loading phase, and the store is
   * loading afterwards exactly when the action was `setLoading(true)`;
   * `setLoading` never touches the user.
   */
  function Reduce(s: AuthState, a: AuthAction): (r: AuthState)
    ensures r.loading <==> a == SetLoading(true)
    ensures a.SetUser? ==> r.user == a.payload
    ensures a.SetLoading? ==> r.user == s.user
  {
    match a
    case SetUser(u) => s.(user := u, loading := false)
    case SetLoading(b) => s.(loading := b)
  }

  /**
   * The state after the actions are applied one after another, in order:
   * the loading flag is decided by the last action alone, and the user by
   * the last `setUser` when it is the last action.
   */
  function Run(s: AuthState, actions: seq<AuthAction>): (r: AuthState)
    ensures actions != [] ==> (r.loading <==> actions[|actions| - 1] == SetLoading(true))
    ensures actions != [] && actions[|actions| - 1].SetUser? ==> r.user == actions[|actions| - 1].payload
    ensures actions == [] ==> r == s
    decreases |actions|
  {
    if actions == [] then s
    else Reduce(Run(s, actions[..|actions| - 1]), actions[|actions| - 1])
  }

  /**
   * Once a user (or the absence of one) has been set, the store reports
   * loading again only if a later action is `setLoading(true)`.
   */
  lemma {:induction false} LoadingOnlyThroughSetLoading(s: AuthState, actions: seq<AuthAction>, k: nat)
    requires k < |actions| && actions[k].SetUser?
    requires forall j :: k < j < |actions| ==> actions[j] != SetLoading(true)
    ensures !Run(s, actions).loading
    decreases |actions|
  {
    if k < |actions| - 1 {
      LoadingOnlyThroughSetLoading(s, actions[..|actions| - 1], k);
    }
  }

  /** The user reported is the payload of the last `setUser`; `setLoading` never touches it. */
  lemma {:induction false} UserIsLastSet(s: AuthState, actions: seq<AuthAction>, k: nat)
    requires k < |actions| && actions[k].SetUser?
    requires forall j :: k < j < |actions| ==> actions[j].SetLoading?
    ensures Run(s, actions).user == actions[k].payload
    decreases |actions|
  {
    if k < |actions| - 1 {
      UserIsLastSet(s, actions[..|actions| - 1], k);
    }
  }

  /** Without any `setUser`, the user stays whatever it was, whatever the loading flag does. */
  lemma {:induction false} UserUntouchedBySetLoading(s: AuthState, actions: seq<AuthAction>)
    requires forall j :: 0 <= j < |actions| ==> actions[j].SetLoading?
    ensures Run(s, actions).user == s.user
    decreases |actions|
  {
    if actions != [] {
      UserUntouchedBySetLoading(s, actions[..|actions| - 1]);
    }
  }

  /** The store as the class the reducers assign. */
  class AuthStore {
    var user: Option<User>
    var loading: bool

    function State(): AuthState
      reads this
    {
      AuthState(user, loading)
    }

    constructor ()
      ensures State() == InitialState
    {
      user, loading := None, true;
    }

    /** `setUser`: stores the payload, which may be null, and always ends loading. */
    method SetUser(u: Option<User>)
      modifies this
      ensures user == u && !loading
    {
      user := u;
      loading := false;
    }

    /** `setLoading`: stores the flag; the user is left as it is. */
    method SetLoading(b: bool)
      modifies this
      ensures loading == b && user == old(user)
    {
      loading := b;
    }

    method Dispatch(a: AuthAction)
      modifies this
      ensures State() == Reduce(old(State()), a)
    {
      match a
      case SetUser(u) => SetUser(u);
      case SetLoading(b) => SetLoading(b);
    }
  }
}
