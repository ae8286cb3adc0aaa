/**
 * The authentication context: the signed-in user and a loading flag, set by
 * the provider's mount effect and by `login`, `register` and `logout`, and
 * read through `useAuth`.  Sign-in is still mocked: every user gets id "1".
 */
module AuthContext {
  import opened Wrappers

  datatype User = User(id: string, name: string, email: string)

  /** What the context exposes to its consumers. */
  datatype AuthState = AuthState(user: Option<User>, isLoading: bool)

  const MOCK_USER_ID := "1"
  const MOCK_USER_NAME := "Test User"
  const OUTSIDE_PROVIDER := "useAuth must be used within an AuthProvider"

  class AuthProvider {
    var user: Option<User>
    var isLoading: bool

    function State(): AuthState
      reads this
    {
      AuthState(user, isLoading)
    }

    /** No user yet, and loading until the mount effect has run. */
    constructor ()
      ensures State() == AuthState(None, true)
    {
      user, isLoading := None, true;
    }

    /** The mount effect: no stored session is looked up, loading simply ends. */
    method MountEffect()
      modifies this`isLoading
      ensures State() == AuthState(old(user), false)
    {
      isLoading := false;
    }

    /** Signs in as the mock user with the given email; the password is not looked at. */
    method Login(email: string, password: string)
      modifies this
      ensures State() == AuthState(Some(User(MOCK_USER_ID, MOCK_USER_NAME, email)), false)
    {
      isLoading := true;
      user := Some(User(MOCK_USER_ID, MOCK_USER_NAME, email));
      isLoading := false;
    }

    /** Signs up and in as the given name and email, under the mock id. */
    method Register(name: string, email: string, password: string)
      modifies this
      ensures State() == AuthState(Some(User(MOCK_USER_ID, name, email)), false)
    {
      isLoading := true;
      user := Some(User(MOCK_USER_ID, name, email));
      isLoading := false;
    }

    /** Signs out. */
    method Logout()
      modifies this
      ensures State() == AuthState(None, false)
    {
      isLoading := true;
      user := None;
      isLoading := false;
    }
  }

  /** `useAuth`: the value of the nearest provider, or the error thrown when there is none. */
  function UseAuth(provided: Option<AuthState>): (r: Result<AuthState, string>)
    ensures r.Failure? <==> provided.None?
    ensures r.Failure? ==> r.error == OUTSIDE_PROVIDER
    ensures r.Success? ==> r.value == provided.value
  {
    match provided
    case None => Failure(OUTSIDE_PROVIDER)
    case Some(state) => Success(state)
  }
}
