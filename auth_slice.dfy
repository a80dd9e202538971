/** The auth slice: the login and signup thunks' decisions, and the reducer
    as an object whose fields the cases assign. */
module AuthSlice {
  import opened Lifecycle
  import opened Domain

  /** The token the login thunk hands out. */
  const TempToken: string := "temp"

  const InvalidCredentials: string := "Invalid username or password"
  const LoginError: string := "An error occurred during login"
  const SignupError: string := "An error occurred during signup"
  const LoginFallback: string := "Failed to login"
  const SignupFallback: string := "Failed to signup"

  datatype Session = Session(user: User, token: string)

  /** `login`: `reply` is the server's answer to the user query filtered by
      the credentials; the first matching user is logged in. */
  function Login(reply: Reply<seq<User>>): (r: Outcome<Session>)
    ensures r.Fulfilled? <==> reply.Delivered? && |reply.data| > 0
    ensures r.Fulfilled? ==> r.payload == Session(reply.data[0], "temp")
    ensures reply.Delivered? && reply.data == [] ==> r == RejectedWith("Invalid username or password")
    ensures reply.Errored? ==> r == RejectedWith("An error occurred during login")
  {
    match reply
    case Delivered(users) =>
      if |users| > 0 then Fulfilled(Session(users[0], TempToken))
      else RejectedWith(InvalidCredentials)
    case Errored(_) => RejectedWith(LoginError)
  }

  /** `signup`: `reply` is the server's echo of the posted user, with its id. */
  function Signup(reply: Reply<User>): (r: Outcome<User>)
    ensures r.Fulfilled? <==> reply.Delivered?
    ensures r.Fulfilled? ==> r.payload == reply.data
    ensures reply.Errored? ==> r == RejectedWith("An error occurred during signup")
  {
    match reply
    case Delivered(u) => Fulfilled(u)
    case Errored(_) => RejectedWith(SignupError)
  }

  /** Every rejection either thunk settles with carries a non-empty message,
      so the reducers' fallbacks are never reached through them. */
  lemma ThunkMessagesNonEmpty(login: Reply<seq<User>>, signup: Reply<User>)
    ensures Login(login).RejectedWith? ==> Login(login).message != ""
    ensures Signup(signup).RejectedWith? ==> Signup(signup).message != ""
    ensures Login(login).RejectedWith? ==>
              OrFallback(RejectedPayload(Login(login)), "Failed to login") == Login(login).message
  {
  }

  /** The auth slice: `{isAuthenticated, user, token, status, error}`. */
  class AuthStore {
    var isAuthenticated: bool
    var user: Option<User>
    var token: Option<string>
    var status: FetchStatus
    var error: Option<string>

    /** What every reducer case keeps: only a known user is authenticated,
        and a failed request has left a message and logged nobody in. */
    predicate Valid()
      reads this
    {
      (isAuthenticated ==> user.Some?) &&
      (status == Failed ==> error.Some? && !isAuthenticated)
    }

    /** `initialState` */
    constructor ()
      ensures Valid()
      ensures !isAuthenticated && user == None && token == None && status == Idle && error == None
    {
      isAuthenticated := false;
      user := None;
      token := None;
      status := Idle;
      error := None;
    }

    /** `signup.pending` and `login.pending`, which are the same case. */
    method RequestPending()
      requires Valid()
      modifies this
      ensures Valid()
      ensures status == Loading && error == None
      ensures isAuthenticated == old(isAuthenticated) && user == old(user) && token == old(token)
    {
      status := Loading;
      error := None;
    }

    /** `signup.fulfilled`: the new user is logged in; the token is untouched. */
    method SignupFulfilled(payload: User)
      requires Valid()
      modifies this
      ensures Valid()
      ensures status == Succeeded && user == Some(payload) && isAuthenticated
      ensures token == old(token) && error == old(error)
    {
      status := Succeeded;
      user := Some(payload);
      isAuthenticated := true;
    }

    /** `signup.rejected`: the user field is left as it was. */
    method SignupRejected(payload: Option<string>)
      requires Valid()
      modifies this
      ensures Valid()
      ensures status == Failed && error == Some(OrFallback(payload, "Failed to signup"))
      ensures !isAuthenticated
      ensures user == old(user) && token == old(token)
    {
      status := Failed;
      error := Some(OrFallback(payload, SignupFallback));
      isAuthenticated := false;
    }

    /** `login.fulfilled` */
    method LoginFulfilled(payload: Session)
      requires Valid()
      modifies this
      ensures Valid()
      ensures status == Succeeded && isAuthenticated
      ensures user == Some(payload.user) && token == Some(payload.token)
      ensures error == old(error)
    {
      status := Succeeded;
      user := Some(payload.user);
      token := Some(payload.token);
      isAuthenticated := true;
    }

    /** `login.rejected`: the user and token fields are left as they were. */
    method LoginRejected(payload: Option<string>)
      requires Valid()
      modifies this
      ensures Valid()
      ensures status == Failed && error == Some(OrFallback(payload, "Failed to login"))
      ensures !isAuthenticated
      ensures user == old(user) && token == old(token)
    {
      status := Failed;
      error := Some(OrFallback(payload, LoginFallback));
      isAuthenticated := false;
    }

    /** `logout.fulfilled`: back to the initial state. */
    method LogoutFulfilled()
      requires Valid()
      modifies this
      ensures Valid()
      ensures !isAuthenticated && user == None && token == None && status == Idle && error == None
    {
      user := None;
      token := None;
      status := Idle;
      error := None;
      isAuthenticated := false;
    }

    /** Dispatching `login`: pending, then the settled case. */
    method RunLogin(reply: Reply<seq<User>>)
      requires Valid()
      modifies this
      ensures Valid()
      ensures reply.Delivered? && |reply.data| > 0 ==>
                isAuthenticated && status == Succeeded && error == None &&
                user == Some(reply.data[0]) && token == Some("temp")
      ensures reply.Delivered? && reply.data == [] ==>
                !isAuthenticated && status == Failed &&
                error == Some("Invalid username or password") &&
                user == old(user) && token == old(token)
      ensures reply.Errored? ==>
                !isAuthenticated && status == Failed &&
                error == Some("An error occurred during login") &&
                user == old(user) && token == old(token)
    {
      RequestPending();
      var o := Login(reply);
      match o
      case Fulfilled(s) => LoginFulfilled(s);
      case RejectedWith(m) => LoginRejected(Some(m));
    }

    /** Dispatching `signup`: pending, then the settled case. */
    method RunSignup(reply: Reply<User>)
      requires Valid()
      modifies this
      ensures Valid()
      ensures reply.Delivered? ==>
                isAuthenticated && status == Succeeded && error == None &&
                user == Some(reply.data) && token == old(token)
      ensures reply.Errored? ==>
                !isAuthenticated && status == Failed &&
                error == Some("An error occurred during signup") &&
                user == old(user) && token == old(token)
    {
      RequestPending();
      var o := Signup(reply);
      match o
      case Fulfilled(u) => SignupFulfilled(u);
      case RejectedWith(m) => SignupRejected(Some(m));
    }
  }
}
