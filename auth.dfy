/** The session held by AuthProvider: the signed-in user (or none) and
    whether the startup check of a stored token is still running. The only
    users it ever holds are administrators. */
module Auth {
  import opened Wrappers
  import opened Text
  import Api

  datatype User = User(uid: string, email: string, name: string, role: string)

  /** The user record kept for an identity the API returned: the display
      name falls back to the e-mail address (`u.name || u.email`). */
  function Adopt(u: Api.Identity): User {
    User(u.uid, u.email, if u.name != "" then u.name else u.email, u.role)
  }

  /** Adopting keeps the identity's uid, e-mail and role; the name is the
      identity's name when it has one, else its e-mail, so it is empty only
      when both are. */
  lemma AdoptKeepsIdentity(u: Api.Identity)
    ensures Adopt(u).uid == u.uid && Adopt(u).email == u.email && Adopt(u).role == u.role
    ensures u.name != "" ==> Adopt(u).name == u.name
    ensures u.name == "" ==> Adopt(u).name == u.email
    ensures Adopt(u).name == "" <==> u.name == "" && u.email == ""
  {
  }

  /** The three states of the session. */
  datatype Session = Loading | Authenticated(user: User) | Unauthenticated

  /** A reply of GET /auth/me that names an administrator. */
  predicate AdminIdentity(reply: Api.Envelope<Api.Identity>) {
    reply.ok && reply.data.Some? && reply.data.value.role == "admin"
  }

  class AuthProvider {
    const store: Api.LocalStorage
    var user: Option<User>
    var loading: bool

    /** The session invariant: a signed-in user is an administrator. */
    ghost predicate Valid()
      reads this
    {
      user.Some? ==> user.value.role == "admin"
    }

    function Session(): Session
      reads this
    {
      if loading then Loading
      else if user.Some? then Authenticated(user.value)
      else Unauthenticated
    }

    /** The provider mounts with no user while the stored token is checked. */
    constructor (store: Api.LocalStorage)
      ensures this.store == store
      ensures user == None && loading
      ensures Session() == Loading
      ensures Valid()
    {
      this.store := store;
      user := None;
      loading := true;
    }

    /** The mount effect. Without a non-empty stored token nothing is asked
        of the server. Otherwise GET /auth/me is sent with the token; an
        administrator's identity becomes the user, and anything else (a
        failed reply, a missing user, another role) drops the token and the
        user. Either way the check is over afterwards. */
    method Startup(reply: Api.Envelope<Api.Identity>) returns (req: Option<Api.Request>)
      requires Valid()
      modifies this, store
      ensures Valid()
      ensures !loading
      ensures !Truthy(old(Api.StoredToken(store.items))) ==>
        req == None && user == old(user) && store.items == old(store.items)
      ensures Truthy(old(Api.StoredToken(store.items))) ==>
        req.Some? && Api.AuthorizedGet(req.value, old(store.items), Api.ApiUrl + "/auth/me")
      ensures Truthy(old(Api.StoredToken(store.items))) && AdminIdentity(reply) ==>
        user == Some(Adopt(reply.data.value)) && store.items == old(store.items)
      ensures Truthy(old(Api.StoredToken(store.items))) && !AdminIdentity(reply) ==>
        user == None && store.items == old(store.items) - {Api.TokenKey}
    {
      var token := Api.GetToken(store);
      if !Truthy(token) {
        loading := false;
        req := None;
        return;
      }
      var request, r := Api.GetMe(store, reply);
      req := Some(request);
      match r {
        case Success(Some(u)) =>
          if u.role != "admin" {
            Api.ClearToken(store);
            user := None;
          } else {
            user := Some(Adopt(u));
          }
        case _ =>
          Api.ClearToken(store);
          user := None;
      }
      loading := false;
    }

    /** `login`: the credentials go out without a token; only an
        administrator's successful login stores the returned token and
        becomes the user, and a failure changes nothing. */
    method Login(username: string, password: string, reply: Api.Envelope<Api.LoginData>)
      returns (req: Api.Request, r: Result<Unit, string>)
      requires Valid()
      modifies this, store
      ensures Valid()
      ensures loading == old(loading)
      ensures Api.Authorization !in req.headers
      ensures req.body == map["username" := username, "password" := password]
      ensures r.Success? <==> Api.LoginResult(reply).Success?
      ensures r.Success? ==>
        var data := reply.data.value;
        && store.items == old(store.items)[Api.TokenKey := data.token]
        && Api.StoredToken(store.items) == Some(data.token)
        && user == Some(Adopt(data.user.value))
        && user.value.role == "admin"
      ensures r.Failure? ==>
        && r.error == Api.LoginResult(reply).error
        && user == old(user)
        && store.items == old(store.items)
    {
      var outcome;
      req, outcome := Api.Login(store, username, password, reply);
      match outcome {
        case Failure(m) =>
          r := Failure(m);
        case Success(data) =>
          Api.SetToken(store, data.token);
          user := Some(Adopt(data.user.value));
          r := Success(Unit);
      }
    }

    /** `logout`: the token is removed and the user is cleared. */
    method Logout()
      modifies this, store
      ensures user == None && loading == old(loading)
      ensures store.items == old(store.items) - {Api.TokenKey}
      ensures Api.StoredToken(store.items) == None
      ensures Valid()
    {
      Api.ClearToken(store);
      user := None;
    }
  }
}
