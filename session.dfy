/** The session store (`AuthProvider`): the signed-in user, kept in memory
    and in two local-storage keys, `'token'` and `'user'`. Login, register
    and join write both keys after the request succeeds; logout removes
    both; a new provider restores the user from `'user'`. */
module Session {
  import opened Common
  import opened Entities
  import opened Api
  import opened Json

  /** Local storage: string keys to string values. */
  type Storage = map<string, string>

  /** The members of a stored user, in the order they are written. */
  const IdentityKeys: seq<string> := ["_id", "name", "email", "role", "orgName", "token"]

  function Fields(u: Identity): seq<string> {
    [u.id, u.name, u.email, u.role, u.orgName, u.token]
  }

  /** `JSON.stringify(data)`. */
  function Serialize(u: Identity): (s: string)
    ensures s != "" && s != "null"
  {
    Stringify(IdentityKeys, Fields(u))
  }

  /** `JSON.parse(stored)`, for texts that hold a user. */
  function Deserialize(s: string): (r: Option<Identity>)
    ensures r.Some? ==> Parse(IdentityKeys, s) == Some(Fields(r.value))
  {
    match Parse(IdentityKeys, s)
    case None => None
    case Some(vs) =>
      var u := Identity(vs[0], vs[1], vs[2], vs[3], vs[4], vs[5]);
      assert Fields(u) == vs;
      Some(u)
  }

  /** A stored user reads back as the same user. */
  lemma DeserializeSerialize(u: Identity)
    ensures Deserialize(Serialize(u)) == Some(u)
  {
    ParseStringify(IdentityKeys, Fields(u));
  }

  /** What the `'user'` key holds. */
  datatype Stored = SignedOut | SignedIn(user: Identity) | Unreadable

  /** The user initialiser: a missing or empty `'user'` key (both falsy) and
      the text `null` give no user; a stored user text gives that user;
      anything else is a text this model does not read. */
  function StoredUser(st: Storage): (r: Stored)
    ensures r.SignedOut? <==> "user" !in st || st["user"] == "" || st["user"] == "null"
    ensures r.SignedIn? ==> Deserialize(st["user"]) == Some(r.user)
    ensures r.Unreadable? <==> !r.SignedOut? && Deserialize(st["user"]).None?
  {
    if "user" !in st || st["user"] == "" || st["user"] == "null" then SignedOut
    else
      match Deserialize(st["user"])
      case Some(u) => SignedIn(u)
      case None => Unreadable
  }

  /** The user a provider starts with. */
  function InitialUser(st: Storage): (r: Option<Identity>)
    requires !StoredUser(st).Unreadable?
    ensures r.None? <==> "user" !in st || st["user"] == "" || st["user"] == "null"
    ensures r.Some? ==> Deserialize(st["user"]) == r
  {
    if StoredUser(st).SignedIn? then Some(StoredUser(st).user) else None
  }

  /** The storage writes after a successful sign-in: `'token'` holds the
      token, `'user'` the serialised user, and every other key is as it was. */
  function SignedInStorage(st: Storage, u: Identity): (r: Storage)
    ensures "token" in r && r["token"] == u.token
    ensures "user" in r && r["user"] == Serialize(u)
    ensures forall k :: k != "token" && k != "user" ==> (k in r <==> k in st)
    ensures forall k :: k in st && k != "token" && k != "user" ==> r[k] == st[k]
  {
    st["token" := u.token]["user" := Serialize(u)]
  }

  /** `removeItem('token')` and `removeItem('user')`: exactly those two keys
      go, every other key stays as it was. */
  function SignedOutStorage(st: Storage): (r: Storage)
    ensures "token" !in r && "user" !in r
    ensures forall k :: k != "token" && k != "user" ==> (k in r <==> k in st)
    ensures forall k :: k in r ==> r[k] == st[k]
  {
    st - {"token", "user"}
  }

  /** A provider started after a sign-in restores the signed-in user. */
  lemma RestoreAfterSignIn(st: Storage, u: Identity)
    ensures StoredUser(SignedInStorage(st, u)) == SignedIn(u)
    ensures InitialUser(SignedInStorage(st, u)) == Some(u)
  {
    DeserializeSerialize(u);
  }

  /** A provider started after a logout has nobody signed in. */
  lemma RestoreAfterSignOut(st: Storage)
    ensures StoredUser(SignedOutStorage(st)) == SignedOut
    ensures InitialUser(SignedOutStorage(st)) == None
  {
  }

  /** Signing in again replaces the earlier session; logging out after any
      number of sign-ins leaves the storage the sign-ins found, less the two
      keys. */
  lemma SessionWritesOverwrite(st: Storage, u: Identity, v: Identity)
    ensures SignedInStorage(SignedInStorage(st, u), v) == SignedInStorage(st, v)
    ensures SignedOutStorage(SignedInStorage(st, u)) == SignedOutStorage(st)
  {
    var a, b := SignedInStorage(SignedInStorage(st, u), v), SignedInStorage(st, v);
    assert a.Keys == b.Keys;
    var c, d := SignedOutStorage(SignedInStorage(st, u)), SignedOutStorage(st);
    assert c.Keys == d.Keys;
  }

  class AuthProvider {
    var storage: Storage
    var user: Option<Identity>
    ghost var log: seq<Request>

    /** Mounting the provider over the storage `stored`. */
    constructor (stored: Storage)
      requires !StoredUser(stored).Unreadable?
      ensures storage == stored && user == InitialUser(stored) && log == []
    {
      storage := stored;
      user := InitialUser(stored);
      log := [];
    }

    /** `login`: one `POST /auth/login`; once it succeeds both keys are
        written and the user set, and the response data is returned. A
        failed request is passed on with nothing written. */
    method Login(email: string, password: string, res: Response<Identity>) returns (r: Response<Identity>)
      modifies this`storage, this`user, this`log
      ensures r == res
      ensures log == old(log) + [Post("/auth/login", Credentials(email, password))]
      ensures res.Success? ==> storage == SignedInStorage(old(storage), res.data) && user == Some(res.data)
      ensures res.Failure? ==> storage == old(storage) && user == old(user)
    {
      log := log + [Post("/auth/login", Credentials(email, password))];
      if res.Success? {
        storage := storage["token" := res.data.token];
        storage := storage["user" := Serialize(res.data)];
        user := Some(res.data);
      }
      r := res;
    }

    /** `register`: one `POST /auth/register`, with the same effects as
        `login`. */
    method Register(name: string, email: string, password: string, orgName: string, res: Response<Identity>)
      returns (r: Response<Identity>)
      modifies this`storage, this`user, this`log
      ensures r == res
      ensures log == old(log) + [Post("/auth/register", Profile(name, email, password, orgName))]
      ensures res.Success? ==> storage == SignedInStorage(old(storage), res.data) && user == Some(res.data)
      ensures res.Failure? ==> storage == old(storage) && user == old(user)
    {
      log := log + [Post("/auth/register", Profile(name, email, password, orgName))];
      if res.Success? {
        storage := storage["token" := res.data.token];
        storage := storage["user" := Serialize(res.data)];
        user := Some(res.data);
      }
      r := res;
    }

    /** `joinOrg`: one `POST /org/join`, with the same effects as `login`. */
    method JoinOrg(name: string, email: string, password: string, orgName: string, res: Response<Identity>)
      returns (r: Response<Identity>)
      modifies this`storage, this`user, this`log
      ensures r == res
      ensures log == old(log) + [Post("/org/join", Profile(name, email, password, orgName))]
      ensures res.Success? ==> storage == SignedInStorage(old(storage), res.data) && user == Some(res.data)
      ensures res.Failure? ==> storage == old(storage) && user == old(user)
    {
      log := log + [Post("/org/join", Profile(name, email, password, orgName))];
      if res.Success? {
        storage := storage["token" := res.data.token];
        storage := storage["user" := Serialize(res.data)];
        user := Some(res.data);
      }
      r := res;
    }

    /** `logout`: both keys removed and the user cleared; no request. */
    method Logout()
      modifies this`storage, this`user
      ensures storage == SignedOutStorage(old(storage)) && user == None
    {
      storage := storage - {"token"};
      storage := storage - {"user"};
      user := None;
    }

  }
}
