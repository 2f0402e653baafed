/**
 * The authentication dependency (app/api/deps.py): turning the outcome of
 * Clerk token verification into an HTTP error, or into the user the
 * request acts for, found by Clerk id, linked by email, or created.
 *
 * Token verification itself (signature, expiry, issuer; app/core/security.py)
 * is not modelled: its outcome is a parameter, a payload or the exception
 * it raised.
 */
module Deps {
  import opened Models
  import opened InitialSchema
  import opened ListNameIndex
  import opened Store

  // ---- exceptions and the except clauses ----

  /** The classes of exception verification can raise.
      `ExpiredSignature` is a subclass of PyJWT's InvalidTokenError;
      `InvalidToken` stands for every other subclass of it. */
  datatype ExcClass = ExpiredSignature | InvalidToken | ValueErr | OtherException

  datatype Exc = Exc(cls: ExcClass, typeName: string, message: string)

  /** The four except clauses of get_current_user, in source order. */
  datatype Clause = ExceptExpired | ExceptInvalidToken | ExceptValueError | ExceptException

  const Clauses := [ExceptExpired, ExceptInvalidToken, ExceptValueError, ExceptException]

  /** Whether an except clause catches the exception, subclasses included. */
  predicate Catches(c: Clause, e: Exc) {
    match c
    case ExceptExpired => e.cls == ExpiredSignature
    case ExceptInvalidToken => e.cls == ExpiredSignature || e.cls == InvalidToken
    case ExceptValueError => e.cls == ValueErr
    case ExceptException => true
  }

  /** What each clause raises. */
  function Handle(c: Clause, e: Exc): ApiError {
    match c
    case ExceptExpired => HttpException(401, "Token has expired")
    case ExceptInvalidToken => HttpException(401, "Invalid token: " + e.message)
    case ExceptValueError => HttpException(500, e.message)
    case ExceptException => HttpException(401, "Could not validate credentials: " + e.typeName + ": " + e.message)
  }

  /** The index of the first clause that catches e, or |clauses| if none
      does: Python tries the clauses top to bottom. */
  function FirstMatch(clauses: seq<Clause>, e: Exc): (i: nat)
    ensures i <= |clauses|
    ensures i < |clauses| ==> Catches(clauses[i], e)
    ensures forall j :: 0 <= j < i ==> !Catches(clauses[j], e)
    ensures (exists j :: 0 <= j < |clauses| && Catches(clauses[j], e)) ==> i < |clauses|
  {
    if clauses == [] then 0
    else if Catches(clauses[0], e) then 0
    else 1 + FirstMatch(clauses[1..], e)
  }

  /** The HTTP error get_current_user raises when verification raised e. */
  function AuthError(e: Exc): ApiError {
    assert Catches(Clauses[3], e);
    Handle(Clauses[FirstMatch(Clauses, e)], e)
  }

  /** Every verification failure becomes an HTTP error: 500 exactly for a
      ValueError (Clerk not configured), 401 otherwise; an expired token
      reads "Token has expired", another invalid token carries its message
      after "Invalid token: ". */
  lemma AuthErrorMapping(e: Exc)
    ensures AuthError(e).HttpException?
    ensures AuthError(e).status == (if e.cls == ValueErr then 500 else 401)
    ensures e.cls == ExpiredSignature ==> AuthError(e).detail == "Token has expired"
    ensures e.cls == InvalidToken ==> AuthError(e).detail == "Invalid token: " + e.message
    ensures e.cls == ValueErr ==> AuthError(e).detail == e.message
  {
    var i := FirstMatch(Clauses, e);
    match e.cls
    case ExpiredSignature =>
      assert i == 0;
    case InvalidToken =>
      assert Catches(Clauses[1], e) && !Catches(Clauses[0], e);
    case ValueErr =>
      assert Catches(Clauses[2], e) && !Catches(Clauses[1], e) && !Catches(Clauses[0], e);
    case OtherException =>
      assert Catches(Clauses[3], e) && !Catches(Clauses[2], e) && !Catches(Clauses[1], e) && !Catches(Clauses[0], e);
  }

  /** The expired clause has to come first: an expired token is also an
      InvalidTokenError, and with the two clauses swapped it would be
      reported as an invalid token. */
  lemma ExpiredClauseOrderMatters(message: string)
    ensures var e := Exc(ExpiredSignature, "ExpiredSignatureError", message);
      && Catches(ExceptInvalidToken, e)
      && AuthError(e) == HttpException(401, "Token has expired")
      && var swapped := [ExceptInvalidToken, ExceptExpired, ExceptValueError, ExceptException];
         Handle(swapped[FirstMatch(swapped, e)], e) == HttpException(401, "Invalid token: " + message)
  {
    var e := Exc(ExpiredSignature, "ExpiredSignatureError", message);
    var swapped := [ExceptInvalidToken, ExceptExpired, ExceptValueError, ExceptException];
    assert FirstMatch(swapped, e) == 0;
    assert FirstMatch(Clauses, e) == 0;
  }

  // ---- the verified payload ----

  /** The claims get_current_user reads. */
  datatype Payload = Payload(sub: Option<string>, email: Option<string>, name: Option<string>)

  /** What verify_clerk_token did: returned a payload or raised. */
  datatype Verification = Verified(payload: Payload) | Raised(exc: Exc)

  const MissingSubject := HttpException(401, "Token missing subject claim")
  const MissingEmail := HttpException(400, "Email not found in token. Please configure custom claims in Clerk dashboard.")

  /** The users whose Clerk id is `sub`. */
  function WithClerkId(users: map<Id, User>, sub: string): set<Id> {
    set k | k in users && users[k].clerkUserId == Some(sub)
  }

  /** The users whose email is `email`. */
  function WithEmail(users: map<Id, User>, email: string): set<Id> {
    set k | k in users && users[k].email == email
  }

  /** A legacy user linked to Clerk: the Clerk id is set, and the token's
      name is taken only when it is present and the stored one is empty. */
  function Linked(u: User, sub: string, name: Option<string>): User {
    u.(clerkUserId := Some(sub), name := if Truthy(name) && !Truthy(u.name) then name else u.name)
  }

  /** A first-time user; Clerk holds the password. */
  function Created(sub: string, email: string, name: Option<string>): User {
    User(Some(sub), email, name, None)
  }

  /** The user found by Clerk id, linked by email or created: in every case
      a user whose Clerk id is `sub`. */
  method FindOrCreateUser(db: Database, sub: string, email: Option<string>, name: Option<string>)
    returns (r: Result<Id>)
    requires db.Valid()
    modifies db
    ensures db.Valid()
    ensures db.Snapshot() == old(db.Snapshot()).(users := db.users)
    ensures r.Ok? ==> r.value in db.users && db.users[r.value].clerkUserId == Some(sub)
    ensures WithClerkId(old(db.users), sub) != {} ==>
      r.Ok? && r.value in WithClerkId(old(db.users), sub) && db.users == old(db.users)
    ensures WithClerkId(old(db.users), sub) == {} && !Truthy(email) ==>
      r == Err(MissingEmail) && db.users == old(db.users)
    ensures WithClerkId(old(db.users), sub) == {} && Truthy(email) && WithEmail(old(db.users), email.value) != {} ==>
      && r.Ok? && r.value in WithEmail(old(db.users), email.value)
      && db.users == old(db.users)[r.value := Linked(old(db.users)[r.value], sub, name)]
    ensures WithClerkId(old(db.users), sub) == {} && Truthy(email) && WithEmail(old(db.users), email.value) == {} ==>
      && r.Ok? && r.value !in old(db.users)
      && db.users == old(db.users)[r.value := Created(sub, email.value, name)]
  {
    var byClerk := WithClerkId(db.users, sub);
    if byClerk != {} {
      var k :| k in byClerk;
      return Ok(k);
    }
    if !Truthy(email) {
      return Err(MissingEmail);
    }
    var byEmail := WithEmail(db.users, email.value);
    if byEmail != {} {
      var k :| k in byEmail;
      r := LinkUser(db, k, sub, name);
    } else {
      r := CreateUser(db, sub, email.value, name);
    }
  }

  /** Linking the legacy user k: never rejected, since k keeps its own email
      and no user holds `sub` yet. */
  method LinkUser(db: Database, k: Id, sub: string, name: Option<string>) returns (r: Result<Id>)
    requires db.Valid() && k in db.users && WithClerkId(db.users, sub) == {}
    modifies db
    ensures db.Valid()
    ensures r == Ok(k)
    ensures db.Snapshot() == old(db.Snapshot()).(users := old(db.users)[k := Linked(old(db.users)[k], sub, name)])
  {
    var u := Linked(db.users[k], sub, name);
    assert ClerkIdFree(db.users, k, u.clerkUserId) by {
      forall j | j in db.users && j != k ensures db.users[j].clerkUserId != u.clerkUserId {
        assert j !in WithClerkId(db.users, sub);
      }
    }
    var ok := db.PutUser(k, u);
    r := Ok(k);
  }

  /** Creating the user: never rejected, since no user holds the email or
      `sub`. */
  method CreateUser(db: Database, sub: string, email: string, name: Option<string>) returns (r: Result<Id>)
    requires db.Valid() && WithClerkId(db.users, sub) == {} && WithEmail(db.users, email) == {}
    modifies db
    ensures db.Valid()
    ensures r.Ok? && r.value !in old(db.users)
    ensures db.Snapshot() == old(db.Snapshot()).(users := old(db.users)[r.value := Created(sub, email, name)])
  {
    var k := db.FreshId();
    var u := Created(sub, email, name);
    assert EmailFree(db.users, k, email) by {
      forall j | j in db.users && j != k ensures db.users[j].email != email {
        assert j !in WithEmail(db.users, email);
      }
    }
    assert ClerkIdFree(db.users, k, u.clerkUserId) by {
      forall j | j in db.users && j != k ensures db.users[j].clerkUserId != u.clerkUserId {
        assert j !in WithClerkId(db.users, sub);
      }
    }
    var ok := db.PutUser(k, u);
    r := Ok(k);
  }

  /** `get_current_user`: a verification failure becomes the matching HTTP
      error, a payload without a subject a 401, and otherwise the user is
      found, linked or created. Only the users table ever changes. */
  method GetCurrentUser(db: Database, verification: Verification) returns (r: Result<Id>)
    requires db.Valid()
    modifies db
    ensures db.Valid()
    ensures db.Snapshot() == old(db.Snapshot()).(users := db.users)
    ensures verification.Raised? ==> r == Err(AuthError(verification.exc)) && db.users == old(db.users)
    ensures verification.Verified? && !Truthy(verification.payload.sub) ==>
      r == Err(MissingSubject) && db.users == old(db.users)
    ensures r.Ok? ==>
      && verification.Verified? && verification.payload.sub.Some?
      && r.value in db.users && db.users[r.value].clerkUserId == verification.payload.sub
    ensures verification.Verified? && Truthy(verification.payload.sub) ==>
      var p := verification.payload;
      && (WithClerkId(old(db.users), p.sub.value) != {} ==> r.Ok? && db.users == old(db.users))
      && (WithClerkId(old(db.users), p.sub.value) == {} && !Truthy(p.email) ==>
            r == Err(MissingEmail) && db.users == old(db.users))
      && (WithClerkId(old(db.users), p.sub.value) == {} && Truthy(p.email) ==>
            r.Ok? && (r.value in old(db.users) <==> WithEmail(old(db.users), p.email.value) != {}))
  {
    if verification.Raised? {
      return Err(AuthError(verification.exc));
    }
    var p := verification.payload;
    if !Truthy(p.sub) {
      return Err(MissingSubject);
    }
    r := FindOrCreateUser(db, p.sub.value, p.email, p.name);
  }

  /** Signing in twice with the same payload gives the same user, and the
      second sign-in changes nothing. */
  method SignInTwice(db: Database, p: Payload) returns (first: Result<Id>, second: Result<Id>, ghost mid: Db)
    requires db.Valid() && Truthy(p.sub)
    modifies db
    ensures first.Ok? ==> second == first && db.Snapshot() == mid
  {
    first := GetCurrentUser(db, Verified(p));
    mid := db.Snapshot();
    if first.Ok? {
      assert first.value in WithClerkId(mid.users, p.sub.value);
      assert WithClerkId(mid.users, p.sub.value) == {first.value} by {
        forall m | m in WithClerkId(mid.users, p.sub.value) ensures m == first.value { }
      }
    }
    second := GetCurrentUser(db, Verified(p));
  }
}
