// server/middleware/auth.js: the `auth` and `adminAuth` gates. `auth` takes
// the token from the Authorization header, verifies it, loads the user it
// names and either stores the user on the request and calls `next`, or
// answers 401. `adminAuth` runs `auth` with a continuation that answers 403
// to anyone who is not an admin. `jwt.verify` (with the server's secret) is
// a parameter; the users collection is the map of the user model.

module Auth {
  import opened Common
  import Text
  import Users

  /** What `jwt.verify` gives: the payload's user id, or the error it throws. */
  datatype Verified = Decoded(userId: string) | Rejected(reason: string)

  /** The gate's verdict: let the request through with this user, or answer. */
  datatype Decision = Pass(user: Users.User) | Fail(status: Status, message: string)

  const Bearer: string := "Bearer "
  const FailurePrefix: string := "Authentication failed: "
  const NoToken: string := "No authentication token provided"
  const UserNotFound: string := "User not found"
  const AdminRequired: string := "Admin access required"

  /** `req.header('Authorization')?.replace('Bearer ', '')`: the first
      occurrence of "Bearer " is removed, wherever it is. */
  function ExtractToken(header: Option<string>): Option<string>
  {
    match header
    case None => None
    case Some(h) => Some(Text.ReplaceFirst(h, Bearer, ""))
  }

  /** A header the client builds as `Bearer ${token}` gives back the token. */
  lemma BearerRoundTrip(token: string)
    ensures ExtractToken(Some(Bearer + token)) == Some(token)
  {
    Text.ReplaceFirstAtStart(Bearer, token, "");
    assert "" + token == token;
  }

  /** `auth` */
  function Decide(header: Option<string>, verify: string -> Verified, users: map<string, Users.User>): Decision
  {
    var token := ExtractToken(header);
    if !Truthy(token) then Fail(Unauthorized401, FailurePrefix + NoToken)
    else match verify(token.value)
      case Rejected(reason) => Fail(Unauthorized401, FailurePrefix + reason)
      case Decoded(userId) =>
        if userId !in users then Fail(Unauthorized401, FailurePrefix + UserNotFound)
        else Pass(users[userId])
  }

  /** `adminAuth` */
  function AdminDecide(header: Option<string>, verify: string -> Verified, users: map<string, Users.User>): Decision
  {
    match Decide(header, verify, users)
    case Fail(status, message) => Fail(status, message)
    case Pass(user) => if user.role != Users.RoleAdmin then Fail(Forbidden403, AdminRequired) else Pass(user)
  }

  /** `auth` lets a request through exactly when there is a token, it
      verifies, and the user it names exists, and then with that user; every
      refusal is a 401 whose message starts "Authentication failed: ", and
      names the missing token, the verifier's reason or the missing user. */
  lemma DecideSpec(header: Option<string>, verify: string -> Verified, users: map<string, Users.User>)
    ensures var d := Decide(header, verify, users);
            var token := ExtractToken(header);
            && (d.Pass? <==> Truthy(token) && verify(token.value).Decoded? && verify(token.value).userId in users)
            && (d.Pass? ==> d.user == users[verify(token.value).userId])
            && (d.Fail? ==> d.status == Unauthorized401 && Text.IsPrefix(FailurePrefix, d.message))
            && (!Truthy(token) ==> d == Fail(Unauthorized401, FailurePrefix + NoToken))
            && (Truthy(token) && verify(token.value).Rejected? ==>
                  d == Fail(Unauthorized401, FailurePrefix + verify(token.value).reason))
  {
    var d := Decide(header, verify, users);
    if d.Fail? {
      assert d.message[..|FailurePrefix|] == FailurePrefix;
    }
  }

  /** `adminAuth` answers 401 exactly as `auth` does, so an unauthenticated
      request never reaches the role check; an authenticated non-admin gets
      403; only an admin gets through. */
  lemma AdminDecideSpec(header: Option<string>, verify: string -> Verified, users: map<string, Users.User>)
    ensures var a := AdminDecide(header, verify, users);
            var d := Decide(header, verify, users);
            && (d.Fail? ==> a == d && a.status == Unauthorized401)
            && (a.Fail? && a.status == Forbidden403 <==> d.Pass? && d.user.role != Users.RoleAdmin)
            && (a.Fail? && a.status == Forbidden403 ==> a.message == AdminRequired)
            && (a.Pass? <==> d.Pass? && d.user.role == Users.RoleAdmin)
            && (a.Pass? ==> a == d)
  {
    DecideSpec(header, verify, users);
  }

  /** With a header built by the client, the gate's answer depends only on
      what the verifier makes of the token. */
  lemma ClientHeaderDecision(token: string, verify: string -> Verified, users: map<string, Users.User>)
    requires token != ""
    ensures Decide(Some(Bearer + token), verify, users) ==
            match verify(token)
            case Rejected(reason) => Fail(Unauthorized401, FailurePrefix + reason)
            case Decoded(userId) =>
              if userId in users then Pass(users[userId]) else Fail(Unauthorized401, FailurePrefix + UserNotFound)
  {
    BearerRoundTrip(token);
  }

  /** The status and body a gate sends. */
  datatype Reply = Reply(status: Status, message: string)

  /** An incoming request as the gates see and change it. */
  class Request {
    const authorization: Option<string>
    var user: Option<Users.User>
    var reply: Option<Reply>
    /** How many times the gate has called `next`. */
    var nextCalls: nat

    constructor (authorization: Option<string>)
      ensures this.authorization == authorization
      ensures user.None? && reply.None? && nextCalls == 0
    {
      this.authorization := authorization;
      user, reply, nextCalls := None, None, 0;
    }

    /** The body of `auth` up to `next`: on success `req.user` is set and the
        user returned, on failure the 401 is sent. */
    method Authenticate(verify: string -> Verified, users: map<string, Users.User>) returns (found: Option<Users.User>)
      modifies this
      ensures nextCalls == old(nextCalls)
      ensures match Decide(authorization, verify, users)
              case Pass(u) => found == Some(u) && user == Some(u) && reply == old(reply)
              case Fail(status, message) => found.None? && user == old(user) && reply == Some(Reply(status, message))
    {
      var token := ExtractToken(authorization);
      if !Truthy(token) {
        reply := Some(Reply(Unauthorized401, FailurePrefix + NoToken));
        return None;
      }
      var decoded := verify(token.value);
      if decoded.Rejected? {
        reply := Some(Reply(Unauthorized401, FailurePrefix + decoded.reason));
        return None;
      }
      if decoded.userId !in users {
        reply := Some(Reply(Unauthorized401, FailurePrefix + UserNotFound));
        return None;
      }
      user := Some(users[decoded.userId]);
      found := user;
    }

    /** `auth`: on success `next` is called exactly once and nothing is sent;
        on failure the 401 is sent and `next` is not called. */
    method RunAuth(verify: string -> Verified, users: map<string, Users.User>)
      modifies this
      ensures match Decide(authorization, verify, users)
              case Pass(u) => user == Some(u) && reply == old(reply) && nextCalls == old(nextCalls) + 1
              case Fail(status, message) =>
                user == old(user) && reply == Some(Reply(status, message)) && nextCalls == old(nextCalls)
    {
      var found := Authenticate(verify, users);
      if found.Some? {
        nextCalls := nextCalls + 1;
      }
    }

    /** `adminAuth`: `auth` runs first; its continuation sends 403 to a
        non-admin (who is still recorded on the request) and calls `next`
        once for an admin. */
    method RunAdminAuth(verify: string -> Verified, users: map<string, Users.User>)
      modifies this
      ensures match Decide(authorization, verify, users)
              case Pass(u) =>
                && user == Some(u)
                && (u.role == Users.RoleAdmin ==> reply == old(reply) && nextCalls == old(nextCalls) + 1)
                && (u.role != Users.RoleAdmin ==> reply == Some(Reply(Forbidden403, AdminRequired)) && nextCalls == old(nextCalls))
              case Fail(status, message) =>
                user == old(user) && reply == Some(Reply(status, message)) && nextCalls == old(nextCalls)
      ensures AdminDecide(authorization, verify, users).Pass? <==> nextCalls == old(nextCalls) + 1
    {
      var found := Authenticate(verify, users);
      if found.Some? {
        if found.value.role != Users.RoleAdmin {
          reply := Some(Reply(Forbidden403, AdminRequired));
        } else {
          nextCalls := nextCalls + 1;
        }
      }
    }
  }
}
