// server/models/User.js and server/routes/userRoutes.js: the user document,
// its schema constraints (setters, validators, the unique email index), the
// pre-save hook that hashes a modified password, the default-admin seeding,
// and the profile, password, account and notification handlers. `bcrypt`
// hashing and comparison and the clock are parameters; the users collection
// is a map from id to document.

module Users {
  import opened Common
  import Text

  datatype Prefs = Prefs(orderUpdates: bool, newArrivals: bool, specialOffers: bool)

  /** The three notification flags all default to true. */
  const DefaultPrefs: Prefs := Prefs(true, true, true)

  /** The `preferences` object of a request body: each key present or not. */
  datatype PrefsPatch = PrefsPatch(orderUpdates: Option<bool>, newArrivals: Option<bool>, specialOffers: Option<bool>)

  datatype User = User(id: string, name: string, email: string, password: string, image: Option<string>,
                       role: string, prefs: Prefs, lastPasswordChange: int)

  const RoleUser: string := "user"
  const RoleAdmin: string := "admin"
  const MinPasswordLength: nat := 6

  const AdminName: string := "Admin User"
  const AdminEmail: string := "admin@example.com"
  const AdminPassword: string := "admin123"

  const UserNotFound: string := "User not found"
  const EmailAlreadyInUse: string := "Email already in use"
  const WrongPassword: string := "Current password is incorrect"
  const PasswordUpdated: string := "Password updated successfully"
  const AccountDeleted: string := "Account deleted successfully"

  // ------------------------------------------------------------ schema rules

  /** What the `email` setters store: trimmed, then lower-cased. */
  function NormalizeEmail(s: string): string
  {
    Text.ToLower(Text.Trim(s))
  }

  /** No upper-case letter. */
  predicate LowerCase(e: string)
  {
    forall k :: 0 <= k < |e| ==> !('A' <= e[k] <= 'Z')
  }

  lemma TrimOfTrimmed(r: string)
    requires r == [] || (!Text.IsSpace(r[0]) && !Text.IsSpace(r[|r| - 1]))
    ensures Text.Trim(r) == r
  {
    assert Text.TrimStart(r) == r;
  }

  /** What the setters store has no upper-case letter, and a lower-case
      address without white space is stored as it is. */
  lemma NormalizeEmailSpec(s: string)
    ensures LowerCase(NormalizeEmail(s))
    ensures ValidEmail(s) && LowerCase(s) ==> NormalizeEmail(s) == s
  {
    if ValidEmail(s) && LowerCase(s) {
      TrimOfTrimmed(s);
      assert Text.ToLower(s) == s;
    }
  }

  /** `/^\S+@\S+\.\S+$/`: no white space, an `@` after at least one
      character, and after it, with at least one character between, a `.`
      that is followed by at least one more character. */
  predicate ValidEmail(e: string)
  {
    && (forall k :: 0 <= k < |e| ==> !Text.IsSpace(e[k]))
    && exists i, j :: 1 <= i && i + 2 <= j && j + 2 <= |e| && e[i] == '@' && e[j] == '.'
  }

  predicate ValidRole(role: string)
  {
    role == RoleUser || role == RoleAdmin
  }

  /** The constraints every stored document meets: a non-empty name, an
      email the pattern accepts and a role from the enum. */
  predicate Conforms(u: User)
  {
    u.name != "" && ValidEmail(u.email) && ValidRole(u.role)
  }

  predicate EmailTaken(users: map<string, User>, email: string)
  {
    exists id :: id in users && users[id].email == email
  }

  /** Another document (not `u` itself) already holds `u`'s email: the unique
      index refuses the save. */
  predicate EmailTakenByOther(users: map<string, User>, u: User)
  {
    exists id :: id in users && id != u.id && users[id].email == u.email
  }

  /** Whether `save` accepts `u`: validation first (the password's minimum
      length applies to the plain password, and only when it was modified),
      then the unique index on email. */
  predicate Admits(users: map<string, User>, u: User, passwordModified: bool)
  {
    Conforms(u) && (passwordModified ==> |u.password| >= MinPasswordLength) && !EmailTakenByOther(users, u)
  }

  /** The pre-save hook: a modified password is replaced by its hash and
      stamps `lastPasswordChange`; otherwise the document is saved as it is. */
  function PreSave(u: User, passwordModified: bool, hash: string -> string, now: int): (r: User)
    ensures r.(password := u.password, lastPasswordChange := u.lastPasswordChange) == u
    ensures passwordModified ==> r.password == hash(u.password) && r.lastPasswordChange == now
    ensures !passwordModified ==> r == u
  {
    if passwordModified then u.(password := hash(u.password), lastPasswordChange := now) else u
  }

  /** What every stored collection satisfies: documents are filed under
      their id, conform to the schema, hold lower-case emails, and no two hold
      the same email. */
  ghost predicate StoreInvariant(users: map<string, User>)
  {
    && (forall id :: id in users ==> users[id].id == id && Conforms(users[id]))
    && (forall id :: id in users ==> LowerCase(users[id].email))
    && (forall a, b :: a in users && b in users && a != b ==> users[a].email != users[b].email)
  }

  /** Storing an admitted document whose email is lower-case keeps the
      invariant. */
  lemma StoreKeepsInvariant(users: map<string, User>, u: User, passwordModified: bool, hash: string -> string, now: int)
    requires StoreInvariant(users)
    requires Admits(users, u, passwordModified)
    requires LowerCase(u.email)
    ensures StoreInvariant(users[u.id := PreSave(u, passwordModified, hash, now)])
  {
  }

  // ------------------------------------------------------------ default admin

  function DefaultAdmin(id: string, now: int): User
  {
    User(id, AdminName, AdminEmail, AdminPassword, None, RoleAdmin, DefaultPrefs, now)
  }

  predicate HasAdmin(users: map<string, User>)
  {
    exists id :: id in users && users[id].role == RoleAdmin
  }

  /** `createDefaultAdmin`: when no admin exists, create the default admin
      (its password hashed by the hook); a failed create is caught and changes
      nothing. */
  function SeedAdmin(users: map<string, User>, newId: string, hash: string -> string, now: int): map<string, User>
    requires newId !in users
  {
    if HasAdmin(users) then users
    else
      var admin := DefaultAdmin(newId, now);
      if Admits(users, admin, true) then users[newId := PreSave(admin, true, hash, now)] else users
  }

  lemma AdminEmailIsValid()
    ensures ValidEmail(AdminEmail) && LowerCase(AdminEmail)
  {
    assert AdminEmail[5] == '@' && AdminEmail[13] == '.';
  }

  /** Seeding adds the default admin, with its password hashed, exactly when
      no admin exists and its email is free; otherwise nothing changes. */
  lemma SeedAdminSpec(users: map<string, User>, newId: string, hash: string -> string, now: int)
    requires newId !in users
    ensures !HasAdmin(users) && !EmailTaken(users, AdminEmail) ==>
              && SeedAdmin(users, newId, hash, now) ==
                 users[newId := DefaultAdmin(newId, now).(password := hash(AdminPassword), lastPasswordChange := now)]
              && HasAdmin(SeedAdmin(users, newId, hash, now))
    ensures HasAdmin(users) || EmailTaken(users, AdminEmail) ==> SeedAdmin(users, newId, hash, now) == users
  {
    AdminEmailIsValid();
    var admin := DefaultAdmin(newId, now);
    if !HasAdmin(users) && !EmailTaken(users, AdminEmail) {
      assert Admits(users, admin, true);
      var seeded := SeedAdmin(users, newId, hash, now);
      assert seeded[newId].role == RoleAdmin;
    }
    if !HasAdmin(users) && EmailTaken(users, AdminEmail) {
      var id :| id in users && users[id].email == AdminEmail;
      assert id != newId;
      assert EmailTakenByOther(users, admin);
    }
  }

  /** Running the seeding a second time changes nothing. */
  lemma SeedAdminIdempotent(users: map<string, User>, id1: string, id2: string, hash: string -> string, t1: int, t2: int)
    requires id1 !in users
    requires id2 !in SeedAdmin(users, id1, hash, t1)
    ensures SeedAdmin(SeedAdmin(users, id1, hash, t1), id2, hash, t2) == SeedAdmin(users, id1, hash, t1)
  {
    SeedAdminSpec(users, id1, hash, t1);
    var seeded := SeedAdmin(users, id1, hash, t1);
    if !HasAdmin(users) && EmailTaken(users, AdminEmail) {
      SeedAdminSpec(seeded, id2, hash, t2);
    }
  }

  /** Seeding keeps the store invariant. */
  lemma SeedAdminKeepsInvariant(users: map<string, User>, newId: string, hash: string -> string, now: int)
    requires newId !in users && StoreInvariant(users)
    ensures StoreInvariant(SeedAdmin(users, newId, hash, now))
  {
    AdminEmailIsValid();
    if !HasAdmin(users) && Admits(users, DefaultAdmin(newId, now), true) {
      StoreKeepsInvariant(users, DefaultAdmin(newId, now), true, hash, now);
    }
  }

  // ----------------------------------------------------------------- handlers

  /** The handlers' replies: an error with its message, a validation failure
      (400 with the schema's own message, whose text is not modelled), the
      updated profile, a confirmation message, or the new preferences. */
  datatype Response = Error(status: Status, message: string)
                    | Invalid
                    | Profile(id: string, name: string, email: string, image: Option<string>)
                    | Message(text: string)
                    | Preferences(prefs: Prefs)

  /** A reply with the collection after the request. */
  datatype Outcome = Outcome(res: Response, users: map<string, User>)

  /** The profile check as written: the body's email counts as taken when it
      differs from the stored one as typed, and some document (possibly the
      user's own) holds it once trimmed and lower-cased as the query casts it. */
  predicate EmailInUse(users: map<string, User>, user: User, email: Option<string>)
  {
    Truthy(email) && email.value != user.email && EmailTaken(users, NormalizeEmail(email.value))
  }

  /** `if (name) user.name = name; ...`: truthy fields overwrite, passing
      through the setters. */
  function Edited(user: User, name: Option<string>, email: Option<string>, image: Option<string>): (u: User)
    ensures u.(name := user.name, email := user.email, image := user.image) == user
    ensures u.name == (if Truthy(name) then Text.Trim(name.value) else user.name)
    ensures u.email == (if Truthy(email) then NormalizeEmail(email.value) else user.email)
    ensures u.image == (if Truthy(image) then image else user.image)
  {
    var u1 := if Truthy(name) then user.(name := Text.Trim(name.value)) else user;
    var u2 := if Truthy(email) then u1.(email := NormalizeEmail(email.value)) else u1;
    if Truthy(image) then u2.(image := image) else u2
  }

  /** `PATCH /api/users/profile` */
  function ProfileUpdate(users: map<string, User>, userId: string, name: Option<string>, email: Option<string>,
                         image: Option<string>): Outcome
  {
    if userId !in users then Outcome(Error(NotFound404, UserNotFound), users)
    else if EmailInUse(users, users[userId], email) then Outcome(Error(BadRequest400, EmailAlreadyInUse), users)
    else
      var u := Edited(users[userId], name, email, image);
      if !Admits(users, u, false) then Outcome(Invalid, users)
      else Outcome(Profile(u.id, u.name, u.email, u.image), users[userId := u])
  }

  /** A profile update either fails and changes nothing, or stores the edited
      document under the user's id (password, role, preferences untouched)
      and answers with it; a taken email is refused before anything is saved. */
  lemma ProfileUpdateSpec(users: map<string, User>, userId: string, name: Option<string>, email: Option<string>,
                          image: Option<string>)
    ensures var o := ProfileUpdate(users, userId, name, email, image);
            && (userId !in users ==> o == Outcome(Error(NotFound404, UserNotFound), users))
            && (o.res.Error? || o.res.Invalid? ==> o.users == users)
            && (o.res.Profile? ==>
                  && userId in users
                  && o.users == users[userId := o.users[userId]]
                  && o.users[userId] == Edited(users[userId], name, email, image)
                  && o.users[userId].password == users[userId].password
                  && o.users[userId].role == users[userId].role
                  && o.users[userId].prefs == users[userId].prefs
                  && o.res == Profile(o.users[userId].id, o.users[userId].name, o.users[userId].email, o.users[userId].image))
            && (userId in users && EmailInUse(users, users[userId], email) ==>
                  o == Outcome(Error(BadRequest400, EmailAlreadyInUse), users))
  {
  }

  /** In a collection that keeps the invariant, the email check catches
      every clash before the save, so the unique index never fires; and a
      successful update keeps the invariant. */
  lemma ProfileUpdateKeepsInvariant(users: map<string, User>, userId: string, name: Option<string>,
                                    email: Option<string>, image: Option<string>)
    requires StoreInvariant(users)
    ensures userId in users && !EmailInUse(users, users[userId], email) ==>
              !EmailTakenByOther(users, Edited(users[userId], name, email, image))
    ensures StoreInvariant(ProfileUpdate(users, userId, name, email, image).users)
  {
    if userId in users && !EmailInUse(users, users[userId], email) {
      var u := Edited(users[userId], name, email, image);
      EditedEmailIsFree(users, userId, name, email, image);
      if Truthy(email) {
        NormalizeEmailSpec(email.value);
      }
      if Admits(users, u, false) {
        StoreKeepsInvariant(users, u, false, (s: string) => s, 0);
      }
    }
  }

  /** The email an edit stores is held by no other user when the raw
      address is the stored one or its normalised form is held by no one
      else. */
  lemma EditedEmailIsFree(users: map<string, User>, userId: string, name: Option<string>,
                          email: Option<string>, image: Option<string>)
    requires StoreInvariant(users) && userId in users
    requires !Truthy(email) || email.value == users[userId].email ||
             forall id :: id in users && id != userId ==> users[id].email != NormalizeEmail(email.value)
    ensures !EmailTakenByOther(users, Edited(users[userId], name, email, image))
  {
    var user := users[userId];
    var u := Edited(user, name, email, image);
    assert u.id == user.id == userId;
    if !Truthy(email) || email.value == user.email {
      if Truthy(email) {
        assert Conforms(user) && LowerCase(user.email);
        NormalizeEmailSpec(user.email);
      }
      assert u.email == user.email;
      forall id | id in users && id != userId
        ensures users[id].email != u.email
      {
        assert users[id].email != users[userId].email;
      }
    } else {
      assert u.email == NormalizeEmail(email.value);
    }
  }

  /** As written, a user who re-sends their own address typed differently
      (upper-case letters, surrounding spaces) is told it is already in use:
      the comparison is on the raw text, the lookup on the normalised one,
      which finds the user's own document. */
  lemma OwnEmailRetypedRejected(users: map<string, User>, userId: string, name: Option<string>,
                                email: Option<string>, image: Option<string>)
    requires userId in users
    requires Truthy(email) && email.value != users[userId].email
    requires NormalizeEmail(email.value) == users[userId].email
    ensures ProfileUpdate(users, userId, name, email, image).res == Error(BadRequest400, EmailAlreadyInUse)
  {
    assert EmailTaken(users, NormalizeEmail(email.value));
  }

  /** The check the handler evidently means: the normalised email is held by
      some other user. */
  predicate EmailInUseByOther(users: map<string, User>, userId: string, email: Option<string>)
  {
    Truthy(email) && exists id :: id in users && id != userId && users[id].email == NormalizeEmail(email.value)
  }

  /** The profile update with the corrected check. */
  function ProfileUpdateFixed(users: map<string, User>, userId: string, name: Option<string>, email: Option<string>,
                              image: Option<string>): Outcome
  {
    if userId !in users then Outcome(Error(NotFound404, UserNotFound), users)
    else if EmailInUseByOther(users, userId, email) then Outcome(Error(BadRequest400, EmailAlreadyInUse), users)
    else
      var u := Edited(users[userId], name, email, image);
      if !Admits(users, u, false) then Outcome(Invalid, users)
      else Outcome(Profile(u.id, u.name, u.email, u.image), users[userId := u])
  }

  /** With the corrected check, "Email already in use" is answered exactly
      when another user holds the address; the user's own address retyped is
      accepted; the unique index never fires; and the invariant is kept. */
  lemma ProfileUpdateFixedSpec(users: map<string, User>, userId: string, name: Option<string>,
                               email: Option<string>, image: Option<string>)
    requires StoreInvariant(users)
    requires userId in users
    ensures var o := ProfileUpdateFixed(users, userId, name, email, image);
            && (o.res == Error(BadRequest400, EmailAlreadyInUse) <==> EmailInUseByOther(users, userId, email))
            && (!EmailInUseByOther(users, userId, email) ==> !EmailTakenByOther(users, Edited(users[userId], name, email, image)))
            && (Truthy(email) && NormalizeEmail(email.value) == users[userId].email && !Truthy(name) ==> o.res.Profile?)
            && StoreInvariant(o.users)
  {
    var u := Edited(users[userId], name, email, image);
    if Truthy(email) {
      NormalizeEmailSpec(email.value);
    }
    if !EmailInUseByOther(users, userId, email) {
      EditedEmailIsFree(users, userId, name, email, image);
      if Admits(users, u, false) {
        StoreKeepsInvariant(users, u, false, (s: string) => s, 0);
      }
    }
    if Truthy(email) && NormalizeEmail(email.value) == users[userId].email && !Truthy(name) {
      assert !EmailInUseByOther(users, userId, email);
      assert u.name == users[userId].name && u.role == users[userId].role;
      assert u.email == users[userId].email;
      assert Conforms(u);
    }
  }

  /** `PATCH /api/users/password`: `compare` is `bcrypt.compare`. The new
      password is assigned as sent; it counts as modified when it differs
      from the stored value, and only then is it validated and hashed. */
  function PasswordUpdate(users: map<string, User>, userId: string, currentPassword: string,
                          newPassword: Option<string>, compare: (string, string) -> bool,
                          hash: string -> string, now: int): Outcome
  {
    if userId !in users then Outcome(Error(NotFound404, UserNotFound), users)
    else if !compare(currentPassword, users[userId].password) then Outcome(Error(BadRequest400, WrongPassword), users)
    else if newPassword.None? then Outcome(Invalid, users)
    else
      var u := users[userId].(password := newPassword.value);
      var modified := newPassword.value != users[userId].password;
      if !Admits(users, u, modified) then Outcome(Invalid, users)
      else Outcome(Message(PasswordUpdated), users[userId := PreSave(u, modified, hash, now)])
  }

  /** A wrong current password, a missing new one or a changed one shorter
      than six characters changes nothing; a successful change of the
      password stores the hash of the new one and the time, and nothing else. */
  lemma PasswordUpdateSpec(users: map<string, User>, userId: string, currentPassword: string,
                           newPassword: Option<string>, compare: (string, string) -> bool,
                           hash: string -> string, now: int)
    ensures var o := PasswordUpdate(users, userId, currentPassword, newPassword, compare, hash, now);
            && (o.res != Message(PasswordUpdated) ==> o.users == users)
            && (userId in users && !compare(currentPassword, users[userId].password) ==>
                  o.res == Error(BadRequest400, WrongPassword))
            && ((userId in users && newPassword.Some? && newPassword.value != users[userId].password &&
                 |newPassword.value| < MinPasswordLength) ==> o.res != Message(PasswordUpdated))
            && (o.res == Message(PasswordUpdated) ==>
                  && userId in users && newPassword.Some? && compare(currentPassword, users[userId].password)
                  && (newPassword.value != users[userId].password ==>
                        && |newPassword.value| >= MinPasswordLength
                        && o.users == users[userId := users[userId].(password := hash(newPassword.value), lastPasswordChange := now)]))
  {
  }

  /** In a collection that keeps the invariant, a right current password and
      a new one of at least six characters always succeed, and the invariant
      is kept. */
  lemma PasswordUpdateKeepsInvariant(users: map<string, User>, userId: string, currentPassword: string,
                                     newPassword: Option<string>, compare: (string, string) -> bool,
                                     hash: string -> string, now: int)
    requires StoreInvariant(users)
    ensures var o := PasswordUpdate(users, userId, currentPassword, newPassword, compare, hash, now);
            && ((userId in users && compare(currentPassword, users[userId].password) && newPassword.Some? &&
                 |newPassword.value| >= MinPasswordLength) ==> o.res == Message(PasswordUpdated))
            && StoreInvariant(o.users)
  {
    if userId in users && newPassword.Some? {
      var u := users[userId].(password := newPassword.value);
      forall id | id in users && id != userId
        ensures users[id].email != u.email
      {
      }
      var modified := newPassword.value != users[userId].password;
      if Admits(users, u, modified) {
        StoreKeepsInvariant(users, u, modified, hash, now);
      }
    }
  }

  /** Once the password is changed, the new password passes the current
      password check of the next change (given that `compare` accepts a
      password against its own hash). */
  lemma NewPasswordIsCurrent(users: map<string, User>, userId: string, currentPassword: string, p: string,
                             compare: (string, string) -> bool, hash: string -> string, now: int)
    requires userId in users && p != users[userId].password
    requires compare(p, hash(p))
    requires PasswordUpdate(users, userId, currentPassword, Some(p), compare, hash, now).res == Message(PasswordUpdated)
    ensures var after := PasswordUpdate(users, userId, currentPassword, Some(p), compare, hash, now).users;
            userId in after && compare(p, after[userId].password)
  {
  }

  /** `DELETE /api/users/account` */
  function AccountDeletion(users: map<string, User>, userId: string): (o: Outcome)
    ensures userId !in users ==> o == Outcome(Error(NotFound404, UserNotFound), users)
    ensures userId in users ==> o.res == Message(AccountDeleted) && userId !in o.users
    ensures forall id :: id in o.users <==> id in users && id != userId
    ensures forall id :: id in o.users ==> o.users[id] == users[id]
  {
    if userId !in users then Outcome(Error(NotFound404, UserNotFound), users)
    else Outcome(Message(AccountDeleted), users - {userId})
  }

  /** `{ ...old, ...preferences }` over the three flags: each flag the body
      names is taken from the body, the others are kept. */
  function MergePrefs(current: Prefs, patch: Option<PrefsPatch>): (r: Prefs)
    ensures patch.None? ==> r == current
    ensures patch.Some? ==>
              && r.orderUpdates == (if patch.value.orderUpdates.Some? then patch.value.orderUpdates.value else current.orderUpdates)
              && r.newArrivals == (if patch.value.newArrivals.Some? then patch.value.newArrivals.value else current.newArrivals)
              && r.specialOffers == (if patch.value.specialOffers.Some? then patch.value.specialOffers.value else current.specialOffers)
  {
    match patch
    case None => current
    case Some(p) =>
      Prefs(if p.orderUpdates.Some? then p.orderUpdates.value else current.orderUpdates,
            if p.newArrivals.Some? then p.newArrivals.value else current.newArrivals,
            if p.specialOffers.Some? then p.specialOffers.value else current.specialOffers)
  }

  /** Applying the same preferences twice is applying them once; applying
      two in turn is applying the second over the first. */
  lemma MergePrefsLaws(current: Prefs, p: PrefsPatch, q: PrefsPatch)
    ensures MergePrefs(MergePrefs(current, Some(p)), Some(p)) == MergePrefs(current, Some(p))
    ensures MergePrefs(MergePrefs(current, Some(p)), Some(q)) ==
            MergePrefs(current, Some(PrefsPatch(if q.orderUpdates.Some? then q.orderUpdates else p.orderUpdates,
                                            if q.newArrivals.Some? then q.newArrivals else p.newArrivals,
                                            if q.specialOffers.Some? then q.specialOffers else p.specialOffers)))
  {
  }

  /** `PATCH /api/users/notifications` */
  function NotificationsUpdate(users: map<string, User>, userId: string, patch: Option<PrefsPatch>): (o: Outcome)
    ensures userId !in users ==> o == Outcome(Error(NotFound404, UserNotFound), users)
    ensures userId in users ==>
              && o.res == Preferences(MergePrefs(users[userId].prefs, patch))
              && o.users == users[userId := users[userId].(prefs := MergePrefs(users[userId].prefs, patch))]
  {
    if userId !in users then Outcome(Error(NotFound404, UserNotFound), users)
    else
      var merged := MergePrefs(users[userId].prefs, patch);
      Outcome(Preferences(merged), users[userId := users[userId].(prefs := merged)])
  }

  /** The collection with the handlers that change it. */
  class UserStore {
    var users: map<string, User>

    ghost predicate Valid()
      reads this
    {
      StoreInvariant(users)
    }

    constructor ()
      ensures users == map[] && Valid()
    {
      users := map[];
    }

    method CreateDefaultAdmin(newId: string, hash: string -> string, now: int)
      requires newId !in users && Valid()
      modifies this
      ensures users == SeedAdmin(old(users), newId, hash, now) && Valid()
    {
      SeedAdminKeepsInvariant(users, newId, hash, now);
      var adminExists := exists id :: id in users && users[id].role == RoleAdmin;
      if !adminExists {
        var admin := User(newId, AdminName, AdminEmail, AdminPassword, None, RoleAdmin, DefaultPrefs, now);
        if Admits(users, admin, true) {
          users := users[newId := admin.(password := hash(AdminPassword), lastPasswordChange := now)];
        }
      }
    }

    method UpdateProfile(userId: string, name: Option<string>, email: Option<string>, image: Option<string>)
      returns (res: Response)
      requires Valid()
      modifies this
      ensures Outcome(res, users) == ProfileUpdate(old(users), userId, name, email, image) && Valid()
    {
      ProfileUpdateKeepsInvariant(users, userId, name, email, image);
      if userId !in users {
        return Error(NotFound404, UserNotFound);
      }
      var user := users[userId];
      if Truthy(email) && email.value != user.email {
        var lookup := NormalizeEmail(email.value);
        var existing := exists id :: id in users && users[id].email == lookup;
        if existing {
          return Error(BadRequest400, EmailAlreadyInUse);
        }
      }
      if Truthy(name) {
        user := user.(name := Text.Trim(name.value));
      }
      if Truthy(email) {
        user := user.(email := NormalizeEmail(email.value));
      }
      if Truthy(image) {
        user := user.(image := image);
      }
      if !Admits(users, user, false) {
        return Invalid;
      }
      users := users[userId := user];
      res := Profile(user.id, user.name, user.email, user.image);
    }

    /** The profile handler with the corrected email check: only another
        user's document holding the normalised address counts as a clash. */
    method UpdateProfileFixed(userId: string, name: Option<string>, email: Option<string>, image: Option<string>)
      returns (res: Response)
      requires Valid()
      modifies this
      ensures Outcome(res, users) == ProfileUpdateFixed(old(users), userId, name, email, image) && Valid()
    {
      if userId !in users {
        return Error(NotFound404, UserNotFound);
      }
      ProfileUpdateFixedSpec(users, userId, name, email, image);
      var user := users[userId];
      if Truthy(email) {
        var lookup := NormalizeEmail(email.value);
        var existing := exists id :: id in users && id != userId && users[id].email == lookup;
        if existing {
          return Error(BadRequest400, EmailAlreadyInUse);
        }
      }
      user := Edited(user, name, email, image);
      if !Admits(users, user, false) {
        return Invalid;
      }
      users := users[userId := user];
      res := Profile(user.id, user.name, user.email, user.image);
    }

    method UpdatePassword(userId: string, currentPassword: string, newPassword: Option<string>,
                          compare: (string, string) -> bool, hash: string -> string, now: int)
      returns (res: Response)
      requires Valid()
      modifies this
      ensures Outcome(res, users) == PasswordUpdate(old(users), userId, currentPassword, newPassword, compare, hash, now)
      ensures Valid()
    {
      PasswordUpdateKeepsInvariant(users, userId, currentPassword, newPassword, compare, hash, now);
      if userId !in users {
        return Error(NotFound404, UserNotFound);
      }
      var user := users[userId];
      if !compare(currentPassword, user.password) {
        return Error(BadRequest400, WrongPassword);
      }
      if newPassword.None? {
        return Invalid;
      }
      var modified := newPassword.value != user.password;
      user := user.(password := newPassword.value);
      if !Admits(users, user, modified) {
        return Invalid;
      }
      if modified {
        user := user.(password := hash(user.password), lastPasswordChange := now);
      }
      users := users[userId := user];
      res := Message(PasswordUpdated);
    }

    method DeleteAccount(userId: string) returns (res: Response)
      requires Valid()
      modifies this
      ensures Outcome(res, users) == AccountDeletion(old(users), userId) && Valid()
    {
      if userId !in users {
        return Error(NotFound404, UserNotFound);
      }
      users := users - {userId};
      res := Message(AccountDeleted);
    }

    method UpdateNotifications(userId: string, patch: Option<PrefsPatch>) returns (res: Response)
      requires Valid()
      modifies this
      ensures Outcome(res, users) == NotificationsUpdate(old(users), userId, patch) && Valid()
    {
      if userId !in users {
        return Error(NotFound404, UserNotFound);
      }
      var user := users[userId];
      var merged := MergePrefs(user.prefs, patch);
      users := users[userId := user.(prefs := merged)];
      res := Preferences(merged);
    }
  }
}
