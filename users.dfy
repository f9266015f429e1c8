// User records (Social-Good-Juba-main/server/routes/users.js): Google sign-in
// with its username-uniquing loop and update building, the admin-domain
// test, and the admin-only creation of admin accounts.

module Users {
  import opened Common
  import opened JobTables

  /** A row of `users`; `personal` holds the free-form profile columns (first_name, gender, ...). */
  datatype User = User(
    id: UserId,
    googleId: string,
    email: string,
    username: Option<string>,
    phone: Option<string>,
    address: Option<string>,
    role: Role,
    adminStatus: bool,
    profileCompleted: bool,
    verified: bool,
    personal: map<string, JsValue>)

  datatype UserError =
    | InvalidToken          // 401: the Google token did not verify
    | UserCreationFailed    // 400: the insert broke a constraint (a unique google_id or email; a NOT NULL phone or address in the earlier schema)
    | MissingAdminFields    // 400: create-admin without email, phone or address
    | EmailInUse            // 400: create-admin for an email that already has an account

  function UserHttpStatus(e: UserError): (code: int)
    ensures code == 401 <==> e == InvalidToken
    ensures code == 400 <==> e != InvalidToken
  {
    if e == InvalidToken then 401 else 400
  }

  // ---------------------------------------------------------------------
  // Usernames

  /** The `n`-th name tried: `base` itself, then `base 1`, `base 2`, ... */
  function Candidate(base: string, n: nat): (s: string)
    ensures n == 0 ==> s == base
    ensures n > 0 ==> |s| > |base| && s[..|base|] == base
  {
    if n == 0 then base else base + " " + NatToString(n)
  }

  /** No name is tried twice. */
  lemma CandidatesDistinct(base: string, i: nat, j: nat)
    ensures Candidate(base, i) == Candidate(base, j) <==> i == j
  {
    if i > 0 && j > 0 && Candidate(base, i) == Candidate(base, j) {
      var c := Candidate(base, i);
      assert c[|base| + 1..] == NatToString(i);
      assert Candidate(base, j)[|base| + 1..] == NatToString(j);
      NatToStringInjective(i, j);
    }
  }

  /** Number of users whose username is `s`. */
  function Holders(users: seq<User>, s: string): (n: nat)
    ensures n <= |users|
    ensures n > 0 ==> exists i :: 0 <= i < |users| && users[i].username == Some(s)
  {
    if users == [] then 0
    else (if users[0].username == Some(s) then 1 else 0) + Holders(users[1..], s)
  }

  /**
   * `.eq('username', s).single()` returns a row: exactly one user holds `s`.
   * With none (or with several) the query reports PGRST116 and the name is used.
   */
  predicate Taken(users: seq<User>, s: string)
  {
    Holders(users, s) == 1
  }

  /** The usernames held by some user. */
  function HeldNames(users: seq<User>): set<string>
  {
    set i | 0 <= i < |users| && users[i].username.Some? :: users[i].username.value
  }

  /** `s` is the first of `base`, `base 1`, `base 2`, ... that is not taken. */
  ghost predicate FirstFree(users: seq<User>, base: string, s: string)
  {
    exists n: nat :: s == Candidate(base, n) && !Taken(users, s)
      && forall k :: 0 <= k < n ==> Taken(users, Candidate(base, k))
  }

  /** The first free name is unique: the loop's answer is determined by the table. */
  lemma FirstFreeUnique(users: seq<User>, base: string, s: string, t: string)
    requires FirstFree(users, base, s) && FirstFree(users, base, t)
    ensures s == t
  {
    var m: nat :| s == Candidate(base, m) && !Taken(users, s)
      && forall k :: 0 <= k < m ==> Taken(users, Candidate(base, k));
    var n: nat :| t == Candidate(base, n) && !Taken(users, t)
      && forall k :: 0 <= k < n ==> Taken(users, Candidate(base, k));
  }

  /** The names tried before the `n`-th: `Candidate(base, 0)` up to `Candidate(base, n - 1)`. */
  function Tried(base: string, n: nat): set<string>
  {
    if n == 0 then {} else Tried(base, n - 1) + {Candidate(base, n - 1)}
  }

  lemma {:induction false} TriedSize(base: string, n: nat)
    ensures |Tried(base, n)| == n
  {
    if n > 0 {
      TriedSize(base, n - 1);
      NotYetTried(base, n - 1, n - 1);
      var t, next := Tried(base, n - 1), Candidate(base, n - 1);
      assert |t + {next}| == |t| + 1;
    }
  }

  /** A later candidate is not among the names tried so far. */
  lemma {:induction false} NotYetTried(base: string, n: nat, m: nat)
    requires n <= m
    ensures Candidate(base, m) !in Tried(base, n)
  {
    if n > 0 {
      NotYetTried(base, n - 1, m);
      CandidatesDistinct(base, n - 1, m);
    }
  }

  lemma {:induction false} SubsetSize(a: set<string>, b: set<string>)
    requires a <= b
    ensures |a| <= |b|
  {
    if a != {} {
      var x :| x in a;
      SubsetSize(a - {x}, b - {x});
    }
  }

  /**
   * The `while (true)` loop of sign-up and create-admin: starting from
   * `base` with `counter = 1`, while exactly one user holds the name try
   * `base counter` and increment `counter`.
   */
  method PickUsername(users: seq<User>, base: string) returns (username: string, counter: nat)
    ensures counter >= 1 && username == Candidate(base, counter - 1)
    ensures !Taken(users, username)
    ensures forall k :: 0 <= k < counter - 1 ==> Taken(users, Candidate(base, k))
    ensures FirstFree(users, base, username)
  {
    username := base;
    counter := 1;
    while true
      invariant counter >= 1 && username == Candidate(base, counter - 1)
      invariant forall k :: 0 <= k < counter - 1 ==> Taken(users, Candidate(base, k))
      invariant Tried(base, counter - 1) <= HeldNames(users)
      decreases |HeldNames(users)| - (counter - 1)
    {
      if Holders(users, username) != 1 {
        break;
      }
      TakenStep(users, base, counter);
      username := base + " " + NatToString(counter);
      counter := counter + 1;
    }
    FirstFreeAt(users, base, counter - 1);
  }

  lemma FirstFreeAt(users: seq<User>, base: string, n: nat)
    requires !Taken(users, Candidate(base, n))
    requires forall k :: 0 <= k < n ==> Taken(users, Candidate(base, k))
    ensures FirstFree(users, base, Candidate(base, n))
  {
  }

  /** A taken candidate joins the tried names, which stay among the held names and so are bounded. */
  lemma TakenStep(users: seq<User>, base: string, counter: nat)
    requires counter >= 1 && Taken(users, Candidate(base, counter - 1))
    requires Tried(base, counter - 1) <= HeldNames(users)
    requires forall k :: 0 <= k < counter - 1 ==> Taken(users, Candidate(base, k))
    ensures Tried(base, counter) <= HeldNames(users)
    ensures counter <= |HeldNames(users)|
    ensures forall k :: 0 <= k < counter ==> Taken(users, Candidate(base, k))
    ensures Candidate(base, counter) == base + " " + NatToString(counter)
  {
    var username := Candidate(base, counter - 1);
    var i :| 0 <= i < |users| && users[i].username == Some(username);
    assert username in HeldNames(users);
    TriedSize(base, counter);
    SubsetSize(Tried(base, counter), HeldNames(users));
  }

  /** The users other than `self`: what `.neq('id', self)` would leave. */
  function Others(users: seq<User>, self: UserId): (r: seq<User>)
    ensures forall u :: u in r <==> u in users && u.id != self
  {
    if users == [] then []
    else (if users[0].id != self then [users[0]] else []) + Others(users[1..], self)
  }

  /**
   * The rename loop as written: the extra filter `.eq('id', '!=')` compares
   * the id column with the text "!=", which no user id equals, so the lookup
   * never returns a row and the first name tried is kept.
   */
  method RenameAsWritten(users: seq<User>, self: UserId, name: string) returns (newUsername: string)
    ensures newUsername == name
  {
    var visible: seq<User> := [];
    var counter;
    newUsername, counter := PickUsername(visible, name);
    assert !Taken(visible, Candidate(name, 0));
  }

  /** The rename loop as intended: the first candidate no other user holds. */
  method Rename(users: seq<User>, self: UserId, name: string) returns (newUsername: string)
    ensures FirstFree(Others(users, self), name, newUsername)
    ensures !Taken(Others(users, self), newUsername)
  {
    var counter;
    newUsername, counter := PickUsername(Others(users, self), name);
  }

  /** The email's local part, `email.split('@')[0]`. */
  function LocalPart(email: string): (r: string)
    ensures '@' !in r && r <= email
    ensures |r| < |email| ==> email[|r|] == '@'
    ensures r == Split(email, '@')[0]
  {
    email[..FirstIndexOf(email, '@')]
  }

  /** `email.endsWith(ADMIN_EMAIL_DOMAIN)`. */
  predicate AdminEmail(email: string, adminDomain: string)
  {
    EndsWith(email, adminDomain)
  }

  /** A username from the old email-based scheme: it contains '@' or is the email's local part. */
  predicate EmailBasedUsername(u: User)
  {
    Present(u.username) && (Includes(u.username.value, "@") || u.username.value == LocalPart(u.email))
  }

  /** The `updates` object of sign-in for an existing user: only the keys that were set. */
  datatype UserUpdates = UserUpdates(username: Option<string>, phone: Option<string>, address: Option<string>)

  /** The update object built from the new username (if any) and the submitted phone and address. */
  function SignInUpdates(newUsername: Option<string>, phone: Option<string>, address: Option<string>): (r: UserUpdates)
    ensures r.username == newUsername
    ensures r.phone.Some? <==> Present(phone)
    ensures r.address.Some? <==> Present(address)
    ensures r.phone.Some? ==> r.phone == phone
    ensures r.address.Some? ==> r.address == address
  {
    UserUpdates(newUsername, NullIfEmpty(phone), NullIfEmpty(address))
  }

  /** `needsUpdate`: some key was set. */
  predicate NeedsUpdate(up: UserUpdates)
  {
    up.username.Some? || up.phone.Some? || up.address.Some?
  }

  /** `.update(updates)`: the keys present overwrite, the others are untouched. */
  function Updated(u: User, up: UserUpdates): (r: User)
    ensures r.username == (if up.username.Some? then up.username else u.username)
    ensures r.phone == (if up.phone.Some? then up.phone else u.phone)
    ensures r.address == (if up.address.Some? then up.address else u.address)
    ensures r.(username := u.username, phone := u.phone, address := u.address) == u
    ensures !NeedsUpdate(up) ==> r == u
  {
    u.(username := if up.username.Some? then up.username else u.username,
       phone := if up.phone.Some? then up.phone else u.phone,
       address := if up.address.Some? then up.address else u.address)
  }

  /** Position of the user with this Google id, or `|users|`. */
  function GoogleIndex(users: seq<User>, googleId: string): (k: nat)
    ensures k <= |users|
    ensures k < |users| ==> users[k].googleId == googleId
    ensures forall i :: 0 <= i < k ==> users[i].googleId != googleId
  {
    if users == [] || users[0].googleId == googleId then 0 else 1 + GoogleIndex(users[1..], googleId)
  }

  predicate EmailUsed(users: seq<User>, email: string)
  {
    exists i :: 0 <= i < |users| && users[i].email == email
  }

  predicate GoogleIdUsed(users: seq<User>, googleId: string)
  {
    exists i :: 0 <= i < |users| && users[i].googleId == googleId
  }

  /** Ids, Google ids and emails are unique (the schema's UNIQUE columns) and ids are below `nextId`. */
  ghost predicate UsersConsistent(users: seq<User>, nextId: nat)
  {
    && (forall i, j :: 0 <= i < j < |users| ==> users[i].id != users[j].id)
    && (forall i, j :: 0 <= i < j < |users| ==> users[i].googleId != users[j].googleId)
    && (forall i, j :: 0 <= i < j < |users| ==> users[i].email != users[j].email)
    && (forall i :: 0 <= i < |users| ==> users[i].id < nextId)
  }

  /** Rewriting a row without touching its id, Google id or email keeps the table consistent. */
  lemma ReplaceKeepsConsistent(users: seq<User>, nextId: nat, k: nat, u: User)
    requires UsersConsistent(users, nextId) && k < |users|
    requires u.id == users[k].id && u.googleId == users[k].googleId && u.email == users[k].email
    ensures UsersConsistent(users[k := u], nextId)
  {
  }

  /** Appending a row with a fresh id, Google id and email keeps the table consistent. */
  lemma AppendKeepsConsistent(users: seq<User>, nextId: nat, u: User)
    requires UsersConsistent(users, nextId) && u.id == nextId
    requires !GoogleIdUsed(users, u.googleId) && !EmailUsed(users, u.email)
    ensures UsersConsistent(users + [u], nextId + 1)
  {
  }

  /** The `users` table. */
  class UserDirectory {
    var users: seq<User>
    var nextId: nat

    ghost predicate Valid()
      reads this
    {
      UsersConsistent(users, nextId)
    }

    constructor ()
      ensures Valid() && users == []
    {
      users, nextId := [], 0;
    }

    /**
     * POST /auth/google after the token has verified: a new Google id
     * creates a client account named by the uniquing loop, whose admin flag
     * is the admin-domain test; a known one gets its old email-based
     * username replaced by the name from the token, even when another user
     * already holds that name, and the submitted phone and address written.
     */
    method GoogleSignIn(googleId: string, email: string, name: string, phone: Option<string>,
                        address: Option<string>, adminDomain: string) returns (r: Result<User, UserError>)
      requires Valid()
      modifies this
      ensures Valid()
      ensures GoogleIndex(old(users), googleId) == |old(users)| && EmailUsed(old(users), email) ==>
        r == Err(UserCreationFailed) && unchanged(this)
      ensures GoogleIndex(old(users), googleId) == |old(users)| && !EmailUsed(old(users), email) ==>
        && r.Ok?
        && r.value == User(old(nextId), googleId, email, r.value.username, phone, address, ClientRole,
                           AdminEmail(email, adminDomain), false, false, map[])
        && r.value.username.Some? && FirstFree(old(users), name, r.value.username.value)
        && users == old(users) + [r.value]
      ensures GoogleIndex(old(users), googleId) < |old(users)| ==>
        var k := GoogleIndex(old(users), googleId);
        var u := old(users)[k];
        && r.Ok? && users == old(users)[k := r.value] && nextId == old(nextId)
        && r.value.(username := u.username, phone := u.phone, address := u.address) == u
        && r.value.phone == (if Present(phone) then phone else u.phone)
        && r.value.address == (if Present(address) then address else u.address)
        && (EmailBasedUsername(u) ==> r.value.username == Some(name))
        && (!EmailBasedUsername(u) ==> r.value.username == u.username)
        && (!EmailBasedUsername(u) && !Present(phone) && !Present(address) ==> r.value == u)
    {
      var k := GoogleIndex(users, googleId);
      if k == |users| {
        var username, counter := PickUsername(users, name);
        if EmailUsed(users, email) {
          return Err(UserCreationFailed);
        }
        var user := User(nextId, googleId, email, Some(username), phone, address, ClientRole,
                         AdminEmail(email, adminDomain), false, false, map[]);
        AppendKeepsConsistent(users, nextId, user);
        users := users + [user];
        nextId := nextId + 1;
        return Ok(user);
      }
      var user := SignInExisting(k, name, phone, address);
      r := Ok(user);
    }

    /**
     * The returning-user half of Google sign-in as written: an email-based
     * username is replaced by the name from the token as it stands (the
     * rename loop never finds a holder), and the submitted contact details
     * are written.
     */
    method SignInExisting(k: nat, name: string, phone: Option<string>, address: Option<string>) returns (user: User)
      requires Valid() && k < |users|
      modifies this
      ensures Valid()
      ensures users == old(users)[k := user] && nextId == old(nextId)
      ensures var u := old(users)[k];
        && user.(username := u.username, phone := u.phone, address := u.address) == u
        && user.phone == (if Present(phone) then phone else u.phone)
        && user.address == (if Present(address) then address else u.address)
        && (EmailBasedUsername(u) ==> user.username == Some(name))
        && (!EmailBasedUsername(u) ==> user.username == u.username)
        && (!EmailBasedUsername(u) && !Present(phone) && !Present(address) ==> user == u)
    {
      var u := users[k];
      var newUsername: Option<string> := None;
      if EmailBasedUsername(u) {
        var n := RenameAsWritten(users, u.id, name);
        newUsername := Some(n);
      }
      user := WriteSignInUpdates(k, newUsername, phone, address);
    }

    /** The returning-user half of sign-in as intended: the new username is the first one no other user holds. */
    method SignInExistingIntended(k: nat, name: string, phone: Option<string>, address: Option<string>) returns (user: User)
      requires Valid() && k < |users|
      modifies this
      ensures Valid()
      ensures users == old(users)[k := user] && nextId == old(nextId)
      ensures var u := old(users)[k];
        && user.(username := u.username, phone := u.phone, address := u.address) == u
        && user.phone == (if Present(phone) then phone else u.phone)
        && user.address == (if Present(address) then address else u.address)
        && (EmailBasedUsername(u) ==> user.username.Some? && FirstFree(Others(old(users), u.id), name, user.username.value))
        && (!EmailBasedUsername(u) ==> user.username == u.username)
        && (!EmailBasedUsername(u) && !Present(phone) && !Present(address) ==> user == u)
    {
      var u := users[k];
      var newUsername: Option<string> := None;
      if EmailBasedUsername(u) {
        var n := Rename(users, u.id, name);
        newUsername := Some(n);
      }
      user := WriteSignInUpdates(k, newUsername, phone, address);
    }

    /** Build `updates` and, when some key was set, write it to row `k`. */
    method WriteSignInUpdates(k: nat, newUsername: Option<string>, phone: Option<string>, address: Option<string>)
      returns (user: User)
      requires Valid() && k < |users|
      modifies this
      ensures Valid()
      ensures users == old(users)[k := user] && nextId == old(nextId)
      ensures user == Updated(old(users)[k], SignInUpdates(newUsername, phone, address))
    {
      var u := users[k];
      var up := SignInUpdates(newUsername, phone, address);
      user := u;
      if NeedsUpdate(up) {
        user := Updated(u, up);
        ReplaceKeepsConsistent(users, nextId, k, user);
        users := users[k := user];
      }
    }

    /**
     * POST /admin/create-admin: email, phone and address are required and
     * the email must be new; the account is named `Admin <local>`,
     * `Admin <local> 1`, ... and is an admin from the start.
     */
    method CreateAdmin(email: Option<string>, phone: Option<string>, address: Option<string>, now: nat)
      returns (r: Result<User, UserError>)
      requires Valid()
      modifies this
      ensures Valid()
      ensures !(Present(email) && Present(phone) && Present(address)) ==> r == Err(MissingAdminFields) && unchanged(this)
      ensures Present(email) && Present(phone) && Present(address) ==>
        if EmailUsed(old(users), email.value) then r == Err(EmailInUse) && unchanged(this)
        else if GoogleIdUsed(old(users), "admin_" + NatToString(now)) then r == Err(UserCreationFailed) && unchanged(this)
        else
          && r.Ok?
          && r.value == User(old(nextId), "admin_" + NatToString(now), email.value, r.value.username, phone, address,
                             ClientRole, true, true, true, map[])
          && r.value.username.Some?
          && FirstFree(old(users), "Admin " + LocalPart(email.value), r.value.username.value)
          && users == old(users) + [r.value]
    {
      if !(Present(email) && Present(phone) && Present(address)) {
        return Err(MissingAdminFields);
      }
      if exists i :: 0 <= i < |users| && users[i].email == email.value {
        return Err(EmailInUse);
      }
      var username, counter := PickUsername(users, "Admin " + LocalPart(email.value));
      var googleId := "admin_" + NatToString(now);
      if exists i :: 0 <= i < |users| && users[i].googleId == googleId {
        return Err(UserCreationFailed);
      }
      var user := User(nextId, googleId, email.value, Some(username), phone, address, ClientRole, true, true, true, map[]);
      AppendKeepsConsistent(users, nextId, user);
      users := users + [user];
      nextId := nextId + 1;
      r := Ok(user);
    }
  }

  /** Sign-up never reuses a name held by exactly one user, and picks the earliest candidate that is not. */
  lemma PickedNameIsFresh(users: seq<User>, base: string, s: string)
    requires FirstFree(users, base, s)
    requires forall i, j :: 0 <= i < j < |users| ==> users[i].username != users[j].username || users[i].username.None?
    ensures forall i :: 0 <= i < |users| ==> users[i].username != Some(s)
  {
    forall i | 0 <= i < |users| ensures users[i].username != Some(s) {
      if users[i].username == Some(s) {
        HoldersUnique(users, s, i);
      }
    }
  }

  /** When usernames are unique, a held name has exactly one holder. */
  lemma {:induction false} HoldersUnique(users: seq<User>, s: string, i: nat)
    requires i < |users| && users[i].username == Some(s)
    requires forall a, b :: 0 <= a < b < |users| ==> users[a].username != users[b].username || users[a].username.None?
    ensures Holders(users, s) == 1
  {
    if i == 0 {
      forall a | 0 <= a < |users[1..]| ensures users[1..][a].username != Some(s) {
        assert users[1..][a] == users[a + 1];
      }
      NotHeld(users[1..], s);
    } else {
      assert users[1..][i - 1] == users[i];
      assert users[0].username != Some(s);
      HoldersUnique(users[1..], s, i - 1);
    }
  }

  lemma {:induction false} NotHeld(users: seq<User>, s: string)
    requires forall a :: 0 <= a < |users| ==> users[a].username != Some(s)
    ensures Holders(users, s) == 0
  {
    if users != [] {
      NotHeld(users[1..], s);
    }
  }

  /**
   * The sign-in route as written lets two users share a name: with "Ann"
   * held by one user and "bob" (the local part of bob@y) by another, bob
   * signing in with the name "Ann" leaves two holders of "Ann".
   */
  /** "bob" is the local part of "bob@y", so a user with that name and email has an email-based username. */
  lemma NamedAfterEmail(u: User)
    requires u.email == "bob@y" && u.username == Some("bob")
    ensures EmailBasedUsername(u)
  {
    assert "bob@y"[3] == '@';
  }

  method SignInAsWrittenSharesName() returns (holders: nat)
    ensures holders == 2
  {
    var d := new UserDirectory();
    var ann := User(0, "g1", "ann@x", Some("Ann"), None, None, ClientRole, false, false, false, map[]);
    var bob := User(1, "g2", "bob@y", Some("bob"), None, None, ClientRole, false, false, false, map[]);
    d.users, d.nextId := [ann, bob], 2;
    NamedAfterEmail(bob);
    var user := d.SignInExisting(1, "Ann", None, None);
    assert d.users == [ann, user] && user.username == Some("Ann");
    holders := Holders(d.users, "Ann");
    assert d.users[1..] == [user] && d.users[1..][1..] == [];
    assert Holders(d.users[1..], "Ann") == 1;
  }
}
