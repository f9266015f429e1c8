// The older user routes (Social-Good-Juba-main/server/routes/users.js of the
// nested copy): Google sign-in without usernames, and becoming a freelancer
// through a profile that waits for an administrator's approval.

module LegacyUsers {
  import opened Common
  import opened JobTables
  import opened Users
  import opened Profiles

  /** Number of profiles of `user`; `.eq('user_id', user).single()` finds one only when this is 1. */
  function ProfileCount(profiles: seq<FreelancerProfile>, user: UserId): (n: nat)
    ensures n <= |profiles|
  {
    if profiles == [] then 0
    else (if profiles[0].userId == user then 1 else 0) + ProfileCount(profiles[1..], user)
  }

  /** No user has two profiles. */
  predicate AtMostOneProfile(profiles: seq<FreelancerProfile>)
  {
    forall i, j :: 0 <= i < j < |profiles| ==> profiles[i].userId != profiles[j].userId
  }

  lemma {:induction false} AtMostOneCount(profiles: seq<FreelancerProfile>, user: UserId)
    requires AtMostOneProfile(profiles)
    ensures ProfileCount(profiles, user) <= 1
    ensures ProfileCount(profiles, user) == 1 <==> exists i :: 0 <= i < |profiles| && profiles[i].userId == user
  {
    if profiles != [] {
      var rest := profiles[1..];
      assert AtMostOneProfile(rest) by {
        forall i, j | 0 <= i < j < |rest| ensures rest[i].userId != rest[j].userId {
          assert rest[i] == profiles[i + 1] && rest[j] == profiles[j + 1];
        }
      }
      AtMostOneCount(rest, user);
      if profiles[0].userId == user {
        forall i | 0 <= i < |rest| ensures rest[i].userId != user {
          assert rest[i] == profiles[i + 1];
        }
        NoProfiles(rest, user);
      } else {
        if exists i :: 0 <= i < |profiles| && profiles[i].userId == user {
          var i :| 0 <= i < |profiles| && profiles[i].userId == user;
          assert rest[i - 1] == profiles[i];
        }
      }
    }
  }

  lemma {:induction false} NoProfiles(profiles: seq<FreelancerProfile>, user: UserId)
    requires forall i :: 0 <= i < |profiles| ==> profiles[i].userId != user
    ensures ProfileCount(profiles, user) == 0
  {
    if profiles != [] {
      NoProfiles(profiles[1..], user);
    }
  }

  class LegacyAccounts {
    var users: seq<User>
    var profiles: seq<FreelancerProfile>
    var nextId: nat

    ghost predicate Valid()
      reads this
    {
      UsersConsistent(users, nextId)
    }

    constructor ()
      ensures Valid() && users == [] && profiles == []
    {
      users, profiles, nextId := [], [], 0;
    }

    /**
     * POST /auth/google after the token has verified: a new Google id
     * creates a client account with no username whose admin flag is the
     * admin-domain test, and fails when the email is taken or phone or
     * address is missing (both columns are NOT NULL in this schema); a known one gets the submitted phone and address
     * written, each only when it was given.
     */
    method GoogleSignIn(googleId: string, email: string, phone: Option<string>, address: Option<string>,
                        adminDomain: string) returns (r: Result<User, UserError>)
      requires Valid()
      modifies this
      ensures Valid()
      ensures GoogleIndex(old(users), googleId) == |old(users)| && (EmailUsed(old(users), email) || phone.None? || address.None?) ==>
        r == Err(UserCreationFailed) && unchanged(this)
      ensures GoogleIndex(old(users), googleId) == |old(users)| && !EmailUsed(old(users), email) && phone.Some? && address.Some? ==>
        && r == Ok(User(old(nextId), googleId, email, None, phone, address, ClientRole,
                        AdminEmail(email, adminDomain), false, false, map[]))
        && users == old(users) + [r.value] && profiles == old(profiles)
      ensures GoogleIndex(old(users), googleId) < |old(users)| ==>
        var k := GoogleIndex(old(users), googleId);
        var u := old(users)[k];
        && r.Ok? && users == old(users)[k := r.value] && nextId == old(nextId) && profiles == old(profiles)
        && r.value.(phone := u.phone, address := u.address) == u
        && r.value.phone == (if Present(phone) then phone else u.phone)
        && r.value.address == (if Present(address) then address else u.address)
    {
      var k := GoogleIndex(users, googleId);
      if k == |users| {
        if (exists i :: 0 <= i < |users| && users[i].email == email) || phone.None? || address.None? {
          return Err(UserCreationFailed);
        }
        var user := User(nextId, googleId, email, None, phone, address, ClientRole,
                         AdminEmail(email, adminDomain), false, false, map[]);
        AppendKeepsConsistent(users, nextId, user);
        users := users + [user];
        nextId := nextId + 1;
        return Ok(user);
      }
      var user := users[k];
      if Present(phone) || Present(address) {
        user := Updated(user, SignInUpdates(None, phone, address));
        ReplaceKeepsConsistent(users, nextId, k, user);
        users := users[k := user];
      }
      r := Ok(user);
    }

    /**
     * POST /become-freelancer: refused when the profile lookup finds one;
     * otherwise a profile holding the submitted application fields, pending
     * an administrator's approval.
     */
    method BecomeFreelancer(caller: UserId, body: map<string, JsValue>) returns (r: Result<FreelancerProfile, ProfileError>)
      requires Valid()
      modifies this
      ensures Valid()
      ensures ProfileCount(old(profiles), caller) == 1 ==> r == Err(ProfileExists) && unchanged(this)
      ensures ProfileCount(old(profiles), caller) != 1 ==>
        && r == Ok(FreelancerProfile(caller, Submitted(body, ApplicationKeys), None, ApprovalPending))
        && profiles == old(profiles) + [r.value]
        && users == old(users)
      ensures AtMostOneProfile(old(profiles)) ==> AtMostOneProfile(profiles)
    {
      if ProfileCount(profiles, caller) == 1 {
        return Err(ProfileExists);
      }
      var p := FreelancerProfile(caller, Submitted(body, ApplicationKeys), None, ApprovalPending);
      if AtMostOneProfile(profiles) {
        AtMostOneCount(profiles, caller);
      }
      profiles := profiles + [p];
      r := Ok(p);
    }
  }
}
