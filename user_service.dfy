/**
 The user-directory façade: create a user, delete a user, list the users of a
 company, reset a password. Each operation builds a payload, issues one or two
 remote calls through a `GraphClient`, and maps the remote outcome to its own.

 The façade keeps no state between calls; its two configuration inputs (the
 directory's issuer domain and the role tag given to new accounts) are a
 `Settings` value.
 */
module UserService {
  import opened GraphModel
  import opened Requests

  /** The sign-in type of the identity every created user gets. */
  const EmailSignInType := "emailAddress"

  /** The password policy every created or reset account gets. */
  const NoExpiryPolicy := "DisablePasswordExpiration"

  /** The properties the listing asks the directory for. */
  const SelectedFields := ["id", "displayName", "onPremisesExtensionAttributes", "identities", "companyName", "mobilePhone"]

  /**
   `domain` is the configured issuer domain (absent when the configuration
   lacks it); `userRole` is the role constant tagged on every new account.
   */
  datatype Settings = Settings(domain: Option<string>, userRole: string)

  // ---------------------------------------------------------------------------
  // Create
  // ---------------------------------------------------------------------------

  /** The password profile both create and reset send: the given password, no forced change. */
  function ProfileFor(password: string): (p: PasswordProfile)
    ensures p.password == Some(password)
    ensures p.forceChangePasswordNextSignIn == Some(false)
  {
    PasswordProfile(Some(password), Some(false))
  }

  /** The payload of a user creation. */
  function CreatePayload(user: UserRequest, settings: Settings): (body: GraphUser)
    ensures body.accountEnabled == Some(true)
    ensures body.identities.Some? && |body.identities.value| == 1
    ensures body.identities.value[0].signInType == Some(EmailSignInType)
    ensures body.identities.value[0].issuer == settings.domain
    ensures body.identities.value[0].issuerAssignedId == Some(user.issuerAssignedId)
    ensures body.displayName == Some(user.displayName)
    ensures body.mobilePhone == user.mobilePhone
    ensures body.companyName == Some(user.companyName)
    ensures body.onPremisesExtensionAttributes == Some(ExtensionAttributes(Some(settings.userRole)))
    ensures body.passwordProfile == Some(PasswordProfile(Some(user.password), Some(false)))
    ensures body.passwordPolicies == Some(NoExpiryPolicy)
    ensures body.id == None
  {
    GraphUser(
      id := None,
      accountEnabled := Some(true),
      displayName := Some(user.displayName),
      mobilePhone := user.mobilePhone,
      companyName := Some(user.companyName),
      identities := Some([ObjectIdentity(Some(EmailSignInType), settings.domain, Some(user.issuerAssignedId))]),
      onPremisesExtensionAttributes := Some(ExtensionAttributes(Some(settings.userRole))),
      passwordProfile := Some(ProfileFor(user.password)),
      passwordPolicies := Some(NoExpiryPolicy))
  }

  /**
   Create a user. The catch block rethrows, so whatever the remote creation
   does, success or failure, is exactly what the caller sees.
   */
  function CreateUser(client: GraphClient, settings: Settings, user: UserRequest): (r: Completion<Option<GraphUser>>)
    ensures r.Threw? <==> client.post(CreatePayload(user, settings)).Threw?
    ensures r.Threw? ==> r.ex == client.post(CreatePayload(user, settings)).ex
    ensures r.Returned? ==> r.value == client.post(CreatePayload(user, settings)).value
  {
    match client.post(CreatePayload(user, settings))
    case Returned(created) => Returned(created)
    case Threw(ex) => Threw(ex)
  }

  // ---------------------------------------------------------------------------
  // Delete and reset password: every exception becomes `false`
  // ---------------------------------------------------------------------------

  /** The catch-all of delete and reset: true when the remote call returned, false when it threw. */
  function Succeeded(outcome: Completion<()>): (r: Completion<bool>)
    ensures r.Returned?
    ensures r.value <==> outcome.Returned?
  {
    match outcome
    case Returned(_) => Returned(true)
    case Threw(_) => Returned(false)
  }

  /** Delete the user with the given id. */
  function DeleteUser(client: GraphClient, userId: string): (r: Completion<bool>)
    ensures r.Returned?
    ensures r.value <==> client.delete(userId).Returned?
  {
    Succeeded(client.delete(userId))
  }

  /** The payload of a password reset. */
  function ResetPayload(model: ResetPasswordRequest): (body: GraphUser)
    ensures body.passwordProfile == Some(PasswordProfile(Some(model.password), Some(false)))
    ensures body.passwordPolicies == Some(NoExpiryPolicy)
    ensures body.(passwordProfile := None, passwordPolicies := None) == BlankUser
  {
    BlankUser.(passwordProfile := Some(ProfileFor(model.password)), passwordPolicies := Some(NoExpiryPolicy))
  }

  /** Set a new password for the user `model.userId` names. */
  function ResetPassword(client: GraphClient, model: ResetPasswordRequest): (r: Completion<bool>)
    ensures r.Returned?
    ensures r.value <==> client.patch(model.userId, ResetPayload(model)).Returned?
  {
    Succeeded(client.patch(model.userId, ResetPayload(model)))
  }

  /**
   The two failure policies side by side: for one and the same remote
   exception, delete and reset report `false` and throw nothing, while
   create hands that very exception to its caller.
   */
  lemma FailurePolicies(client: GraphClient, settings: Settings, user: UserRequest, userId: string,
                        model: ResetPasswordRequest, ex: Exception)
    requires client.post(CreatePayload(user, settings)) == Threw(ex)
    requires client.delete(userId) == Threw(ex)
    requires client.patch(model.userId, ResetPayload(model)) == Threw(ex)
    ensures DeleteUser(client, userId) == Returned(false)
    ensures ResetPassword(client, model) == Returned(false)
    ensures CreateUser(client, settings, user) == Threw(ex)
  {
  }

  /**
   How the directory applies a partial update: every property the payload
   sets replaces the stored one, every property it leaves null is kept.
   */
  function ApplyPatch(stored: GraphUser, body: GraphUser): (r: GraphUser)
    ensures body == BlankUser ==> r == stored
  {
    GraphUser(
      Override(stored.id, body.id),
      Override(stored.accountEnabled, body.accountEnabled),
      Override(stored.displayName, body.displayName),
      Override(stored.mobilePhone, body.mobilePhone),
      Override(stored.companyName, body.companyName),
      Override(stored.identities, body.identities),
      Override(stored.onPremisesExtensionAttributes, body.onPremisesExtensionAttributes),
      Override(stored.passwordProfile, body.passwordProfile),
      Override(stored.passwordPolicies, body.passwordPolicies))
  }

  function Override<T>(stored: Option<T>, update: Option<T>): Option<T>
  {
    if update.Some? then update else stored
  }

  /** A reset changes the password and the password policy of the stored user and nothing else. */
  lemma ResetChangesOnlyPassword(stored: GraphUser, model: ResetPasswordRequest)
    ensures ApplyPatch(stored, ResetPayload(model))
         == stored.(passwordProfile := Some(ProfileFor(model.password)), passwordPolicies := Some(NoExpiryPolicy))
  {
  }

  /**
   Resetting the password of a user this façade created leaves the account
   exactly as if it had been created with the new password: the reset keeps
   the no-forced-change profile and the no-expiry policy creation set.
   */
  lemma ResetOfCreatedUser(user: UserRequest, settings: Settings, id: Option<string>, model: ResetPasswordRequest)
    ensures ApplyPatch(CreatePayload(user, settings).(id := id), ResetPayload(model))
         == CreatePayload(user.(password := model.password), settings).(id := id)
  {
  }

  // ---------------------------------------------------------------------------
  // List the users of a company
  // ---------------------------------------------------------------------------

  /** The first identity's issuer-assigned id can be read: the identities are non-null and non-empty. */
  predicate HasFirstIdentity(item: GraphUser)
  {
    item.identities.Some? && |item.identities.value| > 0
  }

  /**
   The list entry for one fetched user. The e-mail is read from the first
   identity: a null identity list makes `FirstOrDefault` throw, an empty one
   makes it yield null, and reading the id from null throws.
   */
  function ToResponse(item: GraphUser): (r: Completion<UserResponse>)
    ensures r.Returned? <==> HasFirstIdentity(item)
    ensures item.identities.None? ==> r == Threw(ArgumentNull)
    ensures item.identities == Some([]) ==> r == Threw(NullReference)
    ensures r.Returned? ==>
      && r.value.id == item.id
      && r.value.displayName == item.displayName
      && r.value.email == item.identities.value[0].issuerAssignedId
      && r.value.companyName == item.companyName
      && r.value.onPremisesExtensionAttributes == item.onPremisesExtensionAttributes
      && r.value.mobilePhone == item.mobilePhone
  {
    if item.identities.None? then Threw(ArgumentNull)
    else if |item.identities.value| == 0 then Threw(NullReference)
    else Returned(UserResponse(
      item.id,
      item.displayName,
      item.identities.value[0].issuerAssignedId,
      item.companyName,
      item.onPremisesExtensionAttributes,
      item.mobilePhone))
  }

  /**
   What the listing loop produces over `users`, in order: the entries of the
   users whose company is `company`, or the exception of the first such user
   whose entry cannot be built.
   */
  function FilterByCompany(users: seq<GraphUser>, company: string): (r: Completion<seq<UserResponse>>)
    ensures r.Returned? ==> |r.value| <= |users|
    ensures r.Returned? ==> forall e | e in r.value :: e.companyName == Some(company)
    decreases |users|
  {
    if users == [] then Returned([])
    else
      var prefix := FilterByCompany(users[..|users| - 1], company);
      var item := users[|users| - 1];
      if prefix.Threw? || item.companyName != Some(company) then prefix
      else match ToResponse(item)
        case Threw(ex) => Threw(ex)
        case Returned(entry) => Returned(prefix.value + [entry])
  }

  /**
   The listing once the users are fetched: no company lists nobody, whatever
   was fetched; otherwise a null page throws and a page is filtered.
   */
  function ListByCompany(company: Option<string>, fetched: Option<seq<GraphUser>>): (r: Completion<seq<UserResponse>>)
    ensures company.None? ==> r == Returned([])
    ensures company.Some? && fetched.None? ==> r == Threw(NullReference)
    ensures company.Some? && fetched.Some? ==> r == FilterByCompany(fetched.value, company.value)
  {
    if company.None? then Returned([])
    else if fetched.None? then Threw(NullReference)
    else FilterByCompany(fetched.value, company.value)
  }

  /**
   The whole listing: an unfiltered list call whose result is discarded,
   then the list call with the selected properties, then the filter. Either
   remote call throwing ends the listing with its exception.
   */
  function UsersOfCompany(client: GraphClient, company: Option<string>): (r: Completion<seq<UserResponse>>)
    ensures client.list(None).Threw? ==> r == Threw(client.list(None).ex)
    ensures client.list(None).Returned? && client.list(Some(SelectedFields)).Threw?
            ==> r == Threw(client.list(Some(SelectedFields)).ex)
    ensures client.list(None).Returned? && client.list(Some(SelectedFields)).Returned?
            ==> r == ListByCompany(company, client.list(Some(SelectedFields)).value)
  {
    match client.list(None)
    case Threw(ex) => Threw(ex)
    case Returned(_) =>
      match client.list(Some(SelectedFields))
      case Threw(ex) => Threw(ex)
      case Returned(fetched) => ListByCompany(company, fetched)
  }

  /** Once a prefix of the users has thrown, the whole listing throws the same exception. */
  lemma {:induction false} ThrowPersists(users: seq<GraphUser>, n: nat, company: string)
    requires n <= |users|
    requires FilterByCompany(users[..n], company).Threw?
    ensures FilterByCompany(users, company) == FilterByCompany(users[..n], company)
    decreases |users| - n
  {
    if n < |users| {
      var next := users[..n + 1];
      assert next[..n] == users[..n];
      assert FilterByCompany(next, company) == FilterByCompany(users[..n], company);
      ThrowPersists(users, n + 1, company);
    } else {
      assert users[..n] == users;
    }
  }

  /**
   The listing as the source runs it: a loop over the fetched users that
   appends the entry of each user of the company.
   */
  method GetUsers(client: GraphClient, company: Option<string>) returns (r: Completion<seq<UserResponse>>)
    ensures r == UsersOfCompany(client, company)
  {
    var discarded := client.list(None);
    if discarded.Threw? {
      return Threw(discarded.ex);
    }
    var page := client.list(Some(SelectedFields));
    if page.Threw? {
      return Threw(page.ex);
    }
    var users: seq<UserResponse> := [];
    if company.Some? {
      if page.value.None? {
        return Threw(NullReference);
      }
      var fetched := page.value.value;
      var i := 0;
      while i < |fetched|
        invariant 0 <= i <= |fetched|
        invariant FilterByCompany(fetched[..i], company.value) == Returned(users)
      {
        var item := fetched[i];
        assert fetched[..i + 1][..i] == fetched[..i];
        if item.companyName == company {
          var entry := ToResponse(item);
          if entry.Threw? {
            ThrowPersists(fetched, i + 1, company.value);
            return Threw(entry.ex);
          }
          users := users + [entry.value];
        }
        i := i + 1;
      }
      assert fetched[..i] == fetched;
    }
    return Returned(users);
  }

  /** A fetched user the listing for `company` selects. */
  predicate OfCompany(item: GraphUser, company: string)
  {
    item.companyName == Some(company)
  }

  /**
   The listing succeeds exactly when every user of the company has a first
   identity; users of other companies are never looked at.
   */
  lemma {:induction false} FilterSucceedsIff(users: seq<GraphUser>, company: string)
    ensures FilterByCompany(users, company).Returned?
        <==> forall j | 0 <= j < |users| && OfCompany(users[j], company) :: HasFirstIdentity(users[j])
    decreases |users|
  {
    if users != [] {
      var prefix := users[..|users| - 1];
      FilterSucceedsIff(prefix, company);
      assert forall j | 0 <= j < |prefix| :: prefix[j] == users[j];
    }
  }

  /**
   When the listing throws, it throws the exception of the first user of the
   company that has no first identity.
   */
  lemma {:induction false} FilterFailsAtFirst(users: seq<GraphUser>, company: string) returns (k: nat)
    requires FilterByCompany(users, company).Threw?
    ensures k < |users| && OfCompany(users[k], company) && !HasFirstIdentity(users[k])
    ensures forall j | 0 <= j < k && OfCompany(users[j], company) :: HasFirstIdentity(users[j])
    ensures ToResponse(users[k]).Threw? && FilterByCompany(users, company) == Threw(ToResponse(users[k]).ex)
    decreases |users|
  {
    var prefix := users[..|users| - 1];
    assert forall j | 0 <= j < |prefix| :: prefix[j] == users[j];
    if FilterByCompany(prefix, company).Threw? {
      k := FilterFailsAtFirst(prefix, company);
    } else {
      k := |users| - 1;
      FilterSucceedsIff(prefix, company);
    }
  }

  /**
   A successful listing has exactly one entry per user of the company, in
   the order the users were fetched: `ix` lists, in increasing order, the
   positions of all the users of the company, and entry `k` is built from
   the user at position `ix[k]`.
   */
  lemma {:induction false} FilterSelectsInOrder(users: seq<GraphUser>, company: string) returns (ix: seq<nat>)
    requires FilterByCompany(users, company).Returned?
    ensures |ix| == |FilterByCompany(users, company).value|
    ensures forall k | 0 <= k < |ix| ::
      && ix[k] < |users|
      && OfCompany(users[ix[k]], company)
      && ToResponse(users[ix[k]]) == Returned(FilterByCompany(users, company).value[k])
    ensures forall k, l | 0 <= k < l < |ix| :: ix[k] < ix[l]
    ensures forall j | 0 <= j < |users| && OfCompany(users[j], company) :: j in ix
    decreases |users|
  {
    if users == [] {
      ix := [];
    } else {
      var prefix := users[..|users| - 1];
      assert forall j | 0 <= j < |prefix| :: prefix[j] == users[j];
      var before := FilterSelectsInOrder(prefix, company);
      if OfCompany(users[|users| - 1], company) {
        ix := before + [|users| - 1];
      } else {
        ix := before;
      }
    }
  }

  /**
   The empty company name is matched literally, not as a wildcard: when no
   fetched user has the empty company name, the listing for it is empty,
   whatever the other users' companies are.
   */
  lemma {:induction false} EmptyCompanyIsLiteral(users: seq<GraphUser>)
    requires forall j | 0 <= j < |users| :: users[j].companyName != Some("")
    ensures ListByCompany(Some(""), Some(users)) == Returned([])
    decreases |users|
  {
    if users != [] {
      EmptyCompanyIsLiteral(users[..|users| - 1]);
    }
  }

  /**
   Of three fetched users of which the first and the last belong to the
   company, the listing holds exactly those two, in fetched order.
   */
  lemma TwoOfThreeListed(a: GraphUser, b: GraphUser, c: GraphUser, company: string)
    requires a.companyName == Some(company) && c.companyName == Some(company)
    requires b.companyName != Some(company)
    requires HasFirstIdentity(a) && HasFirstIdentity(c)
    ensures ListByCompany(Some(company), Some([a, b, c]))
         == Returned([ToResponse(a).value, ToResponse(c).value])
  {
    var ra, rc := ToResponse(a).value, ToResponse(c).value;
    var one, two, three := [a], [a, b], [a, b, c];
    assert one[..0] == [] && [] + [ra] == [ra];
    assert FilterByCompany(one, company) == Returned([ra]);
    assert two[..|two| - 1] == one && two[|two| - 1] == b;
    assert FilterByCompany(two, company) == Returned([ra]);
    assert three[..|three| - 1] == two && three[|three| - 1] == c;
    assert FilterByCompany(three, company) == Returned([ra] + [rc]);
    assert [ra] + [rc] == [ra, rc];
  }

  /**
   A user this façade created, once the directory has given it an id, is
   listed for its company with the request's e-mail, name, phone and the
   role tag.
   */
  lemma CreatedUserIsListed(user: UserRequest, settings: Settings, id: string)
    ensures FilterByCompany([CreatePayload(user, settings).(id := Some(id))], user.companyName)
         == Returned([UserResponse(
              Some(id),
              Some(user.displayName),
              Some(user.issuerAssignedId),
              Some(user.companyName),
              Some(ExtensionAttributes(Some(settings.userRole))),
              user.mobilePhone)])
  {
    var stored := CreatePayload(user, settings).(id := Some(id));
    assert [stored][..0] == [];
    assert FilterByCompany([stored][..0], user.companyName) == Returned([]);
    assert ToResponse(stored).Returned?;
    var entry := ToResponse(stored).value;
    assert FilterByCompany([stored], user.companyName) == Returned([] + [entry]);
    assert [] + [entry] == [entry];
  }
}
