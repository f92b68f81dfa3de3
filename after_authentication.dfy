/**
 The post-authentication guard: a request-pipeline stage that signs out an
 authenticated user who carries no company claim, unless the request is
 already on its way to the sign-out endpoint. Everything else passes on to
 the next stage unchanged.
 */
module AfterAuthentication {
  import opened GraphModel

  /** The claim type that tells which company a user belongs to. */
  const CompanyClaimType := "extension_Company"

  /** The path fragment that marks a request to the sign-out endpoint. */
  const SignOutMarker := "SignOut"

  /** The sign-out endpoint. */
  const SignOutPath := "/Account/SignOut"

  /** Where a user without a company claim is sent. */
  const SignOutUrl := "/Account/SignOut?error=401"

  datatype Claim = Claim(claimType: string, value: string)

  datatype Identity = Identity(isAuthenticated: bool)

  /** The request's principal; its identity may be null. */
  datatype Principal = Principal(identity: Option<Identity>, claims: seq<Claim>)

  /** What the guard reads of a request: its principal (may be null) and its path, without the query. */
  datatype HttpContext = HttpContext(user: Option<Principal>, path: string)

  /** The guard either answers with a redirect or calls the next stage with the context it was given. */
  datatype Action = Redirect(location: string) | Next(context: Option<HttpContext>)

  /** `part` starts at position `i` of `s`. */
  predicate OccursAt(s: string, part: string, i: nat)
  {
    i + |part| <= |s| && s[i..i + |part|] == part
  }

  /** Ordinal, case-sensitive substring test. */
  predicate Contains(s: string, part: string)
    decreases |s|
  {
    (|part| <= |s| && s[..|part|] == part) || (|s| > 0 && Contains(s[1..], part))
  }

  /** `Contains` holds exactly when `part` occurs at some position of `s`. */
  lemma {:induction false} ContainsIff(s: string, part: string)
    ensures Contains(s, part) <==> exists i: nat :: OccursAt(s, part, i)
    decreases |s|
  {
    if |part| <= |s| && s[..|part|] == part {
      assert OccursAt(s, part, 0);
    } else if |s| > 0 {
      ContainsIff(s[1..], part);
      if Contains(s[1..], part) {
        var i: nat :| OccursAt(s[1..], part, i);
        assert OccursAt(s, part, i + 1);
      }
      if i: nat :| OccursAt(s, part, i) {
        assert i > 0;
        assert OccursAt(s[1..], part, i - 1);
      }
    }
  }

  /** A string in which the first character of `part` never appears does not contain `part`. */
  lemma {:induction false} AbsentFirstChar(s: string, part: string)
    requires |part| > 0 && part[0] !in s
    ensures !Contains(s, part)
    decreases |s|
  {
    if |part| <= |s| {
      assert s[..|part|][0] == s[0];
    }
    if |s| > 0 {
      assert forall c | c in s[1..] :: c in s;
      AbsentFirstChar(s[1..], part);
    }
  }

  /** The principal is present, has an identity, and that identity is authenticated. */
  predicate IsAuthenticated(context: HttpContext)
  {
    context.user.Some? && context.user.value.identity.Some? && context.user.value.identity.value.isAuthenticated
  }

  /** Some claim of the principal, whatever its value, is a company claim. */
  predicate HasCompanyClaim(principal: Principal)
  {
    exists k | 0 <= k < |principal.claims| :: principal.claims[k].claimType == CompanyClaimType
  }

  /**
   The guard's decision: redirect to sign-out exactly when the context is
   present, its principal is authenticated, it has no company claim and its
   path does not contain the sign-out marker; otherwise call the next stage
   with the same context.
   */
  function InvokeAsync(context: Option<HttpContext>): (a: Action)
    ensures a.Redirect? <==>
      && context.Some?
      && IsAuthenticated(context.value)
      && !HasCompanyClaim(context.value.user.value)
      && !Contains(context.value.path, SignOutMarker)
    ensures a.Redirect? ==> a.location == SignOutUrl
    ensures a.Next? ==> a.context == context
  {
    if context.Some? && IsAuthenticated(context.value) && !HasCompanyClaim(context.value.user.value)
       && !Contains(context.value.path, SignOutMarker)
    then Redirect(SignOutUrl)
    else Next(context)
  }

  /** An unauthenticated request, or no request context at all, always reaches the next stage. */
  lemma UnauthenticatedPasses(context: Option<HttpContext>)
    requires context.None? || !IsAuthenticated(context.value)
    ensures InvokeAsync(context) == Next(context)
  {
  }

  /** A company claim with any value lets an authenticated request through. */
  lemma CompanyClaimPasses(context: HttpContext, k: nat)
    requires context.user.Some? && k < |context.user.value.claims|
    requires context.user.value.claims[k].claimType == CompanyClaimType
    ensures InvokeAsync(Some(context)) == Next(Some(context))
  {
  }

  /** A path containing the sign-out marker anywhere always reaches the next stage. */
  lemma SignOutPathPasses(context: HttpContext, i: nat)
    requires OccursAt(context.path, SignOutMarker, i)
    ensures InvokeAsync(Some(context)) == Next(Some(context))
  {
    ContainsIff(context.path, SignOutMarker);
  }

  /** The path part of a URL: everything before the first `?`. */
  function PathOf(url: string): (p: string)
    ensures |p| <= |url| && p == url[..|p|]
    ensures '?' !in p
  {
    if url == [] || url[0] == '?' then [] else [url[0]] + PathOf(url[1..])
  }

  /** The path of a URL whose first `?` is at position `k`. */
  lemma {:induction false} PathOfAt(url: string, k: nat)
    requires k < |url| && url[k] == '?' && '?' !in url[..k]
    ensures PathOf(url) == url[..k]
    decreases k
  {
    if k > 0 {
      assert url[0] in url[..k];
      assert url[1..][..k - 1] == url[1..k];
      assert forall c | c in url[1..][..k - 1] :: c in url[..k];
      PathOfAt(url[1..], k - 1);
    }
  }

  /** The redirect target's path is the sign-out endpoint. */
  lemma SignOutTargetPath()
    ensures PathOf(SignOutUrl) == SignOutPath
  {
    assert SignOutUrl[..16] == SignOutPath;
    PathOfAt(SignOutUrl, 16);
  }

  /** The sign-out endpoint's path contains the sign-out marker. */
  lemma SignOutPathMarked()
    ensures Contains(SignOutPath, SignOutMarker)
  {
    assert SignOutPath[9..16] == SignOutMarker;
    ContainsIff(SignOutPath, SignOutMarker);
    assert OccursAt(SignOutPath, SignOutMarker, 9);
  }

  /**
   No redirect loop: when the guard redirects, the request that follows the
   redirect, from the same principal or any other, passes the guard.
   */
  lemma NoRedirectLoop(context: Option<HttpContext>, follow: HttpContext)
    requires InvokeAsync(context).Redirect?
    requires follow.path == PathOf(InvokeAsync(context).location)
    ensures InvokeAsync(Some(follow)) == Next(Some(follow))
  {
    SignOutTargetPath();
    SignOutPathMarked();
  }

  /**
   An authenticated user without a company claim asking for the account
   index is signed out; the same user asking for the sign-out page gets it.
   */
  lemma SignOutScenario(principal: Principal)
    requires principal.identity == Some(Identity(true))
    requires forall k | 0 <= k < |principal.claims| :: principal.claims[k].claimType != CompanyClaimType
    ensures InvokeAsync(Some(HttpContext(Some(principal), "/Account/Index"))) == Redirect(SignOutUrl)
    ensures InvokeAsync(Some(HttpContext(Some(principal), "/Account/SignOut")))
         == Next(Some(HttpContext(Some(principal), "/Account/SignOut")))
  {
    AbsentFirstChar("/Account/Index", SignOutMarker);
    SignOutPathMarked();
  }
}
