# B2C user administration: façade and post-authentication guard

This project models the two pieces of local logic in a small web front-end
that administers the users of a B2C identity directory through the Microsoft
Graph API:

- **the user-directory façade** (`UserService`): it creates a user from a
  request, deletes a user, lists the users of one company, and resets a
  password. Each remote Graph call is an input of the model. A `GraphClient`
  value holds one function per endpoint (post, delete, list, patch), and each
  function gives the call's `Completion`: it returned a value or it threw an
  exception. The façade is proved correct against every such client.
- **the post-authentication guard** (`AfterAuthenticationMiddleware`): a
  pipeline stage that redirects an authenticated user who has no
  `extension_Company` claim to `/Account/SignOut?error=401`, unless the
  request path already contains `SignOut`. Every other request goes on to the
  next stage.

Files:

- `graph_model.dfy` (module `GraphModel`): `Option`, the exceptions, the
  `Completion` of a call, the directory's user record (every property
  nullable), and `GraphClient`.
- `requests.dfy` (module `Requests`): the create and reset request records
  and the list entry record.
- `user_service.dfy` (module `UserService`): the façade. The listing is a
  method with a loop, as in the source. It is proved equal to the
  specification function `UsersOfCompany`, and lemmas state the properties of
  that function.
- `after_authentication.dfy` (module `AfterAuthentication`): the guard, as a
  function returning `Redirect(url)` or `Next(context)`.

C# exceptions are modelled explicitly rather than excluded by preconditions:

- a remote call that throws ends the listing and the creation with that
  exception, and ends delete and reset with `false`;
- listing for a non-null company when the response page's `Value` is null
  throws `NullReference`, because the `foreach` runs over null;
- a user of the company whose `Identities` is null throws `ArgumentNull`,
  because `FirstOrDefault` is called on null;
- a user of the company whose `Identities` is empty throws `NullReference`,
  because `FirstOrDefault()` yields null and its `IssuerAssignedId` is read.

The design describes the listing as returning nothing for an *empty* company.
The code (`UserService.cs:93`) instead tests for a *null* company, and it
compares an empty string literally like any other name. The model follows
the code: `ListByCompany(None, _)` is empty, and `EmptyCompanyIsLiteral`
shows that `""` is not a wildcard.

## Model

| member | source | states |
|---|---|---|
| `UserService.CreatePayload` | WebApplication1/Application/Implementation/UserService.cs:28-55 | the creation payload: account enabled; exactly one identity, of sign-in type `emailAddress`, issuer the configured domain and id the request's e-mail; display name, phone and company copied from the request; extension attribute 1 is the user role; the request password with no forced change; policy `DisablePasswordExpiration`; no id |
| `UserService.CreateUser` | WebApplication1/Application/Implementation/UserService.cs:22-65 | creation rethrows: it throws exactly when the remote post of the payload throws, with the same exception, and otherwise returns the created record |
| `UserService.Succeeded` | WebApplication1/Application/Implementation/UserService.cs:134-142 | the catch-all of delete and reset: it always returns normally, and returns true exactly when the remote call returned |
| `UserService.DeleteUser` | WebApplication1/Application/Implementation/UserService.cs:67-80 | delete never throws, and returns true exactly when the remote delete of that id returned |
| `UserService.ResetPayload` | WebApplication1/Application/Implementation/UserService.cs:125-133 | the reset payload sets the new password with no forced change and the policy `DisablePasswordExpiration`, and leaves every other property null |
| `UserService.ResetPassword` | WebApplication1/Application/Implementation/UserService.cs:117-143 | reset never throws, and returns true exactly when the remote patch of `model.UserId` with the reset payload returned |
| `UserService.FailurePolicies` | WebApplication1/Application/Implementation/UserService.cs:61-79 | for the same remote exception, delete and reset return false while create throws that exception |
| `UserService.ApplyPatch` | WebApplication1/Application/Implementation/UserService.cs:134 | the directory's partial update: properties set in the payload replace the stored ones, null ones keep them; an empty payload changes nothing |
| `UserService.ResetChangesOnlyPassword` | WebApplication1/Application/Implementation/UserService.cs:125-134 | applying the reset payload to any stored user changes its password profile and password policy and nothing else |
| `UserService.ResetOfCreatedUser` | WebApplication1/Application/Implementation/UserService.cs:44-53 | resetting a created user's password gives the account it would have had if created with the new password, so the profile and policy set at creation are kept |
| `UserService.ToResponse` | WebApplication1/Application/Implementation/UserService.cs:99-109 | a list entry can be built exactly when the user has a first identity. The entry copies id, display name, company, extension attributes and phone, and takes its e-mail from the first identity. A null identity list throws `ArgumentNull`; an empty one throws `NullReference` |
| `UserService.FilterByCompany` | WebApplication1/Application/Implementation/UserService.cs:95-112 | a successful listing is never longer than the fetched list, and every entry's company is the requested one |
| `UserService.ListByCompany` | WebApplication1/Application/Implementation/UserService.cs:92-114 | a null company lists nobody, whatever was fetched; for a non-null company, a null page throws `NullReference` and a page is filtered |
| `UserService.UsersOfCompany` | WebApplication1/Application/Implementation/UserService.cs:84-114 | the discarded unfiltered list call and then the selected-properties list call each end the listing with their exception if they throw; otherwise the listing is that of the fetched page |
| `UserService.GetUsers` | WebApplication1/Application/Implementation/UserService.cs:82-115 | the loop that appends one entry per user of the company returns exactly `UsersOfCompany`, including stopping at the first faulting user |
| `UserService.ThrowPersists` | WebApplication1/Application/Implementation/UserService.cs:95-112 | once a prefix of the fetched users throws, the whole listing throws the same exception |
| `UserService.FilterSucceedsIff` | WebApplication1/Application/Implementation/UserService.cs:97-103 | the listing succeeds if and only if every fetched user of the company has a first identity |
| `UserService.FilterFailsAtFirst` | WebApplication1/Application/Implementation/UserService.cs:95-112 | a failing listing throws the exception of the first user of the company that has no first identity; all earlier users of the company have one |
| `UserService.FilterSelectsInOrder` | WebApplication1/Application/Implementation/UserService.cs:93-112 | a successful listing has one entry per user of the company, in fetched order: a strictly increasing list of positions covers every user of the company, and entry k is built from the user at position k of that list |
| `UserService.EmptyCompanyIsLiteral` | WebApplication1/Application/Implementation/UserService.cs:93-97 | the empty company name is matched literally: if no user has it, the listing for it is empty |
| `UserService.TwoOfThreeListed` | WebApplication1/Application/Implementation/UserService.cs:95-112 | of three fetched users where the first and last belong to the company, exactly those two are listed, in order |
| `UserService.CreatedUserIsListed` | WebApplication1/Application/Implementation/UserService.cs:99-107 | a created user, once given an id, is listed for its company with the request's e-mail, name, company and phone and with the role tag |
| `AfterAuthentication.ContainsIff` | WebApplication1/Middlewares/AfterAuthenticationMiddleware.cs:21 | the substring test holds exactly when the fragment occurs at some position |
| `AfterAuthentication.AbsentFirstChar` | WebApplication1/Middlewares/AfterAuthenticationMiddleware.cs:21 | a string without the fragment's first character does not contain the fragment |
| `AfterAuthentication.InvokeAsync` | WebApplication1/Middlewares/AfterAuthenticationMiddleware.cs:17-30 | the guard redirects exactly when the context is present, the principal is authenticated, has no company claim, and the path does not contain `SignOut`. A redirect goes to `/Account/SignOut?error=401`; otherwise `next` receives the same context. Each call does exactly one of the two |
| `AfterAuthentication.UnauthenticatedPasses` | WebApplication1/Middlewares/AfterAuthenticationMiddleware.cs:20-28 | a null context, or a request whose principal, identity or authentication flag is missing or false, reaches `next` |
| `AfterAuthentication.CompanyClaimPasses` | WebApplication1/Middlewares/AfterAuthenticationMiddleware.cs:20-28 | any `extension_Company` claim, whatever its value, lets the request reach `next` |
| `AfterAuthentication.SignOutPathPasses` | WebApplication1/Middlewares/AfterAuthenticationMiddleware.cs:21-28 | a path with `SignOut` at any position reaches `next` |
| `AfterAuthentication.PathOf` | WebApplication1/Middlewares/AfterAuthenticationMiddleware.cs:23 | the path part of a URL is a prefix of it without `?` |
| `AfterAuthentication.PathOfAt` | WebApplication1/Middlewares/AfterAuthenticationMiddleware.cs:23 | the path part of a URL is everything before its first `?` |
| `AfterAuthentication.SignOutTargetPath` | WebApplication1/Middlewares/AfterAuthenticationMiddleware.cs:23 | the redirect target's path is `/Account/SignOut` |
| `AfterAuthentication.SignOutPathMarked` | WebApplication1/Middlewares/AfterAuthenticationMiddleware.cs:21-23 | the redirect target's path contains `SignOut` |
| `AfterAuthentication.NoRedirectLoop` | WebApplication1/Middlewares/AfterAuthenticationMiddleware.cs:20-28 | no redirect loop: the request that follows a redirect, whoever sends it, reaches `next` |
| `AfterAuthentication.SignOutScenario` | WebApplication1/Middlewares/AfterAuthenticationMiddleware.cs:20-28 | an authenticated user with no company claim is redirected from `/Account/Index` and let through to `/Account/SignOut` |

## Left out

- Building the Graph client (`GraphService.cs`): it only builds SDK credential objects. The model assumes building the client always succeeds.
- Asynchrony and the Graph SDK itself: the remote calls are the `GraphClient` functions, so any remote behaviour is allowed.
- Paging: the source reads only the first page of the user list. The model's `list` function gives that page as it is.
- `ApplyPatch` is the directory's documented partial-update behaviour. The façade never runs it. It is there only to state what the reset payload does to a stored user.
- The value of the user-role constant and password generation are not shown in the source. The role is the `userRole` input; generation is not modelled.
- Request validation (`[Required]`) is done by the web framework's model binder. The request records' non-nullable strings are taken as non-null.
- A null request `Path.Value` is not modelled, and neither is a null element in a user's identity list. Both would throw in the source; paths and identities here are always present.
- Only the first of the fifteen on-premises extension attributes is modelled. The listing copies the whole attribute object, so nothing depends on the others.
- `CreateUser` does not model that `throw ex` resets the exception's stack trace. It keeps only the exception itself.
- The controllers, the pipeline setup in `Program.cs` and the `IUserService` interface are framework glue with no logic of their own.
