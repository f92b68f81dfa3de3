/**
 The values the user-directory façade exchanges with the remote directory API,
 and the way a remote call ends: it returns a value or it throws.

 Every reference-typed property of the directory's user record may be null,
 so each is an `Option`. The remote calls themselves are not performed: a
 `GraphClient` is a record of functions, one per endpoint, that give the
 outcome of each call, and the façade is modelled against any such client.
 */
module GraphModel {

  datatype Option<+T> = None | Some(value: T)

  /** The exceptions the modelled code can raise or let through. */
  datatype Exception =
    | RemoteError(message: string)  // anything the directory API or its transport throws
    | NullReference                 // a member access on null
    | ArgumentNull                  // a LINQ operator applied to a null sequence

  /** How a call ends: normally with a value, or abruptly with an exception. */
  datatype Completion<+T> = Returned(value: T) | Threw(ex: Exception)

  /** A sign-in credential bound to a directory user. */
  datatype ObjectIdentity = ObjectIdentity(
    signInType: Option<string>,
    issuer: Option<string>,
    issuerAssignedId: Option<string>)

  /** The on-premises extension attributes; the façade only ever writes the first. */
  datatype ExtensionAttributes = ExtensionAttributes(extensionAttribute1: Option<string>)

  datatype PasswordProfile = PasswordProfile(
    password: Option<string>,
    forceChangePasswordNextSignIn: Option<bool>)

  /** The directory's user record, used both for payloads sent and for users fetched. */
  datatype GraphUser = GraphUser(
    id: Option<string>,
    accountEnabled: Option<bool>,
    displayName: Option<string>,
    mobilePhone: Option<string>,
    companyName: Option<string>,
    identities: Option<seq<ObjectIdentity>>,
    onPremisesExtensionAttributes: Option<ExtensionAttributes>,
    passwordProfile: Option<PasswordProfile>,
    passwordPolicies: Option<string>)

  /** A user record with no property set. */
  const BlankUser := GraphUser(None, None, None, None, None, None, None, None, None)

  /**
   The outcome of each remote endpoint the façade calls:
   - `post`: create a user from a payload; the created record (possibly null);
   - `delete`: delete the user with the given id;
   - `list`: list users, with an optional selection of properties; the page's
     `Value` (possibly null);
   - `patch`: partially update the user with the given id.
   */
  datatype GraphClient = GraphClient(
    post: GraphUser -> Completion<Option<GraphUser>>,
    delete: string -> Completion<()>,
    list: Option<seq<string>> -> Completion<Option<seq<GraphUser>>>,
    patch: (string, GraphUser) -> Completion<()>)
}
