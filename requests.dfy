/**
 The request and response records the web layer hands to and receives from
 the user-directory façade. They carry no logic of their own.
 */
module Requests {
  import opened GraphModel

  /** A request to create a user; every field but the mobile phone is required. */
  datatype UserRequest = UserRequest(
    companyName: string,
    issuerAssignedId: string,  // the user's e-mail address
    displayName: string,
    password: string,
    mobilePhone: Option<string>)

  /** A request to set a new password; the e-mail is informational only. */
  datatype ResetPasswordRequest = ResetPasswordRequest(
    userId: string,
    password: string,
    email: string)

  /** One entry of the user list shown for a company. */
  datatype UserResponse = UserResponse(
    id: Option<string>,
    displayName: Option<string>,
    email: Option<string>,
    companyName: Option<string>,
    onPremisesExtensionAttributes: Option<ExtensionAttributes>,
    mobilePhone: Option<string>)
}
