/** The authentication error page: the `error` query parameter (absent is
    `None`) chooses the message shown. */
module AuthError {
  import opened Js

  /** The value the message starts with before the `switch` runs. */
  const InitialMessage: string := "An error occurred during authentication"

  const UnknownMessage: string := "An unknown error occurred during authentication"

  /** The nine codes the page knows, in the order of the `switch`. */
  const KnownCodes: seq<string> := [
    "OAuthSignin", "OAuthCallback", "OAuthCreateAccount", "EmailCreateAccount", "Callback",
    "OAuthAccountNotLinked", "EmailSignin", "CredentialsSignin", "SessionRequired"]

  /** The message the `switch` leaves for a code. */
  function ErrorMessage(code: Option<string>): (message: string)
    ensures code.None? || code.value !in KnownCodes <==> message == UnknownMessage
    ensures message != InitialMessage
  {
    match code
    case None => UnknownMessage
    case Some(c) =>
      match c
      case "OAuthSignin" => "Error starting the OAuth sign-in process"
      case "OAuthCallback" => "Error during the OAuth callback"
      case "OAuthCreateAccount" => "Error creating a user account with OAuth"
      case "EmailCreateAccount" => "Error creating a user account with email"
      case "Callback" => "Error during the callback process"
      case "OAuthAccountNotLinked" => "This email is already associated with another account"
      case "EmailSignin" => "Error sending the email for sign-in"
      case "CredentialsSignin" => "Invalid email or password"
      case "SessionRequired" => "You must be signed in to access this page"
      case _ => UnknownMessage
  }

  /** The message of each known code, in the same order. */
  const KnownMessages: seq<string> := [
    "Error starting the OAuth sign-in process", "Error during the OAuth callback",
    "Error creating a user account with OAuth", "Error creating a user account with email",
    "Error during the callback process", "This email is already associated with another account",
    "Error sending the email for sign-in", "Invalid email or password",
    "You must be signed in to access this page"]

  /** Each known code shows its own message; failed credentials read
      "Invalid email or password". */
  lemma KnownCodeMessages(i: nat)
    requires i < |KnownCodes|
    ensures ErrorMessage(Some(KnownCodes[i])) == KnownMessages[i]
    ensures ErrorMessage(Some("CredentialsSignin")) == "Invalid email or password"
  {
    if i == 0 {} else if i == 1 {} else if i == 2 {} else if i == 3 {} else if i == 4 {}
    else if i == 5 {} else if i == 6 {} else if i == 7 {} else {}
  }
}
