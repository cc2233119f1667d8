/** The request gate that runs before every matched request. Whether the
    session carries a user is an input, and so is the outcome of the gate's own
    request to the profile-check endpoint: the `hasProfile` value of the JSON
    body, or a failure of the fetch or of parsing its body. */
module Middleware {
  import opened Js
  import opened ProfileCheck
  import Schema

  datatype Outcome = RedirectSignIn | RedirectHome | RedirectSetup | Continue

  datatype ProfileFetch = Fetched(hasProfile: Option<bool>) | FetchFailed

  const PublicPaths: seq<string> := ["/sign-in", "/sign-up", "/api/auth"]

  const ProfileSetupPath: string := "/setup"

  /** The endpoint the gate asks about the profile. */
  const ProfileCheckPath: string := "/api/profile/check"

  /** Public paths are matched by prefix. */
  predicate IsPublicPath(path: string) {
    exists prefix :: prefix in PublicPaths && StartsWith(path, prefix)
  }

  /** The sign-in and sign-up pages, again matched by prefix. */
  predicate IsAuthPage(path: string) {
    StartsWith(path, "/sign-in") || StartsWith(path, "/sign-up")
  }

  /** The setup page is matched by exact equality. */
  predicate IsProfileSetupPath(path: string) {
    path == ProfileSetupPath
  }

  /** Whether the gate asks the profile-check endpoint at all. */
  predicate ChecksProfile(path: string, signedIn: bool) {
    signedIn && !IsPublicPath(path) && !IsProfileSetupPath(path)
  }

  /** The gate's decision, evaluated in the source's order. */
  function Decide(path: string, signedIn: bool, fetch: ProfileFetch): (o: Outcome)
    ensures o == RedirectSignIn <==> !signedIn && !IsPublicPath(path)
    ensures o == RedirectHome <==> signedIn && IsAuthPage(path)
    ensures o == RedirectSetup <==> ChecksProfile(path, signedIn) && fetch.Fetched? && !IsTrue(fetch.hasProfile)
  {
    AuthPagesArePublic(path);
    if !signedIn && !IsPublicPath(path) then RedirectSignIn
    else if signedIn && IsAuthPage(path) then RedirectHome
    else if ChecksProfile(path, signedIn) && fetch.Fetched? && !IsTrue(fetch.hasProfile) then RedirectSetup
    else Continue
  }

  /** The path each redirect sends the browser to. */
  function Target(o: Outcome): string
    requires o != Continue
  {
    match o
    case RedirectSignIn => "/sign-in"
    case RedirectHome => "/"
    case RedirectSetup => ProfileSetupPath
  }

  lemma DiffersAt(path: string, prefix: string, k: nat)
    requires k < |path| && k < |prefix| && path[k] != prefix[k]
    ensures !StartsWith(path, prefix)
  {
  }

  lemma AuthPagesArePublic(path: string)
    ensures IsAuthPage(path) ==> IsPublicPath(path)
  {
    if StartsWith(path, "/sign-in") {
      assert "/sign-in" in PublicPaths;
    } else if StartsWith(path, "/sign-up") {
      assert "/sign-up" in PublicPaths;
    }
  }

  /** Without a session, every path outside the three public prefixes is sent
      to sign-in, whatever the profile state. */
  lemma SignedOutGated(path: string, fetch: ProfileFetch)
    requires !StartsWith(path, "/sign-in") && !StartsWith(path, "/sign-up") && !StartsWith(path, "/api/auth")
    ensures Decide(path, false, fetch) == RedirectSignIn
  {
  }

  /** Without a session, a public path continues and the profile is not asked. */
  lemma SignedOutPublicContinues(path: string, fetch: ProfileFetch)
    requires IsPublicPath(path)
    ensures Decide(path, false, fetch) == Continue
    ensures !ChecksProfile(path, false)
  {
  }

  /** With a session, the sign-in and sign-up pages redirect home before any
      profile check is made. */
  lemma SignedInAuthPageGoesHome(path: string, fetch: ProfileFetch)
    requires IsAuthPage(path)
    ensures Decide(path, true, fetch) == RedirectHome
    ensures !ChecksProfile(path, true)
  {
    AuthPagesArePublic(path);
  }

  /** With a session, the setup page itself always continues, whatever the
      profile state, including an already completed profile. */
  lemma SetupPageAlwaysContinues(fetch: ProfileFetch)
    ensures Decide(ProfileSetupPath, true, fetch) == Continue
    ensures !ChecksProfile(ProfileSetupPath, true)
  {
    assert !StartsWith(ProfileSetupPath, "/sign-in");
    assert !StartsWith(ProfileSetupPath, "/sign-up");
    assert !StartsWith(ProfileSetupPath, "/api/auth");
  }

  /** With a session, on a gated path a falsy `hasProfile` (false or null)
      redirects to setup, and a true one continues. */
  lemma GatedPathFollowsProfile(path: string, hasProfile: Option<bool>)
    requires ChecksProfile(path, true)
    ensures Decide(path, true, Fetched(hasProfile)) == (if IsTrue(hasProfile) then Continue else RedirectSetup)
  {
    AuthPagesArePublic(path);
  }

  /** A failing profile fetch never redirects to setup: the gate fails open. */
  lemma FetchFailureFailsOpen(path: string, signedIn: bool)
    ensures Decide(path, signedIn, FetchFailed) != RedirectSetup
    ensures ChecksProfile(path, signedIn) ==> Decide(path, signedIn, FetchFailed) == Continue
  {
    AuthPagesArePublic(path);
  }

  /** Where the gate does not ask about the profile, the answer cannot matter. */
  lemma UncheckedPathIgnoresProfile(path: string, signedIn: bool, f: ProfileFetch, g: ProfileFetch)
    requires !ChecksProfile(path, signedIn)
    ensures Decide(path, signedIn, f) == Decide(path, signedIn, g)
    ensures Decide(path, signedIn, f) != RedirectSetup
  {
  }

  /** Prefix matching makes "/sign-inX" and "/api/authfoo" public, while the
      exact match on the setup page leaves "/setup/x" gated. */
  lemma PrefixMatchingExamples()
    ensures IsPublicPath("/sign-inX") && IsPublicPath("/api/authfoo")
    ensures ChecksProfile("/setup/x", true)
  {
    assert "/sign-inX"[..8] == "/sign-in";
    assert "/sign-in" in PublicPaths;
    assert "/api/authfoo"[..9] == "/api/auth";
    assert "/api/auth" in PublicPaths;
    forall prefix | prefix in PublicPaths ensures !StartsWith("/setup/x", prefix) {
      DiffersAt("/setup/x", prefix, if prefix == "/api/auth" then 1 else 2);
    }
  }

  /** A redirect never sends the browser to a path that makes the same redirect
      again, for any session state it is evaluated with. */
  lemma NoImmediateRedirectLoop(o: Outcome, signedIn: bool, fetch: ProfileFetch)
    requires o != Continue
    ensures Decide(Target(o), signedIn, fetch) != o
  {
    match o
    case RedirectSignIn =>
      assert "/sign-in" in PublicPaths && StartsWith("/sign-in", "/sign-in");
    case RedirectHome =>
      assert !StartsWith("/", "/sign-in") && !StartsWith("/", "/sign-up");
    case RedirectSetup =>
  }

  /** The gate's own request to the profile-check endpoint is itself a gated
      path: with a session, a request to it makes the gate ask again. */
  lemma ProfileCheckPathIsGated()
    ensures ChecksProfile(ProfileCheckPath, true)
  {
    forall prefix | prefix in PublicPaths ensures !StartsWith(ProfileCheckPath, prefix) {
      DiffersAt(ProfileCheckPath, prefix, if prefix == "/api/auth" then 5 else 1);
    }
  }

  /** The gate composed with the profile-check endpoint: a signed-in user on a
      gated path continues exactly when the endpoint finds a first profile row
      of the user marked completed; no session id on the endpoint's side (401)
      and a failing query (500) both send the user to setup. */
  lemma GateOverProfileCheck(path: string, sessionUserId: Option<string>,
                             rows: seq<Schema.StudentProfile>, queryFails: bool)
    requires ChecksProfile(path, true)
    ensures var answer := CheckProfile(sessionUserId, rows, queryFails);
      Decide(path, true, Fetched(answer.hasProfile)) == Continue <==>
        answer.status == 200 && ProfileOf(rows, sessionUserId.value).Some?
        && ProfileOf(rows, sessionUserId.value).value.isCompleted == Some(true)
    ensures var answer := CheckProfile(sessionUserId, rows, queryFails);
      answer.status != 200 ==> Decide(path, true, Fetched(answer.hasProfile)) == RedirectSetup
  {
    GatedPathFollowsProfile(path, CheckProfile(sessionUserId, rows, queryFails).hasProfile);
  }
}
