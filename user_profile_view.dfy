/** The client-side profile card: which view the session status selects and
    the avatar fallback text. The session and its status are inputs. */
module UserProfileView {
  import opened Js
  import SiteHeader

  datatype SessionStatus = Loading | Authenticated | Unauthenticated

  datatype ProfileUser = ProfileUser(name: Option<string>, email: Option<string>, image: Option<string>)

  /** The client session; its `user` may be absent. */
  datatype ClientSession = ClientSession(user: Option<ProfileUser>)

  datatype View =
    | LoadingView
    | NotSignedInView(signInHref: string)
    | ProfileCard(name: Option<string>, email: Option<string>, imageSrc: Option<string>, fallback: string,
                  signOutHref: string)

  /** The avatar fallback: the first character of every space-separated piece,
      neither upper-cased nor cut short; "U" without a name. */
  function Fallback(user: Option<ProfileUser>): (r: string)
    ensures user.None? || !Truthy(user.value.name) ==> r == "U"
    ensures user.Some? && Truthy(user.value.name) ==> r == SiteHeader.WordStarts(user.value.name.value, true)
  {
    if user.Some? && Truthy(user.value.name) then
      SiteHeader.WordInitialsAreWordStarts(user.value.name.value);
      SiteHeader.WordInitials(user.value.name.value)
    else "U"
  }

  /** The view the component renders, checked in the source's order. */
  function Select(status: SessionStatus, session: Option<ClientSession>): (v: View)
    ensures v.LoadingView? <==> status == Loading
    ensures v.NotSignedInView? <==> status != Loading && (status == Unauthenticated || session.None?)
    ensures v.NotSignedInView? ==> v.signInHref == "/auth/signin"
    ensures v.ProfileCard? ==> session.Some? && v.fallback == Fallback(session.value.user)
    ensures v.ProfileCard? ==> (v.imageSrc.Some? <==> session.value.user.Some? && Truthy(session.value.user.value.image))
  {
    if status == Loading then LoadingView
    else if status == Unauthenticated || session.None? then NotSignedInView("/auth/signin")
    else
      var user := session.value.user;
      ProfileCard(
        if user.Some? then user.value.name else None,
        if user.Some? then user.value.email else None,
        if user.Some? && Truthy(user.value.image) then user.value.image else None,
        Fallback(user),
        "/auth/signout")
  }

  /** The header's initials are the card's fallback upper-cased and cut to two
      characters, for every truthy name. */
  lemma HeaderInitialsFromFallback(user: ProfileUser)
    requires Truthy(user.name)
    ensures var f := Upper(Fallback(Some(user)));
      SiteHeader.Initials(user.name) == f[..if |f| < 2 then |f| else 2]
  {
    SiteHeader.InitialsOfWords(user.name.value);
  }
}
