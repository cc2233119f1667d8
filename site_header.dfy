/** The site header: the avatar initials and the choice between the sign-in
    link and the user menu. The session's user is an input. Characters stand
    for the string's code units; upper-casing is ASCII only. */
module SiteHeader {
  import opened Js

  /** The session user as the header reads it. */
  datatype HeaderUser = HeaderUser(name: Option<string>, email: Option<string>, image: Option<string>)

  /** `pieces.map(n => n[0]).join("")`: the first character of each piece; an
      empty piece yields `undefined`, which `join` writes as nothing. */
  function FirstChars(pieces: seq<string>): (s: string)
    ensures |s| <= |pieces|
  {
    if pieces == [] then ""
    else (if pieces[0] == "" then "" else [pieces[0][0]]) + FirstChars(pieces[1..])
  }

  /** Every character `FirstChars` yields begins one of the pieces. */
  lemma {:induction false} FirstCharsBeginPieces(pieces: seq<string>)
    ensures forall c :: c in FirstChars(pieces) ==> exists p :: p in pieces && p != "" && p[0] == c
  {
    if pieces != [] {
      FirstCharsBeginPieces(pieces[1..]);
      assert forall p :: p in pieces[1..] ==> p in pieces;
    }
  }

  /** `name.split(" ").map(n => n[0]).join("")` */
  function WordInitials(name: string): (r: string)
    ensures ' ' !in r
  {
    var pieces := Split(name, ' ');
    FirstCharsBeginPieces(pieces);
    assert forall p :: p in pieces ==> ' ' !in p by {
      forall p | p in pieces ensures ' ' !in p {
        var k :| 0 <= k < |pieces| && pieces[k] == p;
      }
    }
    FirstChars(pieces)
  }

  /** Reference definition: the characters of `s` that begin a word, that is
      are not a space and follow a space or the start (`atStart`). */
  function WordStarts(s: string, atStart: bool): (r: string)
    ensures |r| <= |s|
    ensures ' ' !in r
  {
    if s == [] then ""
    else if s[0] == ' ' then WordStarts(s[1..], true)
    else (if atStart then [s[0]] else "") + WordStarts(s[1..], false)
  }

  /** The split-map-join chain takes exactly the first character of every word,
      in order; runs of spaces contribute nothing. */
  lemma {:induction false} WordInitialsAreWordStarts(s: string)
    ensures WordInitials(s) == WordStarts(s, true)
    ensures FirstChars(Split(s, ' ')[1..]) == WordStarts(s, false)
  {
    if s != [] {
      var rest := Split(s[1..], ' ');
      WordInitialsAreWordStarts(s[1..]);
      if s[0] == ' ' {
        assert Split(s, ' ') == [""] + rest;
        assert ([""] + rest)[1..] == rest;
      } else {
        var pieces := [[s[0]] + rest[0]] + rest[1..];
        assert Split(s, ' ') == pieces;
        assert pieces[1..] == rest[1..];
        assert pieces[0][0] == s[0];
      }
    }
  }

  /** The avatar initials: for a truthy name, the word initials upper-cased
      and cut to two characters; otherwise "AI". */
  function Initials(name: Option<string>): (r: string)
    ensures |r| <= 2
    ensures forall k :: 0 <= k < |r| ==> !IsLower(r[k])
    ensures !Truthy(name) ==> r == "AI"
  {
    if Truthy(name) then
      var up := Upper(WordInitials(name.value));
      up[..if |up| < 2 then |up| else 2]
    else "AI"
  }

  /** For a truthy name the initials are the first one or two word starts,
      upper-cased. */
  lemma InitialsOfWords(name: string)
    requires name != ""
    ensures var starts := Upper(WordStarts(name, true));
      Initials(Some(name)) == starts[..if |starts| < 2 then |starts| else 2]
  {
    WordInitialsAreWordStarts(name);
  }

  /** Example: extra spaces are skipped and only two initials are kept. */
  lemma InitialsExample()
    ensures Initials(Some("al  b c")) == "AB"
  {
    InitialsOfWords("al  b c");
    WordStartsExample();
    assert Upper("abc")[..2] == "AB";
  }

  lemma WordStartsExample()
    ensures WordStarts("al  b c", true) == "abc"
  {
    assert WordStarts("c", true) == "c";
    assert WordStarts(" c", false) == "c";
    assert WordStarts("b c", true) == "bc";
    assert WordStarts(" b c", true) == "bc";
    assert WordStarts("  b c", false) == "bc";
    assert WordStarts("l  b c", false) == "bc";
  }

  /** What the right-hand side of the header shows. */
  datatype HeaderView =
    | SignInLink(href: string)
    | UserMenu(initials: string, imageSrc: string, imageAlt: string, name: Option<string>, email: Option<string>)

  function ViewFor(user: Option<HeaderUser>): (v: HeaderView)
    ensures user.None? <==> v == SignInLink("/sign-in")
    ensures user.Some? ==> v.UserMenu? && v.name == user.value.name && v.email == user.value.email
    ensures user.Some? ==> v.initials == Initials(user.value.name)
    ensures user.Some? ==> (v.imageSrc == "" <==> !Truthy(user.value.image))
  {
    match user
    case None => SignInLink("/sign-in")
    case Some(u) =>
      UserMenu(Initials(u.name),
               if Truthy(u.image) then u.image.value else "",
               if Truthy(u.name) then u.name.value else "User",
               u.name, u.email)
  }
}
