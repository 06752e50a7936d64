/** The site header of src/components/layout/header.tsx: which navigation
    links a visitor sees, which link is highlighted, and the avatar image and
    initials shown for the signed-in user. The profile comes from the user
    context; the session from the session hook (`isPending` while it loads). */
module Header {
  import opened Common
  import Text
  import Middleware
  import UserContext

  datatype NavItem = NavItem(title: string, href: string)

  const AdminItems: seq<NavItem> := [
    NavItem("My Control", "/admin/control-room"),
    NavItem("Post Approval", "/admin/post-approval")
  ]

  const TeacherItems: seq<NavItem> := [
    NavItem("lesson Note", "/community/lessonNote"),
    NavItem("scheme of work", "/community/schemeOfWork"),
    NavItem("Settings", "/profile-settings"),
    NavItem("Profile", "/community/profile"),
    NavItem("Notifications", "/notifications")
  ]

  /** `navItems`: nothing while the session loads or when nobody is signed
      in; the two admin pages for an admin; the five teacher pages otherwise. */
  function NavItems(isPending: bool, user: Option<User>): (r: seq<NavItem>)
    ensures r == [] <==> isPending || user.None?
    ensures !isPending && user.Some? && user.value.IsAdmin() ==>
              |r| == 2 && r[0].href == "/admin/control-room" && r[1].href == "/admin/post-approval"
    ensures !isPending && user.Some? && !user.value.IsAdmin() ==>
              |r| == 5 && r[0].href == "/community/lessonNote" && r[1].href == "/community/schemeOfWork"
              && r[2].href == "/profile-settings" && r[3].href == "/community/profile"
              && r[4].href == "/notifications"
  {
    if !isPending && user.Some? then
      if user.value.IsAdmin() then AdminItems else TeacherItems
    else []
  }

  /** The link highlight: the path equals the link's target exactly. */
  predicate IsActive(pathname: string, item: NavItem) {
    pathname == item.href
  }

  /** `avatarUrl`: the trimmed profile URL when that is non-empty, else the
      session image when that is non-empty, else the site logo. */
  function AvatarUrl(profile: Option<UserContext.ProfileData>, user: Option<User>): (r: string)
    ensures profile.Some? && profile.value.fileUrl.Some? && Text.Trim(profile.value.fileUrl.value) != "" ==>
              r == Text.Trim(profile.value.fileUrl.value)
    ensures (profile.None? || profile.value.fileUrl.None? || Text.Trim(profile.value.fileUrl.value) == "") ==>
              r == (if user.Some? && Truthy(user.value.image) then user.value.image.value else "/logo.jpg")
  {
    var fromProfile := if profile.Some? && profile.value.fileUrl.Some?
                       then Text.Trim(profile.value.fileUrl.value) else "";
    if fromProfile != "" then fromProfile
    else if user.Some? && Truthy(user.value.image) then user.value.image.value
    else "/logo.jpg"
  }

  /** The name the initials are taken from: `profile?.fullName || user?.name`. */
  function InitialsSource(profile: Option<UserContext.ProfileData>, user: Option<User>): (r: Option<string>)
    ensures r.Some? ==> r.value != ""
    ensures profile.Some? && profile.value.fullName != "" ==> r == Some(profile.value.fullName)
    ensures (profile.None? || profile.value.fullName == "") ==>
              r == (if user.Some? && Truthy(user.value.name) then user.value.name else None)
  {
    if profile.Some? && profile.value.fullName != "" then Some(profile.value.fullName)
    else if user.Some? && Truthy(user.value.name) then user.value.name
    else None
  }

  /** `initials`: the upper-cased word starts of the chosen name, or `U`. */
  function HeaderInitials(profile: Option<UserContext.ProfileData>, user: Option<User>): (r: string)
    ensures InitialsSource(profile, user).None? ==> r == "U"
    ensures InitialsSource(profile, user).Some? ==>
              r == Text.Upper(Text.WordStarts(InitialsSource(profile, user).value, true))
  {
    var name := InitialsSource(profile, user);
    if name.Some? then
      Text.InitialsAreWordStarts(name.value);
      Text.Initials(name.value)
    else "U"
  }

  // ---------------------------------------------------------------------
  // Properties of the header

  /** Every link the header offers leads to a page the request gate
      protects, so following one while signed out ends at the login page. */
  lemma NavItemsProtected(isPending: bool, user: Option<User>)
    ensures forall i :: 0 <= i < |NavItems(isPending, user)| ==>
              Middleware.IsProtected(NavItems(isPending, user)[i].href)
  {
    var r := NavItems(isPending, user);
    var p := Middleware.ProtectedPrefixes;
    forall i | 0 <= i < |r|
      ensures Middleware.IsProtected(r[i].href)
    {
      var k := if r[i].href == "/profile-settings" then 0
               else if r[i].href == "/admin/control-room" then 1
               else if r[i].href == "/admin/post-approval" then 2
               else if r[i].href == "/community/lessonNote" then 3
               else if r[i].href == "/community/schemeOfWork" then 4
               else if r[i].href == "/community/profile" then 5
               else 6;
      assert p[k] <= r[i].href;
    }
  }

  /** The targets are pairwise different, so at most one link is
      highlighted for any path. */
  lemma AtMostOneActive(isPending: bool, user: Option<User>, pathname: string, i: nat, j: nat)
    requires i < |NavItems(isPending, user)| && j < |NavItems(isPending, user)|
    requires IsActive(pathname, NavItems(isPending, user)[i]) && IsActive(pathname, NavItems(isPending, user)[j])
    ensures i == j
  {
  }

  /** The header always has an image to show. */
  lemma AvatarNeverEmpty(profile: Option<UserContext.ProfileData>, user: Option<User>)
    ensures AvatarUrl(profile, user) != ""
  {
  }

  /** Whoever calls `updateAvatarUrl` on the user context with a URL that is
      not blank, the header then shows that URL, trimmed. No component of
      this model makes that call; the profile card keeps its own copy. */
  lemma HeaderShowsUpdatedAvatar(p: UserContext.ProfileData, url: string, user: Option<User>)
    requires Text.Trim(url) != ""
    ensures AvatarUrl(UserContext.WithAvatar(Some(p), url), user) == Text.Trim(url)
  {
  }

  lemma {:induction false} SpacesHaveNoWordStarts(s: string, atStart: bool)
    requires forall i :: 0 <= i < |s| ==> s[i] == ' '
    ensures Text.WordStarts(s, atStart) == []
  {
    if s != [] {
      SpacesHaveNoWordStarts(s[1..], true);
    }
  }

  lemma {:induction false} NonSpaceGivesWordStart(s: string)
    requires exists i :: 0 <= i < |s| && s[i] != ' '
    ensures Text.WordStarts(s, true) != []
  {
    if s[0] == ' ' {
      var i :| 0 <= i < |s| && s[i] != ' ';
      assert s[1..][i - 1] == s[i];
      NonSpaceGivesWordStart(s[1..]);
    }
  }

  /** The initials are empty exactly when the chosen name is made of spaces
      alone; a missing name gives `U`. */
  lemma InitialsEmptyIffSpaces(profile: Option<UserContext.ProfileData>, user: Option<User>)
    ensures HeaderInitials(profile, user) == "" <==>
              InitialsSource(profile, user).Some?
              && forall i :: 0 <= i < |InitialsSource(profile, user).value| ==> InitialsSource(profile, user).value[i] == ' '
  {
    var name := InitialsSource(profile, user);
    if name.Some? {
      if forall i :: 0 <= i < |name.value| ==> name.value[i] == ' ' {
        SpacesHaveNoWordStarts(name.value, true);
      } else {
        NonSpaceGivesWordStart(name.value);
      }
    }
  }
}
