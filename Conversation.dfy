/**
  The values the conversation view (`Message` in
  apps/web/src/components/Messages/Message.tsx) derives from its inputs before
  rendering: the not-found guard, the loading flag, the page title and the
  composer's disabled flag.
*/
module Conversation {
  import opened Js
  import opened Pagination

  /** The profile fields the view reads. */
  datatype Profile = Profile(id: string, name: Option<string>, handle: Option<string>)

  /** The card body: the loader, or the thread with the props handed to its children. */
  datatype Body =
    | Loading
    | Thread(conversationKey: string, messages: seq<Msg>, hasMore: bool,
             listMissingXmtpAuth: bool, disabledInput: bool)

  /** What the view renders. */
  datatype View = NotFound | Page(title: string, body: Body)

  /** The bullet that separates the user name from the application name in the title. */
  const Separator: string := " \U{2022} "

  /** `profile?.field`: nothing when the profile itself is missing. */
  function ProfileName(profile: Option<Profile>): Option<string> {
    if profile.Some? then profile.value.name else None
  }

  function ProfileHandle(profile: Option<Profile>): Option<string> {
    if profile.Some? then profile.value.handle else None
  }

  /** `showLoading`: the auth credential is not missing and no profile is signed in. */
  predicate ShowLoading(missingXmtpAuth: Option<bool>, currentProfile: Option<Profile>)
    // never with a signed-in profile, and never when the credential is known to be missing
    ensures currentProfile.Some? ==> !ShowLoading(missingXmtpAuth, currentProfile)
    ensures missingXmtpAuth == Some(true) ==> !ShowLoading(missingXmtpAuth, currentProfile)
  {
    !missingXmtpAuth.GetOr(false) && currentProfile.None?
  }

  /** `sanitizeDisplayName(profile?.name) ?? formatHandle(profile?.handle)` */
  function UserNameForTitle(profile: Option<Profile>,
                            sanitizeDisplayName: Option<string> -> Option<string>,
                            formatHandle: Option<string> -> Option<string>): (r: Option<string>)
    // a defined display name wins, even an empty one; the handle is used only when it is nullish
    ensures sanitizeDisplayName(ProfileName(profile)).Some? ==> r == sanitizeDisplayName(ProfileName(profile))
    ensures sanitizeDisplayName(ProfileName(profile)).None? ==> r == formatHandle(ProfileHandle(profile))
    ensures Truthy(r) <==> Truthy(sanitizeDisplayName(ProfileName(profile)))
                           || (sanitizeDisplayName(ProfileName(profile)).None?
                               && Truthy(formatHandle(ProfileHandle(profile))))
  {
    Coalesce(sanitizeDisplayName(ProfileName(profile)), formatHandle(ProfileHandle(profile)))
  }

  /** The page title: the user name and the application name, or the application name alone. */
  function Title(userName: Option<string>, appName: string): (r: string)
    ensures r == appName <==> !Truthy(userName)
    ensures Truthy(userName) ==> |r| == |userName.value| + |Separator| + |appName|
    // the user name comes first, then the separator and the application name
    ensures Truthy(userName) ==> userName.value <= r && r[|userName.value|..] == Separator + appName
  {
    if Truthy(userName) then
      assert (userName.value + Separator + appName)[|userName.value|..] == Separator + appName;
      userName.value + Separator + appName
    else appName
  }

  /**
    The conversation view. Collaborators are parameters: the signed-in profile,
    the counterpart profile, the loaded page and the auth flag come from hooks;
    sanitizeDisplayName, formatHandle and the application name from shared code.
  */
  function Message(conversationKey: string, currentProfile: Option<Profile>, profile: Option<Profile>,
                   messages: Option<seq<Msg>>, hasMore: bool, missingXmtpAuth: Option<bool>,
                   appName: string,
                   sanitizeDisplayName: Option<string> -> Option<string>,
                   formatHandle: Option<string> -> Option<string>): (r: View)
    // the view needs a signed-in profile
    ensures r.NotFound? <==> currentProfile.None?
    // once past that guard the loader is never shown
    ensures r.Page? ==> r.body.Thread?
    // the title names the counterpart when a display name or handle is available
    ensures r.Page? ==> (r.title == appName <==> !Truthy(UserNameForTitle(profile, sanitizeDisplayName, formatHandle)))
    ensures r.Page? && Truthy(sanitizeDisplayName(ProfileName(profile)))
            ==> r.title == sanitizeDisplayName(ProfileName(profile)).value + Separator + appName
    // ... and otherwise the handle, when the display name is nullish and the handle truthy
    ensures r.Page? && sanitizeDisplayName(ProfileName(profile)).None? && Truthy(formatHandle(ProfileHandle(profile)))
            ==> r.title == formatHandle(ProfileHandle(profile)).value + Separator + appName
    // the composer is disabled exactly when the messaging credential is known to be missing
    ensures r.Page? ==> (r.body.disabledInput <==> missingXmtpAuth == Some(true))
    ensures r.Page? ==> r.body.listMissingXmtpAuth == r.body.disabledInput
    // the children get this conversation, its loaded page (or none) and the hasMore flag
    ensures r.Page? ==> r.body.conversationKey == conversationKey && r.body.hasMore == hasMore
    ensures r.Page? ==> r.body.messages == (if messages.Some? then messages.value else [])
  {
    if currentProfile.None? then NotFound
    else
      var userNameForTitle := UserNameForTitle(profile, sanitizeDisplayName, formatHandle);
      var title := Title(userNameForTitle, appName);
      if ShowLoading(missingXmtpAuth, currentProfile) then Page(title, Loading)
      else
        Page(title, Thread(conversationKey, messages.GetOr([]), hasMore,
                           missingXmtpAuth.GetOr(false), missingXmtpAuth.GetOr(false)))
  }

  /**
    `??` falls through only on null or undefined: a display name that sanitizes
    to the empty string hides a truthy handle, and the title is the application
    name alone.
  */
  lemma EmptyDisplayNameHidesHandle(conversationKey: string, currentProfile: Profile, profile: Profile,
                                    messages: Option<seq<Msg>>, hasMore: bool, missingXmtpAuth: Option<bool>,
                                    appName: string,
                                    sanitizeDisplayName: Option<string> -> Option<string>,
                                    formatHandle: Option<string> -> Option<string>)
    requires sanitizeDisplayName(profile.name) == Some("")
    requires Truthy(formatHandle(profile.handle))
    ensures Message(conversationKey, Some(currentProfile), Some(profile), messages, hasMore, missingXmtpAuth,
                    appName, sanitizeDisplayName, formatHandle).title == appName
  {
  }
}
