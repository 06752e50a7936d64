/** The client-side profile store of src/context/user.context.tsx: a provider
    holding the signed-in teacher's name and avatar URL, which the header
    reads, and the `useUser` hook that finds it. A React state update is
    modelled as taking effect at once. */
module UserContext {
  import opened Common

  /** A non-null `ProfileData`; the store holds `Option<ProfileData>`. */
  datatype ProfileData = ProfileData(fullName: string, fileUrl: Option<string>)

  /** What `updateAvatarUrl(url)` makes of a profile: a present profile gets
      the new URL and keeps its name; an absent one stays absent. */
  function WithAvatar(p: Option<ProfileData>, url: string): (r: Option<ProfileData>)
    ensures r.Some? <==> p.Some?
    ensures r.Some? ==> r.value.fullName == p.value.fullName && r.value.fileUrl == Some(url)
  {
    match p
    case None => None
    case Some(d) => Some(d.(fileUrl := Some(url)))
  }

  class Provider {
    var profile: Option<ProfileData>

    /** `useState(initialData)`. */
    constructor (initialData: Option<ProfileData>)
      ensures profile == initialData
    {
      profile := initialData;
    }

    /** `setProfile`: replaces the whole profile, `null` included. */
    method SetProfile(data: Option<ProfileData>)
      modifies this
      ensures profile == data
    {
      profile := data;
    }

    /** `updateAvatarUrl`: only a present profile is touched. */
    method UpdateAvatarUrl(newUrl: string)
      modifies this
      ensures profile == WithAvatar(old(profile), newUrl)
    {
      if profile.Some? {
        profile := Some(profile.value.(fileUrl := Some(newUrl)));
      }
    }
  }

  const OutsideProviderMessage: string := "useUser must be used within a UserProvider"

  /** The result of `useUser`: the provider's value, or the error it throws. */
  datatype Hook = Found(provider: Provider) | Thrown(message: string)

  /** `useUser`: `context` is the nearest enclosing provider, if any. */
  function UseUser(context: Option<Provider>): (r: Hook)
    ensures r.Thrown? <==> context.None?
    ensures r.Thrown? ==> r.message == OutsideProviderMessage
    ensures r.Found? ==> r.provider == context.value
  {
    if context.None? then Thrown(OutsideProviderMessage) else Found(context.value)
  }

  /** Only the last avatar update counts. */
  lemma LastAvatarWins(p: Option<ProfileData>, a: string, b: string)
    ensures WithAvatar(WithAvatar(p, a), b) == WithAvatar(p, b)
  {
  }
}
