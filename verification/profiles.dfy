/** Creating a profile on first sign-in (src/lib/server/profiles.ts). The
    profiles table is a map from user id; whether the lookup or the insert
    fails is a parameter. */
module Profiles {
  import opened Wrappers
  import opened Strings
  import opened Js

  /** The signed-in user: id, email (None when undefined or null) and the
      `user_metadata` object. */
  datatype AuthUser = AuthUser(id: string, email: Option<string>, metadata: Json)

  /** A row of `profiles`; None is a null column. */
  datatype Profile = Profile(displayName: string, fullName: Option<string>, avatarUrl: Option<string>, email: Option<string>)

  type ProfileTable = map<string, Profile>

  /** `metadata?.[key]?.toString()`: None is undefined, which a missing key,
      a null value or null metadata all give. */
  function MetaString(metadata: Json, key: string): (r: Option<string>)
    ensures r.Some? ==> metadata.JObj? && key in metadata.fields && !metadata.fields[key].JNull?
    ensures metadata.JObj? && key in metadata.fields && metadata.fields[key].JStr? ==> r == Some(metadata.fields[key].s)
  {
    var v := GetOpt(metadata, key);
    if v.None? || v.value.JNull? then None else Some(ToStr(v.value))
  }

  /** `user.email?.split('@')[0]`. */
  function LocalPart(email: Option<string>): (r: Option<string>)
    ensures r.Some? <==> email.Some?
    ensures r.Some? ==> !HasChar(r.value, '@')
  {
    if email.None? then None else Some(Split(email.value, '@')[0])
  }

  /** `full_name ?? localPart ?? 'Member'`. */
  function DisplayName(u: AuthUser): string {
    MetaString(u.metadata, "full_name").GetOr(LocalPart(u.email).GetOr("Member"))
  }

  /** The precedence of the display name, stated on the shape of the address:
      the metadata name, else the text before the first '@' (all of an
      address without one), else "Member". An empty local part is kept as "",
      since `??` only skips undefined. */
  lemma DisplayNamePrecedence(u: AuthUser, local: string, domain: string)
    requires !HasChar(local, '@')
    ensures MetaString(u.metadata, "full_name").Some? ==> DisplayName(u) == MetaString(u.metadata, "full_name").value
    ensures MetaString(u.metadata, "full_name").None? && u.email == Some(local + "@" + domain) ==> DisplayName(u) == local
    ensures MetaString(u.metadata, "full_name").None? && u.email == Some(local) ==> DisplayName(u) == local
    ensures MetaString(u.metadata, "full_name").None? && u.email.None? ==> DisplayName(u) == "Member"
  {
    SplitFirst(local, domain, '@');
  }

  /** The row inserted for a new user: full name and avatar are null unless
      the metadata carries them. */
  function NewProfile(u: AuthUser): (p: Profile)
    ensures p.fullName.None? <==> MetaString(u.metadata, "full_name").None?
    ensures p.avatarUrl.None? <==> MetaString(u.metadata, "avatar_url").None?
    ensures p.fullName.Some? ==> p.displayName == p.fullName.value
    ensures p.email == u.email
  {
    Profile(DisplayName(u), MetaString(u.metadata, "full_name"), MetaString(u.metadata, "avatar_url"), u.email)
  }

  /** `upsertProfileForUser`: insert only when no row exists. `fetchError`
      and `insertFails` are the store's answers; both are only logged. */
  function UpsertProfileForUser(user: Option<AuthUser>, fetchError: bool, insertFails: bool, profiles: ProfileTable)
    : (r: ProfileTable)
    ensures forall k :: k in profiles ==> k in r && r[k] == profiles[k]
    ensures r != profiles <==> user.Some? && !fetchError && !insertFails && user.value.id !in profiles
    ensures r != profiles ==> r == profiles[user.value.id := NewProfile(user.value)]
  {
    if user.None? then profiles
    else if fetchError then profiles
    else if user.value.id in profiles then profiles
    else if insertFails then profiles
    else profiles[user.value.id := NewProfile(user.value)]
  }

  /** Running it again changes nothing: the second lookup finds the row. */
  lemma UpsertIdempotent(user: Option<AuthUser>, fetchError: bool, insertFails: bool, profiles: ProfileTable,
                         fetchError2: bool, insertFails2: bool)
    ensures var once := UpsertProfileForUser(user, fetchError, insertFails, profiles);
      once != profiles ==> UpsertProfileForUser(user, fetchError2, insertFails2, once) == once
  {
  }

  /** With the metadata silent, an address whose local part is empty yields
      an empty display name rather than "Member". */
  lemma EmptyLocalPartKept(id: string, domain: string)
    ensures DisplayName(AuthUser(id, Some("@" + domain), JObj(map[]))) == ""
  {
    SplitFirst("", domain, '@');
    assert "" + "@" + domain == "@" + domain;
  }
}
