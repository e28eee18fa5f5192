/** Self-service signup (src/routes/auth/signup/+page.server.ts): create the
    account, a profile, a free public rescue and the owner membership. The
    auth service, the random UUIDs and the store's answers are parameters;
    Zod's email and URL checks are the predicates `isEmail` and `isUrl`. */
module Signup {
  import opened Wrappers
  import opened Strings
  import opened Form
  import Slug
  import Team
  import Profiles
  import Onboarding

  /** The form values: all trimmed except the two passwords. */
  datatype Raw = Raw(name: string, email: string, password: string, confirmPassword: string,
                     location: string, websiteUrl: string, instagramUrl: string, facebookUrl: string)

  function RawOf(form: string -> FormValue): Raw {
    Raw(Trim(FieldString(form("name"))),
        Trim(FieldString(form("email"))),
        FieldString(form("password")),
        FieldString(form("confirm_password")),
        Trim(FieldString(form("location"))),
        Trim(FieldString(form("website_url"))),
        Trim(FieldString(form("instagram_url"))),
        Trim(FieldString(form("facebook_url"))))
  }

  /** An optional URL field: a URL or the empty string. */
  predicate UrlField(u: string, isUrl: string -> bool) { u == "" || isUrl(u) }

  /** `signupSchema`, including the refinement that the passwords agree.
      Lengths are counted in UTF-16 code units, as Zod counts them. */
  predicate Valid(raw: Raw, isEmail: string -> bool, isUrl: string -> bool) {
    && Utf16Len(raw.name) >= 3
    && isEmail(raw.email)
    && Utf16Len(raw.password) >= 8
    && Utf16Len(raw.confirmPassword) >= 8
    && UrlField(raw.websiteUrl, isUrl)
    && UrlField(raw.instagramUrl, isUrl)
    && UrlField(raw.facebookUrl, isUrl)
    && raw.password == raw.confirmPassword
  }

  /** `email.split('@')[0] || 'Member'`. */
  function FallbackDisplay(email: string): (r: string)
    ensures r != [] && !HasChar(r, '@')
  {
    var local := Split(email, '@')[0];
    assert !HasChar("Member", '@') by {
      forall i | 0 <= i < 6 ensures "Member"[i] != '@' { }
    }
    if local != [] then local else "Member"
  }

  /** The fallback is the text before the first '@', or "Member" when that
      is empty; an address without '@' is used whole. */
  lemma FallbackDisplayOfAddress(local: string, domain: string)
    requires !HasChar(local, '@')
    ensures FallbackDisplay(local + "@" + domain) == if local == [] then "Member" else local
    ensures local != [] ==> FallbackDisplay(local) == local
  {
    SplitFirst(local, domain, '@');
  }

  /** Signup and first sign-in disagree on an address with an empty local
      part: `||` here falls back to "Member", `??` there keeps "". */
  lemma FallbacksDisagreeOnEmptyLocalPart(id: string, domain: string)
    ensures FallbackDisplay("@" + domain) == "Member"
    ensures Profiles.DisplayName(Profiles.AuthUser(id, Some("@" + domain), Profiles.Js.JObj(map[]))) == ""
  {
    FallbackDisplayOfAddress("", domain);
    assert "" + "@" + domain == "@" + domain;
    Profiles.EmptyLocalPartKept(id, domain);
  }

  /** The profile upsert: it writes the display name, a null full name and
      the email, keeping any other column of an existing row. Its failure is
      ignored. */
  function UpsertProfile(profiles: Profiles.ProfileTable, userId: string, email: string, fails: bool)
    : (r: Profiles.ProfileTable)
    ensures forall k :: k in profiles && k != userId ==> k in r && r[k] == profiles[k]
    ensures !fails ==>
      (userId in r && r[userId].displayName == FallbackDisplay(email)
       && r[userId].fullName.None? && r[userId].email == Some(email))
    ensures !fails && userId in profiles ==> r[userId].avatarUrl == profiles[userId].avatarUrl
    ensures fails ==> r == profiles
  {
    if fails then profiles
    else
      var avatar := if userId in profiles then profiles[userId].avatarUrl else None;
      profiles[userId := Profiles.Profile(FallbackDisplay(email), None, avatar, Some(email))]
  }

  /** A row of `rescues` as signup inserts it. */
  datatype SignupRescue = SignupRescue(
    id: string, name: string, ownerUserId: string, slug: string, contactEmail: string,
    locationText: Option<string>, location: Option<string>,
    websiteUrl: Option<string>, instagramUrl: Option<string>, facebookUrl: Option<string>,
    planTier: string, isPublic: bool)

  /** `value || null` for a string. */
  function OrNull(s: string): (r: Option<string>)
    ensures r.None? <==> s == []
    ensures r.Some? ==> r.value == s
  {
    if s == [] then None else Some(s)
  }

  /** The row an attempt with `slug` inserts: on the free plan and public. */
  function NewRescue(id: string, raw: Raw, userId: string, slug: string): SignupRescue {
    SignupRescue(id, raw.name, userId, slug, raw.email,
                 OrNull(raw.location), OrNull(raw.location),
                 OrNull(raw.websiteUrl), OrNull(raw.instagramUrl), OrNull(raw.facebookUrl),
                 "free", true)
  }

  /** `after` is `before` with one new row under a slug it did not hold. */
  predicate RescueAdded(before: map<string, SignupRescue>, after: map<string, SignupRescue>, slug: string, row: SignupRescue) {
    slug !in before && after == before[slug := row]
  }

  /** The rescue row signup stores: under the slug of the last attempt, for
      the form's values and the new account. */
  predicate StoredRescue(before: map<string, SignupRescue>, after: map<string, SignupRescue>, raw: Raw,
                         uuid: nat -> string, inserts: nat, slug: string, newId: string, userId: string) {
    && inserts >= 1
    && slug == Onboarding.SlugFor(SlugBase(raw), uuid, inserts - 1)
    && RescueAdded(before, after, slug, NewRescue(newId, raw, userId, slug))
  }

  /** The tables signup writes. */
  datatype Db = Db(profiles: Profiles.ProfileTable, rescues: map<string, SignupRescue>, members: Team.Members)

  /** What `auth.signUp` answers: an error with its code, no user, or the new user's id. */
  datatype AuthOutcome = AuthError(code: string) | NoUser | SignedUp(userId: string)

  datatype SignupResponse =
    | Invalid(values: Raw)              // 400 with the field errors
    | AccountExists(values: Raw)        // 400 "An account already exists with that email."
    | AccountUnavailable(values: Raw)   // 400 "Unable to create your account right now."
    | Incomplete(values: Raw)           // 400 "Signup incomplete. Please try again."
    | RescueFailed(values: Raw)         // 500 "Unable to create rescue profile."
    | LinkFailed                        // 500 "Account created, but linking failed."
    | AdminRedirect                     // 303 /admin

  /** The slug of the first attempt: `buildSlug(name) || 'rescue'`, which is
      `buildSlug(name)` itself since that is never empty. */
  function SlugBase(raw: Raw): string {
    Slug.BuildSlug(raw.name)
  }

  /** Every slug signup tries starts with the slug of the name, which is
      well-formed, and a retry adds only a dash and four characters. */
  lemma SlugBaseShape(raw: Raw, uuid: nat -> string, i: nat)
    ensures Slug.IsSlug(SlugBase(raw))
    ensures IsPrefix(SlugBase(raw), Onboarding.SlugFor(SlugBase(raw), uuid, i))
    ensures |Onboarding.SlugFor(SlugBase(raw), uuid, i)| <= |SlugBase(raw)| + 5
  {
    Slug.BuildSlugIsSlug(raw.name);
    if i >= 1 {
      Onboarding.SlugForShape(SlugBase(raw), uuid, i);
    }
  }

  /** After the account exists: the profile, then the rescue with collision
      retries, then the owner membership. `uuid(i)` is the UUID drawn before
      attempt i, `fault(i)` whether attempt i fails with an error other than
      23505. */
  method Register(raw: Raw, userId: string, db: Db, profileFails: bool, uuid: nat -> string, fault: nat -> bool,
                  newId: string, memberFails: bool)
    returns (resp: SignupResponse, db': Db, inserts: nat, slug: string)
    ensures resp == AdminRedirect || resp == RescueFailed(raw) || resp == LinkFailed
    ensures 1 <= inserts <= Onboarding.MaxAttempts
    ensures db'.profiles == UpsertProfile(db.profiles, userId, raw.email, profileFails)
    ensures forall i :: 0 <= i < inserts - 1 ==> Onboarding.SlugFor(SlugBase(raw), uuid, i) in db.rescues
    ensures db'.rescues != db.rescues ==> StoredRescue(db.rescues, db'.rescues, raw, uuid, inserts, slug, newId, userId)
    ensures db'.members != db.members ==>
      db'.rescues != db.rescues && db'.members == db.members[Team.MemberKey(newId, userId) := Onboarding.OwnerRole]
    ensures resp == RescueFailed(raw) ==> db'.rescues == db.rescues && db'.members == db.members
    ensures resp == LinkFailed ==> db'.rescues != db.rescues && db'.members == db.members
    ensures resp == AdminRedirect ==> db'.rescues != db.rescues && db'.members != db.members
  {
    var profiles := UpsertProfile(db.profiles, userId, raw.email, profileFails);
    var c, members;
    c, slug, members, inserts := Onboarding.CreateRescue(SlugBase(raw), userId, db.rescues.Keys, db.members,
                                                         uuid, fault, newId, memberFails);
    var rescues := if Onboarding.RowInserted(c) then db.rescues[slug := NewRescue(newId, raw, userId, slug)] else db.rescues;
    db' := Db(profiles, rescues, members);
    resp := if c == Onboarding.Created then AdminRedirect
            else if c == Onboarding.LinkFailed then LinkFailed
            else RescueFailed(raw);
  }

  const UserAlreadyExists := "user_already_exists"

  /** The answers given before anything is written: invalid values, then the
      auth service's error or missing user. None when the account exists. */
  function Rejection(raw: Raw, isEmail: string -> bool, isUrl: string -> bool, auth: AuthOutcome)
    : (r: Option<SignupResponse>)
    ensures r.None? <==> Valid(raw, isEmail, isUrl) && auth.SignedUp?
    ensures r.Some? ==> r.value.Invalid? || r.value.AccountExists? || r.value.AccountUnavailable? || r.value.Incomplete?
    ensures r.Some? && r.value.Invalid? <==> !Valid(raw, isEmail, isUrl)
    ensures r.Some? && r.value.Invalid? ==> r.value == Invalid(raw)
    ensures r == Some(AccountExists(raw)) <==> Valid(raw, isEmail, isUrl) && auth == AuthError(UserAlreadyExists)
    ensures r.Some? && r.value.AccountUnavailable? <==>
      Valid(raw, isEmail, isUrl) && auth.AuthError? && auth.code != UserAlreadyExists
    ensures r.Some? && r.value.Incomplete? <==> Valid(raw, isEmail, isUrl) && auth == NoUser
  {
    if !Valid(raw, isEmail, isUrl) then Some(Invalid(raw))
    else if auth.AuthError? then
      Some(if auth.code == UserAlreadyExists then AccountExists(raw) else AccountUnavailable(raw))
    else if auth.NoUser? then Some(Incomplete(raw))
    else None
  }

  /** The action on the parsed form values. `auth` is the auth service's
      answer to `signUp`; the rest as for `Register`. Returns the response,
      the tables after the action and the number of rescue inserts issued. */
  method Respond(raw: Raw, isEmail: string -> bool, isUrl: string -> bool, auth: AuthOutcome,
                 db: Db, profileFails: bool, uuid: nat -> string, fault: nat -> bool, newId: string, memberFails: bool)
    returns (resp: SignupResponse, db': Db, inserts: nat, slug: string)
    ensures resp.Invalid? <==> !Valid(raw, isEmail, isUrl)
    ensures raw.password != raw.confirmPassword ==> resp == Invalid(raw)
    ensures resp == AccountExists(raw) <==> Valid(raw, isEmail, isUrl) && auth == AuthError(UserAlreadyExists)
    ensures resp.AccountUnavailable? <==> Valid(raw, isEmail, isUrl) && auth.AuthError? && auth.code != UserAlreadyExists
    ensures resp.Incomplete? <==> Valid(raw, isEmail, isUrl) && auth == NoUser
    ensures !Valid(raw, isEmail, isUrl) || !auth.SignedUp? ==> db' == db && inserts == 0
    ensures inserts <= Onboarding.MaxAttempts
    ensures Valid(raw, isEmail, isUrl) && auth.SignedUp? ==>
      db'.profiles == UpsertProfile(db.profiles, auth.userId, raw.email, profileFails)
    ensures db'.rescues != db.rescues ==> auth.SignedUp? && inserts >= 1
    ensures auth.SignedUp? && db'.rescues != db.rescues ==>
      StoredRescue(db.rescues, db'.rescues, raw, uuid, inserts, slug, newId, auth.userId)
    ensures db'.members != db.members ==>
      auth.SignedUp? && db'.rescues != db.rescues
      && db'.members == db.members[Team.MemberKey(newId, auth.userId) := Onboarding.OwnerRole]
    ensures resp.RescueFailed? ==> db'.rescues == db.rescues && db'.members == db.members
    ensures resp == AdminRedirect ==> db'.rescues != db.rescues && db'.members != db.members
  {
    var rejected := Rejection(raw, isEmail, isUrl, auth);
    if rejected.Some? {
      return rejected.value, db, 0, "";
    }
    resp, db', inserts, slug := Register(raw, auth.userId, db, profileFails, uuid, fault, newId, memberFails);
  }

  /** The default action: `RawOf` reads the form, then `Respond` answers. */
  method Submit(form: string -> FormValue, isEmail: string -> bool, isUrl: string -> bool, auth: AuthOutcome,
                db: Db, profileFails: bool, uuid: nat -> string, fault: nat -> bool, newId: string, memberFails: bool)
    returns (resp: SignupResponse, db': Db, inserts: nat, slug: string)
    ensures resp.Invalid? <==> !Valid(RawOf(form), isEmail, isUrl)
    ensures RawOf(form).password != RawOf(form).confirmPassword ==> resp == Invalid(RawOf(form))
    ensures !Valid(RawOf(form), isEmail, isUrl) || !auth.SignedUp? ==> db' == db && inserts == 0
  {
    resp, db', inserts, slug := Respond(RawOf(form), isEmail, isUrl, auth, db, profileFails, uuid, fault, newId, memberFails);
  }
}
