/** Rescue onboarding (src/routes/onboarding/+page.server.ts): a signed-in
    user without a rescue creates one and becomes its owner. The session,
    the random UUIDs and the store's answers are parameters; Zod's email
    check is the predicate `isEmail`. */
module Onboarding {
  import opened Wrappers
  import opened Strings
  import opened Retry
  import opened Form
  import Slug
  import Team

  /** The signed-in user, as `locals.getUser()` returns it. */
  datatype User = User(id: string, email: Option<string>)

  /** A row of `rescues`, as the onboarding insert writes it. */
  datatype RescueRow = RescueRow(id: string, name: string, ownerUserId: string, slug: string, contactEmail: string)

  /** The two tables the action writes: rescues keyed by their unique slug,
      and memberships keyed by rescue and user. */
  datatype Db = Db(rescues: map<string, RescueRow>, members: Team.Members)

  /** The trimmed form values, echoed back on a validation failure. */
  datatype Raw = Raw(name: string, slug: string, contactEmail: string)

  const MaxAttempts := 5
  const OwnerRole := "owner"

  // ----- The page load -----

  datatype LoadResult =
    | LoadLoginRedirect(returnTo: string)              // 303 to the login page
    | LoadAdminRedirect                                // 303 /admin
    | Defaults(contactEmail: string, slug: string)

  /** `load`: anonymous visitors go to the login page, members of a rescue to
      the dashboard; everyone else gets the form defaults. */
  function Load(user: Option<User>, hasRescue: bool, returnTo: string): (r: LoadResult)
    ensures user.None? <==> r.LoadLoginRedirect?
    ensures r == LoadAdminRedirect <==> user.Some? && hasRescue
    ensures r.Defaults? ==> r.contactEmail == user.value.email.GetOr("") && Slug.IsSlug(r.slug)
  {
    if user.None? then LoadLoginRedirect(returnTo)
    else if hasRescue then LoadAdminRedirect
    else
      Slug.BuildSlugIsSlug("rescue");
      Defaults(user.value.email.GetOr(""), Slug.BuildSlug("rescue"))
  }

  // ----- Validation -----

  /** The trimmed name, the slug field (or the slug of the untrimmed name when
      that field is blank), and the trimmed contact email. */
  function RawOf(nameField: FormValue, slugField: FormValue, emailField: FormValue): (r: Raw)
    ensures r.slug != []
  {
    var slug := Trim(FieldString(slugField));
    Slug.BuildSlugIsSlug(FieldString(nameField));
    Raw(Trim(FieldString(nameField)),
        if slug != [] then slug else Slug.BuildSlug(FieldString(nameField)),
        Trim(FieldString(emailField)))
  }

  /** The slug handed to validation: `buildSlug(raw.slug || raw.name)`. */
  function Candidate(raw: Raw): string {
    Slug.BuildSlug(if raw.slug != [] then raw.slug else raw.name)
  }

  /** The slug the form asks for: the typed slug re-slugged, or, when that is
      blank, the slug of the name. Either way a well-formed slug. */
  lemma CandidateOfForm(nameField: FormValue, slugField: FormValue, emailField: FormValue)
    ensures var c := Candidate(RawOf(nameField, slugField, emailField));
      && (Trim(FieldString(slugField)) != [] ==> c == Slug.BuildSlug(Trim(FieldString(slugField))))
      && (Trim(FieldString(slugField)) == [] ==> c == Slug.BuildSlug(FieldString(nameField)))
      && Slug.IsSlug(c) && Slug.MatchesSlugPattern(c)
  {
    var raw := RawOf(nameField, slugField, emailField);
    CandidateOfSlug(raw);
    if Trim(FieldString(slugField)) == [] {
      Slug.BuildSlugIdempotent(FieldString(nameField));
    }
  }

  /** With a slug present the name is ignored, and the candidate is a slug. */
  lemma CandidateOfSlug(raw: Raw)
    requires raw.slug != []
    ensures Candidate(raw) == Slug.BuildSlug(raw.slug)
    ensures Slug.IsSlug(Candidate(raw)) && Slug.MatchesSlugPattern(Candidate(raw))
  {
    Slug.BuildSlugIsSlug(raw.slug);
  }

  /** `onboardingSchema`: a name of at least 3 code units, a slug of at least
      2 matching `^[a-z0-9-]+$`, and a contact email. */
  predicate Valid(name: string, slug: string, contactEmail: string, isEmail: string -> bool) {
    Utf16Len(name) >= 3 && Utf16Len(slug) >= 2 && Slug.MatchesSlugPattern(slug) && isEmail(contactEmail)
  }

  /** The candidate is always a slug, so of the slug rule only the length
      can fail, and only for a one-character slug such as the one "a!" gives;
      a slug is ASCII, so its code units are its characters. */
  lemma CandidateSlugRule(raw: Raw, isEmail: string -> bool)
    ensures Valid(raw.name, Candidate(raw), raw.contactEmail, isEmail)
      <==> Utf16Len(raw.name) >= 3 && |Candidate(raw)| >= 2 && isEmail(raw.contactEmail)
  {
    Slug.BuildSlugIsSlug(if raw.slug != [] then raw.slug else raw.name);
    SlugUtf16Len(Candidate(raw));
  }

  lemma SlugUtf16Len(s: string)
    requires Slug.OkChars(s)
    ensures Utf16Len(s) == |s|
  {
    forall i | 0 <= i < |s| ensures s[i] as int <= 0xFFFF {
      assert Slug.OkChar(s[i]);
    }
    Utf16LenBmp(s);
  }

  // ----- The collision retry -----

  /** `crypto.randomUUID().slice(0, 4)`. */
  function Prefix4(u: string): (r: string)
    ensures |r| == if |u| < 4 then |u| else 4
  {
    if |u| < 4 then u else u[..4]
  }

  /** The slug of attempt i: the base itself first, then the base with a
      fresh four-character suffix. */
  function SlugFor(base: string, uuid: nat -> string, i: nat): string {
    if i == 0 then base else base + "-" + Prefix4(uuid(i))
  }

  /** Suffixes never accumulate: every retry slug is the base, a dash and at
      most four characters, whatever happened on earlier attempts. */
  lemma SlugForShape(base: string, uuid: nat -> string, i: nat)
    requires i >= 1
    ensures IsPrefix(base + "-", SlugFor(base, uuid, i))
    ensures |base| + 1 <= |SlugFor(base, uuid, i)| <= |base| + 5
  {
    assert SlugFor(base, uuid, i) == (base + "-") + Prefix4(uuid(i));
  }

  /** A retry slug built from a four-character suffix of slug characters is
      itself a well-formed slug. */
  lemma SlugForIsSlug(base: string, uuid: nat -> string, i: nat)
    requires Slug.IsSlug(base) && |uuid(i)| >= 4
    requires forall k :: 0 <= k < 4 ==> Slug.IsSlugChar(uuid(i)[k])
    ensures Slug.IsSlug(SlugFor(base, uuid, i))
  {
    if i >= 1 {
      var s := SlugFor(base, uuid, i);
      var p := Prefix4(uuid(i));
      assert s == base + "-" + p;
      assert forall k :: 0 <= k < |base| ==> s[k] == base[k];
      assert s[|base|] == '-';
      assert forall k :: 0 <= k < 4 ==> s[|base| + 1 + k] == p[k] == uuid(i)[k];
      forall k | 0 <= k < |s| - 1 ensures !Slug.DoubleDashAt(s, k) {
        if k < |base| - 1 {
          assert !Slug.DoubleDashAt(base, k);
        }
      }
    }
  }

  // ----- Creating the rescue and its owner -----

  /** How the creation step ends. */
  datatype Creation =
    | Created         // the rescue and the owner membership exist
    | CreateFailed    // an insert failed with an error other than 23505
    | SlugConflicts   // every attempt collided
    | LinkFailed      // the rescue exists, the membership insert failed

  /** The insert loop: at most five slugs are tried, and a new one only
      after the previous one collided with a slug in `taken`. `uuid(i)` is the
      UUID drawn before attempt i, `fault(i)` whether attempt i fails with an
      error other than 23505. */
  method InsertSlug(base: string, taken: set<string>, uuid: nat -> string, fault: nat -> bool)
    returns (r: RetryResult<string>, inserts: nat)
    ensures 1 <= inserts <= MaxAttempts
    ensures forall i :: 0 <= i < inserts - 1 ==> SlugFor(base, uuid, i) in taken
    ensures r.Stored? ==> r.key == SlugFor(base, uuid, inserts - 1) && r.key !in taken && !fault(inserts - 1)
    ensures r.Failed? ==> SlugFor(base, uuid, inserts - 1) !in taken && fault(inserts - 1)
    ensures r.Exhausted? <==> inserts == MaxAttempts && forall i :: 0 <= i < MaxAttempts ==> SlugFor(base, uuid, i) in taken
    ensures base !in taken && !fault(0) ==> inserts == 1 && r == Stored(base)
  {
    var keyFor := (i: nat) => SlugFor(base, uuid, i);
    var outcome := (i: nat, s: string) => KeyOutcome(taken, fault, i, s);
    r, inserts := InsertWithRetry(MaxAttempts, keyFor, outcome);
  }

  /** Inserting the rescue with collision retries, then the owner membership;
      shared by onboarding and signup. `taken` holds the slugs already in use,
      `newId` is the id the store gives the new rescue and `memberFails` the
      membership insert failing. The membership is keyed by rescue and user,
      so inserting an existing pair fails too. Returns how it ended, the slug
      stored (when a rescue row was inserted), the memberships afterwards and
      the number of rescue inserts issued. */
  method CreateRescue(base: string, userId: string, taken: set<string>, members: Team.Members,
                      uuid: nat -> string, fault: nat -> bool, newId: string, memberFails: bool)
    returns (c: Creation, slug: string, members': Team.Members, inserts: nat)
    ensures 1 <= inserts <= MaxAttempts
    ensures forall i :: 0 <= i < inserts - 1 ==> SlugFor(base, uuid, i) in taken
    ensures c == Created || c == LinkFailed ==>
      slug == SlugFor(base, uuid, inserts - 1) && slug !in taken && !fault(inserts - 1)
    ensures c == Created ==>
      (members' == members[Team.MemberKey(newId, userId) := OwnerRole]
       && Team.MemberKey(newId, userId) !in members)
    ensures c != Created ==> members' == members
    ensures c == CreateFailed ==> fault(inserts - 1) && SlugFor(base, uuid, inserts - 1) !in taken
    ensures c == SlugConflicts <==>
      inserts == MaxAttempts && forall i :: 0 <= i < MaxAttempts ==> SlugFor(base, uuid, i) in taken
    ensures base !in taken && !fault(0) ==> inserts == 1 && (c == Created || c == LinkFailed) && slug == base
  {
    var r;
    r, inserts := InsertSlug(base, taken, uuid, fault);
    if r.Failed? {
      return CreateFailed, "", members, inserts;
    }
    if r.Exhausted? {
      return SlugConflicts, "", members, inserts;
    }
    var key := Team.MemberKey(newId, userId);
    if memberFails || key in members {
      return LinkFailed, r.key, members, inserts;
    }
    return Created, r.key, members[key := OwnerRole], inserts;
  }

  /** Whether the creation step left a rescue row behind. */
  predicate RowInserted(c: Creation) { c == Created || c == LinkFailed }

  // ----- The action -----

  datatype OnboardingResponse =
    | LoginRedirect(returnTo: string)   // 303 to the login page
    | AdminRedirect                     // 303 /admin: already onboarded, or just created
    | Invalid(values: Raw)              // 400 with the field errors
    | ServerError(step: Creation)       // 500, with a message per failing step

  /** The rescue row an attempt with `slug` inserts. */
  function NewRescue(id: string, raw: Raw, userId: string, slug: string): RescueRow {
    RescueRow(id, raw.name, userId, slug, raw.contactEmail)
  }

  /** `after` is `before` with the row of attempt `inserts - 1` added under
      its slug, which `before` did not hold. */
  predicate StoredRescue(before: map<string, RescueRow>, after: map<string, RescueRow>, raw: Raw,
                         uuid: nat -> string, inserts: nat, newId: string, userId: string) {
    && inserts >= 1
    && var slug := SlugFor(Candidate(raw), uuid, inserts - 1);
       slug !in before && after == before[slug := NewRescue(newId, raw, userId, slug)]
  }

  /** The action once the form is valid: create the rescue from `raw` for
      the user, with its owner membership. */
  method Onboard(raw: Raw, userId: string, db: Db, uuid: nat -> string, fault: nat -> bool,
                 newId: string, memberFails: bool)
    returns (resp: OnboardingResponse, db': Db, inserts: nat)
    ensures resp == AdminRedirect || (resp.ServerError? && resp.step != Created)
    ensures 1 <= inserts <= MaxAttempts
    ensures db'.rescues != db.rescues ==> StoredRescue(db.rescues, db'.rescues, raw, uuid, inserts, newId, userId)
    ensures db'.members != db.members ==>
      db'.rescues != db.rescues && db'.members == db.members[Team.MemberKey(newId, userId) := OwnerRole]
    ensures resp == ServerError(SlugConflicts) ==> db' == db && inserts == MaxAttempts
    ensures resp == ServerError(CreateFailed) ==> db' == db
    ensures resp == ServerError(LinkFailed) ==> db'.rescues != db.rescues && db'.members == db.members
    ensures resp == AdminRedirect ==> db'.rescues != db.rescues && db'.members != db.members
    ensures Candidate(raw) !in db.rescues && !fault(0) ==>
      inserts == 1 && db'.rescues == db.rescues[Candidate(raw) := NewRescue(newId, raw, userId, Candidate(raw))]
  {
    var c, slug, members;
    c, slug, members, inserts := CreateRescue(Candidate(raw), userId, db.rescues.Keys, db.members,
                                              uuid, fault, newId, memberFails);
    var rescues := if RowInserted(c) then db.rescues[slug := NewRescue(newId, raw, userId, slug)] else db.rescues;
    db' := Db(rescues, members);
    resp := if c == Created then AdminRedirect else ServerError(c);
  }

  /** The action on the parsed form values: the session checks, validation,
      then the creation. `uuid(i)` is the UUID drawn before attempt i,
      `fault(i)` whether attempt i fails with an error other than 23505. */
  method Respond(user: Option<User>, hasRescue: bool, returnTo: string, raw: Raw, isEmail: string -> bool,
                 db: Db, uuid: nat -> string, fault: nat -> bool, newId: string, memberFails: bool)
    returns (resp: OnboardingResponse, db': Db, inserts: nat)
    ensures user.None? ==> resp == LoginRedirect(returnTo) && db' == db && inserts == 0
    ensures user.Some? && hasRescue ==> resp == AdminRedirect && db' == db && inserts == 0
    ensures resp.Invalid? <==> user.Some? && !hasRescue && !Valid(raw.name, Candidate(raw), raw.contactEmail, isEmail)
    ensures resp.Invalid? ==> resp.values == raw && db' == db && inserts == 0
    ensures inserts <= MaxAttempts
    ensures db'.rescues != db.rescues ==>
      user.Some? && StoredRescue(db.rescues, db'.rescues, raw, uuid, inserts, newId, user.value.id)
    ensures db'.members != db.members ==>
      user.Some? && db'.rescues != db.rescues
      && db'.members == db.members[Team.MemberKey(newId, user.value.id) := OwnerRole]
    ensures resp == ServerError(SlugConflicts) ==> db' == db && inserts == MaxAttempts
    ensures resp == ServerError(LinkFailed) ==> db'.rescues != db.rescues && db'.members == db.members
    ensures user.Some? && !hasRescue && resp == AdminRedirect ==> db'.rescues != db.rescues && db'.members != db.members
  {
    if user.None? {
      return LoginRedirect(returnTo), db, 0;
    }
    if hasRescue {
      return AdminRedirect, db, 0;
    }
    if !Valid(raw.name, Candidate(raw), raw.contactEmail, isEmail) {
      return Invalid(raw), db, 0;
    }
    resp, db', inserts := Onboard(raw, user.value.id, db, uuid, fault, newId, memberFails);
  }

  /** The default action: `RawOf` reads the form, then `Respond` answers. */
  method Submit(user: Option<User>, hasRescue: bool, returnTo: string,
                nameField: FormValue, slugField: FormValue, emailField: FormValue, isEmail: string -> bool,
                db: Db, uuid: nat -> string, fault: nat -> bool, newId: string, memberFails: bool)
    returns (resp: OnboardingResponse, db': Db, inserts: nat)
    ensures user.None? ==> resp == LoginRedirect(returnTo) && db' == db && inserts == 0
    ensures var raw := RawOf(nameField, slugField, emailField);
      resp.Invalid? <==> user.Some? && !hasRescue && !Valid(raw.name, Candidate(raw), raw.contactEmail, isEmail)
    ensures resp.Invalid? ==> resp.values == RawOf(nameField, slugField, emailField) && db' == db && inserts == 0
  {
    resp, db', inserts := Respond(user, hasRescue, returnTo, RawOf(nameField, slugField, emailField), isEmail,
                                  db, uuid, fault, newId, memberFails);
  }
}
