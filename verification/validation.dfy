/** The request schemas (src/lib/validation/animal.ts, inquiry.ts, team.ts).
    Each schema is a parser: it accepts an input, normalising some fields, or
    rejects it with the set of fields that failed. A field that may be left
    out is an `Option` (None is undefined); Zod's `.email()` and `.uuid()`
    checks are predicate parameters. */
module Validation {
  import opened Wrappers
  import opened Strings
  import opened Js

  /** The fields of the schemas, as Zod names them in an issue's path. */
  datatype Field =
    | Id | Name | Species | Breed | Age | Sex | Description | Status | Tags
    | AnimalId | PhotoOrderField
    | AdopterName | AdopterEmail | Message | InquiryId | Body
    | Email | RoleField | Subject

  /** The fields a rejected input failed on, in the schema's order. */
  type Issues = seq<Field>

  /** The result of a schema: the parsed value, or the failing fields. */
  type Parsed<T> = Result<T, Issues>

  /** An issue for `field` when `ok` fails. */
  function Check(ok: bool, field: Field): (e: Issues)
    ensures field in e <==> !ok
    ensures |e| == if ok then 0 else 1
  {
    if ok then [] else [field]
  }

  /** A string with no whitespace at either end, as `trim` leaves it. */
  predicate Trimmed(s: string) {
    s == [] || (!IsSpace(s[0]) && !IsSpace(s[|s| - 1]))
  }

  /** `.max(n).optional()`: the limit applies to the untrimmed value. Zod's
      `.min`/`.max` compare `length`, so every bound here counts UTF-16 code
      units (`Utf16Len`), not characters. */
  predicate WithinMax(v: Option<string>, max: nat) {
    v.None? || Utf16Len(v.value) <= max
  }

  /** `value?.trim() || null`. */
  function TrimOrNull(v: Option<string>): (r: Option<string>)
    ensures r.None? <==> v.None? || Trim(v.value) == []
    ensures r.Some? ==> r.value != [] && Trimmed(r.value) && Utf16Len(r.value) <= Utf16Len(v.value)
  {
    if v.None? || Trim(v.value) == [] then None
    else
      TrimUtf16Len(v.value);
      Some(Trim(v.value))
  }

  /** Normalising a normalised value changes nothing. */
  lemma TrimOrNullIdempotent(v: Option<string>)
    ensures TrimOrNull(TrimOrNull(v)) == TrimOrNull(v)
  {
    if v.Some? && Trim(v.value) != [] {
      var t := Trim(v.value);
      TrimOfTrimmed(t);
      assert TrimOrNull(v) == Some(t);
      assert TrimOrNull(Some(t)) == Some(t);
    }
  }

  // ---------------------------------------------------------------------
  // animal.ts

  datatype AnimalStatus = Available | Hold | Adopted

  function AnimalStatusName(s: AnimalStatus): string {
    match s
    case Available => "available"
    case Hold => "hold"
    case Adopted => "adopted"
  }

  /** `z.enum(['available', 'hold', 'adopted'])`. */
  function ParseAnimalStatus(s: string): (r: Option<AnimalStatus>)
    ensures r.Some? <==> s == "available" || s == "hold" || s == "adopted"
    ensures r.Some? ==> AnimalStatusName(r.value) == s
  {
    if s == "available" then Some(Available)
    else if s == "hold" then Some(Hold)
    else if s == "adopted" then Some(Adopted)
    else None
  }

  lemma AnimalStatusRoundTrip(s: AnimalStatus)
    ensures ParseAnimalStatus(AnimalStatusName(s)) == Some(s)
  {
  }

  /** Every tag is non-empty: `z.array(z.string().min(1))`. */
  predicate TagsValid(tags: seq<string>) {
    forall k :: 0 <= k < |tags| ==> |tags[k]| >= 1
  }

  /** The animal form as submitted. */
  datatype AnimalInput = AnimalInput(
    id: Option<string>, name: string, species: string,
    breed: Option<string>, age: Option<string>, sex: Option<string>, description: Option<string>,
    status: string, tags: Option<seq<string>>, isActive: Option<bool>)

  /** The animal form after `animalFormSchema`: optional texts are trimmed
      or null, tags and `is_active` are defaulted. */
  datatype AnimalForm = AnimalForm(
    id: Option<string>, name: string, species: string,
    breed: Option<string>, age: Option<string>, sex: Option<string>, description: Option<string>,
    status: AnimalStatus, tags: seq<string>, isActive: bool)

  const BreedMax := 120
  const AgeMax := 60
  const SexMax := 16
  const DescriptionMax := 5000

  /** `animalFormSchema` as a predicate. */
  predicate AnimalValid(i: AnimalInput, isUuid: string -> bool) {
    && (i.id.None? || isUuid(i.id.value))
    && Utf16Len(i.name) >= 2 && Utf16Len(i.species) >= 2
    && WithinMax(i.breed, BreedMax) && WithinMax(i.age, AgeMax)
    && WithinMax(i.sex, SexMax) && WithinMax(i.description, DescriptionMax)
    && ParseAnimalStatus(i.status).Some?
    && (i.tags.None? || TagsValid(i.tags.value))
  }

  /** The failing fields among `id`, `name` and `species`. */
  function NamingIssues(i: AnimalInput, isUuid: string -> bool): (e: Issues)
    ensures e == [] <==> (i.id.None? || isUuid(i.id.value)) && Utf16Len(i.name) >= 2 && Utf16Len(i.species) >= 2
    ensures Name in e <==> Utf16Len(i.name) < 2
    ensures Species in e <==> Utf16Len(i.species) < 2
    ensures Status !in e
  {
    Check(i.id.None? || isUuid(i.id.value), Id) + Check(Utf16Len(i.name) >= 2, Name) + Check(Utf16Len(i.species) >= 2, Species)
  }

  /** The failing fields among the length-limited texts. */
  function LimitIssues(i: AnimalInput): (e: Issues)
    ensures e == [] <==>
      && WithinMax(i.breed, BreedMax) && WithinMax(i.age, AgeMax)
      && WithinMax(i.sex, SexMax) && WithinMax(i.description, DescriptionMax)
    ensures Name !in e && Species !in e && Status !in e
  {
    Check(WithinMax(i.breed, BreedMax), Breed) + Check(WithinMax(i.age, AgeMax), Age)
    + Check(WithinMax(i.sex, SexMax), Sex) + Check(WithinMax(i.description, DescriptionMax), Description)
  }

  /** The failing fields of an animal form, in the schema's order. */
  function AnimalIssues(i: AnimalInput, isUuid: string -> bool): (e: Issues)
    ensures e == [] <==> AnimalValid(i, isUuid)
    ensures Name in e <==> Utf16Len(i.name) < 2
    ensures Species in e <==> Utf16Len(i.species) < 2
    ensures Status in e <==> ParseAnimalStatus(i.status).None?
  {
    var tail := Check(ParseAnimalStatus(i.status).Some?, Status) + Check(i.tags.None? || TagsValid(i.tags.value), Tags);
    NamingIssues(i, isUuid) + LimitIssues(i) + tail
  }

  /** `animalFormSchema.safeParse`. */
  function ParseAnimalForm(i: AnimalInput, isUuid: string -> bool): (r: Parsed<AnimalForm>)
    ensures r.Success? <==> AnimalValid(i, isUuid)
    ensures r.Failure? ==>
      && r.error != []
      && (Name in r.error <==> Utf16Len(i.name) < 2)
      && (Species in r.error <==> Utf16Len(i.species) < 2)
      && (Status in r.error <==> ParseAnimalStatus(i.status).None?)
    ensures r.Success? ==>
      && r.value.id == i.id && r.value.name == i.name && r.value.species == i.species
      && AnimalStatusName(r.value.status) == i.status
      && r.value.breed == TrimOrNull(i.breed) && r.value.age == TrimOrNull(i.age)
      && r.value.sex == TrimOrNull(i.sex) && r.value.description == TrimOrNull(i.description)
      && r.value.tags == i.tags.GetOr([])
      && r.value.isActive == i.isActive.GetOr(true)
  {
    var issues := AnimalIssues(i, isUuid);
    if issues != [] then Failure(issues)
    else
      Success(AnimalForm(i.id, i.name, i.species,
                         TrimOrNull(i.breed), TrimOrNull(i.age), TrimOrNull(i.sex), TrimOrNull(i.description),
                         ParseAnimalStatus(i.status).value, i.tags.GetOr([]), i.isActive.GetOr(true)))
  }

  /** The parsed form submitted again, with every field present. */
  function AnimalInputOf(f: AnimalForm): AnimalInput {
    AnimalInput(f.id, f.name, f.species, f.breed, f.age, f.sex, f.description,
                AnimalStatusName(f.status), Some(f.tags), Some(f.isActive))
  }

  /** A parsed form parses again to itself: the normalisation is stable and
      its output satisfies the schema. */
  lemma AnimalFormRoundTrip(i: AnimalInput, isUuid: string -> bool)
    requires ParseAnimalForm(i, isUuid).Success?
    ensures ParseAnimalForm(AnimalInputOf(ParseAnimalForm(i, isUuid).value), isUuid) == ParseAnimalForm(i, isUuid)
  {
    TrimOrNullIdempotent(i.breed);
    TrimOrNullIdempotent(i.age);
    TrimOrNullIdempotent(i.sex);
    TrimOrNullIdempotent(i.description);
  }

  /** A blank optional text is stored as null, never as "". */
  lemma BlankBecomesNull(i: AnimalInput, isUuid: string -> bool)
    requires ParseAnimalForm(i, isUuid).Success?
    ensures var f := ParseAnimalForm(i, isUuid).value;
      && (f.breed.None? <==> i.breed.None? || Trim(i.breed.value) == [])
      && f.breed != Some([]) && f.age != Some([]) && f.sex != Some([]) && f.description != Some([])
  {
  }

  /** One entry of `photoOrder` as submitted; `sort_order` must be a number. */
  datatype PhotoOrderInput = PhotoOrderInput(id: string, sortOrder: Json)

  datatype PhotoOrder = PhotoOrder(id: string, sortOrder: int)

  predicate PhotoEntryValid(e: PhotoOrderInput, isUuid: string -> bool) {
    isUuid(e.id) && e.sortOrder.JNum?
  }

  predicate PhotoEntriesValid(es: seq<PhotoOrderInput>, isUuid: string -> bool) {
    forall k :: 0 <= k < |es| ==> PhotoEntryValid(es[k], isUuid)
  }

  /** `photoReorderSchema.safeParse`. */
  function ParsePhotoReorder(animalId: string, entries: seq<PhotoOrderInput>, isUuid: string -> bool)
    : (r: Parsed<(string, seq<PhotoOrder>)>)
    ensures r.Success? <==> isUuid(animalId) && PhotoEntriesValid(entries, isUuid)
    ensures r.Failure? ==> (AnimalId in r.error <==> !isUuid(animalId))
    ensures r.Success? ==> r.value.0 == animalId && |r.value.1| == |entries|
    ensures r.Success? ==> forall k :: 0 <= k < |entries| ==>
      r.value.1[k].id == entries[k].id && JNum(r.value.1[k].sortOrder) == entries[k].sortOrder
  {
    var issues := Check(isUuid(animalId), AnimalId) + Check(PhotoEntriesValid(entries, isUuid), PhotoOrderField);
    if issues != [] then Failure(issues)
    else Success((animalId, seq(|entries|, k requires 0 <= k < |entries| => PhotoOrder(entries[k].id, entries[k].sortOrder.n))))
  }

  // ---------------------------------------------------------------------
  // inquiry.ts

  datatype PublicInquiryInput = PublicInquiryInput(
    animalId: string, adopterName: string, adopterEmail: string, message: Option<string>)

  datatype PublicInquiry = PublicInquiry(animalId: string, adopterName: string, adopterEmail: string, message: string)

  const MessageMax := 4000

  /** `value?.trim() || ''`: an absent message is "". */
  function TrimOrEmpty(v: Option<string>): (r: string)
    ensures Trimmed(r)
    ensures v.None? ==> r == []
    ensures v.Some? ==> Utf16Len(r) <= Utf16Len(v.value)
  {
    if v.None? then []
    else
      TrimUtf16Len(v.value);
      Trim(v.value)
  }

  /** The failing fields of a public inquiry, in the schema's order. */
  function InquiryIssues(i: PublicInquiryInput, isUuid: string -> bool, isEmail: string -> bool): (e: Issues)
    ensures e == [] <==>
      isUuid(i.animalId) && Utf16Len(i.adopterName) >= 2 && isEmail(i.adopterEmail) && WithinMax(i.message, MessageMax)
    ensures AdopterName in e <==> Utf16Len(i.adopterName) < 2
    ensures Message in e <==> !WithinMax(i.message, MessageMax)
  {
    Check(isUuid(i.animalId), AnimalId) + Check(Utf16Len(i.adopterName) >= 2, AdopterName)
    + Check(isEmail(i.adopterEmail), AdopterEmail) + Check(WithinMax(i.message, MessageMax), Message)
  }

  /** Trimming a trimmed message again keeps it. */
  lemma TrimOrEmptyStable(v: Option<string>)
    ensures TrimOrEmpty(Some(TrimOrEmpty(v))) == TrimOrEmpty(v)
  {
    TrimOfTrimmed(TrimOrEmpty(v));
  }

  /** `publicInquirySchema.safeParse`. */
  function ParsePublicInquiry(i: PublicInquiryInput, isUuid: string -> bool, isEmail: string -> bool)
    : (r: Parsed<PublicInquiry>)
    ensures r.Success? <==>
      isUuid(i.animalId) && Utf16Len(i.adopterName) >= 2 && isEmail(i.adopterEmail) && WithinMax(i.message, 4000)
    ensures r.Failure? ==>
      && r.error != []
      && (AdopterName in r.error <==> Utf16Len(i.adopterName) < 2)
      && (Message in r.error <==> !WithinMax(i.message, 4000))
    ensures r.Success? ==>
      && r.value.animalId == i.animalId && r.value.adopterName == i.adopterName
      && r.value.adopterEmail == i.adopterEmail
      && Trimmed(r.value.message) && Utf16Len(r.value.message) <= 4000
      && (i.message.None? ==> r.value.message == [])
  {
    var issues := InquiryIssues(i, isUuid, isEmail);
    if issues != [] then Failure(issues)
    else Success(PublicInquiry(i.animalId, i.adopterName, i.adopterEmail, TrimOrEmpty(i.message)))
  }

  /** A parsed inquiry parses again to itself. */
  lemma PublicInquiryRoundTrip(i: PublicInquiryInput, isUuid: string -> bool, isEmail: string -> bool)
    requires ParsePublicInquiry(i, isUuid, isEmail).Success?
    ensures var q := ParsePublicInquiry(i, isUuid, isEmail).value;
      ParsePublicInquiry(PublicInquiryInput(q.animalId, q.adopterName, q.adopterEmail, Some(q.message)), isUuid, isEmail)
      == Success(q)
  {
    var q := ParsePublicInquiry(i, isUuid, isEmail).value;
    var j := PublicInquiryInput(q.animalId, q.adopterName, q.adopterEmail, Some(q.message));
    TrimOrEmptyStable(i.message);
    assert WithinMax(j.message, MessageMax);
    assert InquiryIssues(j, isUuid, isEmail) == [];
  }

  datatype InquiryStatus = New | Contacted | MeetGreet | Application | Approved | InquiryAdopted | Closed

  function InquiryStatusName(s: InquiryStatus): string {
    match s
    case New => "new"
    case Contacted => "contacted"
    case MeetGreet => "meet_greet"
    case Application => "application"
    case Approved => "approved"
    case InquiryAdopted => "adopted"
    case Closed => "closed"
  }

  /** The seven statuses of `inquiryStatusSchema`. */
  function ParseInquiryStatus(s: string): (r: Option<InquiryStatus>)
    ensures r.Some? ==> InquiryStatusName(r.value) == s
  {
    if s == "new" then Some(New)
    else if s == "contacted" then Some(Contacted)
    else if s == "meet_greet" then Some(MeetGreet)
    else if s == "application" then Some(Application)
    else if s == "approved" then Some(Approved)
    else if s == "adopted" then Some(InquiryAdopted)
    else if s == "closed" then Some(Closed)
    else None
  }

  /** Exactly the seven names are accepted, each to its own status. */
  lemma InquiryStatusNames(s: string, st: InquiryStatus)
    ensures ParseInquiryStatus(InquiryStatusName(st)) == Some(st)
    ensures ParseInquiryStatus(s).Some? <==> exists t: InquiryStatus :: InquiryStatusName(t) == s
  {
    if ParseInquiryStatus(s).Some? {
      assert InquiryStatusName(ParseInquiryStatus(s).value) == s;
    }
  }

  /** `inquiryStatusSchema.safeParse`. */
  function ParseInquiryStatusUpdate(inquiryId: string, status: string, isUuid: string -> bool)
    : (r: Parsed<(string, InquiryStatus)>)
    ensures r.Success? <==> isUuid(inquiryId) && ParseInquiryStatus(status).Some?
    ensures r.Failure? ==> (Status in r.error <==> ParseInquiryStatus(status).None?)
    ensures r.Success? ==> r.value.0 == inquiryId && InquiryStatusName(r.value.1) == status
  {
    var issues := Check(isUuid(inquiryId), InquiryId) + Check(ParseInquiryStatus(status).Some?, Status);
    if issues != [] then Failure(issues) else Success((inquiryId, ParseInquiryStatus(status).value))
  }

  const NoteMax := 4000

  /** `inquiryNoteSchema.safeParse`: the body is kept as written, untrimmed. */
  function ParseInquiryNote(inquiryId: string, body: string, isUuid: string -> bool): (r: Parsed<(string, string)>)
    ensures r.Success? <==> isUuid(inquiryId) && 1 <= Utf16Len(body) <= 4000
    ensures r.Failure? ==> (Body in r.error <==> !(1 <= Utf16Len(body) <= 4000))
    ensures r.Success? ==> r.value == (inquiryId, body)
  {
    var issues := Check(isUuid(inquiryId), InquiryId) + Check(1 <= Utf16Len(body) <= NoteMax, Body);
    if issues != [] then Failure(issues) else Success((inquiryId, body))
  }

  /** The note's length is not measured after trimming: a body of one space
      passes, an empty one does not. */
  lemma BlankNoteAccepted(inquiryId: string, isUuid: string -> bool)
    requires isUuid(inquiryId)
    ensures ParseInquiryNote(inquiryId, " ", isUuid).Success?
    ensures ParseInquiryNote(inquiryId, "", isUuid).Failure?
  {
  }

  /** Lengths are code units: a single emoji is two of them, so a one-character
      name passes the two-character minimum. */
  lemma AstralNameAccepted(animalId: string, email: string, isUuid: string -> bool, isEmail: string -> bool)
    requires isUuid(animalId) && isEmail(email)
    ensures |"\U{1F600}"| == 1
    ensures ParsePublicInquiry(PublicInquiryInput(animalId, "\U{1F600}", email, None), isUuid, isEmail).Success?
  {
  }

  // ---------------------------------------------------------------------
  // team.ts

  datatype Role = Owner | Admin | Staff

  function RoleName(r: Role): string {
    match r
    case Owner => "owner"
    case Admin => "admin"
    case Staff => "staff"
  }

  /** `z.enum(['owner', 'admin', 'staff'])`: "owner" may be invited. */
  function ParseRole(s: string): (r: Option<Role>)
    ensures r.Some? <==> s == "owner" || s == "admin" || s == "staff"
    ensures r.Some? ==> RoleName(r.value) == s
  {
    if s == "owner" then Some(Owner)
    else if s == "admin" then Some(Admin)
    else if s == "staff" then Some(Staff)
    else None
  }

  lemma RoleRoundTrip(r: Role)
    ensures ParseRole(RoleName(r)) == Some(r)
  {
  }

  /** `invitationSchema.safeParse`. */
  function ParseInvitation(email: string, role: string, isEmail: string -> bool): (r: Parsed<(string, Role)>)
    ensures r.Success? <==> isEmail(email) && ParseRole(role).Some?
    ensures r.Failure? ==> (Email in r.error <==> !isEmail(email)) && (RoleField in r.error <==> ParseRole(role).None?)
    ensures r.Success? ==> r.value.0 == email && RoleName(r.value.1) == role
  {
    var issues := Check(isEmail(email), Email) + Check(ParseRole(role).Some?, RoleField);
    if issues != [] then Failure(issues) else Success((email, ParseRole(role).value))
  }

  datatype TemplateInput = TemplateInput(name: string, subject: string, body: string)

  const TemplateNameMax := 100
  const TemplateSubjectMax := 200

  /** `templateSchema.safeParse`: the fields are kept as written. */
  function ParseTemplate(t: TemplateInput): (r: Parsed<TemplateInput>)
    ensures r.Success? <==> 2 <= Utf16Len(t.name) <= 100 && 2 <= Utf16Len(t.subject) <= 200 && Utf16Len(t.body) >= 2
    ensures r.Failure? ==>
      && (Name in r.error <==> !(2 <= Utf16Len(t.name) <= 100))
      && (Subject in r.error <==> !(2 <= Utf16Len(t.subject) <= 200))
      && (Body in r.error <==> Utf16Len(t.body) < 2)
    ensures r.Success? ==> r.value == t
  {
    var issues := Check(2 <= Utf16Len(t.name) <= TemplateNameMax, Name) + Check(2 <= Utf16Len(t.subject) <= TemplateSubjectMax, Subject)
                  + Check(Utf16Len(t.body) >= 2, Body);
    if issues != [] then Failure(issues) else Success(t)
  }
}
