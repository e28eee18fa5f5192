/** Saving a search alert (src/routes/api/saved-search/+server.ts): the body's
    kind, frequency, email and rescue id are defaulted and normalised, the
    query is sanitised, and the alert is stored with its source path and
    creation time. */
module SavedSearch {
  import opened Wrappers
  import opened Strings
  import opened Js

  const RescueDirectory := "rescue_directory"
  const RescueAnimals := "rescue_animals"
  const Daily := "daily"
  const Weekly := "weekly"

  predicate AllowedKind(k: string) { k == RescueDirectory || k == RescueAnimals }
  predicate AllowedFrequency(f: string) { f == Daily || f == Weekly }

  /** `allowedKinds.has(raw) ? raw : 'rescue_directory'`. */
  function KindOf(raw: string): (k: string)
    ensures AllowedKind(k)
    ensures AllowedKind(raw) <==> k == raw
  {
    if AllowedKind(raw) then raw else RescueDirectory
  }

  /** `allowedFrequencies.has(raw) ? raw : 'daily'`. */
  function FrequencyOf(raw: string): (f: string)
    ensures AllowedFrequency(f)
    ensures AllowedFrequency(raw) <==> f == raw
  {
    if AllowedFrequency(raw) then raw else Daily
  }

  /** `.trim().toLowerCase()`. */
  function NormalizeEmail(s: string): (r: string)
    ensures |r| <= |s|
    ensures forall i :: 0 <= i < |r| ==> !IsUpper(r[i])
  {
    Lower(Trim(s))
  }

  /** Normalising an already normalised address changes nothing. */
  lemma NormalizeEmailIdempotent(s: string)
    ensures NormalizeEmail(NormalizeEmail(s)) == NormalizeEmail(s)
  {
    var t := Trim(s);
    var l := Lower(t);
    LowerKeepsSpace(t);
    TrimOfTrimmed(l);
    LowerIdempotent(t);
  }

  /** `sanitizeQuery`: a falsy or non-object value becomes `{}`. Arrays are
      objects to `typeof`, so they pass. */
  function SanitizeQuery(v: Json): (r: Json)
    ensures r.JObj? || r.JArr?
    ensures v.JObj? || v.JArr? ==> r == v
  {
    if v.JObj? || v.JArr? then v else EmptyObject
  }

  lemma SanitizeQueryIdempotent(v: Json)
    ensures SanitizeQuery(SanitizeQuery(v)) == SanitizeQuery(v)
  {
  }

  /** The own enumerable properties that `{...v}` copies: an object's fields,
      or an array's elements under their index keys. */
  function Spread(v: Json): (m: map<string, Json>)
    ensures v.JObj? ==> m == v.fields
  {
    if v.JObj? then v.fields
    else if v.JArr? then SpreadItems(v.items, |v.items|)
    else map[]
  }

  function SpreadItems(items: seq<Json>, n: nat): (m: map<string, Json>)
    requires n <= |items|
    ensures forall i :: 0 <= i < n ==> NatToString(i) in m
    decreases n
  {
    if n == 0 then map[] else SpreadItems(items, n - 1)[NatToString(n - 1) := items[n - 1]]
  }

  const SourcePathKey := "source_path"
  const CreatedAtKey := "created_at"

  /** `{...queryParams, source_path, created_at}`: the two keys written last win. */
  function QueryParams(query: Json, path: string, now: string): (m: map<string, Json>)
    ensures SourcePathKey in m && m[SourcePathKey] == JStr(path)
    ensures CreatedAtKey in m && m[CreatedAtKey] == JStr(now)
    ensures forall k :: k in m && k != SourcePathKey && k != CreatedAtKey ==>
      k in Spread(SanitizeQuery(query)) && m[k] == Spread(SanitizeQuery(query))[k]
    ensures forall k :: k in Spread(SanitizeQuery(query)) ==> k in m
  {
    Spread(SanitizeQuery(query))[SourcePathKey := JStr(path)][CreatedAtKey := JStr(now)]
  }

  /** A `saved_search_alerts` row. */
  datatype Alert = Alert(
    kind: string,
    rescueId: Option<string>,
    email: string,
    frequency: string,
    queryParams: map<string, Json>)

  datatype SaveResponse =
    | Saved                  // 200 success
    | InvalidEmail           // 400 "Valid email required"
    | MissingRescueId        // 400 "Missing rescue id"
    | AlertsNotConfigured    // 500
    | SaveFailed             // 500 "Unable to save alert right now"
    | SaveThrew              // the body was `null`: reading a field throws

  /** The fields of the body after defaulting, before validation. */
  datatype Fields = Fields(kind: string, email: string, frequency: string, rescueId: Option<string>, query: Json)

  function Field(payload: Json, key: string): Option<Json>
    requires !payload.JNull?
  {
    Get(payload, key).v
  }

  /** Lines 16-25 of the handler, for a body that is not `null`. */
  function FieldsOf(payload: Json): (f: Fields)
    requires !payload.JNull?
    ensures AllowedKind(f.kind) && AllowedFrequency(f.frequency)
    ensures f.rescueId.Some? ==> f.kind == RescueAnimals && TruthyOpt(Field(payload, "rescueId"))
  {
    var kind := KindOf(ToStr(Coalesce(Field(payload, "kind"), JStr(RescueDirectory))));
    var rid := Field(payload, "rescueId");
    Fields(
      kind,
      NormalizeEmail(ToStr(Coalesce(Field(payload, "email"), JStr("")))),
      FrequencyOf(ToStr(Coalesce(Field(payload, "frequency"), JStr(Daily)))),
      if kind == RescueAnimals && TruthyOpt(rid) then Some(ToStr(rid.value)) else None,
      Coalesce(Field(payload, "query"), Coalesce(Field(payload, "query_params"), EmptyObject)))
  }

  /** The two validation rules, in the order the handler checks them. */
  function Validate(f: Fields): (r: Option<SaveResponse>)
    ensures r == Some(InvalidEmail) <==> f.email == [] || !HasChar(f.email, '@')
    ensures r == Some(MissingRescueId) <==>
      f.email != [] && HasChar(f.email, '@') && f.kind == RescueAnimals && (f.rescueId.None? || f.rescueId.value == [])
    ensures r.None? || r == Some(InvalidEmail) || r == Some(MissingRescueId)
  {
    if f.email == [] || !HasChar(f.email, '@') then Some(InvalidEmail)
    else if f.kind == RescueAnimals && (f.rescueId.None? || f.rescueId.value == []) then Some(MissingRescueId)
    else None
  }

  /** `POST`: `configured` says whether the service client exists and
      `insertFails` is the store's answer; `path` and `now` are the request
      path and the clock's ISO string. The alerts table is a sequence. */
  function Post(payload: Json, configured: bool, insertFails: bool, path: string, now: string, table: seq<Alert>)
    : (r: (SaveResponse, seq<Alert>))
    ensures r.0 != Saved ==> r.1 == table
    ensures payload.JNull? <==> r.0 == SaveThrew
    ensures r.0 == Saved ==> |r.1| == |table| + 1 && r.1[..|table|] == table
  {
    if payload.JNull? then (SaveThrew, table)
    else
      var f := FieldsOf(payload);
      var v := Validate(f);
      if v.Some? then (v.value, table)
      else if !configured then (AlertsNotConfigured, table)
      else if insertFails then (SaveFailed, table)
      else (Saved, table + [Alert(f.kind, f.rescueId, f.email, f.frequency, QueryParams(f.query, path, now))])
  }

  /** What a stored alert guarantees about itself. */
  predicate WellFormed(a: Alert, path: string, now: string) {
    && AllowedKind(a.kind)
    && AllowedFrequency(a.frequency)
    && a.email != [] && HasChar(a.email, '@') && NormalizeEmail(a.email) == a.email
    && (a.rescueId.Some? <==> a.kind == RescueAnimals)
    && (a.rescueId.Some? ==> a.rescueId.value != [])
    && SourcePathKey in a.queryParams && a.queryParams[SourcePathKey] == JStr(path)
    && CreatedAtKey in a.queryParams && a.queryParams[CreatedAtKey] == JStr(now)
  }

  /** The row built from fields that passed validation is well formed. */
  lemma ValidFieldsWellFormed(payload: Json, path: string, now: string)
    requires !payload.JNull? && Validate(FieldsOf(payload)).None?
    ensures var f := FieldsOf(payload);
      WellFormed(Alert(f.kind, f.rescueId, f.email, f.frequency, QueryParams(f.query, path, now)), path, now)
  {
    var f := FieldsOf(payload);
    assert f.rescueId.Some? <==> f.kind == RescueAnimals;
    var raw := ToStr(Coalesce(Field(payload, "email"), JStr("")));
    assert f.email == NormalizeEmail(raw);
    NormalizeEmailIdempotent(raw);
  }

  /** Every alert the handler stores is well formed. */
  lemma PostStoresWellFormed(payload: Json, configured: bool, insertFails: bool, path: string, now: string, table: seq<Alert>)
    ensures var (resp, t) := Post(payload, configured, insertFails, path, now, table);
      resp == Saved ==> WellFormed(t[|table|], path, now)
  {
    if !payload.JNull? && Validate(FieldsOf(payload)).None? && configured && !insertFails {
      var f := FieldsOf(payload);
      var a := Alert(f.kind, f.rescueId, f.email, f.frequency, QueryParams(f.query, path, now));
      assert Post(payload, configured, insertFails, path, now, table) == (Saved, table + [a]);
      assert (table + [a])[|table|] == a;
      ValidFieldsWellFormed(payload, path, now);
    }
  }

  /** Only `rescue_animals` alerts carry a rescue id, and such an alert is
      refused with 400 when the body's `rescueId` is falsy. */
  lemma RescueAnimalsNeedsId(payload: Json, configured: bool, insertFails: bool, path: string, now: string, table: seq<Alert>)
    requires !payload.JNull?
    requires FieldsOf(payload).kind == RescueAnimals && !TruthyOpt(Field(payload, "rescueId"))
    requires NormalizeEmail(ToStr(Coalesce(Field(payload, "email"), JStr("")))) != []
    requires HasChar(NormalizeEmail(ToStr(Coalesce(Field(payload, "email"), JStr("")))), '@')
    ensures Post(payload, configured, insertFails, path, now, table) == (MissingRescueId, table)
  {
  }

  /** The body that re-submits a stored alert. */
  function Resubmit(a: Alert): Json {
    JObj(map[
      "kind" := JStr(a.kind),
      "email" := JStr(a.email),
      "frequency" := JStr(a.frequency),
      "rescueId" := (if a.rescueId.Some? then JStr(a.rescueId.value) else JNull),
      "query" := JObj(a.queryParams)])
  }

  lemma KeysDistinct()
    ensures "kind" != "email" && "kind" != "frequency" && "kind" != "rescueId" && "kind" != "query"
    ensures "email" != "frequency" && "email" != "rescueId" && "email" != "query"
    ensures "frequency" != "rescueId" && "frequency" != "query" && "rescueId" != "query"
  {
    assert |"kind"| == 4 && |"email"| == 5 && |"frequency"| == 9 && |"rescueId"| == 8 && |"query"| == 5;
    assert "email"[0] != "query"[0];
  }

  /** Re-writing the two trailing keys with the values they already hold
      leaves the map as it was. */
  lemma QueryParamsFixpoint(m: map<string, Json>, path: string, now: string)
    requires SourcePathKey in m && m[SourcePathKey] == JStr(path)
    requires CreatedAtKey in m && m[CreatedAtKey] == JStr(now)
    ensures QueryParams(JObj(m), path, now) == m
  {
    var q := QueryParams(JObj(m), path, now);
    assert q.Keys == m.Keys;
    assert forall k :: k in m ==> q[k] == m[k];
  }

  lemma ResubmitFields(a: Alert)
    ensures Field(Resubmit(a), "kind") == Some(JStr(a.kind))
    ensures Field(Resubmit(a), "email") == Some(JStr(a.email))
    ensures Field(Resubmit(a), "frequency") == Some(JStr(a.frequency))
    ensures Field(Resubmit(a), "rescueId") == Some(if a.rescueId.Some? then JStr(a.rescueId.value) else JNull)
    ensures Field(Resubmit(a), "query") == Some(JObj(a.queryParams))
  {
    KeysDistinct();
  }

  /** A string property reads back as itself, whatever the default. */
  lemma StringField(o: Option<Json>, s: string, default: Json)
    requires o == Some(JStr(s))
    ensures ToStr(Coalesce(o, default)) == s
  {
  }

  /** The body of a re-submitted alert defaults and normalises to the alert's own fields. */
  lemma FieldsOfResubmit(a: Alert)
    requires AllowedKind(a.kind) && AllowedFrequency(a.frequency) && NormalizeEmail(a.email) == a.email
    requires (a.rescueId.Some? <==> a.kind == RescueAnimals) && (a.rescueId.Some? ==> a.rescueId.value != [])
    ensures FieldsOf(Resubmit(a)) == Fields(a.kind, a.email, a.frequency, a.rescueId, JObj(a.queryParams))
  {
    var p := Resubmit(a);
    ResubmitFields(a);
    var f := FieldsOf(p);
    StringField(Field(p, "kind"), a.kind, JStr(RescueDirectory));
    StringField(Field(p, "email"), a.email, JStr(""));
    StringField(Field(p, "frequency"), a.frequency, JStr(Daily));
    assert f.kind == a.kind;
    assert f.email == a.email;
    assert f.frequency == a.frequency;
    assert f.rescueId == a.rescueId by {
      assert f.kind == a.kind;
      assert TruthyOpt(Field(p, "rescueId")) <==> a.rescueId.Some?;
    }
    assert f.query == JObj(a.queryParams);
  }

  /** Re-submitting a stored alert from the same path at the same time stores
      the same alert again: the normalisation is a fixed point on its output. */
  lemma ResubmitRoundTrip(a: Alert, path: string, now: string, table: seq<Alert>)
    requires WellFormed(a, path, now)
    ensures Post(Resubmit(a), true, false, path, now, table) == (Saved, table + [a])
  {
    var p := Resubmit(a);
    FieldsOfResubmit(a);
    var f := FieldsOf(p);
    assert Validate(f).None?;
    QueryParamsFixpoint(a.queryParams, path, now);
    assert Alert(f.kind, f.rescueId, f.email, f.frequency, QueryParams(f.query, path, now)) == a;
  }
}
