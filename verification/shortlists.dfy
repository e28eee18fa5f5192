/** Shared favourites lists (src/routes/api/shortlists/+server.ts and
    src/routes/api/shortlists/revoke/+server.ts): id normalisation, the
    random hex token, the three-attempt insert and revocation. */
module Shortlists {
  import opened Wrappers
  import opened Strings
  import opened Js
  import opened Seqs
  import opened Retry

  // ----- Ids -----

  /** `normalizeIds`: an array's elements through `String(v)`, empty strings dropped; [] for a non-array. */
  function NormalizeIds(v: Option<Json>): (r: seq<string>)
    ensures !(v.Some? && v.value.JArr?) ==> r == []
    ensures forall k :: 0 <= k < |r| ==> r[k] != []
    ensures v.Some? && v.value.JArr? ==> |r| <= |v.value.items|
  {
    if v.Some? && v.value.JArr? then NonEmpty(MapToStr(v.value.items)) else []
  }

  function MapToStr(items: seq<Json>): (r: seq<string>)
    ensures |r| == |items|
    ensures forall k :: 0 <= k < |items| ==> r[k] == ToStr(items[k])
  {
    if items == [] then [] else [ToStr(items[0])] + MapToStr(items[1..])
  }

  function Strs(ids: seq<string>): (r: seq<Json>)
    ensures |r| == |ids|
    ensures forall k :: 0 <= k < |ids| ==> r[k] == JStr(ids[k])
  {
    if ids == [] then [] else [JStr(ids[0])] + Strs(ids[1..])
  }

  /** An array of non-empty id strings normalises to itself, so nothing but empty ids is dropped. */
  lemma NormalizeStrings(ids: seq<string>)
    requires forall k :: 0 <= k < |ids| ==> ids[k] != []
    ensures NormalizeIds(Some(JArr(Strs(ids)))) == ids
  {
    assert MapToStr(Strs(ids)) == ids;
    NonEmptyOfNonEmpty(ids);
  }

  const Limit: nat := 50

  /** `dedupeAndLimit`: the distinct ids in first-occurrence order, at most `limit` of them. */
  function DedupeAndLimit(ids: seq<string>, limit: nat): (r: seq<string>)
    ensures |r| == if |Dedupe(ids)| < limit then |Dedupe(ids)| else limit
    ensures Distinct(r)
    ensures forall x :: x in r ==> x in ids
    ensures IsPrefixOf(r, Dedupe(ids))
  {
    var d := Dedupe(ids);
    var n := if |d| < limit then |d| else limit;
    assert forall x :: x in d[..n] ==> x in d;
    d[..n]
  }

  predicate IsPrefixOf(p: seq<string>, s: seq<string>) { |p| <= |s| && s[..|p|] == p }

  /** Under the limit, every distinct id is kept. */
  lemma DedupeAndLimitKeepsAll(ids: seq<string>, limit: nat)
    requires |Dedupe(ids)| <= limit
    ensures forall x :: x in ids ==> x in DedupeAndLimit(ids, limit)
  {
  }

  /** The ids of one payload field, or None when reading it throws (a null body). */
  function PayloadIds(payload: Json, field: string): (r: Option<seq<string>>)
    ensures r.None? <==> payload.JNull?
    ensures r.Some? ==> |r.value| <= Limit && Distinct(r.value)
  {
    match Get(payload, field)
    case Throws => None
    case Value(v) => Some(DedupeAndLimit(NormalizeIds(v), Limit))
  }

  // ----- Tokens -----

  newtype Byte = x: int | 0 <= x < 256

  predicate IsHexDigit(c: char) { '0' <= c <= '9' || 'a' <= c <= 'f' }

  function HexChar(n: int): (c: char)
    requires 0 <= n < 16
    ensures IsHexDigit(c)
  {
    if n < 10 then ('0' as int + n) as char else ('a' as int + n - 10) as char
  }

  function HexValue(c: char): (n: int)
    requires IsHexDigit(c)
    ensures 0 <= n < 16 && HexChar(n) == c
  {
    if c <= '9' then c as int - '0' as int else c as int - 'a' as int + 10
  }

  /** `Buffer.toString('hex')`: two lower-case hex digits per byte, high nibble first. */
  function ToHex(bytes: seq<Byte>): (s: string)
    ensures |s| == 2 * |bytes|
    ensures forall i :: 0 <= i < |s| ==> IsHexDigit(s[i])
  {
    if bytes == [] then []
    else [HexChar(bytes[0] as int / 16), HexChar(bytes[0] as int % 16)] + ToHex(bytes[1..])
  }

  /** The inverse of `ToHex`, or None for text that is not pairs of lower-case hex digits. */
  function FromHex(s: string): (r: Option<seq<Byte>>)
    decreases |s|
  {
    if s == [] then Some([])
    else if |s| == 1 || !IsHexDigit(s[0]) || !IsHexDigit(s[1]) then None
    else
      match FromHex(s[2..])
      case None => None
      case Some(rest) => Some([(HexValue(s[0]) * 16 + HexValue(s[1])) as Byte] + rest)
  }

  /** Hex encoding is invertible: a token determines the bytes it came from. */
  lemma {:induction false} HexRoundTrip(bytes: seq<Byte>)
    ensures FromHex(ToHex(bytes)) == Some(bytes)
  {
    if bytes != [] {
      var b := bytes[0] as int;
      var s := ToHex(bytes);
      assert s[2..] == ToHex(bytes[1..]);
      HexRoundTrip(bytes[1..]);
      assert HexValue(s[0]) == b / 16 && HexValue(s[1]) == b % 16 by {
        HexValueOf(b / 16);
        HexValueOf(b % 16);
      }
      assert bytes == [bytes[0]] + bytes[1..];
    }
  }

  lemma HexValueOf(n: int)
    requires 0 <= n < 16
    ensures HexValue(HexChar(n)) == n
  {
  }

  /** `randomBytes(12)`: the randomness is a parameter, constrained only in length. */
  type Bytes12 = b: seq<Byte> | |b| == 12 witness [0, 0, 0, 0, 0, 0, 0, 0, 0, 0, 0, 0]

  /** `buildToken`: 24 lower-case hex characters. */
  function BuildToken(bytes: Bytes12): (t: string)
    ensures |t| == 24
    ensures forall i :: 0 <= i < |t| ==> IsHexDigit(t[i])
  {
    ToHex(bytes)
  }

  // ----- Creating a shortlist -----

  datatype CreateResponse =
    | Shared(token: string, shareUrl: string)   // 200
    | NoFavorites                              // 400 "No favorites to share"
    | NotConfigured                            // 500
    | InsertFailed                             // 500 "Unable to create shortlist"
    | TypeErrorThrown                          // the body was `null`: reading a field throws

  /** A `shortlists` row as inserted: both id lists, and the `payload`
      snapshot repeating them with the time of the snapshot. */
  datatype Snapshot = Snapshot(animalIds: seq<string>, rescueIds: seq<string>, snapshotAt: string)
  datatype SharedList = SharedList(animalIds: seq<string>, rescueIds: seq<string>, payload: Snapshot)

  /** The `shortlists` table, keyed by token, through the columns the share
      handler writes (the id lists and the payload); `revoked_at` and
      `expires_at` are left to their defaults. */
  type ShortlistTable = map<string, SharedList>

  /** The row inserted for a set of favourites at time `now`. */
  function NewList(animalIds: seq<string>, rescueIds: seq<string>, now: string): (row: SharedList)
    ensures row.animalIds == row.payload.animalIds == animalIds
    ensures row.rescueIds == row.payload.rescueIds == rescueIds
    ensures row.payload.snapshotAt == now
  {
    SharedList(animalIds, rescueIds, Snapshot(animalIds, rescueIds, now))
  }

  /** The insert loop of the POST handler: at most three tokens are tried,
      and a new one only after the previous one collided. */
  method InsertShortlist(table: set<string>, bytes: nat -> Bytes12, fault: nat -> bool)
    returns (r: RetryResult<string>, inserts: nat)
    ensures 1 <= inserts <= 3
    ensures forall i :: 0 <= i < inserts - 1 ==> BuildToken(bytes(i)) in table
    ensures r.Stored? ==> r.key == BuildToken(bytes(inserts - 1)) && r.key !in table && !fault(inserts - 1)
    ensures r.Failed? ==> BuildToken(bytes(inserts - 1)) !in table && fault(inserts - 1)
    ensures r.Exhausted? <==> inserts == 3 && forall i :: 0 <= i < 3 ==> BuildToken(bytes(i)) in table
  {
    var keyFor := (i: nat) => BuildToken(bytes(i));
    var outcome := (i: nat, t: string) => KeyOutcome(table, fault, i, t);
    r, inserts := InsertWithRetry(3, keyFor, outcome);
  }

  /** The POST handler. `table` holds the existing shortlists; `bytes(i)` is
      the randomness of the i-th generated token and `now` the snapshot time.
      Returns the response, the new table and the number of inserts issued.
      A shared link names exactly the normalised favourites of the body. */
  method CreateShortlist(payload: Json, configured: bool, origin: string, now: string, table: ShortlistTable,
                         bytes: nat -> Bytes12, fault: nat -> bool)
    returns (resp: CreateResponse, table': ShortlistTable, inserts: nat)
    ensures inserts <= 3
    ensures resp.Shared? ==>
      (!payload.JNull? && resp.token !in table
       && table' == table[resp.token := NewList(PayloadIds(payload, "animals").value,
                                                PayloadIds(payload, "rescues").value, now)]
       && resp.shareUrl == origin + "/saved/" + resp.token && |resp.token| == 24)
    ensures !resp.Shared? ==> table' == table
    ensures payload.JNull? ==> resp == TypeErrorThrown && inserts == 0
    ensures resp == NoFavorites <==>
      (!payload.JNull? && PayloadIds(payload, "animals") == Some([]) && PayloadIds(payload, "rescues") == Some([]))
    ensures resp == NoFavorites || resp == NotConfigured ==> inserts == 0
    ensures resp == InsertFailed ==> inserts >= 1
    ensures resp == InsertFailed && inserts < 3 ==> fault(inserts - 1)
  {
    var animalIds := PayloadIds(payload, "animals");
    var rescueIds := PayloadIds(payload, "rescues");
    if animalIds.None? || rescueIds.None? {
      return TypeErrorThrown, table, 0;
    }
    if animalIds.value == [] && rescueIds.value == [] {
      return NoFavorites, table, 0;
    }
    if !configured {
      return NotConfigured, table, 0;
    }
    var r;
    r, inserts := InsertShortlist(table.Keys, bytes, fault);
    if r.Stored? {
      resp := Shared(r.key, origin + "/saved/" + r.key);
      table' := table[r.key := NewList(animalIds.value, rescueIds.value, now)];
    } else {
      resp := InsertFailed;
      table' := table;
    }
  }

  // ----- Revoking a shortlist -----

  /** The same `shortlists` table, through the only columns the revoke
      handler reads: token to `revoked_at` (None while active). */
  type RevocationTable = map<string, Option<int>>

  datatype RevokeResponse =
    | Revoked(revokedAt: int)   // 200 { success: true, revokedAt }
    | TokenRequired            // 400
    | RevokeNotConfigured      // 500
    | RevokeFailed             // 500 "Unable to revoke shortlist"
    | NotFound                 // 404 "Shortlist not found or already revoked"

  /** `String(payload?.token ?? '').trim()`. */
  function RevokeToken(payload: Json): string {
    Trim(ToStr(Coalesce(GetOpt(payload, "token"), JStr(""))))
  }

  /** The revoke handler once the token is read: the conditional update
      touches only an active shortlist with that token. */
  function RevokeWith(token: string, configured: bool, dbError: bool, now: int, table: RevocationTable)
    : (out: (RevokeResponse, RevocationTable))
    ensures token == [] ==> out.0 == TokenRequired
    ensures out.0.Revoked? <==> token != [] && configured && !dbError && token in table && table[token].None?
    ensures out.0.Revoked? ==> out.0.revokedAt == now && out.1 == table[token := Some(now)]
    ensures !out.0.Revoked? ==> out.1 == table
    ensures token != [] && configured && !dbError && (token !in table || table[token].Some?) ==> out.0 == NotFound
  {
    if token == [] then (TokenRequired, table)
    else if !configured then (RevokeNotConfigured, table)
    else if dbError then (RevokeFailed, table)
    else if token in table && table[token].None? then (Revoked(now), table[token := Some(now)])
    else (NotFound, table)
  }

  /** The revoke handler. `now` is the timestamp written; `dbError` is the
      store failing the update. */
  function Revoke(payload: Json, configured: bool, dbError: bool, now: int, table: RevocationTable)
    : (out: (RevokeResponse, RevocationTable))
    ensures var token := RevokeToken(payload);
      && (token == [] ==> out.0 == TokenRequired)
      && (out.0.Revoked? <==> token != [] && configured && !dbError && token in table && table[token].None?)
      && (out.0.Revoked? ==> out.0.revokedAt == now && out.1 == table[token := Some(now)])
      && (!out.0.Revoked? ==> out.1 == table)
      && (token != [] && configured && !dbError && (token !in table || table[token].Some?) ==> out.0 == NotFound)
  {
    RevokeWith(RevokeToken(payload), configured, dbError, now, table)
  }

  /** Revocation is single use: revoking the same token again finds nothing to revoke. */
  lemma RevokeTwice(token: string, now: int, later: int, table: RevocationTable)
    requires token != [] && token in table && table[token].None?
    ensures RevokeWith(token, true, false, later, RevokeWith(token, true, false, now, table).1)
      == (NotFound, RevokeWith(token, true, false, now, table).1)
  {
  }

  /** Only the revoked token's row changes. */
  lemma RevokeOnlyThatRow(token: string, now: int, table: RevocationTable, other: string)
    requires other != token
    ensures var t' := RevokeWith(token, true, false, now, table).1;
      (other in t' <==> other in table) && (other in table ==> t'[other] == table[other])
  {
  }
}
