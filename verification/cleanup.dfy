/** The maintenance endpoint that purges stale shortlists
    (src/routes/api/admin/cleanup-tokens/+server.ts). The clock is a
    parameter in milliseconds; the shortlists table is a sequence of rows. */
module Cleanup {
  import opened Wrappers

  /** Thirty days in milliseconds: `30 * 24 * 60 * 60 * 1000`. */
  const ThirtyDays := 2_592_000_000

  /** A `shortlists` row, seen through the only columns the cleanup reads: id,
      `expires_at` and `revoked_at`. The share and revoke handlers see the same
      table through their own columns (`Shortlists.ShortlistTable`,
      `Shortlists.RevocationTable`). */
  datatype ShortlistRow = ShortlistRow(id: string, expiresAt: Option<int>, revokedAt: Option<int>)

  /** `header ?? query`: an empty header still wins over the query parameter. */
  function ProvidedToken(header: Option<string>, query: Option<string>): (r: Option<string>)
    ensures header.Some? ==> r == header
    ensures header.None? ==> r == query
  {
    if header.Some? then header else query
  }

  /** Allowed only when a maintenance token is configured (non-empty) and the
      provided one equals it. */
  predicate Authorized(configured: Option<string>, header: Option<string>, query: Option<string>) {
    configured.Some? && configured.value != [] && ProvidedToken(header, query) == configured
  }

  /** `dryRun` holds unless the parameter is exactly "0" or "false". */
  predicate DryRun(param: Option<string>) {
    param != Some("0") && param != Some("false")
  }

  function Cutoff(now: int): (c: int)
    ensures c < now
  {
    now - ThirtyDays
  }

  /** `expires_at.lt.cutoff,revoked_at.lt.cutoff`: a null column never compares. */
  predicate Candidate(row: ShortlistRow, cutoff: int) {
    (row.expiresAt.Some? && row.expiresAt.value < cutoff)
    || (row.revokedAt.Some? && row.revokedAt.value < cutoff)
  }

  function CountCandidates(rows: seq<ShortlistRow>, cutoff: int): (n: nat)
    ensures n <= |rows|
  {
    if rows == [] then 0
    else (if Candidate(rows[0], cutoff) then 1 else 0) + CountCandidates(rows[1..], cutoff)
  }

  /** The rows a delete with that filter leaves, in order. */
  function Survivors(rows: seq<ShortlistRow>, cutoff: int): (r: seq<ShortlistRow>)
    ensures forall x :: x in r <==> x in rows && !Candidate(x, cutoff)
  {
    if rows == [] then []
    else if Candidate(rows[0], cutoff) then Survivors(rows[1..], cutoff)
    else [rows[0]] + Survivors(rows[1..], cutoff)
  }

  /** Every row is either deleted and counted, or kept. */
  lemma {:induction false} SurvivorsCount(rows: seq<ShortlistRow>, cutoff: int)
    ensures |Survivors(rows, cutoff)| + CountCandidates(rows, cutoff) == |rows|
  {
    if rows != [] {
      SurvivorsCount(rows[1..], cutoff);
    }
  }

  datatype CleanupResponse =
    | Unauthorized                                // 401
    | CountFailed                                 // 500 "Unable to calculate cleanup set"
    | WouldDelete(deletable: nat, cutoff: int)    // 200 dry run
    | DeleteFailed                                // 500 "Cleanup failed"
    | DeletedRows(deleted: nat, cutoff: int)      // 200

  /** `GET`: `countError` and `deleteError` are the store's answers. */
  function Get(configured: Option<string>, header: Option<string>, query: Option<string>, dryRunParam: Option<string>,
               now: int, countError: bool, deleteError: bool, rows: seq<ShortlistRow>)
    : (r: (CleanupResponse, seq<ShortlistRow>))
    ensures !Authorized(configured, header, query) ==> r == (Unauthorized, rows)
    ensures !r.0.DeletedRows? ==> r.1 == rows
    ensures r.0.WouldDelete? ==> r.0.deletable == CountCandidates(rows, Cutoff(now)) && DryRun(dryRunParam)
    ensures r.0.DeletedRows? ==> !DryRun(dryRunParam) && r.1 == Survivors(rows, Cutoff(now))
    ensures r.0.DeletedRows? ==> r.0.deleted == CountCandidates(rows, Cutoff(now))
    ensures r.0.WouldDelete? || r.0.DeletedRows? ==> r.0.cutoff == now - ThirtyDays
  {
    if !Authorized(configured, header, query) then (Unauthorized, rows)
    else
      var cutoff := Cutoff(now);
      if countError then (CountFailed, rows)
      else if DryRun(dryRunParam) then (WouldDelete(CountCandidates(rows, cutoff), cutoff), rows)
      else if deleteError then (DeleteFailed, rows)
      else (DeletedRows(CountCandidates(rows, cutoff), cutoff), Survivors(rows, cutoff))
  }

  /** After a real run, no stale row remains, every fresh row is kept, and
      the reported count accounts for every row removed. */
  lemma CleanupRemovesExactlyCandidates(configured: Option<string>, header: Option<string>, query: Option<string>,
                                        dryRunParam: Option<string>, now: int, rows: seq<ShortlistRow>)
    requires Authorized(configured, header, query) && !DryRun(dryRunParam)
    ensures var (resp, t) := Get(configured, header, query, dryRunParam, now, false, false, rows);
      && resp.DeletedRows?
      && (forall x :: x in t ==> !Candidate(x, now - ThirtyDays))
      && (forall x :: x in rows && !Candidate(x, now - ThirtyDays) ==> x in t)
      && resp.deleted + |t| == |rows|
  {
    SurvivorsCount(rows, Cutoff(now));
  }

  /** Running the purge again at the same time deletes nothing more. */
  lemma {:induction false} SurvivorsIdempotent(rows: seq<ShortlistRow>, cutoff: int)
    ensures Survivors(Survivors(rows, cutoff), cutoff) == Survivors(rows, cutoff)
    ensures CountCandidates(Survivors(rows, cutoff), cutoff) == 0
  {
    if rows != [] {
      SurvivorsIdempotent(rows[1..], cutoff);
      if !Candidate(rows[0], cutoff) {
        assert ([rows[0]] + Survivors(rows[1..], cutoff))[1..] == Survivors(rows[1..], cutoff);
      }
    }
  }

  /** The header token is used even when it is empty, so a correct query
      token does not rescue a request that also sends an empty header. */
  lemma HeaderTakesPrecedence(configured: string, query: Option<string>)
    requires configured != []
    ensures !Authorized(Some(configured), Some(""), query)
    ensures Authorized(Some(configured), None, Some(configured))
  {
  }
}
