/** Team management (src/lib/server/team.ts) over two abstract tables: the
    invitations, in the order the store returns them, and the memberships,
    keyed by rescue and user. Timestamps are integers; the clock, the random
    token and the store's answers are parameters. */
module Team {
  import opened Wrappers
  import opened Seqs
  import opened Sorting
  import Animals

  datatype Invitation = Invitation(
    id: string,
    rescueId: string,
    email: string,
    role: string,
    token: string,
    createdBy: string,
    createdAt: int,
    expiresAt: int,
    acceptedAt: Option<int>,
    canceledAt: Option<int>)

  /** A `rescue_members` row's key; the role is the value. */
  datatype MemberKey = MemberKey(rescueId: string, userId: string)

  type Members = map<MemberKey, string>

  /** An invitation that `acceptInvitation` will look up: matching token,
      `accepted_at` null and not expired at `now`. `canceled_at` is not consulted. */
  predicate Acceptable(inv: Invitation, token: string, now: int) {
    inv.token == token && inv.acceptedAt.None? && inv.expiresAt >= now
  }

  /** The rows the lookup query selects, in table order. */
  function AcceptableRows(invites: seq<Invitation>, token: string, now: int): (r: seq<Invitation>)
    ensures forall x :: x in r <==> x in invites && Acceptable(x, token, now)
  {
    if invites == [] then []
    else if Acceptable(invites[0], token, now) then [invites[0]] + AcceptableRows(invites[1..], token, now)
    else AcceptableRows(invites[1..], token, now)
  }

  /** The lookup with `.maybeSingle()`. */
  function Lookup(invites: seq<Invitation>, token: string, now: int): (r: Animals.Single<Invitation>)
    ensures r.Found? ==> r.row in invites && Acceptable(r.row, token, now)
    ensures r.Found? ==> forall x :: x in invites && Acceptable(x, token, now) ==> x == r.row
    ensures r.NoRow? <==> forall inv :: inv in invites ==> !Acceptable(inv, token, now)
  {
    var rows := AcceptableRows(invites, token, now);
    assert rows == [] <==> forall inv :: inv in invites ==> !Acceptable(inv, token, now) by {
      if rows != [] { assert rows[0] in rows; }
    }
    Animals.MaybeSingle(rows)
  }

  /** Sets `accepted_at` on every row with the given id. */
  function MarkAccepted(invites: seq<Invitation>, id: string, now: int): (r: seq<Invitation>)
    ensures |r| == |invites|
    ensures forall k :: 0 <= k < |r| ==>
      r[k] == if invites[k].id == id then invites[k].(acceptedAt := Some(now)) else invites[k]
  {
    if invites == [] then []
    else
      ([if invites[0].id == id then invites[0].(acceptedAt := Some(now)) else invites[0]]
       + MarkAccepted(invites[1..], id, now))
  }

  datatype AcceptError = LookupFailed | NotFoundOrExpired | MemberUpsertFailed | AcceptUpdateFailed

  /** `{ error, invite }`: the invitation is reported once the membership exists. */
  datatype AcceptResult = AcceptResult(error: Option<AcceptError>, invite: Option<Invitation>)

  datatype TeamState = TeamState(invites: seq<Invitation>, members: Members)

  /** `acceptInvitation(token, userId)`: `lookupError`, `upsertError` and
      `updateError` are the store's answers to the three statements. */
  function Accept(s: TeamState, token: string, userId: string, now: int,
                  lookupError: bool, upsertError: bool, updateError: bool): (r: (AcceptResult, TeamState))
    ensures r.0.invite.None? ==> r.1 == s
    ensures r.0.error.None? <==> r.0.invite.Some? && !updateError
    ensures r.0.invite.Some? ==>
      && r.0.invite.value in s.invites && Acceptable(r.0.invite.value, token, now)
      && r.1.members == s.members[MemberKey(r.0.invite.value.rescueId, userId) := r.0.invite.value.role]
  {
    if lookupError then (AcceptResult(Some(LookupFailed), None), s)
    else
      match Lookup(s.invites, token, now)
      case NoRow => (AcceptResult(Some(NotFoundOrExpired), None), s)
      case TooManyRows => (AcceptResult(Some(LookupFailed), None), s)
      case Found(inv) =>
        if upsertError then (AcceptResult(Some(MemberUpsertFailed), None), s)
        else
          var members := s.members[MemberKey(inv.rescueId, userId) := inv.role];
          if updateError then (AcceptResult(Some(AcceptUpdateFailed), Some(inv)), TeamState(s.invites, members))
          else (AcceptResult(None, Some(inv)), TeamState(MarkAccepted(s.invites, inv.id, now), members))
  }

  /** A failed membership upsert leaves both tables, and so the invitation's
      `accepted_at`, as they were. */
  lemma UpsertFailureKeepsInvite(s: TeamState, token: string, userId: string, now: int, updateError: bool)
    ensures Accept(s, token, userId, now, false, true, updateError).1 == s
    ensures Accept(s, token, userId, now, false, true, updateError).0.error.Some?
  {
  }

  /** Only the accepting user's membership in the invitation's rescue changes. */
  lemma AcceptTouchesOneMembership(s: TeamState, token: string, userId: string, now: int,
                                   lookupError: bool, upsertError: bool, updateError: bool, k: MemberKey)
    requires k in s.members
    requires Accept(s, token, userId, now, lookupError, upsertError, updateError).0.invite.Some? ==>
      k != MemberKey(Accept(s, token, userId, now, lookupError, upsertError, updateError).0.invite.value.rescueId, userId)
    ensures var t := Accept(s, token, userId, now, lookupError, upsertError, updateError).1;
      k in t.members && t.members[k] == s.members[k]
  {
  }

  /** Marking the one acceptable row accepted leaves no acceptable row with
      that token, now or later. */
  lemma MarkAcceptedClears(invites: seq<Invitation>, inv: Invitation, token: string, now: int, later: int)
    requires now <= later
    requires forall x :: x in invites && Acceptable(x, token, now) ==> x == inv
    ensures forall x :: x in MarkAccepted(invites, inv.id, now) ==> !Acceptable(x, token, later)
  {
    var t := MarkAccepted(invites, inv.id, now);
    forall x | x in t ensures !Acceptable(x, token, later) {
      var k :| 0 <= k < |t| && t[k] == x;
      var y := invites[k];
      if y.id != inv.id {
        assert x == y && y in invites;
      }
    }
  }

  /** An invitation is single use: once accepted, the same token finds nothing
      at that time or later. */
  lemma AcceptIsSingleUse(s: TeamState, token: string, userId: string, now: int, later: int, other: string)
    requires Accept(s, token, userId, now, false, false, false).0.error.None?
    requires now <= later
    ensures Lookup(Accept(s, token, userId, now, false, false, false).1.invites, token, later).NoRow?
    ensures Accept(Accept(s, token, userId, now, false, false, false).1, token, other, later, false, false, false).0.error
      == Some(NotFoundOrExpired)
  {
    var inv := Lookup(s.invites, token, now).row;
    MarkAcceptedClears(s.invites, inv, token, now, later);
  }

  /** `canceled_at` is not consulted: a cancelled but unexpired, unaccepted
      invitation that is the only one with its token can still be accepted. */
  lemma CanceledInviteAccepted(inv: Invitation, members: Members, userId: string, now: int)
    requires inv.canceledAt.Some? && inv.acceptedAt.None? && inv.expiresAt >= now
    ensures Accept(TeamState([inv], members), inv.token, userId, now, false, false, false).0
      == AcceptResult(None, Some(inv))
  {
    assert AcceptableRows([inv], inv.token, now) == [inv];
  }

  /** Sets `canceled_at` on every row with the given id; a store error
      changes nothing. */
  function Cancel(invites: seq<Invitation>, id: string, now: int, dbError: bool): (r: seq<Invitation>)
    ensures |r| == |invites|
    ensures forall k :: 0 <= k < |r| ==>
      r[k] == if invites[k].id == id && !dbError then invites[k].(canceledAt := Some(now)) else invites[k]
  {
    if dbError || invites == [] then invites
    else
      ([if invites[0].id == id then invites[0].(canceledAt := Some(now)) else invites[0]]
       + Cancel(invites[1..], id, now, dbError))
  }

  /** `createInvitation`: the store assigns `id`, `created_at` and
      `expires_at` (passed in here); `token` is the random UUID. None when the
      insert fails. */
  function Create(invites: seq<Invitation>, rescueId: string, createdBy: string, email: string, role: string,
                  token: string, id: string, createdAt: int, expiresAt: int, insertFails: bool)
    : (r: (Option<Invitation>, seq<Invitation>))
    ensures insertFails ==> r == (None, invites)
    ensures !insertFails ==> r.0.Some? && r.1 == invites + [r.0.value]
    ensures r.0.Some? ==>
      var inv := r.0.value;
      inv.rescueId == rescueId && inv.createdBy == createdBy && inv.email == email && inv.role == role
      && inv.token == token && inv.acceptedAt.None? && inv.canceledAt.None?
  {
    if insertFails then (None, invites)
    else
      var inv := Invitation(id, rescueId, email, role, token, createdBy, createdAt, expiresAt, None, None);
      (Some(inv), invites + [inv])
  }

  predicate PendingFor(rescueId: string, inv: Invitation) {
    inv.rescueId == rescueId && inv.acceptedAt.None? && inv.canceledAt.None?
  }

  function NewestFirst(inv: Invitation): int { -inv.createdAt }

  /** The fallback query of `listInvitations`: the rescue's invitations that
      are neither accepted nor cancelled, newest first. */
  function PendingInvitations(invites: seq<Invitation>, rescueId: string): (r: seq<Invitation>)
    ensures forall x :: x in r <==> x in invites && PendingFor(rescueId, x)
    ensures multiset(r) == multiset(PendingRows(invites, rescueId))
    ensures forall i, j :: 0 <= i < j < |r| ==> r[i].createdAt >= r[j].createdAt
  {
    var rows := SortBy(PendingRows(invites, rescueId), NewestFirst);
    assert forall x :: x in rows <==> x in multiset(PendingRows(invites, rescueId));
    assert forall i, j :: 0 <= i < j < |rows| ==> NewestFirst(rows[i]) <= NewestFirst(rows[j]);
    rows
  }

  /** The filtered rows before ordering. */
  function PendingRows(invites: seq<Invitation>, rescueId: string): (r: seq<Invitation>)
    ensures forall x :: x in r <==> x in invites && PendingFor(rescueId, x)
  {
    if invites == [] then []
    else if PendingFor(rescueId, invites[0]) then [invites[0]] + PendingRows(invites[1..], rescueId)
    else PendingRows(invites[1..], rescueId)
  }

  /** `listInvitations`: the pending-invitations view's rows, or the fallback
      query when the view fails (`view` is None). */
  function ListInvitations(view: Option<seq<Invitation>>, invites: seq<Invitation>, rescueId: string): (r: seq<Invitation>)
    ensures view.Some? ==> r == view.value
    ensures view.None? ==> r == PendingInvitations(invites, rescueId)
  {
    if view.Some? then view.value else PendingInvitations(invites, rescueId)
  }

  /** A cancelled invitation drops out of the fallback list and every other
      pending invitation stays. */
  lemma CancelLeavesPending(invites: seq<Invitation>, id: string, now: int, rescueId: string, inv: Invitation)
    ensures inv in PendingInvitations(Cancel(invites, id, now, false), rescueId) <==>
      inv.id != id && inv in PendingInvitations(invites, rescueId)
  {
    var c := Cancel(invites, id, now, false);
    if inv in c && PendingFor(rescueId, inv) {
      var k :| 0 <= k < |c| && c[k] == inv;
      assert invites[k].id != id;
    }
    if inv in invites && inv.id != id {
      var k :| 0 <= k < |invites| && invites[k] == inv;
      assert c[k] == inv;
    }
  }

  /** A newly created invitation is pending for its rescue. */
  lemma CreatedIsPending(invites: seq<Invitation>, rescueId: string, createdBy: string, email: string, role: string,
                         token: string, id: string, createdAt: int, expiresAt: int)
    ensures var (inv, t) := Create(invites, rescueId, createdBy, email, role, token, id, createdAt, expiresAt, false);
      inv.value in PendingInvitations(t, rescueId)
  {
    var (inv, t) := Create(invites, rescueId, createdBy, email, role, token, id, createdAt, expiresAt, false);
    assert inv.value in t;
  }

  /** `updateMemberRole`: only the row with that rescue and user changes; no
      row matching means no change. */
  function UpdateRole(members: Members, rescueId: string, userId: string, role: string): (r: Members)
    ensures r.Keys == members.Keys
    ensures forall k :: k in members && k != MemberKey(rescueId, userId) ==> r[k] == members[k]
    ensures MemberKey(rescueId, userId) in members ==> r[MemberKey(rescueId, userId)] == role
  {
    var key := MemberKey(rescueId, userId);
    if key in members then members[key := role] else members
  }

  /** `removeMember`: deletes exactly the row with that rescue and user. */
  function RemoveMember(members: Members, rescueId: string, userId: string): (r: Members)
    ensures r.Keys == members.Keys - {MemberKey(rescueId, userId)}
    ensures forall k :: k in r ==> r[k] == members[k]
  {
    members - {MemberKey(rescueId, userId)}
  }

  /** Updating a removed member's role does nothing. */
  lemma UpdateAfterRemove(members: Members, rescueId: string, userId: string, role: string)
    ensures UpdateRole(RemoveMember(members, rescueId, userId), rescueId, userId, role)
      == RemoveMember(members, rescueId, userId)
  {
  }

  /** Setting a member's role to the one it has changes nothing. */
  lemma UpdateSameRole(members: Members, rescueId: string, userId: string)
    requires MemberKey(rescueId, userId) in members
    ensures UpdateRole(members, rescueId, userId, members[MemberKey(rescueId, userId)]) == members
  {
  }
}
