/** The operator allow-list (src/lib/server/admin.ts). The `ADMIN_EMAILS`
    setting is a parameter: None when it is unset. */
module Admin {
  import opened Wrappers
  import opened Strings
  import Form

  /** `(ADMIN_EMAILS ?? '').split(',').map(e => e.trim().toLowerCase()).filter(Boolean)`. */
  function AllowList(adminEmails: Option<string>): (r: seq<string>)
    ensures forall k :: 0 <= k < |r| ==> r[k] != []
  {
    NonEmpty(LowerAll(TrimAll(Split(adminEmails.GetOr(""), ','))))
  }

  /** `isAdminEmail`: a non-empty address whose lower-cased form is on the list.
      The address itself is not trimmed. */
  function IsAdminEmail(email: Option<string>, adminEmails: Option<string>): (r: bool)
    ensures email.None? || email == Some("") ==> !r
  {
    email.Some? && email.value != [] && Lower(email.value) in AllowList(adminEmails)
  }

  lemma {:induction false} NonEmptyLowerAll(xs: seq<string>)
    ensures NonEmpty(LowerAll(xs)) == LowerAll(NonEmpty(xs))
  {
    if xs != [] {
      NonEmptyLowerAll(xs[1..]);
      assert LowerAll(xs)[1..] == LowerAll(xs[1..]);
      assert Lower(xs[0]) == [] <==> xs[0] == [];
    }
  }

  /** The list is the comma-separated tag list of the setting, lower-cased. */
  lemma AllowListIsLoweredTags(s: string)
    ensures AllowList(Some(s)) == LowerAll(Form.ParseTagList(Form.Text(s)))
  {
    NonEmptyLowerAll(TrimAll(Split(s, ',')));
  }

  /** An allow-list entry: non-empty, trimmed, comma-free and lower-case. */
  predicate CleanEntry(e: string) {
    Form.CleanTag(e) && Lower(e) == e
  }

  /** Lower-casing a clean tag gives a clean entry. */
  lemma LowerCleanTag(t: string)
    requires Form.CleanTag(t)
    ensures CleanEntry(Lower(t))
  {
    LowerKeepsSpace(t);
    LowerIdempotent(t);
    var l := Lower(t);
    assert !HasChar(l, ',') by {
      forall i | 0 <= i < |l| ensures l[i] != ',' {
        assert l[i] == LowerChar(t[i]);
      }
    }
  }

  /** Every entry is non-empty, trimmed, comma-free and lower-case. */
  lemma AllowListEntriesClean(s: string)
    ensures forall k :: 0 <= k < |AllowList(Some(s))| ==> CleanEntry(AllowList(Some(s))[k])
  {
    var tags := Form.ParseTagList(Form.Text(s));
    AllowListIsLoweredTags(s);
    forall k | 0 <= k < |tags| ensures CleanEntry(Lower(tags[k])) {
      LowerCleanTag(tags[k]);
    }
  }

  /** With `ADMIN_EMAILS` unset (or blank), nobody is an operator. */
  lemma UnsetRejectsAll(email: Option<string>)
    ensures AllowList(None) == []
    ensures !IsAdminEmail(email, None)
  {
    assert Split("", ',') == [""];
    assert Trim("") == "";
    assert TrimAll([""]) == [""];
    assert LowerAll([""]) == [""];
    assert NonEmpty([""]) == [];
  }

  /** The candidate is not trimmed: an address with leading whitespace never
      matches, since every entry was trimmed. */
  lemma LeadingSpaceNeverAdmin(email: string, adminEmails: Option<string>)
    requires email != [] && IsSpace(email[0])
    ensures !IsAdminEmail(Some(email), adminEmails)
  {
    if adminEmails.Some? {
      AllowListEntriesClean(adminEmails.value);
      LowerKeepsSpace(email);
    } else {
      UnsetRejectsAll(Some(email));
    }
  }

  /** For a setting written as clean lower-case entries joined by ",", an
      address is an operator exactly when its lower-cased form is one of them. */
  lemma AdminOfJoinedList(entries: seq<string>, email: string)
    requires Form.AllClean(entries)
    requires forall k :: 0 <= k < |entries| ==> Lower(entries[k]) == entries[k]
    ensures IsAdminEmail(Some(email), Some(Join(entries, ","))) <==> email != [] && Lower(email) in entries
  {
    AllowListIsLoweredTags(Join(entries, ","));
    Form.ParseTagListJoin(entries);
    assert LowerAll(entries) == entries;
  }
}
