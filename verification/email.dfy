/** Contact-email helpers (src/lib/utils/email.ts): the address check used
    for reply-to headers and the support-address fallback. */
module Email {
  import opened Wrappers
  import opened Strings

  const SupportEmail: string := "support@rescueos.net"

  /** The regex class [^@\s]. */
  predicate PlainChar(c: char) { c != '@' && !IsSpace(c) }

  predicate Plain(t: string) { forall i :: 0 <= i < |t| ==> PlainChar(t[i]) }

  /** A '.' with at least one character on each side. */
  predicate HasInnerDot(d: string) { exists k :: 0 < k < |d| - 1 && d[k] == '.' }

  /** `isValidEmail`: a falsy value is rejected; otherwise the text must
      match `^[^@\s]+@[^@\s]+\.[^@\s]+$`, decided here at the first '@'. */
  function IsValidEmail(v: Option<string>): (r: bool)
    ensures v == None || v == Some("") ==> !r
  {
    match v
    case None => false
    case Some(s) =>
      var a := IndexOf(s, "@");
      s != [] && a > 0 && Plain(s[..a]) && Plain(s[a + 1..]) && HasInnerDot(s[a + 1..])
  }

  /** The shape the pattern describes, stated positionally: a non-empty local
      part and a domain with an inner dot, around an '@', neither part holding
      '@' or whitespace. */
  ghost predicate EmailShape(s: string) {
    exists a :: 0 < a < |s| && s[a] == '@' && Plain(s[..a]) && Plain(s[a + 1..]) && HasInnerDot(s[a + 1..])
  }

  lemma AtIsFirst(s: string, a: int)
    requires 0 < a < |s| && s[a] == '@' && Plain(s[..a])
    ensures IndexOf(s, "@") == a
  {
    assert OccursAt(s, "@", a) by { assert s[a..a + 1] == [s[a]]; }
    forall j | 0 <= j < a ensures !OccursAt(s, "@", j) {
      assert s[..a][j] == s[j];
      assert s[j..j + 1] == [s[j]];
    }
  }

  /** The check accepts exactly the strings of the pattern's shape. */
  lemma IsValidEmailIff(s: string)
    ensures IsValidEmail(Some(s)) <==> EmailShape(s)
  {
    var a := IndexOf(s, "@");
    if IsValidEmail(Some(s)) {
      assert s[a..a + 1] == "@";
      assert s[a] == '@';
    }
    if EmailShape(s) {
      var b :| 0 < b < |s| && s[b] == '@' && Plain(s[..b]) && Plain(s[b + 1..]) && HasInnerDot(s[b + 1..]);
      AtIsFirst(s, b);
    }
  }

  lemma PlainHasNoAt(t: string)
    requires Plain(t)
    ensures multiset(t)['@'] == 0
  {
    forall i | 0 <= i < |t| ensures t[i] != '@' {
      assert PlainChar(t[i]);
    }
    assert '@' !in t;
  }

  /** A valid address holds exactly one '@'. */
  lemma ValidHasOneAt(s: string)
    requires IsValidEmail(Some(s))
    ensures multiset(s)['@'] == 1
  {
    IsValidEmailIff(s);
    var a :| 0 < a < |s| && s[a] == '@' && Plain(s[..a]) && Plain(s[a + 1..]) && HasInnerDot(s[a + 1..]);
    assert s == s[..a] + "@" + s[a + 1..];
    PlainHasNoAt(s[..a]);
    PlainHasNoAt(s[a + 1..]);
    OneAtBetween(s[..a], s[a + 1..]);
  }

  lemma OneAtBetween(x: string, y: string)
    requires multiset(x)['@'] == 0 && multiset(y)['@'] == 0
    ensures multiset(x + "@" + y)['@'] == 1
  {
    assert multiset(x + "@" + y) == multiset(x) + multiset{'@'} + multiset(y);
  }

  lemma LetterPlain(t: string)
    requires forall i :: 0 <= i < |t| ==> IsLowerAlpha(t[i]) || t[i] == '.'
    ensures Plain(t)
  {
  }

  lemma SupportEmailValid()
    ensures IsValidEmail(Some(SupportEmail))
  {
    var s := SupportEmail;
    assert s == "support" + "@" + "rescueos.net";
    assert s[..7] == "support";
    assert s[8..] == "rescueos.net";
    LetterPlain("support");
    LetterPlain("rescueos.net");
    assert "rescueos.net"[8] == '.';
    AtIsFirst(s, 7);
  }

  /** `replyToForRescue`: the contact address when it passes the check, else the support address. */
  function ReplyToForRescue(contact: Option<string>): (r: string)
    ensures IsValidEmail(Some(r))
    ensures IsValidEmail(contact) ==> Some(r) == contact
    ensures !IsValidEmail(contact) ==> r == SupportEmail
  {
    SupportEmailValid();
    if IsValidEmail(contact) then contact.value else SupportEmail
  }

  /** `canReplyByEmail`: a reply is possible exactly for addresses of the pattern's shape. */
  function CanReplyByEmail(contact: Option<string>): (r: bool)
    ensures r <==> contact.Some? && EmailShape(contact.value)
  {
    if contact.Some? then IsValidEmailIff(contact.value); IsValidEmail(contact)
    else false
  }
}
