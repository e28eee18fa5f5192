/** Sending the two inquiry emails (src/lib/email/resend.ts). The settings
    are parameters and each send is an oracle: what the mail service answers
    to it. */
module Resend {
  import opened Wrappers
  import opened Strings
  import Templates

  datatype InquiryEmailPayload = InquiryEmailPayload(
    inquiryId: string, animalId: string, animalName: string, rescueName: string, rescueEmail: string,
    adopterName: string, adopterEmail: string, message: string)

  datatype Urls = Urls(animalUrl: string, dashboardUrl: string)

  /** `.replace(/\/$/, '')`: one trailing slash removed, if there is one. */
  function StripTrailingSlash(s: string): (r: string)
    ensures r == s || r + "/" == s
    ensures |s| > 0 && s[|s| - 1] == '/' ==> r + "/" == s
  {
    if s != [] && s[|s| - 1] == '/' then s[..|s| - 1] else s
  }

  /** Only one slash goes: a base ending in "//" keeps one. */
  lemma StripsAtMostOne(s: string)
    ensures StripTrailingSlash(s + "//") == s + "/"
  {
    assert (s + "//")[..|s| + 1] == s + "/";
  }

  /** `APP_BASE_URL?.replace(/\/$/, '') || ''`. */
  function Base(appBaseUrl: Option<string>): string {
    if appBaseUrl.None? then "" else StripTrailingSlash(appBaseUrl.value)
  }

  const AnimalPath := "/animal/"
  const InquiryPath := "/admin/inquiries/"

  /** `buildUrls`. */
  function BuildUrls(appBaseUrl: Option<string>, animalId: string, inquiryId: string): (u: Urls)
    ensures IsPrefix(Base(appBaseUrl) + AnimalPath, u.animalUrl)
    ensures u.animalUrl[|Base(appBaseUrl) + AnimalPath|..] == animalId
    ensures IsPrefix(Base(appBaseUrl) + InquiryPath, u.dashboardUrl)
    ensures u.dashboardUrl[|Base(appBaseUrl) + InquiryPath|..] == inquiryId
  {
    var base := Base(appBaseUrl);
    Urls(base + AnimalPath + animalId, base + InquiryPath + inquiryId)
  }

  /** A base written with or without its trailing slash gives the same links. */
  lemma TrailingSlashIrrelevant(base: string, animalId: string, inquiryId: string)
    requires base == [] || base[|base| - 1] != '/'
    ensures BuildUrls(Some(base + "/"), animalId, inquiryId) == BuildUrls(Some(base), animalId, inquiryId)
  {
    assert (base + "/")[..|base|] == base;
  }

  /** What the mail service answers to one send: a result carrying the
      message id (if any) and an error (if any), or an exception. */
  datatype SendOutcome = Answered(id: Option<string>, error: Option<string>) | Threw

  /** A message handed to the mail service. */
  datatype Outgoing = Outgoing(to: string, subject: string, text: string)

  datatype DispatchResult = DispatchResult(
    adopterEmailId: Option<string>, rescueEmailId: Option<string>, errors: seq<string>, skipped: bool)

  const NotConfigured := "Resend is not configured"
  const RescueEmailMissing := "Rescue contact email missing"
  const AdopterSendFailed := "Failed to send adopter confirmation"
  const RescueSendFailed := "Failed to notify rescue"

  /** Whether a send failed, and so adds one error. */
  predicate Failed(o: SendOutcome) { o.Threw? || o.error.Some? }

  /** The error a failed send adds: the service's message, or the fixed text
      for an exception. */
  function SendError(o: SendOutcome, thrown: string): (e: seq<string>)
    ensures |e| == if Failed(o) then 1 else 0
  {
    match o
    case Threw => [thrown]
    case Answered(_, err) => if err.Some? then [err.value] else []
  }

  function SendId(o: SendOutcome): Option<string> {
    if o.Answered? then o.id else None
  }

  function TemplateInput(p: InquiryEmailPayload, urls: Urls): Templates.InquiryTemplateInput {
    Templates.InquiryTemplateInput(p.animalName, p.rescueName, p.adopterName, p.adopterEmail, p.message,
                                   urls.animalUrl, urls.dashboardUrl)
  }

  /** `dispatchInquiryEmails`. `apiKey` and `from` are the settings,
      `adopterSend` and `rescueSend` the service's answers. Returns the result
      and the messages handed to the service, in order. */
  function DispatchInquiryEmails(apiKey: Option<string>, from: Option<string>, appBaseUrl: Option<string>,
                                 p: InquiryEmailPayload, adopterSend: SendOutcome, rescueSend: SendOutcome)
    : (out: (DispatchResult, seq<Outgoing>))
    ensures var configured := apiKey.Some? && apiKey.value != [] && from.Some? && from.value != [];
      && (!configured ==> out.0 == DispatchResult(None, None, [NotConfigured], true) && out.1 == [])
      && (configured ==> !out.0.skipped)
    ensures !out.0.skipped ==>
      && 1 <= |out.1| <= 2
      && |out.0.errors| == (if Failed(adopterSend) then 1 else 0)
                           + (if p.rescueEmail == [] || Failed(rescueSend) then 1 else 0)
      && out.1[0].to == p.adopterEmail
      && (|out.1| == 2 <==> p.rescueEmail != [])
      && (p.rescueEmail != [] ==> out.1[1].to == p.rescueEmail)
      && (p.rescueEmail == [] ==> out.0.errors[|out.0.errors| - 1] == RescueEmailMissing && out.0.rescueEmailId.None?)
    ensures !out.0.skipped ==>
      var urls := BuildUrls(appBaseUrl, p.animalId, p.inquiryId);
      |out.1| >= 1
      && out.1[0].subject == Templates.BuildAdopterInquiryTemplate(TemplateInput(p, urls)).subject
      && (p.rescueEmail != [] ==>
          out.1[1].subject == Templates.BuildRescueNotificationTemplate(TemplateInput(p, urls)).subject)
  {
    if apiKey.None? || apiKey.value == [] || from.None? || from.value == [] then
      (DispatchResult(None, None, [NotConfigured], true), [])
    else
      var urls := BuildUrls(appBaseUrl, p.animalId, p.inquiryId);
      var input := TemplateInput(p, urls);
      var adopter := Templates.BuildAdopterInquiryTemplate(input);
      var rescue := Templates.BuildRescueNotificationTemplate(input);
      var errors := SendError(adopterSend, AdopterSendFailed);
      var first := Outgoing(p.adopterEmail, adopter.subject, adopter.text);
      if p.rescueEmail == [] then
        (DispatchResult(SendId(adopterSend), None, errors + [RescueEmailMissing], false), [first])
      else
        (DispatchResult(SendId(adopterSend), SendId(rescueSend), errors + SendError(rescueSend, RescueSendFailed), false),
         [first, Outgoing(p.rescueEmail, rescue.subject, rescue.text)])
  }

  /** When both sends succeed and the rescue has an address, nothing is
      reported and both ids come back. */
  lemma CleanDispatch(apiKey: string, from: string, appBaseUrl: Option<string>, p: InquiryEmailPayload,
                      adopterId: Option<string>, rescueId: Option<string>)
    requires apiKey != [] && from != [] && p.rescueEmail != []
    ensures DispatchInquiryEmails(Some(apiKey), Some(from), appBaseUrl, p, Answered(adopterId, None), Answered(rescueId, None)).0
      == DispatchResult(adopterId, rescueId, [], false)
  {
  }

  /** The adopter's error, if any, is reported before the rescue's. */
  lemma ErrorOrder(apiKey: string, from: string, appBaseUrl: Option<string>, p: InquiryEmailPayload,
                   adopterError: string, rescueError: string)
    requires apiKey != [] && from != [] && p.rescueEmail != []
    ensures DispatchInquiryEmails(Some(apiKey), Some(from), appBaseUrl, p,
                                  Answered(None, Some(adopterError)), Threw).0.errors
      == [adopterError, RescueSendFailed]
  {
  }
}
