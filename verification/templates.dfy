/** The inquiry emails (src/lib/email/templates.ts): the confirmation sent
    to the adopter and the notification sent to the rescue, as subject and
    plain text. */
module Templates {
  import opened Strings

  datatype InquiryTemplateInput = InquiryTemplateInput(
    animalName: string, rescueName: string, adopterName: string, adopterEmail: string,
    message: string, animalUrl: string, dashboardUrl: string)

  datatype EmailContent = EmailContent(subject: string, text: string)

  const AdopterSubjectPrefix := "We received your inquiry for "
  const AppliedFor := " applied for "

  /** `adopterName || 'there'`. */
  function Greeting(adopterName: string): (r: string)
    ensures r != []
    ensures adopterName != [] ==> r == adopterName
  {
    if adopterName != [] then adopterName else "there"
  }

  /** The greeting line that opens the adopter's text. */
  function AdopterOpening(adopterName: string): string {
    "Hi " + (Greeting(adopterName) + ",\n\n")
  }

  const AdopterClosing := "\n\nThank you for adopting!\n- HavenOS\n"

  /** The adopter's text from the message on; `message || ''` is the
      message itself. */
  function AdopterTail(i: InquiryTemplateInput): string {
    i.message + ("\n\nView the listing: " + (i.animalUrl + AdopterClosing))
  }

  /** The adopter's text up to the message. */
  function AdopterHead(i: InquiryTemplateInput): string {
    AdopterOpening(i.adopterName)
    + (i.rescueName + (" received your inquiry for " + (i.animalName + ". A rescue admin will reach out soon.\n\n")))
  }

  /** `buildAdopterInquiryTemplate`. */
  function BuildAdopterInquiryTemplate(i: InquiryTemplateInput): (e: EmailContent)
    ensures IsPrefix(AdopterSubjectPrefix, e.subject) && e.subject[|AdopterSubjectPrefix|..] == i.animalName
    ensures IsPrefix(AdopterOpening(i.adopterName), e.text)
  {
    EmailContent(AdopterSubjectPrefix + i.animalName, AdopterHead(i) + AdopterTail(i))
  }

  /** The greeting falls back to "there" exactly when the name is empty. */
  lemma AdopterGreeting(i: InquiryTemplateInput)
    ensures i.adopterName == [] ==> IsPrefix("Hi there,", BuildAdopterInquiryTemplate(i).text)
    ensures i.adopterName != [] ==> IsPrefix("Hi " + i.adopterName + ",", BuildAdopterInquiryTemplate(i).text)
  {
    var o := AdopterOpening(i.adopterName);
    var t := BuildAdopterInquiryTemplate(i).text;
    var g := "Hi " + Greeting(i.adopterName) + ",";
    assert o == g + "\n\n";
    assert t[..|g|] == o[..|g|] == g;
  }

  /** The adopter's text carries the message and the listing link. */
  lemma AdopterTextLinks(i: InquiryTemplateInput)
    ensures Contains(BuildAdopterInquiryTemplate(i).text, i.animalUrl)
    ensures Contains(BuildAdopterInquiryTemplate(i).text, i.message)
  {
    var h := AdopterHead(i);
    var url := i.animalUrl + AdopterClosing;
    ContainsNested(h, i.message, "\n\nView the listing: " + url);
    var b := h + (i.message + "\n\nView the listing: ");
    assert h + AdopterTail(i) == b + url;
    ContainsNested(b, i.animalUrl, AdopterClosing);
  }

  /** The rescue's text. */
  function RescueText(i: InquiryTemplateInput): string {
    "Hello " + (i.rescueName + (" team,\n\n" + (i.adopterName + (" (" + (i.adopterEmail + (") inquired about "
    + (i.animalName + (".\n\n" + (i.message + ("\n\nDashboard: " + (i.dashboardUrl + ("\nListing: "
    + (i.animalUrl + "\n")))))))))))))
  }

  /** `buildRescueNotificationTemplate`. */
  function BuildRescueNotificationTemplate(i: InquiryTemplateInput): (e: EmailContent)
    ensures IsPrefix(i.adopterName + AppliedFor, e.subject)
    ensures e.subject[|i.adopterName + AppliedFor|..] == i.animalName
  {
    EmailContent(i.adopterName + AppliedFor + i.animalName, RescueText(i))
  }

  /** The rescue's text carries the adopter's address, the dashboard link
      and the listing link. */
  lemma RescueTextLinks(i: InquiryTemplateInput)
    ensures Contains(BuildRescueNotificationTemplate(i).text, i.adopterEmail)
    ensures Contains(BuildRescueNotificationTemplate(i).text, i.dashboardUrl)
    ensures Contains(BuildRescueNotificationTemplate(i).text, i.animalUrl)
  {
    var t := RescueText(i);
    var url := i.animalUrl + "\n";
    var dash := i.dashboardUrl + ("\nListing: " + url);
    var email := i.adopterEmail + (") inquired about " + (i.animalName + (".\n\n" + (i.message + ("\n\nDashboard: " + dash)))));
    var a := "Hello " + (i.rescueName + (" team,\n\n" + (i.adopterName + " (")));
    assert t == a + email;
    ContainsNested(a, i.adopterEmail, ") inquired about " + (i.animalName + (".\n\n" + (i.message + ("\n\nDashboard: " + dash)))));
    var b := a + (i.adopterEmail + (") inquired about " + (i.animalName + (".\n\n" + (i.message + "\n\nDashboard: ")))));
    assert t == b + dash;
    ContainsNested(b, i.dashboardUrl, "\nListing: " + url);
    var c := b + (i.dashboardUrl + "\nListing: ");
    assert t == c + url;
    ContainsNested(c, i.animalUrl, "\n");
  }
}
