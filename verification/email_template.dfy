/** The e-mail frame of includes/notification_helper.php
    (buildEmailTemplate) and its test mail (testEmailSending). */
module EmailTemplate {
  import opened Util
  import opened Php
  import opened Constants
  import opened Schema

  const TestSubject := "Test Email from Laundry System"
  const TestHeading := "<h2>Test Email</h2><p>Hello "
  const TestExplained := ",</p><p>This is a test email from your Laundry Management System.</p>"
  const TestWorking := "<p>If you received this, your email configuration is working!</p><p><strong>Sent at:</strong> "
  const TestEnd := "</p>"

  /** testEmailSending: one test mail to `email`, greeting `name`; `sentAt`
      is date('F d, Y h:i A'). */
  method TestEmailSending(mailer: Mailer, email: string, name: string, sentAt: string)
    modifies mailer
    ensures mailer.sent == old(mailer.sent)
      + [Mail(email, TestSubject, TestHeading + name + TestExplained + TestWorking + sentAt + TestEnd)]
  {
    mailer.Send(email, TestSubject, TestHeading + name + TestExplained + TestWorking + sentAt + TestEnd);
  }

  /** `$data[key] ?? default`. */
  function Field(data: map<string, string>, key: string, default: string): string {
    if key in data then data[key] else default
  }

  const TemplateOpen := "<div style='font-family: Arial, sans-serif; max-width: 600px; margin: 0 auto; padding: 20px;'>"
  const ButtonStyle := "' style='background: #2563eb; color: white; padding: 12px 24px; text-decoration: none; border-radius: 8px; font-weight: 600;'>"

  /** The call-to-action paragraph: a button labelled `text` linking to `link`. */
  const CtaOpen := "<p style='text-align: center; margin: 30px 0;'><a href='"
  const CtaClose := "</a></p>"

  function CtaBlock(link: string, text: string): string {
    CtaOpen + link + ButtonStyle + text + CtaClose
  }

  const FooterOpen := "<hr style='border: 1px solid #e5e7eb; margin: 30px 0;'><p style='color: #6b7280; font-size: 13px;'>© "
  const FooterClose := " Laundry Management System. All rights reserved.</p></div>"

  function TemplateFooter(year: string): string {
    FooterOpen + year + FooterClose
  }

  const HeadingOpen := "<h2 style='color: #2563eb;'>"
  const HelloOpen := "</h2><p>Hello <strong>"
  const HelloClose := "</strong>,</p>"

  function TemplateHead(subject: string, greeting: string, body: string): string {
    TemplateOpen + HeadingOpen + subject + HelloOpen + greeting + HelloClose + body
  }

  /** buildEmailTemplate($data): the framed e-mail; `year` is date('Y').
      The call-to-action block appears only for a truthy cta_link. */
  function BuildEmailTemplate(data: map<string, string>, year: string): string {
    var ctaLink := Field(data, "cta_link", "");
    TemplateHead(Field(data, "subject", "Notification"), Field(data, "greeting", "Customer"), Field(data, "body", ""))
    + (if !IsEmpty(ctaLink) then CtaBlock(ctaLink, Field(data, "cta_text", "")) else "")
    + TemplateFooter(year)
  }

  /** Missing keys take their defaults: greeting 'Customer', subject
      'Notification', the rest empty. */
  lemma TemplateDefaults(year: string)
    ensures BuildEmailTemplate(map[], year)
      == BuildEmailTemplate(map["greeting" := "Customer", "subject" := "Notification", "body" := "",
                                "cta_text" := "", "cta_link" := ""], year)
  {
  }

  /** Without a truthy link the button text is ignored. */
  lemma TemplateIgnoresTextWithoutLink(data: map<string, string>, year: string, text: string)
    requires IsEmpty(Field(data, "cta_link", ""))
    ensures BuildEmailTemplate(data["cta_text" := text], year) == BuildEmailTemplate(data - {"cta_text"}, year)
  {
    var d2 := data["cta_text" := text];
    var d3 := data - {"cta_text"};
    assert Field(d2, "cta_link", "") == Field(d3, "cta_link", "");
    assert Field(d2, "subject", "Notification") == Field(d3, "subject", "Notification");
    assert Field(d2, "greeting", "Customer") == Field(d3, "greeting", "Customer");
    assert Field(d2, "body", "") == Field(d3, "body", "");
  }

  /** The mail with a truthy link, as its three parts. */
  lemma TemplateWithLink(data: map<string, string>, year: string)
    requires !IsEmpty(Field(data, "cta_link", ""))
    ensures BuildEmailTemplate(data, year)
      == TemplateHead(Field(data, "subject", "Notification"), Field(data, "greeting", "Customer"), Field(data, "body", ""))
         + CtaBlock(Field(data, "cta_link", ""), Field(data, "cta_text", "")) + TemplateFooter(year)
  {
  }

  /** With a truthy link the button shows the text: a different text gives
      a different mail. */
  lemma TemplateShowsTextWithLink(data: map<string, string>, year: string, text: string)
    requires !IsEmpty(Field(data, "cta_link", ""))
    requires text != Field(data, "cta_text", "")
    ensures BuildEmailTemplate(data["cta_text" := text], year) != BuildEmailTemplate(data, year)
  {
    var link := Field(data, "cta_link", "");
    var d2 := data["cta_text" := text];
    assert Field(d2, "cta_link", "") == link;
    assert Field(d2, "cta_text", "") == text;
    var head := TemplateHead(Field(data, "subject", "Notification"), Field(data, "greeting", "Customer"), Field(data, "body", ""));
    assert head == TemplateHead(Field(d2, "subject", "Notification"), Field(d2, "greeting", "Customer"), Field(d2, "body", ""));
    TemplateWithLink(data, year);
    TemplateWithLink(d2, year);
    var opening := CtaOpen + link + ButtonStyle;
    assert CtaBlock(link, text) == opening + text + CtaClose;
    assert CtaBlock(link, Field(data, "cta_text", "")) == opening + Field(data, "cta_text", "") + CtaClose;
    MiddleDetermined(opening, text, Field(data, "cta_text", ""), CtaClose);
    MiddleDetermined(head, CtaBlock(link, text), CtaBlock(link, Field(data, "cta_text", "")), TemplateFooter(year));
  }

  /** Equal texts with equal frames have equal middles. */
  lemma MiddleDetermined(head: string, a: string, b: string, tail: string)
    ensures head + a + tail == head + b + tail ==> a == b
  {
    if head + a + tail == head + b + tail {
      assert |a| == |b|;
      assert a == (head + a + tail)[|head|..|head| + |a|];
      assert b == (head + b + tail)[|head|..|head| + |b|];
    }
  }
}
