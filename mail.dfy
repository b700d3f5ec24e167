/** `SendCertificateMail`: the certificate mailable is a record of subject, HTML body
    and PDF bytes, from which the envelope, content and attachment list are derived. */
module Mail {
  import opened PhpStrings

  datatype Envelope = Envelope(subject: string)

  /** The mail content: an HTML string sent as it is, with no further rendering. */
  datatype Content = Content(htmlString: string)

  datatype Attachment = Attachment(filename: string, mime: string, data: Bytes)

  datatype CertificateMail = CertificateMail(mailSubject: string, body: string, pdfData: Bytes) {

    /** `envelope()`. */
    function MailEnvelope(): Envelope {
      Envelope(mailSubject)
    }

    /** `content()`. */
    function MailContent(): Content {
      Content(body)
    }

    /** `attachments()`. */
    function MailAttachments(): seq<Attachment> {
      [Attachment("certificate.pdf", "application/pdf", pdfData)]
    }
  }

  /** What a mail sent with this mailable carries: its subject is the given subject,
      its HTML is the given body unchanged, and it has exactly one attachment, the PDF,
      under the name certificate.pdf and the type application/pdf. */
  lemma MailCarriesItsParts(subject: string, body: string, pdf: Bytes)
    ensures CertificateMail(subject, body, pdf).MailEnvelope().subject == subject
    ensures CertificateMail(subject, body, pdf).MailContent().htmlString == body
    ensures |CertificateMail(subject, body, pdf).MailAttachments()| == 1
    ensures CertificateMail(subject, body, pdf).MailAttachments()[0].filename == "certificate.pdf"
    ensures CertificateMail(subject, body, pdf).MailAttachments()[0].mime == "application/pdf"
    ensures CertificateMail(subject, body, pdf).MailAttachments()[0].data == pdf
  {
  }
}
