/** The `contact` view of `sitecontent/views.py`: a GET shows the empty
    form; a POST is validated, and when valid the notification is sent and
    the CSV of the submission comes back as a download; when invalid the
    form is shown again with its errors. */
module ContactView {
  import opened Wrappers
  import opened Strings
  import Csv
  import opened ContactForm

  datatype Request = Request(httpMethod: string, post: FormData)

  /** The form the template receives: unbound, or bound to the posted
      data with the errors of each refused field. */
  datatype Form = Unbound | Bound(data: FormData, errors: seq<FieldErrors>)

  datatype Response =
    | Page(template: string, form: Form)
    | Download(content: Bytes, contentType: string, disposition: string)
    | ServerError(reason: string)

  const Template: string := "contact.html"
  const Disposition: string := "attachment; filename=\"contact.csv\""

  /** The download a valid submission answers with. */
  function CsvDownload(cd: Cleaned): (r: Response)
    ensures r.Download? && r.contentType == "text/csv" && r.disposition == Disposition
    ensures Csv.Parse(r.content.text) == Some([Header, Row(cd)])
  {
    CsvTextRoundTrip(cd);
    Download(Utf8(CsvText(cd)), "text/csv", Disposition)
  }

  /** `contact` with the CSV taken from `_csv_bytes`, the method the form
      defines. The result of `send_email` is not looked at: a valid
      submission gets its CSV whether or not the notification went out. */
  method Contact(req: Request, cfg: MailConfig, t: Transport) returns (resp: Response)
    modifies t
    ensures req.httpMethod != "POST" ==> resp == Page(Template, Unbound) && t.log == old(t.log)
    ensures req.httpMethod == "POST" && !Acceptable(req.post) ==>
      && resp == Page(Template, Bound(req.post, Validate(req.post).error))
      && Validate(req.post).error != []
      && t.log == old(t.log)
    ensures req.httpMethod == "POST" && Acceptable(req.post) ==>
      && resp == CsvDownload(Validate(req.post).value)
      && |t.log| > |old(t.log)|
      && t.log[|old(t.log)|].message == InternalMessage(Validate(req.post).value, cfg,
           Join(InternalLines(Validate(req.post).value, [], []), "\n"))
  {
    if req.httpMethod == "POST" {
      var form := Validate(req.post);
      if form.Success? {
        var _ := SendEmail(form.value, cfg, [], [], t);
        var csv := CsvBytes(form.value);
        return Download(csv, "text/csv", Disposition);
      }
      return Page(Template, Bound(req.post, form.error));
    }
    return Page(Template, Unbound);
  }

  /** `contact` as written: it asks the form for `to_csv_bytes`, which
      `ContactForm` does not define. The notification goes out and then
      the attribute lookup raises, so every valid submission ends in a
      server error instead of the download. */
  method ContactAsWritten(req: Request, cfg: MailConfig, t: Transport) returns (resp: Response)
    modifies t
    ensures req.httpMethod != "POST" ==> resp == Page(Template, Unbound) && t.log == old(t.log)
    ensures req.httpMethod == "POST" && !Acceptable(req.post) ==>
      resp == Page(Template, Bound(req.post, Validate(req.post).error)) && t.log == old(t.log)
    ensures req.httpMethod == "POST" && Acceptable(req.post) ==>
      && resp == ServerError("'ContactForm' object has no attribute 'to_csv_bytes'")
      && |t.log| > |old(t.log)|
  {
    if req.httpMethod == "POST" {
      var form := Validate(req.post);
      if form.Success? {
        var _ := SendEmail(form.value, cfg, [], [], t);
        return ServerError("'ContactForm' object has no attribute 'to_csv_bytes'");
      }
      return Page(Template, Bound(req.post, form.error));
    }
    return Page(Template, Unbound);
  }

  /** The POST of a submission with a name, an address, a subject and a
      message, and neither a phone number nor a honeypot value. */
  function Submission(name: string, email: string, subject: string, message: string): FormData {
    map["name" := name, "email" := email, "subject" := subject, "message" := message]
  }

  /** Such a submission is accepted when its four values are within bounds
      and already stripped, and the address has the expected shape. */
  lemma SubmissionAccepted(name: string, email: string, subject: string, message: string)
    requires 1 <= |name| <= NameMax && 1 <= |subject| <= SubjectMax && 1 <= |message| <= MessageMax
    requires NoEdgeSpace(name) && NoEdgeSpace(email) && NoEdgeSpace(subject) && NoEdgeSpace(message)
    requires Nul !in name && Nul !in email && Nul !in subject && Nul !in message
    requires email != [] && EmailShape(email)
    ensures Acceptable(Submission(name, email, subject, message))
  {
    var data := Submission(name, email, subject, message);
    SubmissionStripped(name, email, subject, message);
    AcceptableWhen(data, name, email, subject, message);
  }

  lemma SubmissionStripped(name: string, email: string, subject: string, message: string)
    requires NoEdgeSpace(name) && NoEdgeSpace(email) && NoEdgeSpace(subject) && NoEdgeSpace(message)
    ensures var data := Submission(name, email, subject, message);
      && Stripped(data, "name") == name && Stripped(data, "email") == email
      && Stripped(data, "subject") == subject && Stripped(data, "message") == message
      && Stripped(data, "phone") == [] && Stripped(data, "hp") == []
  {
    var data := Submission(name, email, subject, message);
    StrippedIs(data, "name", name);
    StrippedIs(data, "email", email);
    StrippedIs(data, "subject", subject);
    StrippedIs(data, "message", message);
    StrippedIs(data, "phone", []);
    StrippedIs(data, "hp", []);
  }

  lemma AcceptableWhen(data: FormData, name: string, email: string, subject: string, message: string)
    requires Stripped(data, "name") == name && Stripped(data, "email") == email
    requires Stripped(data, "subject") == subject && Stripped(data, "message") == message
    requires Stripped(data, "phone") == [] && Stripped(data, "hp") == []
    requires 1 <= |name| <= NameMax && 1 <= |subject| <= SubjectMax && 1 <= |message| <= MessageMax
    requires Nul !in name && Nul !in email && Nul !in subject && Nul !in message
    requires email != [] && EmailShape(email)
    ensures Acceptable(data)
  {
  }

  lemma StrippedIs(data: FormData, key: string, v: string)
    requires (key in data && data[key] == v) || (key !in data && v == [])
    requires NoEdgeSpace(v)
    ensures Stripped(data, key) == v
  {
    StripIdentity(v);
  }

  /** Some submission is accepted, so the server error above is reached:
      name `A`, address `a@b.c`, subject `S`, message `M`. */
  lemma SampleSubmissionAccepted(name: string, email: string, subject: string, message: string)
    requires name == "A" && email == "a@b.c" && subject == "S" && message == "M"
    ensures Acceptable(Submission(name, email, subject, message))
  {
    SampleEmailShape();
    OneCharClean(name);
    OneCharClean(subject);
    OneCharClean(message);
    assert NoEdgeSpace(email) && Nul !in email by {
      assert email[0] == 'a' && email[4] == 'c';
      assert forall i :: 0 <= i < |email| ==> email[i] != Nul;
    }
    SubmissionAccepted(name, email, subject, message);
  }

  lemma OneCharClean(s: string)
    requires |s| == 1 && 'A' <= s[0] <= 'Z'
    ensures NoEdgeSpace(s) && Nul !in s
  {
  }

  lemma SampleEmailShape()
    ensures EmailShape("a@b.c")
  {
    var v := "a@b.c";
    assert v[1] == '@' && v[2..] == "b.c";
    assert '.' in "b.c" by {
      assert "b.c"[1] == '.';
    }
  }
}
