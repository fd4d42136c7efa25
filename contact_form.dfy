/** `ContactForm` of `sitecontent/forms.py`: how a POST is cleaned and
    validated (the field bounds and the honeypot), the CSV copy of a
    submission, the body of the internal notification, and `send_email`
    over a mail transport that may fail. */
module ContactForm {
  import opened Wrappers
  import opened Strings
  import Csv

  // ---------------------------------------------------------------------
  // Validation

  /** The submitted form data (`request.POST`): each field with its (last) value. */
  type FormData = map<string, string>

  const NameMax: nat := 120
  const PhoneMax: nat := 40
  const SubjectMax: nat := 160
  const MessageMax: nat := 2000

  datatype FieldError =
    | Required
    | MaxLength(limit: nat, length: nat)
    | NullCharacter
    | InvalidEmail
    | BotDetected

  /** The entry of `form.errors` for one field. */
  datatype FieldErrors = FieldErrors(field: string, errors: seq<FieldError>)

  /** `cleaned_data` of a valid form. */
  datatype Cleaned = Cleaned(
    name: string, email: string, phone: string, subject: string, message: string,
    hp: string, sendCopy: bool)

  function RawOr(data: FormData, key: string): string {
    if key in data then data[key] else []
  }

  /** The value a text field cleans to: the submitted text stripped of
      surrounding whitespace, `""` when absent. */
  function Stripped(data: FormData, key: string): string {
    Strip(RawOr(data, key))
  }

  /** The character that `ProhibitNullCharactersValidator` refuses. */
  const Nul: char := '\0'

  /** `CharField(max_length=..., required=...)`: strip, reject an empty
      value when required, then run the length check and the null-character
      check, reporting every one that fails. */
  function CleanCharField(v: string, maxLength: Option<nat>, required: bool): (r: Result<string, seq<FieldError>>)
    ensures r.Success? <==>
      && (required ==> v != [])
      && (maxLength.Some? ==> |v| <= maxLength.value)
      && Nul !in v
    ensures r.Success? ==> r.value == v
    ensures r.Failure? ==> r.error != []
  {
    if required && v == [] then Failure([Required])
    else
      var errors :=
        (if maxLength.Some? && |v| > maxLength.value then [MaxLength(maxLength.value, |v|)] else [])
        + (if Nul in v then [NullCharacter] else []);
      if errors == [] then Success(v) else Failure(errors)
  }

  /** The shape `EmailValidator` checks, without its character classes: a
      user part and a domain part around the last `@`, the domain being
      `localhost` or holding a dot that neither starts nor ends it. */
  predicate EmailShape(v: string) {
    exists i :: 0 < i < |v| - 1 && v[i] == '@' && '@' !in v[i + 1..] && DomainShape(v[i + 1..])
  }

  predicate DomainShape(d: string) {
    d == "localhost" || (d != [] && d[0] != '.' && d[|d| - 1] != '.' && '.' in d)
  }

  /** `EmailField()`: a required text field that must look like an address. */
  function CleanEmailField(v: string): (r: Result<string, seq<FieldError>>)
    ensures r.Success? <==> v != [] && EmailShape(v) && Nul !in v
    ensures r.Success? ==> r.value == v
    ensures r.Failure? ==> r.error != []
  {
    if v == [] then Failure([Required])
    else
      var errors := (if EmailShape(v) then [] else [InvalidEmail]) + (if Nul in v then [NullCharacter] else []);
      if errors == [] then Success(v) else Failure(errors)
  }

  /** `clean_hp`: a filled-in honeypot is refused as a bot; an empty one
      cleans to `""`. */
  function CleanHp(hp: string): (r: Result<string, FieldError>)
    ensures r.Success? <==> hp == []
    ensures r.Success? ==> r.value == []
    ensures r.Failure? ==> r.error == BotDetected
  {
    if hp != [] then Failure(BotDetected) else Success([])
  }

  /** The honeypot field: `CharField(required=False)` and then `clean_hp`,
      which runs only when the field itself cleaned. */
  function CleanHoneypot(v: string): (r: Result<string, seq<FieldError>>)
    ensures r.Success? <==> v == []
    ensures r.Success? ==> r.value == []
  {
    match CleanCharField(v, None, false)
    case Failure(e) => Failure(e)
    case Success(hp) =>
      match CleanHp(hp)
      case Failure(e) => Failure([e])
      case Success(c) => Success(c)
  }

  /** `CheckboxInput` and `BooleanField(required=False)`: unchecked when
      absent, empty or `false` in any letter case; checked otherwise
      (even `0`). */
  function Checkbox(data: FormData, key: string): (b: bool)
    ensures key !in data ==> !b
    ensures key in data ==> (b <==> data[key] != [] && Lower(data[key]) != "false")
  {
    if key !in data then false
    else if Lower(data[key]) == "false" then false
    else data[key] != []
  }

  function Issues(field: string, r: Result<string, seq<FieldError>>): seq<FieldErrors> {
    if r.Failure? then [FieldErrors(field, r.error)] else []
  }

  /** Every bound the form places on a submission, in terms of the
      stripped values: name 1..120 characters, a well-formed email,
      phone at most 40 (optional), subject 1..160, message 1..2000, no
      null character anywhere, and an empty honeypot. */
  predicate Acceptable(data: FormData) {
    var name, email, phone := Stripped(data, "name"), Stripped(data, "email"), Stripped(data, "phone");
    var subject, message, hp := Stripped(data, "subject"), Stripped(data, "message"), Stripped(data, "hp");
    && 1 <= |name| <= NameMax && Nul !in name
    && email != [] && EmailShape(email) && Nul !in email
    && |phone| <= PhoneMax && Nul !in phone
    && 1 <= |subject| <= SubjectMax && Nul !in subject
    && 1 <= |message| <= MessageMax && Nul !in message
    && hp == []
  }

  /** `form.is_valid()` and `form.cleaned_data`, or `form.errors` in field
      order. The form is valid exactly when the submission is acceptable,
      and then each text field holds its stripped value. */
  function Validate(data: FormData): (r: Result<Cleaned, seq<FieldErrors>>)
    ensures r.Success? <==> Acceptable(data)
    ensures r.Success? ==> r.value == Cleaned(
      Stripped(data, "name"), Stripped(data, "email"), Stripped(data, "phone"),
      Stripped(data, "subject"), Stripped(data, "message"), [], Checkbox(data, "send_copy_csv"))
    ensures r.Failure? ==> r.error != []
  {
    var name := CleanCharField(Stripped(data, "name"), Some(NameMax), true);
    var email := CleanEmailField(Stripped(data, "email"));
    var phone := CleanCharField(Stripped(data, "phone"), Some(PhoneMax), false);
    var subject := CleanCharField(Stripped(data, "subject"), Some(SubjectMax), true);
    var message := CleanCharField(Stripped(data, "message"), Some(MessageMax), true);
    var hp := CleanHoneypot(Stripped(data, "hp"));
    var issues := Issues("name", name) + Issues("email", email) + Issues("phone", phone)
      + Issues("subject", subject) + Issues("message", message) + Issues("hp", hp);
    if issues == [] then
      Success(Cleaned(name.value, email.value, phone.value, subject.value, message.value, hp.value,
        Checkbox(data, "send_copy_csv")))
    else Failure(issues)
  }

  /** Each bound is also the one the form enforces: a submission that
      breaks it is refused. */
  lemma OverlongNameRefused(data: FormData)
    requires |Stripped(data, "name")| > NameMax
    ensures Validate(data).Failure? && Validate(data).error != []
    ensures Validate(data).error[0].field == "name" && Validate(data).error[0].errors != []
    ensures Validate(data).error[0].errors[0] == MaxLength(NameMax, |Stripped(data, "name")|)
  {
    var issues := Validate(data).error;
    var name := CleanCharField(Stripped(data, "name"), Some(NameMax), true);
    assert issues[0] == FieldErrors("name", name.error);
  }

  /** A filled-in honeypot makes the form invalid whatever else is sent. */
  lemma HoneypotRefused(data: FormData)
    requires Stripped(data, "hp") != []
    ensures Validate(data).Failure?
    ensures exists k :: 0 <= k < |Validate(data).error| && Validate(data).error[k].field == "hp"
  {
    var issues := Validate(data).error;
    assert issues[|issues| - 1].field == "hp";
  }

  // ---------------------------------------------------------------------
  // The CSV copy

  /** Text encoded as UTF-8. The encoding is injective; its bytes are not modelled. */
  datatype Bytes = Utf8(text: string)

  const Header: seq<string> := ["name", "email", "phone", "subject", "message"]

  function Row(cd: Cleaned): seq<string> {
    [cd.name, cd.email, cd.phone, cd.subject, cd.message]
  }

  /** The text `_csv_bytes` writes: the header record, then the submission's record. */
  function CsvText(cd: Cleaned): string {
    Csv.FormatRecord(Header) + Csv.FormatRecord(Row(cd))
  }

  /** The CSV text reads back as exactly two records: first the header,
      then the submitted values in column order. */
  lemma CsvTextRoundTrip(cd: Cleaned)
    ensures Csv.Parse(CsvText(cd)) == Some([Header, Row(cd)])
  {
    var rows := [Header, Row(cd)];
    assert rows[0] == Header && rows[1..] == [Row(cd)] && rows[1..][0] == Row(cd) && rows[1..][1..] == [];
    assert Csv.FormatTable(rows[1..]) == Csv.FormatRecord(Row(cd)) + Csv.FormatTable([]);
    assert CsvText(cd) == Csv.FormatTable(rows);
    Csv.TableRoundTrip(rows);
  }

  /** The writing half of `_csv_bytes`: a CSV writer over a fresh buffer
      writes the header record and then the submission's record. */
  method WriteCsv(cd: Cleaned) returns (text: string)
    ensures text == CsvText(cd)
  {
    var w := new Csv.Writer();
    w.WriteRow(Header);
    assert w.text == Csv.FormatRecord(Header);
    w.WriteRow([cd.name, cd.email, cd.phone, cd.subject, cd.message]);
    text := w.text;
  }

  /** `_csv_bytes`: the written text, encoded. Decoded and parsed, the
      result is exactly two records, the header first and then the
      submitted values in column order. */
  method CsvBytes(cd: Cleaned) returns (b: Bytes)
    ensures b == Utf8(CsvText(cd))
    ensures Csv.Parse(b.text) == Some([Header, Row(cd)])
  {
    var text := WriteCsv(cd);
    CsvTextRoundTrip(cd);
    b := Utf8(text);
  }

  // ---------------------------------------------------------------------
  // The internal notification

  /** The lines of the internal body: the sender, the phone line without
      trailing whitespace, the IP and user-agent lines only when given, a
      blank line, and the message. */
  function InternalLines(cd: Cleaned, ip: string, ua: string): (lines: seq<string>)
    ensures |lines| == 4 + (if ip != [] then 1 else 0) + (if ua != [] then 1 else 0)
    ensures lines[0] == "From: " + cd.name + " <" + cd.email + ">"
    ensures lines[1] == RStrip("Phone: " + cd.phone)
    ensures ip != [] ==> lines[2] == "IP: " + ip
    ensures ua != [] ==> lines[|lines| - 3] == "UA: " + ua
    ensures lines[|lines| - 2] == [] && lines[|lines| - 1] == cd.message
  {
    ["From: " + cd.name + " <" + cd.email + ">", RStrip("Phone: " + cd.phone)]
    + (if ip != [] then ["IP: " + ip] else [])
    + (if ua != [] then ["UA: " + ua] else [])
    + [[], cd.message]
  }

  /** `_compose_internal_body`: the lines appended one by one, then joined with newlines. */
  method ComposeInternalBody(cd: Cleaned, ip: string, ua: string) returns (body: string)
    ensures body == Join(InternalLines(cd, ip, ua), "\n")
  {
    var lines := ["From: " + cd.name + " <" + cd.email + ">", RStrip("Phone: " + cd.phone)];
    if ip != [] {
      lines := lines + ["IP: " + ip];
    }
    if ua != [] {
      lines := lines + ["UA: " + ua];
    }
    lines := lines + [[]];
    lines := lines + [cd.message];
    assert lines == InternalLines(cd, ip, ua);
    body := Join(lines, "\n");
  }

  /** Read line by line, the body gives back its header lines and the
      blank line in order, followed by the lines of the message, as long
      as the single-line values hold no newline. */
  lemma InternalBodyLines(cd: Cleaned, ip: string, ua: string)
    requires '\n' !in cd.name && '\n' !in cd.email && '\n' !in cd.phone
    requires '\n' !in ip && '\n' !in ua
    ensures var lines := InternalLines(cd, ip, ua);
      Split(Join(lines, "\n"), '\n') == lines[..|lines| - 1] + Split(cd.message, '\n')
  {
    var lines := InternalLines(cd, ip, ua);
    var head := lines[..|lines| - 1];
    assert lines == head + [cd.message];
    assert '\n' !in lines[0] by {
      NoCharConcat("From: " + cd.name + " <" + cd.email, ">", '\n');
      NoCharConcat("From: " + cd.name + " <", cd.email, '\n');
      NoCharConcat("From: " + cd.name, " <", '\n');
      NoCharConcat("From: ", cd.name, '\n');
    }
    assert '\n' !in lines[1] by {
      NoCharConcat("Phone: ", cd.phone, '\n');
      RStripKeeps("Phone: " + cd.phone, '\n');
    }
    if ip != [] {
      NoCharConcat("IP: ", ip, '\n');
    }
    if ua != [] {
      NoCharConcat("UA: ", ua, '\n');
    }
    assert forall k :: 0 <= k < |head| ==> '\n' !in head[k];
    SplitJoinLast(head, cd.message, '\n');
  }

  lemma NoCharConcat(a: string, b: string, c: char)
    requires c !in a && c !in b
    ensures c !in a + b
  {
  }

  lemma RStripKeeps(s: string, c: char)
    requires c !in s
    ensures c !in RStrip(s)
  {
    RStripSpec(s);
  }

  // ---------------------------------------------------------------------
  // Sending

  /** `EMAIL_HOST_USER` and the optional `CONTACT_INBOX` setting. */
  datatype MailConfig = MailConfig(hostUser: string, contactInbox: Option<string>)

  datatype Attachment = Attachment(filename: string, content: Bytes, mimetype: string)

  datatype EmailMessage = EmailMessage(
    subject: string, body: string, fromEmail: string, to: seq<string>,
    replyTo: seq<string>, attachments: seq<Attachment>)

  /** The subject of both mails: the stripped subject, or `Contact site` when that is blank. */
  function SubjectLine(subject: string): (r: string)
    ensures r != [] && NoEdgeSpace(r)
    ensures Strip(subject) != [] ==> r == Strip(subject)
  {
    StripSpec(subject);
    var s := Strip(subject);
    if s != [] then s else "Contact site"
  }

  /** `getattr(settings, "CONTACT_INBOX", settings.EMAIL_HOST_USER)`. */
  function Inbox(cfg: MailConfig): (r: string)
    ensures cfg.contactInbox.Some? ==> r == cfg.contactInbox.value
    ensures cfg.contactInbox.None? ==> r == cfg.hostUser
  {
    match cfg.contactInbox
    case Some(inbox) => inbox
    case None => cfg.hostUser
  }

  /** `"name <email>"`, the reply address of the internal mail. */
  function Mailbox(cd: Cleaned): string {
    cd.name + " <" + cd.email + ">"
  }

  /** The internal notification with body `body`: to the site's inbox,
      from the SMTP user, replying to the submitter, with no attachment. */
  function InternalMessage(cd: Cleaned, cfg: MailConfig, body: string): (m: EmailMessage)
    ensures m.subject == SubjectLine(cd.subject) && m.body == body
    ensures m.to == [Inbox(cfg)] && m.fromEmail == cfg.hostUser
    ensures m.replyTo == [Mailbox(cd)] && m.attachments == []
  {
    EmailMessage(SubjectLine(cd.subject), body, cfg.hostUser, [Inbox(cfg)], [Mailbox(cd)], [])
  }

  const CopyNote: string := "Voici une copie du message que vous avez envoyé via notre formulaire de contact."

  /** The lines of the copy's body: a greeting, a note, the subject, the
      submitter's name, email and phone, the message, and the signature,
      with blank lines between the groups. */
  function CopyLines(cd: Cleaned, subject: string): (lines: seq<string>)
    ensures |lines| == 13
    ensures lines[4] == "Objet : " + subject && lines[5] == "Nom : " + cd.name
    ensures lines[6] == "Email : " + cd.email && lines[7] == "Téléphone : " + cd.phone
    ensures lines[9] == "Message :" && lines[10] == cd.message && lines[12] == "— ANNOOR"
    ensures lines[1] == [] && lines[3] == [] && lines[8] == [] && lines[11] == []
  {
    ["Bonjour,", [], CopyNote, [],
     "Objet : " + subject, "Nom : " + cd.name, "Email : " + cd.email, "Téléphone : " + cd.phone, [],
     "Message :", cd.message, [], "— ANNOOR"]
  }

  /** The body of the copy, written as one string: the lines above joined with newlines. */
  function CopyBody(cd: Cleaned, subject: string): (r: string)
    ensures r == Join(CopyLines(cd, subject), "\n")
  {
    var tail := "Message :\n" + (cd.message + "\n\n" + "— ANNOOR");
    var r := "Bonjour,\n\n"
      + (CopyNote + "\n\n"
      + ("Objet : " + subject + "\n"
      + ("Nom : " + cd.name + "\n"
      + ("Email : " + cd.email + "\n"
      + ("Téléphone : " + cd.phone + "\n\n"
      + tail)))));
    var lines := CopyLines(cd, subject);
    CopyTail(lines, cd.message);
    JoinSuffix(lines, 7, "\n");
    JoinSuffix(lines, 8, "\n");
    assert Join(lines[7..], "\n") == "Téléphone : " + cd.phone + "\n\n" + tail;
    JoinSuffix(lines, 6, "\n");
    JoinSuffix(lines, 5, "\n");
    JoinSuffix(lines, 4, "\n");
    CopyHead(lines, CopyNote);
    r
  }

  /** The last five lines: `Message :`, the message, a blank line and the signature. */
  lemma CopyTail(lines: seq<string>, message: string)
    requires |lines| == 13 && lines[9] == "Message :" && lines[10] == message
    requires lines[11] == [] && lines[12] == "— ANNOOR"
    ensures Join(lines[9..], "\n") == "Message :\n" + (message + "\n\n" + "— ANNOOR")
  {
    assert lines[12..] == [lines[12]];
    JoinSuffix(lines, 11, "\n");
    JoinSuffix(lines, 10, "\n");
    JoinSuffix(lines, 9, "\n");
  }

  /** The first four lines: the greeting, a blank line, the note and a blank line. */
  lemma CopyHead(lines: seq<string>, note: string)
    requires |lines| == 13 && lines[0] == "Bonjour," && lines[1] == [] && lines[2] == note && lines[3] == []
    ensures Join(lines, "\n") == "Bonjour,\n\n" + (note + "\n\n" + Join(lines[4..], "\n"))
  {
    JoinSuffix(lines, 3, "\n");
    JoinSuffix(lines, 2, "\n");
    JoinSuffix(lines, 1, "\n");
    JoinSuffix(lines, 0, "\n");
    assert lines[0..] == lines;
  }

  /** The copy for the submitter, with `csv` attached: only to the
      submitter's address, the subject marked `[Copie] `, and the
      attachment named `contact.csv`, of type `text/csv`. */
  function CopyMessage(cd: Cleaned, cfg: MailConfig, csv: Bytes): (m: EmailMessage)
    ensures m.to == [cd.email] && m.fromEmail == cfg.hostUser && m.replyTo == []
    ensures m.subject == "[Copie] " + SubjectLine(cd.subject)
    ensures m.attachments == [Attachment("contact.csv", csv, "text/csv")]
    ensures m.body == Join(CopyLines(cd, SubjectLine(cd.subject)), "\n")
  {
    var subject := SubjectLine(cd.subject);
    EmailMessage("[Copie] " + subject, CopyBody(cd, subject), cfg.hostUser, [cd.email], [],
      [Attachment("contact.csv", csv, "text/csv")])
  }

  /** The script left after `n` sends: the first `n` entries are used up. */
  function Used(outcomes: seq<bool>, n: nat): (r: seq<bool>)
    ensures |r| == if n >= |outcomes| then 0 else |outcomes| - n
    ensures forall k :: 0 <= k < |r| ==> r[k] == outcomes[n + k]
  {
    if n >= |outcomes| then [] else outcomes[n..]
  }

  /** One hand-over of a message to the mail backend and whether it raised. */
  datatype Attempt = Attempt(message: EmailMessage, failed: bool)

  /** The mail backend. Whether each send raises is not up to this code:
      `outcomes` scripts it, one entry per send (`true`: it raises), and
      every send is recorded in `log`. */
  class Transport {
    var log: seq<Attempt>
    var outcomes: seq<bool>

    constructor(outcomes: seq<bool>)
      ensures log == [] && this.outcomes == outcomes
    {
      log := [];
      this.outcomes := outcomes;
    }

    /** Whether the next send raises; once the script is used up, sends succeed. */
    function NextFails(): bool
      reads this
    {
      outcomes != [] && outcomes[0]
    }

    /** `message.send()`: `ok` is false exactly when the backend raised. */
    method Send(m: EmailMessage) returns (ok: bool)
      modifies this
      ensures ok == !old(NextFails())
      ensures log == old(log) + [Attempt(m, !ok)]
      ensures outcomes == Used(old(outcomes), 1)
    {
      ok := !NextFails();
      log := log + [Attempt(m, !ok)];
      if outcomes != [] {
        outcomes := outcomes[1..];
      }
    }
  }

  /** The copy for the submitter, with the CSV of the submission
      attached. It is sent with `fail_silently=True`: whether it fails
      shows only in the log. */
  method SendCopy(cd: Cleaned, cfg: MailConfig, t: Transport)
    modifies t
    ensures t.log == old(t.log) + [Attempt(CopyMessage(cd, cfg, Utf8(CsvText(cd))), old(t.NextFails()))]
    ensures t.outcomes == Used(old(t.outcomes), 1)
  {
    var csv := CsvBytes(cd);
    var _ := t.Send(CopyMessage(cd, cfg, csv));
  }

  /** `send_email`: the internal mail is sent first; if that raises, the
      result is false and nothing else is sent. Otherwise, when the
      submitter asked for a copy, the copy is sent too, and whether it
      fails does not matter: the result is true. */
  method SendEmail(cd: Cleaned, cfg: MailConfig, ip: string, ua: string, t: Transport) returns (ok: bool)
    modifies t
    ensures ok == !old(t.NextFails())
    ensures |t.log| == |old(t.log)| + (if ok && cd.sendCopy then 2 else 1)
    ensures t.log[..|old(t.log)|] == old(t.log)
    ensures t.log[|old(t.log)|] == Attempt(InternalMessage(cd, cfg, Join(InternalLines(cd, ip, ua), "\n")), !ok)
    ensures ok && cd.sendCopy ==> t.log[|old(t.log)| + 1].message == CopyMessage(cd, cfg, Utf8(CsvText(cd)))
    ensures t.outcomes == Used(old(t.outcomes), if ok && cd.sendCopy then 2 else 1)
  {
    var body := ComposeInternalBody(cd, ip, ua);
    ok := t.Send(InternalMessage(cd, cfg, body));
    if ok && cd.sendCopy {
      SendCopy(cd, cfg, t);
    }
  }
}
