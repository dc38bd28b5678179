/** The `POST /contact` handler: rate limiting, validation, sanitisation, the
    mail it hands to the transport and the response it sends back. */
module Contact {
  import opened Text
  import opened Email
  import RateLimit

  datatype Option<T> = None | Some(value: T)

  datatype Result<T, E> = Ok(value: T) | Err(error: E)

  /** A field of the JSON request body: absent (or `null`), or a string. */
  datatype Field = Absent | Str(s: string)

  /** JavaScript `!field`: absent or the empty string. */
  predicate IsFalsy(f: Field)
  {
    f.Absent? || f.s == ""
  }

  /** The request body `{name, email, message}`. */
  datatype ContactForm = ContactForm(name: Field, email: Field, message: Field)

  /** `!name || !email || !message` */
  predicate HasMissingField(form: ContactForm)
  {
    IsFalsy(form.name) || IsFalsy(form.email) || IsFalsy(form.message)
  }

  const NameLimit: nat := 100
  const EmailLimit: nat := 100
  const MessageLimit: nat := 1000

  /** `s.trim().substring(0, limit)`: the longest prefix of the trimmed string
      that is at most `limit` characters long. */
  function Sanitize(s: string, limit: nat): (r: string)
    ensures r <= Trim(s)
    ensures |r| == if |Trim(s)| <= limit then |Trim(s)| else limit
  {
    var t := Trim(s);
    if |t| <= limit then t else t[..limit]
  }

  /** The sanitised fields. */
  datatype Submission = Submission(name: string, email: string, message: string)

  /** Why a form is turned away with status 400. */
  datatype Rejection = MissingField | InvalidAddress

  /** The two checks in the handler's order, then sanitisation. Both checks
      look at the fields as received, before trimming. */
  function Validate(form: ContactForm): (r: Result<Submission, Rejection>)
    ensures r == Err(MissingField) <==> HasMissingField(form)
    ensures r == Err(InvalidAddress) <==> !HasMissingField(form) && !MatchesAddressPattern(form.email.s)
    ensures r.Ok? ==> r.value == Submission(Sanitize(form.name.s, NameLimit),
                                            Sanitize(form.email.s, EmailLimit),
                                            Sanitize(form.message.s, MessageLimit))
  {
    if HasMissingField(form) then
      Err(MissingField)
    else
      IsValidAddressCorrect(form.email.s);
      if !IsValidAddress(form.email.s) then
        Err(InvalidAddress)
      else
        Ok(Submission(Sanitize(form.name.s, NameLimit),
                      Sanitize(form.email.s, EmailLimit),
                      Sanitize(form.message.s, MessageLimit)))
  }

  const SubjectPrefix: string := "Portfolio Contact Message from "

  /** The mail options handed to the transport. `from` and `to` are the
      configured account; `content` is what the HTML and plain-text bodies
      show (their layout and timestamp are not modelled). */
  datatype MailOptions = MailOptions(from: string, to: string, replyTo: string,
                                     subject: string, content: Submission)

  function BuildMail(account: string, s: Submission): MailOptions
  {
    MailOptions(account, account, s.email, SubjectPrefix + s.name, s)
  }

  /** The sender's name as the subject line shows it. */
  function SenderOf(subject: string): Option<string>
  {
    if SubjectPrefix <= subject then Some(subject[|SubjectPrefix|..]) else None
  }

  /** The mail names its sender in the subject and answers to the sanitised
      address. */
  lemma MailIdentifiesSender(account: string, s: Submission)
    ensures SenderOf(BuildMail(account, s).subject) == Some(s.name)
    ensures BuildMail(account, s).replyTo == s.email
    ensures BuildMail(account, s).from == account && BuildMail(account, s).to == account
  {
    assert (SubjectPrefix + s.name)[|SubjectPrefix|..] == s.name;
  }

  datatype Payload = ErrorText(error: string) | MessageText(message: string)

  datatype Response = Response(status: int, payload: Payload)

  const TooManyRequests := Response(429, ErrorText("Too many contact form submissions, please try again later."))
  const FieldsRequired := Response(400, ErrorText("All fields are required."))
  const BadAddress := Response(400, ErrorText("Please provide a valid email address."))
  const Thanks := Response(200, MessageText("Thank you for reaching out! Your message has been sent successfully. I'll get back to you soon."))
  const SendFailed := Response(500, ErrorText("Something went wrong while sending your message. Please try again later or contact me directly."))

  /** What the mail transport does with the mail: deliver it, or fail with an
      error whose message is `reason`. */
  datatype SendResult = Delivered | Failed(reason: string)

  /** The response, and the mail handed to the transport if one was. */
  datatype Outcome = Outcome(response: Response, mail: Option<MailOptions>)

  /** The handler's outcome once the rate limiter has answered `admitted`. */
  function Respond(admitted: bool, form: ContactForm, account: string, send: SendResult): (o: Outcome)
    // the rate limit decides first, whatever the body holds
    ensures !admitted ==> o == Outcome(TooManyRequests, None)
    // then a missing field, before the address is looked at
    ensures admitted && HasMissingField(form) ==> o == Outcome(FieldsRequired, None)
    ensures admitted && !HasMissingField(form) && !MatchesAddressPattern(form.email.s) ==>
      o == Outcome(BadAddress, None)
    // a mail is built only for a form that passes both checks
    ensures o.mail.Some? <==> admitted && Validate(form).Ok?
    ensures o.mail.Some? ==>
      && o.mail.value.replyTo == Sanitize(form.email.s, EmailLimit)
      && SenderOf(o.mail.value.subject) == Some(Sanitize(form.name.s, NameLimit))
      && o.mail.value.content.message == Sanitize(form.message.s, MessageLimit)
    // success answers 200 with the fixed thanks; a transport failure answers
    // 500 with the fixed generic text
    ensures o.response.status == 200 <==> o.mail.Some? && send.Delivered?
    ensures o.response.status == 200 ==> o.response == Thanks
    ensures o.mail.Some? && send.Failed? ==> o.response == SendFailed
  {
    if !admitted then
      Outcome(TooManyRequests, None)
    else
      match Validate(form)
      case Err(MissingField) => Outcome(FieldsRequired, None)
      case Err(InvalidAddress) => Outcome(BadAddress, None)
      case Ok(s) =>
        var mail := BuildMail(account, s);
        MailIdentifiesSender(account, s);
        match send
        case Delivered => Outcome(Thanks, Some(mail))
        case Failed(_) => Outcome(SendFailed, Some(mail))
  }

  /** The transport's error message never reaches the client: two failures
      with different messages give the same outcome. */
  lemma FailureReasonWithheld(admitted: bool, form: ContactForm, account: string, reason1: string, reason2: string)
    ensures Respond(admitted, form, account, Failed(reason1)) == Respond(admitted, form, account, Failed(reason2))
  {
  }

  /** The `POST /contact` handler for a request from `ip` at clock reading
      `now`, with the transport's behaviour given by `send`. */
  method HandleContact(limiter: RateLimit.RateLimiter, ip: string, now: int, form: ContactForm,
                       account: string, send: SendResult)
    returns (response: Response, mail: Option<MailOptions>)
    requires limiter.Valid()
    modifies limiter
    ensures limiter.Valid()
    // the request takes its slot whatever happens next
    ensures limiter.entries == RateLimit.Admit(old(limiter.entries), ip, now).entries
    ensures Outcome(response, mail) == Respond(RateLimit.Admit(old(limiter.entries), ip, now).allowed, form, account, send)
  {
    var allowed := limiter.Check(ip, now);
    if !allowed {
      return TooManyRequests, None;
    }
    if HasMissingField(form) {
      return FieldsRequired, None;
    }
    IsValidAddressCorrect(form.email.s);
    if !IsValidAddress(form.email.s) {
      return BadAddress, None;
    }
    var sanitizedName := Sanitize(form.name.s, NameLimit);
    var sanitizedEmail := Sanitize(form.email.s, EmailLimit);
    var sanitizedMessage := Sanitize(form.message.s, MessageLimit);
    var mailOptions := BuildMail(account, Submission(sanitizedName, sanitizedEmail, sanitizedMessage));
    mail := Some(mailOptions);
    match send {
      case Delivered =>
        response := Thanks;
      case Failed(_) =>
        response := SendFailed;
    }
  }

  /** A name or message of white space only is not missing, so it passes the
      checks, and sanitises to the empty string. */
  lemma BlankFieldsPassValidation(name: string, email: string, message: string)
    requires name != "" && AllWhitespace(name)
    requires message != "" && AllWhitespace(message)
    requires MatchesAddressPattern(email)
    ensures Validate(ContactForm(Str(name), Str(email), Str(message))).Ok?
    ensures Validate(ContactForm(Str(name), Str(email), Str(message))).value.name == ""
    ensures Validate(ContactForm(Str(name), Str(email), Str(message))).value.message == ""
  {
  }

  /** An accepted address of at most EmailLimit characters becomes the
      mail's reply-to address unchanged. */
  lemma ShortAddressKept(email: string)
    requires MatchesAddressPattern(email) && |email| <= EmailLimit
    ensures Sanitize(email, EmailLimit) == email
  {
    MatchedAddressIsTrimmed(email);
  }

  function Repeat(c: char, n: nat): (r: string)
    ensures |r| == n && forall k :: 0 <= k < n ==> r[k] == c
  {
    if n == 0 then [] else [c] + Repeat(c, n - 1)
  }

  /** A longer accepted address is cut to EmailLimit characters, which can
      leave a reply-to address the pattern rejects: 99 letters, `@b.co`. */
  lemma LongAddressLosesDomain()
    ensures MatchesAddressPattern(Repeat('a', 99) + "@b.co")
    ensures Sanitize(Repeat('a', 99) + "@b.co", EmailLimit) == Repeat('a', 99) + "@"
    ensures !MatchesAddressPattern(Repeat('a', 99) + "@")
  {
    var e := Repeat('a', 99) + "@b.co";
    assert IsPatternSplit(e, 99, 101);
    MatchedAddressIsTrimmed(e);
    assert e[..EmailLimit] == Repeat('a', 99) + "@";
    var t := Repeat('a', 99) + "@";
    forall at, dot ensures !IsPatternSplit(t, at, dot) {
      if 0 <= at < 99 {
        assert t[at] == 'a';
      }
    }
  }

  /** Documented example: an empty name is a missing field. */
  lemma EmptyNameExample()
    ensures Validate(ContactForm(Str(""), Str("a@b.com"), Str("hi"))) == Err(MissingField)
  {
  }

  /** Documented example: a string without `@` is not an address. */
  lemma NotAnAddressExample()
    ensures Validate(ContactForm(Str("A"), Str("not-an-email"), Str("hi"))) == Err(InvalidAddress)
  {
    var bad := "not-an-email";
    forall at, dot ensures !IsPatternSplit(bad, at, dot) {
      if 0 <= at < |bad| {
        assert bad[at] != '@';
      }
    }
    var form := ContactForm(Str("A"), Str(bad), Str("hi"));
    assert !HasMissingField(form) && !MatchesAddressPattern(form.email.s);
  }

  /** A field that is already trimmed and within its limit is kept as it is. */
  lemma CleanFieldKept(s: string, limit: nat)
    requires Trim(s) == s && |s| <= limit
    ensures Sanitize(s, limit) == s
  {
  }

  /** A form whose fields are non-empty, already trimmed and within their
      limits, with an address the pattern accepts, comes through unchanged
      (`{name: "A", email: "a@b.com", message: "hi"}` is one). */
  lemma CleanFormAccepted(name: string, email: string, message: string)
    requires name != "" && !IsWhitespace(name[0]) && !IsWhitespace(name[|name| - 1]) && |name| <= NameLimit
    requires message != "" && !IsWhitespace(message[0]) && !IsWhitespace(message[|message| - 1])
    requires |message| <= MessageLimit
    requires MatchesAddressPattern(email) && |email| <= EmailLimit
    ensures Validate(ContactForm(Str(name), Str(email), Str(message))) == Ok(Submission(name, email, message))
  {
    TrimUntouched(name);
    CleanFieldKept(name, NameLimit);
    ShortAddressKept(email);
    TrimUntouched(message);
    CleanFieldKept(message, MessageLimit);
  }

  /** A name longer than NameLimit characters after trimming is cut to
      exactly NameLimit characters, the start of the trimmed name. */
  lemma LongNameTruncated(name: string)
    requires |Trim(name)| > NameLimit
    ensures Sanitize(name, NameLimit) == Trim(name)[..NameLimit]
  {
  }
}
