/**
 * The contact-form endpoint: it checks that the three fields are present,
 * checks the e-mail against the pattern `^[^\s@]+@[^\s@]+\.[^\s@]+$`, and
 * then hands one message to the mail transport.
 */
module SendEmail {
  import opened Wrappers
  import opened Http
  import JsText

  /** The parsed JSON body; a field that is missing is `None`. */
  datatype ContactBody = ContactBody(name: Option<string>, email: Option<string>, message: Option<string>)

  /** The message handed to the transport. `html` stands for the HTML
      template's three slots: the name, the e-mail and the message with its
      line breaks turned into `<br>`. */
  datatype Mail = Mail(from: string, to: string, subject: string, text: string, html: (string, string, string))

  datatype ResponseBody =
    | ErrorBody(error: string)
    | SentBody(success: bool, message: string)

  datatype Response = Response(status: int, body: ResponseBody)

  /** The response and the message given to the transport, if any. */
  datatype Outcome = Outcome(response: Response, mail: Option<Mail>)

  const AllFieldsRequired := Response(400, ErrorBody("All fields are required"))
  const InvalidEmail := Response(400, ErrorBody("Please enter a valid email address"))
  const SendFailed := Response(500, ErrorBody("Failed to send message. Please try again later."))
  const Sent := Response(200, SentBody(true, "Message sent successfully!"))

  // ---------------------------------------------------------------------
  // The e-mail pattern

  /** `[^\s@]` */
  predicate Plain(c: char) {
    !JsText.IsSpace(c) && c != '@'
  }

  /** `[^\s@]+` matching all of `s`. */
  predicate PlainRun(s: string) {
    |s| > 0 && forall i :: 0 <= i < |s| ==> Plain(s[i])
  }

  /** The pattern matches with its `@` at `a` and its `\.` at `d`. */
  predicate SplitsAt(s: string, a: int, d: int) {
    && 0 < a && a + 1 < d && d + 1 < |s|
    && s[a] == '@' && s[d] == '.'
    && PlainRun(s[..a]) && PlainRun(s[a + 1..d]) && PlainRun(s[d + 1..])
  }

  /** The regular expression, read as its definition: some split of the
      whole string into the three runs. */
  ghost predicate MatchesEmailPattern(s: string) {
    exists a, d :: SplitsAt(s, a, d)
  }

  /** The position of the first `@`, if any. */
  function FirstAt(s: string): (r: Option<nat>)
    ensures r.None? <==> '@' !in s
    ensures r.Some? ==> r.value < |s| && s[r.value] == '@' && '@' !in s[..r.value]
  {
    if |s| == 0 then None
    else if s[0] == '@' then Some(0)
    else
      var rest := FirstAt(s[1..]);
      assert rest.Some? ==> s[..rest.value + 1] == [s[0]] + s[1..][..rest.value];
      if rest.None? then None else Some(rest.value + 1)
  }

  /** The address test as a scan: no white space, a single `@` that is not first,
      and a `.` with at least one character on each side after it. */
  predicate ValidEmail(s: string) {
    var at := FirstAt(s);
    && at.Some? && at.value > 0
    && (forall i :: 0 <= i < |s| ==> !JsText.IsSpace(s[i]) && (s[i] == '@' ==> i == at.value))
    && (exists d :: at.value + 2 <= d < |s| - 1 && s[d] == '.')
  }

  /** The scan accepts exactly the strings the regular expression matches. */
  lemma EmailCheckMatchesPattern(s: string)
    ensures ValidEmail(s) <==> MatchesEmailPattern(s)
  {
    if ValidEmail(s) {
      var a := FirstAt(s).value;
      var d :| a + 2 <= d < |s| - 1 && s[d] == '.';
      assert forall i :: 0 <= i < a ==> s[..a][i] == s[i];
      var mid, tail := s[a + 1..d], s[d + 1..];
      assert forall i :: 0 <= i < |mid| ==> mid[i] == s[a + 1 + i];
      assert forall i :: 0 <= i < |tail| ==> tail[i] == s[d + 1 + i];
      assert SplitsAt(s, a, d);
    }
    if MatchesEmailPattern(s) {
      var a, d :| SplitsAt(s, a, d);
      assert forall i :: 0 <= i < a ==> s[..a][i] == s[i];
      assert forall i :: a + 1 <= i < d ==> s[a + 1..d][i - a - 1] == s[i];
      assert forall i :: d + 1 <= i < |s| ==> s[d + 1..][i - d - 1] == s[i];
      assert '@' !in s[..a];
      assert FirstAt(s) == Some(a);
    }
  }

  lemma EmailExamples()
    ensures ValidEmail("a@b.co")
    ensures !ValidEmail("a@b")
    ensures !ValidEmail("@b.co")
    ensures !ValidEmail("a@.co")
    ensures !ValidEmail("a b@c.io")
    ensures !ValidEmail("a@b@c.io")
  {
    assert "a@b.co"[3] == '.';
    assert "a b@c.io"[1] == ' ';
    assert "a@b@c.io"[3] == '@';
  }

  // ---------------------------------------------------------------------
  // The message

  /** `message.replace(/\n/g, '<br>')`: every line feed becomes `<br>`; no
      line feed survives, and each one adds three characters. */
  function ReplaceNewlines(s: string): (r: string)
    ensures '\n' !in r
    ensures |r| == |s| + 3 * JsText.CountChar(s, '\n')
    ensures '\n' !in s ==> r == s
  {
    if |s| == 0 then ""
    else (if s[0] == '\n' then "<br>" else [s[0]]) + ReplaceNewlines(s[1..])
  }

  /** The replacement works line by line: it distributes over
      concatenation. */
  lemma {:induction false} ReplaceNewlinesAppend(a: string, b: string)
    ensures ReplaceNewlines(a + b) == ReplaceNewlines(a) + ReplaceNewlines(b)
    decreases |a|
  {
    if |a| == 0 {
      assert a + b == b;
    } else {
      assert (a + b)[1..] == a[1..] + b;
      ReplaceNewlinesAppend(a[1..], b);
      var head := if a[0] == '\n' then "<br>" else [a[0]];
      JsText.AppendAssoc(head, ReplaceNewlines(a[1..]), ReplaceNewlines(b));
    }
  }

  /** The message built from valid fields, for the mailbox `account`. */
  function Compose(account: string, name: string, email: string, message: string): (m: Mail)
    ensures m.from == "\"Contact Form\" <" + account + ">" && m.to == account
    ensures m.subject == "New message from " + name
    ensures m.text == "Name: " + name + "\nEmail: " + email + "\nMessage: " + message
    ensures m.html.0 == name && m.html.1 == email && '\n' !in m.html.2
  {
    Mail("\"Contact Form\" <" + account + ">", account, "New message from " + name,
         "Name: " + name + "\nEmail: " + email + "\nMessage: " + message,
         (name, email, ReplaceNewlines(message)))
  }

  // ---------------------------------------------------------------------
  // The handler

  /** `POST`: `body` is `None` when the request body is not JSON, which
      throws inside the `try` and gives the 500 answer; `send` is how the
      transport settles; `account` is the configured mailbox. */
  function Post(account: string, body: Option<ContactBody>, send: Reply<()>): (r: Outcome)
    ensures body.None? ==> r == Outcome(SendFailed, None)
    ensures body.Some? && !(JsText.Truthy(body.value.name) && JsText.Truthy(body.value.email) && JsText.Truthy(body.value.message))
      ==> r == Outcome(AllFieldsRequired, None)
    ensures r.mail.Some? <==>
      body.Some? && JsText.Truthy(body.value.name) && JsText.Truthy(body.value.message)
      && JsText.Truthy(body.value.email) && MatchesEmailPattern(body.value.email.value)
    ensures r.mail.Some? ==>
      r.mail.value == Compose(account, body.value.name.value, body.value.email.value, body.value.message.value)
    ensures r.response == Sent <==> r.mail.Some? && send.Ok?
    ensures r.mail.Some? && send.Fail? ==> r.response == SendFailed
  {
    match body
    case None => Outcome(SendFailed, None)
    case Some(b) =>
      if !(JsText.Truthy(b.name) && JsText.Truthy(b.email) && JsText.Truthy(b.message)) then
        Outcome(AllFieldsRequired, None)
      else
        var email := b.email.value;
        EmailCheckMatchesPattern(email);
        if !ValidEmail(email) then Outcome(InvalidEmail, None)
        else
          var mail := Compose(account, b.name.value, email, b.message.value);
          match send
          case Ok(_) => Outcome(Sent, Some(mail))
          case Fail(_) => Outcome(SendFailed, Some(mail))
  }

  /** A present body with an address the pattern rejects is answered 400
      "Please enter a valid email address", and nothing is sent. */
  lemma InvalidAddressRejected(account: string, b: ContactBody, send: Reply<()>)
    requires JsText.Truthy(b.name) && JsText.Truthy(b.email) && JsText.Truthy(b.message)
    requires !MatchesEmailPattern(b.email.value)
    ensures Post(account, Some(b), send) == Outcome(InvalidEmail, None)
  {
    EmailCheckMatchesPattern(b.email.value);
  }
}
