/** The contact relay endpoint `POST /api/contact`.

    The handler validates the submitted form, builds an ordered list of SMTP
    candidates from the environment, verifies them one after another until the
    first one connects, composes the outgoing mail and maps the outcome to an
    HTTP reply. The two calls into the mail library are oracles: `verify(i)` is
    what creating and verifying the transport of candidate `i` yields, and
    `send(c, m)` is what sending mail `m` through candidate `c` yields. */
module ContactRoute {
  import opened Wrappers

  // ---------------------------------------------------------------------------
  // Values as the handler sees them
  // ---------------------------------------------------------------------------

  /** JavaScript truthiness of an optional string: `undefined`, `null` and `""` are falsy. */
  predicate Truthy(v: Option<string>) {
    v.Some? && v.value != ""
  }

  /** `v || fallback` where the fallback is a plain string. */
  function OrElse(v: Option<string>, fallback: string): string {
    if Truthy(v) then v.value else fallback
  }

  /** The parsed request body. A field is `None` when it is absent or `null`. */
  datatype Submission = Submission(
    firstName: Option<string>,
    lastName: Option<string>,
    email: Option<string>,
    company: Option<string>,
    message: Option<string>)

  /** A submission that passed validation: its four required fields are non-empty strings. */
  datatype Form = Form(firstName: string, lastName: string, email: string, company: Option<string>, message: string)

  /** The environment variables the handler reads. */
  datatype Env = Env(
    smtpHost: Option<string>,
    smtpUser: Option<string>,
    smtpPassword: Option<string>,
    smtpTo: Option<string>,
    gmailUser: Option<string>,
    gmailAppPassword: Option<string>)

  /** What a thrown error carries: `error.message` and `error.code`, either may be undefined. */
  datatype Fault = Fault(message: Option<string>, code: Option<string>)

  // ---------------------------------------------------------------------------
  // Validation
  // ---------------------------------------------------------------------------

  /** Some required field is falsy. `company` is not required. */
  predicate MissingRequired(b: Submission) {
    !Truthy(b.firstName) || !Truthy(b.lastName) || !Truthy(b.email) || !Truthy(b.message)
  }

  /** The validation guard: rejects a submission with a falsy required field and
      otherwise passes every submitted value on unchanged. */
  function Validate(b: Submission): (r: Option<Form>)
    ensures r.None? <==> MissingRequired(b)
    ensures r.Some? ==>
      Some(r.value.firstName) == b.firstName && Some(r.value.lastName) == b.lastName &&
      Some(r.value.email) == b.email && Some(r.value.message) == b.message &&
      r.value.company == b.company
  {
    if MissingRequired(b) then None
    else Some(Form(b.firstName.value, b.lastName.value, b.email.value, b.company, b.message.value))
  }

  /** The company field plays no part in validation. */
  lemma CompanyNotValidated(b: Submission, c: Option<string>)
    ensures Validate(b).None? <==> Validate(b.(company := c)).None?
  {
  }

  // ---------------------------------------------------------------------------
  // Candidate transports
  // ---------------------------------------------------------------------------

  /** One transport configuration handed to `createTransport`. The `tls` options are not modelled. */
  datatype Candidate = Candidate(
    name: string,
    host: string,
    port: nat,
    secure: bool,
    requireTLS: bool,
    user: Option<string>,
    pass: Option<string>)

  const DefaultHost := "mail.privateemail.com"
  const GmailHost := "smtp.gmail.com"

  /** `SMTP_HOST || 'mail.privateemail.com'`. */
  function PrimaryHost(env: Env): string {
    OrElse(env.smtpHost, DefaultHost)
  }

  /** The three fixed candidates, all on the primary host and account. */
  function StartTls(env: Env): Candidate {
    Candidate("Namecheap Port 587 (TLS)", PrimaryHost(env), 587, false, true, env.smtpUser, env.smtpPassword)
  }

  function ImplicitTls(env: Env): Candidate {
    Candidate("Namecheap Port 465 (SSL)", PrimaryHost(env), 465, true, false, env.smtpUser, env.smtpPassword)
  }

  function AlternatePort(env: Env): Candidate {
    Candidate("Alternative Port 2525", PrimaryHost(env), 2525, false, false, env.smtpUser, env.smtpPassword)
  }

  /** `GMAIL_USER && {...}`: the Gmail entry, or a falsy value when `GMAIL_USER` is falsy. */
  function GmailEntry(env: Env): (r: Option<Candidate>)
    ensures r.Some? <==> Truthy(env.gmailUser)
    ensures r.Some? ==>
      r.value.host == GmailHost && r.value.port == 587 && !r.value.secure && r.value.requireTLS &&
      r.value.user == env.gmailUser && r.value.pass == env.gmailAppPassword
  {
    if Truthy(env.gmailUser)
    then Some(Candidate("Gmail SMTP", GmailHost, 587, false, true, env.gmailUser, env.gmailAppPassword))
    else None
  }

  /** `.filter(Boolean)`: drops the falsy entries and keeps the others in order. */
  function Present(xs: seq<Option<Candidate>>): (r: seq<Candidate>)
    ensures |r| <= |xs|
  {
    if xs == [] then []
    else (if xs[0].Some? then [xs[0].value] else []) + Present(xs[1..])
  }

  /** The filter keeps the order: filtering a concatenation filters each part. */
  lemma {:induction false} PresentKeepsOrder(xs: seq<Option<Candidate>>, ys: seq<Option<Candidate>>)
    ensures Present(xs + ys) == Present(xs) + Present(ys)
  {
    if xs != [] {
      assert (xs + ys)[1..] == xs[1..] + ys;
      PresentKeepsOrder(xs[1..], ys);
    } else {
      assert xs + ys == ys;
    }
  }

  /** The filter keeps exactly the present entries. */
  lemma {:induction false} PresentMembers(xs: seq<Option<Candidate>>, x: Candidate)
    ensures x in Present(xs) <==> Some(x) in xs
  {
    if xs != [] {
      PresentMembers(xs[1..], x);
      assert xs == [xs[0]] + xs[1..];
    }
  }

  /** The ordered candidate list of the handler: the three fixed entries, then
      the Gmail entry only when it is present. */
  function Candidates(env: Env): (r: seq<Candidate>)
    ensures r == [StartTls(env), ImplicitTls(env), AlternatePort(env)] +
      (if Truthy(env.gmailUser) then [GmailEntry(env).value] else [])
  {
    PresentOfFour(StartTls(env), ImplicitTls(env), AlternatePort(env), GmailEntry(env));
    Present([Some(StartTls(env)), Some(ImplicitTls(env)), Some(AlternatePort(env)), GmailEntry(env)])
  }

  /** The list starts with ports 587, 465 and 2525 on `SMTP_HOST` (or the default
      host) with the primary account, and ends with the Gmail entry exactly when
      `GMAIL_USER` is set. */
  lemma CandidateList(env: Env)
    ensures |Candidates(env)| == if Truthy(env.gmailUser) then 4 else 3
    ensures Candidates(env)[0].port == 587 && !Candidates(env)[0].secure && Candidates(env)[0].requireTLS
    ensures Candidates(env)[1].port == 465 && Candidates(env)[1].secure
    ensures Candidates(env)[2].port == 2525 && !Candidates(env)[2].secure
    ensures forall i :: 0 <= i < 3 ==>
      Candidates(env)[i].host == PrimaryHost(env) &&
      Candidates(env)[i].user == env.smtpUser && Candidates(env)[i].pass == env.smtpPassword
    ensures |Candidates(env)| == 4 ==>
      Candidates(env)[3].host == GmailHost && Candidates(env)[3].port == 587 &&
      Candidates(env)[3].requireTLS && Candidates(env)[3].user == env.gmailUser &&
      Candidates(env)[3].pass == env.gmailAppPassword
  {
  }

  /** Filtering three present entries and a fourth optional one. */
  lemma PresentOfFour(a: Candidate, b: Candidate, c: Candidate, g: Option<Candidate>)
    ensures Present([Some(a), Some(b), Some(c), g]) == [a, b, c] + (if g.Some? then [g.value] else [])
  {
    var gs := [g];
    var xs2 := [Some(c)] + gs;
    var xs1 := [Some(b)] + xs2;
    var xs := [Some(a)] + xs1;
    assert xs == [Some(a), Some(b), Some(c), g];
    assert gs[1..] == [];
    var tail := Present(gs);
    assert tail == if g.Some? then [g.value] else [];
    assert Present(xs2) == [c] + tail by { assert xs2[1..] == gs; }
    assert Present(xs1) == [b, c] + tail by { assert xs1[1..] == xs2; }
    assert Present(xs) == [a, b, c] + tail by { assert xs[1..] == xs1; }
  }

  /** The list always has three or four entries. */
  lemma CandidateCount(env: Env)
    ensures 3 <= |Candidates(env)| <= 4
  {
    CandidateList(env);
  }

  // ---------------------------------------------------------------------------
  // The first-success scan over the candidates
  // ---------------------------------------------------------------------------

  /** What `transporter.verify()` did for one candidate. */
  datatype Probe = Verified | Refused(error: Fault)

  /** The variables the scan leaves behind: the index of `successfulConfig`, the
      indices whose verify was attempted, in order, and `lastError`. */
  datatype Scan = Scan(chosen: Option<nat>, tried: seq<nat>, lastError: Option<Fault>)

  /** The indices `a, a + 1, …, b - 1`. */
  function Range(a: nat, b: nat): seq<nat>
    decreases b - a
  {
    if a >= b then [] else [a] + Range(a + 1, b)
  }

  /** `r` preceded by the attempts already made. */
  function Resume(done: seq<nat>, r: Scan): Scan {
    Scan(r.chosen, done + r.tried, r.lastError)
  }

  /** Resuming twice is resuming once with both prefixes. */
  lemma ResumeAfter(done: seq<nat>, i: nat, r: Scan)
    ensures Resume(done, Resume([i], r)) == Resume(done + [i], r)
  {
  }

  /** The scan from index `i` on, with `last` as the failure recorded so far. */
  function ScanFrom(verify: nat -> Probe, n: nat, i: nat, last: Option<Fault>): (r: Scan)
    ensures r.chosen.Some? ==> i <= r.chosen.value < n
    decreases n - i
  {
    if i >= n then Scan(None, [], last)
    else if verify(i).Verified? then Scan(Some(i), [i], last)
    else Resume([i], ScanFrom(verify, n, i + 1, Some(verify(i).error)))
  }

  /** The scan of the whole list of `n` candidates. */
  function ScanAll(verify: nat -> Probe, n: nat): (r: Scan)
    ensures r.chosen.Some? ==>
      r.chosen.value < n && verify(r.chosen.value).Verified? && r.tried == Range(0, r.chosen.value + 1)
    ensures r.chosen.None? ==> r.tried == Range(0, n)
  {
    ScanFromFacts(verify, n, 0, None);
    ScanFrom(verify, n, 0, None)
  }

  /** The loop of the handler: verifies candidates in order and stops at the first that connects. */
  method SelectTransport(candidates: seq<Candidate>, verify: nat -> Probe) returns (s: Scan)
    ensures s == ScanAll(verify, |candidates|)
  {
    var n := |candidates|;
    var chosen: Option<nat> := None;
    var tried: seq<nat> := [];
    var lastError: Option<Fault> := None;
    var i := 0;
    while i < n
      invariant i <= n
      invariant chosen == None
      invariant ScanAll(verify, n) == Resume(tried, ScanFrom(verify, n, i, lastError))
    {
      var probe := verify(i);
      ghost var before := tried;
      ghost var rest := ScanFrom(verify, n, i, lastError);
      tried := tried + [i];
      if probe.Verified? {
        chosen := Some(i);
        assert rest == Scan(Some(i), [i], lastError);
        break;
      }
      lastError := Some(probe.error);
      i := i + 1;
      ResumeAfter(before, i - 1, ScanFrom(verify, n, i, lastError));
    }
    s := Scan(chosen, tried, lastError);
  }

  /** Everything the scan from `i` guarantees: it stops at the first verified
      index, attempts exactly the indices up to and including it, in order, and
      leaves the failure of the index before it (or of the last index) behind. */
  lemma {:induction false} ScanFromFacts(verify: nat -> Probe, n: nat, i: nat, last: Option<Fault>)
    requires i <= n
    ensures var r := ScanFrom(verify, n, i, last);
      match r.chosen
      case Some(k) =>
        i <= k < n && verify(k).Verified? &&
        (forall j :: i <= j < k ==> verify(j).Refused?) &&
        r.tried == Range(i, k + 1) &&
        r.lastError == (if k == i then last else Some(verify(k - 1).error))
      case None =>
        (forall j :: i <= j < n ==> verify(j).Refused?) &&
        r.tried == Range(i, n) &&
        r.lastError == (if n == i then last else Some(verify(n - 1).error))
    decreases n - i
  {
    if i < n && verify(i).Refused? {
      ScanFromFacts(verify, n, i + 1, Some(verify(i).error));
    }
  }

  /** Candidate `k` is selected exactly when it is the first whose verify succeeds. */
  lemma ScanChoosesFirstVerified(verify: nat -> Probe, n: nat, k: nat)
    ensures ScanAll(verify, n).chosen == Some(k) <==>
      k < n && verify(k).Verified? && forall j :: 0 <= j < k ==> verify(j).Refused?
  {
    ScanFromFacts(verify, n, 0, None);
    var r := ScanAll(verify, n);
    if r.chosen.Some? && r.chosen.value != k && k < n && verify(k).Verified? {
      assert r.chosen.value < k ==> verify(r.chosen.value).Verified?;
    }
  }

  /** When candidate `k` is selected, exactly candidates `0..k` were verified, in
      order, nothing after `k`, and `lastError` is the failure of candidate `k - 1`. */
  lemma ScanStopsAfterSuccess(verify: nat -> Probe, n: nat, k: nat)
    requires ScanAll(verify, n).chosen == Some(k)
    ensures ScanAll(verify, n).tried == Range(0, k + 1)
    ensures k == 0 ==> ScanAll(verify, n).lastError == None
    ensures k > 0 ==> verify(k - 1).Refused? && ScanAll(verify, n).lastError == Some(verify(k - 1).error)
  {
    ScanFromFacts(verify, n, 0, None);
  }

  /** Nothing is selected exactly when every verify fails; then every candidate
      was tried, in order, and `lastError` is the last candidate's failure. */
  lemma ScanExhausted(verify: nat -> Probe, n: nat)
    ensures ScanAll(verify, n).chosen.None? <==> forall j :: 0 <= j < n ==> verify(j).Refused?
    ensures ScanAll(verify, n).chosen.None? ==>
      ScanAll(verify, n).tried == Range(0, n) &&
      ScanAll(verify, n).lastError == if n == 0 then None else Some(verify(n - 1).error)
  {
    ScanFromFacts(verify, n, 0, None);
    var r := ScanAll(verify, n);
    if r.chosen.Some? {
      assert verify(r.chosen.value).Verified?;
    }
  }

  /** The attempts are the indices `a..b`, each once, in increasing order. */
  lemma {:induction false} RangeIndices(a: nat, b: nat)
    requires a <= b
    ensures |Range(a, b)| == b - a
    ensures forall t :: 0 <= t < b - a ==> Range(a, b)[t] == a + t
    decreases b - a
  {
    if a < b {
      RangeIndices(a + 1, b);
    }
  }

  // ---------------------------------------------------------------------------
  // The outgoing mail
  // ---------------------------------------------------------------------------

  /** The parts of the HTML body, in order; markup and styling are not modelled. */
  datatype Block =
    | Heading
    | FromLine(name: string)
    | EmailLine(address: string)
    | CompanyLine(company: string)
    | MessageLine(message: string)
    | SentFooter

  /** `mailOptions`. */
  datatype Mail = Mail(from: string, to: Option<string>, replyTo: string, subject: string, text: string, html: seq<Block>)

  const FallbackSender := "noreply@yourdomain.com"
  const SubjectPrefix := "New Contact Form: "
  const NotProvided := "Not provided"

  function FullName(f: Form): string {
    f.firstName + " " + f.lastName
  }

  /** `SMTP_USER || 'noreply@yourdomain.com'`. */
  function SenderAddress(env: Env): string {
    OrElse(env.smtpUser, FallbackSender)
  }

  /** The text body: a header, the name and email, the company line, the message and a footer. */
  function TextLead(f: Form): string {
    "\nNew Contact Form Submission\n============================\n\nName: " + FullName(f) + "\nEmail: " + f.email + "\n"
  }

  function TextCompany(f: Form): string {
    "Company: " + OrElse(f.company, NotProvided) + "\n"
  }

  const TextTrailer := "\n\n---\nSent via website contact form\n      "

  function TextBody(f: Form): string {
    TextLead(f) + TextCompany(f) + "\nMessage:\n" + f.message + TextTrailer
  }

  function HtmlBody(f: Form): seq<Block> {
    [Heading, FromLine(FullName(f)), EmailLine(f.email)]
    + (if Truthy(f.company) then [CompanyLine(f.company.value)] else [])
    + [MessageLine(f.message), SentFooter]
  }

  function Compose(f: Form, env: Env): (m: Mail)
    ensures m.replyTo == f.email
    ensures m.subject == SubjectPrefix + f.firstName + " " + f.lastName
    ensures TextLead(f) <= m.text
    ensures FromLine(FullName(f)) in m.html && EmailLine(f.email) in m.html
    ensures MessageLine(f.message) in m.html
    ensures |m.html| == if Truthy(f.company) then 6 else 5
  {
    Mail(
      "\"" + FullName(f) + "\" <" + SenderAddress(env) + ">",
      if Truthy(env.smtpTo) then env.smtpTo else env.smtpUser,
      f.email,
      SubjectPrefix + FullName(f),
      TextBody(f),
      HtmlBody(f))
  }

  /** `t` occurs in `s` as a contiguous piece. */
  ghost predicate Contains(s: string, t: string) {
    exists k: nat :: OccursAt(s, t, k)
  }

  /** `t` occurs in `s` starting at position `k`. */
  predicate OccursAt(s: string, t: string, k: nat) {
    k + |t| <= |s| && s[k..k + |t|] == t
  }

  /** Replies go to the submitter, the subject names them, the mail goes to
      `SMTP_TO` (or `SMTP_USER`) and comes from `SMTP_USER` (or the fallback sender). */
  lemma ComposeHeaders(f: Form, env: Env)
    ensures Compose(f, env).replyTo == f.email
    ensures Compose(f, env).subject == "New Contact Form: " + f.firstName + " " + f.lastName
    ensures Compose(f, env).to == if Truthy(env.smtpTo) then env.smtpTo else env.smtpUser
    ensures Compose(f, env).from ==
      "\"" + f.firstName + " " + f.lastName + "\" <" +
      (if Truthy(env.smtpUser) then env.smtpUser.value else "noreply@yourdomain.com") + ">"
  {
  }

  /** The message appears in the text body and in the HTML body. */
  lemma MessageInBothBodies(f: Form, env: Env)
    ensures Contains(Compose(f, env).text, f.message)
    ensures MessageLine(f.message) in Compose(f, env).html
  {
    var head := TextLead(f) + TextCompany(f) + "\nMessage:\n";
    var text := head + f.message + TextTrailer;
    assert text[|head|..|head| + |f.message|] == f.message;
    assert OccursAt(text, f.message, |head|);
    assert Compose(f, env).text == text;
  }

  /** The text body always has a company line: the company, or "Not provided" when it is falsy. */
  lemma CompanyInText(f: Form, env: Env)
    ensures Contains(Compose(f, env).text, "Company: " + (if Truthy(f.company) then f.company.value else "Not provided") + "\n")
  {
    var line := TextCompany(f);
    var rest := "\nMessage:\n" + f.message + TextTrailer;
    var text := TextLead(f) + line + rest;
    assert text[|TextLead(f)|..|TextLead(f)| + |line|] == line;
    assert OccursAt(text, line, |TextLead(f)|);
    assert Compose(f, env).text == text;
  }

  /** The HTML body has a company line exactly when the company is truthy, and then it shows that company. */
  lemma CompanyInHtml(f: Form, env: Env, c: string)
    ensures CompanyLine(c) in Compose(f, env).html <==> Truthy(f.company) && c == f.company.value
  {
  }

  // ---------------------------------------------------------------------------
  // Sending and the HTTP reply
  // ---------------------------------------------------------------------------

  /** What `transporter.sendMail(mailOptions)` did: `info.messageId`, or the error it threw. */
  datatype Delivery = Sent(messageId: Option<string>) | SendFailed(error: Fault)

  /** The JSON replies of the handler. */
  datatype Reply =
    | Rejected                                       // 400, missing required field
    | ConfigurationFailed(detail: Option<string>)    // 500, every verify failed; `debug.message`
    | Delivered(messageId: Option<string>)           // 200, `messageId`
    | Crashed(detail: Option<string>, code: Option<string>)   // 500 from the catch; `debug.error`, `debug.code`
  {
    function Status(): nat {
      match this
      case Rejected => 400
      case Delivered(_) => 200
      case _ => 500
    }

    predicate Success() {
      Delivered?
    }

    function Error(): string
      requires !Delivered?
    {
      match this
      case Rejected => "All required fields must be filled"
      case ConfigurationFailed(_) => "Email service configuration failed"
      case Crashed(_, _) => "Unable to send message"
    }
  }

  /** The outcome of the send step as a reply; a send failure lands in the generic catch. */
  function ReplyFor(d: Delivery): (r: Reply)
    ensures r.Success() <==> d.Sent?
    ensures r.Status() == if d.Sent? then 200 else 500
    ensures d.Sent? ==> r.messageId == d.messageId
    ensures d.SendFailed? ==>
      r == Crashed(d.error.message, d.error.code) && r.Error() == "Unable to send message"
  {
    match d
    case Sent(id) => Delivered(id)
    case SendFailed(e) => Crashed(e.message, e.code)
  }

  /** `lastError?.message`. */
  function LastMessage(lastError: Option<Fault>): Option<string> {
    if lastError.Some? then lastError.value.message else None
  }

  /** One request: the reply, the candidates whose verify was attempted, the
      candidate used for sending and the mail handed to it. */
  datatype Exchange = Exchange(reply: Reply, tried: seq<nat>, via: Option<Candidate>, sent: Option<Mail>)

  /** The handler as a function of the (possibly unparseable) body, the
      environment and the two oracles. */
  function Relay(req: Result<Submission, Fault>, env: Env, verify: nat -> Probe, send: (Candidate, Mail) -> Delivery): (ex: Exchange)
    ensures ex.reply.Status() == 400 <==> req.Success? && MissingRequired(req.value)
    ensures ex.sent.Some? <==> ex.via.Some?
    ensures ex.via.Some? ==> ex.via.value in Candidates(env)
    ensures ex.reply.Success() ==> ex.via.Some?
    ensures !ex.reply.Delivered? && !ex.reply.Crashed? ==> ex.sent == None
  {
    match req
    case Failure(e) => Exchange(Crashed(e.message, e.code), [], None, None)
    case Success(b) =>
      match Validate(b)
      case None => Exchange(Rejected, [], None, None)
      case Some(f) =>
        var candidates := Candidates(env);
        var scan := ScanAll(verify, |candidates|);
        match scan.chosen
        case None => Exchange(ConfigurationFailed(LastMessage(scan.lastError)), scan.tried, None, None)
        case Some(k) =>
          var mail := Compose(f, env);
          Exchange(ReplyFor(send(candidates[k], mail)), scan.tried, Some(candidates[k]), Some(mail))
  }

  /** `POST`: the same steps in the handler's own order, with the scan as a loop. */
  method Post(req: Result<Submission, Fault>, env: Env, verify: nat -> Probe, send: (Candidate, Mail) -> Delivery)
    returns (ex: Exchange)
    ensures ex == Relay(req, env, verify, send)
  {
    if req.Failure? {
      return Exchange(Crashed(req.error.message, req.error.code), [], None, None);
    }
    var form := Validate(req.value);
    if form.None? {
      return Exchange(Rejected, [], None, None);
    }
    var candidates := Candidates(env);
    var scan := SelectTransport(candidates, verify);
    if scan.chosen.None? {
      return Exchange(ConfigurationFailed(LastMessage(scan.lastError)), scan.tried, None, None);
    }
    var k := scan.chosen.value;
    var mail := Compose(form.value, env);
    var info := send(candidates[k], mail);
    ex := Exchange(ReplyFor(info), scan.tried, Some(candidates[k]), Some(mail));
  }

  // ---------------------------------------------------------------------------
  // Properties of the handler
  // ---------------------------------------------------------------------------

  /** An unparseable body ends in the generic catch before any candidate is touched. */
  lemma UnparseableBody(e: Fault, env: Env, verify: nat -> Probe, send: (Candidate, Mail) -> Delivery)
    ensures Relay(Failure(e), env, verify, send).reply == Crashed(e.message, e.code)
    ensures Relay(Failure(e), env, verify, send).reply.Status() == 500
    ensures Relay(Failure(e), env, verify, send).reply.Error() == "Unable to send message"
    ensures Relay(Failure(e), env, verify, send).tried == []
    ensures Relay(Failure(e), env, verify, send).sent == None
  {
  }

  /** The reply is 400 exactly when a required field is falsy, and then no
      candidate is verified and no mail is sent. */
  lemma ValidationShortCircuits(b: Submission, env: Env, verify: nat -> Probe, send: (Candidate, Mail) -> Delivery)
    ensures Relay(Success(b), env, verify, send).reply.Status() == 400 <==> MissingRequired(b)
    ensures MissingRequired(b) ==>
      Relay(Success(b), env, verify, send).reply == Rejected &&
      Relay(Success(b), env, verify, send).reply.Error() == "All required fields must be filled" &&
      Relay(Success(b), env, verify, send).tried == [] &&
      Relay(Success(b), env, verify, send).sent == None
  {
  }

  /** When candidate `k` is the first that verifies, exactly candidates `0..k` are
      tried, the mail goes out through candidate `k`, and the reply is that
      send's outcome: its `messageId` on success, its message and code on failure. */
  lemma FirstVerifiedCandidateSends(b: Submission, env: Env, verify: nat -> Probe, send: (Candidate, Mail) -> Delivery, k: nat)
    requires !MissingRequired(b)
    requires k < |Candidates(env)| && verify(k).Verified?
    requires forall j :: 0 <= j < k ==> verify(j).Refused?
    ensures var ex := Relay(Success(b), env, verify, send);
      var mail := Compose(Validate(b).value, env);
      ex.tried == Range(0, k + 1) &&
      ex.via == Some(Candidates(env)[k]) &&
      ex.sent == Some(mail) &&
      (send(Candidates(env)[k], mail).Sent? ==>
        ex.reply == Delivered(send(Candidates(env)[k], mail).messageId) && ex.reply.Status() == 200) &&
      (send(Candidates(env)[k], mail).SendFailed? ==>
        ex.reply == Crashed(send(Candidates(env)[k], mail).error.message, send(Candidates(env)[k], mail).error.code) &&
        ex.reply.Status() == 500 && ex.reply.Error() == "Unable to send message")
  {
    var n := |Candidates(env)|;
    ScanChoosesFirstVerified(verify, n, k);
    ScanStopsAfterSuccess(verify, n, k);
  }

  /** When every candidate fails verify, the reply is 500 with the last
      candidate's error message, every candidate was tried and nothing was sent. */
  lemma AllCandidatesRefused(b: Submission, env: Env, verify: nat -> Probe, send: (Candidate, Mail) -> Delivery)
    requires !MissingRequired(b)
    requires forall j :: 0 <= j < |Candidates(env)| ==> verify(j).Refused?
    ensures var ex := Relay(Success(b), env, verify, send);
      var n := |Candidates(env)|;
      ex.reply == ConfigurationFailed(verify(n - 1).error.message) &&
      ex.reply.Status() == 500 &&
      ex.reply.Error() == "Email service configuration failed" &&
      ex.tried == Range(0, n) &&
      ex.via == None && ex.sent == None
  {
    CandidateCount(env);
    ScanExhausted(verify, |Candidates(env)|);
  }

  /** A reply of 200 only ever follows a successful send through a verified
      candidate, and it carries that send's message id. */
  lemma SuccessMeansDelivered(req: Result<Submission, Fault>, env: Env, verify: nat -> Probe, send: (Candidate, Mail) -> Delivery)
    ensures var ex := Relay(req, env, verify, send);
      ex.reply.Success() ==>
        ex.via.Some? && ex.sent.Some? && send(ex.via.value, ex.sent.value) == Sent(ex.reply.messageId) &&
        |ex.tried| > 0 && verify(ex.tried[|ex.tried| - 1]).Verified? &&
        ex.tried[|ex.tried| - 1] < |Candidates(env)| &&
        ex.via == Some(Candidates(env)[ex.tried[|ex.tried| - 1]])
  {
    var ex := Relay(req, env, verify, send);
    if req.Success? && Validate(req.value).Some? {
      var n := |Candidates(env)|;
      var scan := ScanAll(verify, n);
      if scan.chosen.Some? {
        var k := scan.chosen.value;
        ScanChoosesFirstVerified(verify, n, k);
        ScanStopsAfterSuccess(verify, n, k);
        RangeIndices(0, k + 1);
      }
    }
  }

  /** A complete form against stubs that always connect and always send. */
  lemma JaneDoeRoundTrip(env: Env, id: string)
    ensures var b := Submission(Some("Jane"), Some("Doe"), Some("jane@x.com"), Some("Acme"), Some("Hello"));
      var ex := Relay(Success(b), env, (i: nat) => Verified, (c: Candidate, m: Mail) => Sent(Some(id)));
      ex.reply == Delivered(Some(id)) && ex.reply.Status() == 200 &&
      ex.tried == [0] &&
      ex.sent.Some? && ex.sent.value.replyTo == "jane@x.com" &&
      Contains(ex.sent.value.text, "Hello") &&
      MessageLine("Hello") in ex.sent.value.html &&
      CompanyLine("Acme") in ex.sent.value.html
  {
    var b := Submission(Some("Jane"), Some("Doe"), Some("jane@x.com"), Some("Acme"), Some("Hello"));
    var f := Validate(b).value;
    MessageInBothBodies(f, env);
  }
}
