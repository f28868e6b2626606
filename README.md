# Contact relay and portfolio page state, modelled in Dafny

The repository is a single-page agency website. Two parts of it hold logic:

- **The contact relay endpoint** `POST /api/contact` (`src/app/api/contact/route.js`).
  It validates the submitted form and builds an ordered list of SMTP candidates
  from the environment. It verifies the candidates one after another until the
  first one connects, composes the outgoing mail and sends it through that
  candidate. The outcome becomes one of four JSON replies: 200, 400, or one of
  two kinds of 500.
- **The page component's state** (`src/app/page.tsx`). This is the project
  carousel: an index into the fixed list of five projects, wrapping next/prev
  buttons, a guard that ignores them while an animation runs, dot clicks, arrow
  keys and a reset when the category changes. It also covers the scroll handler
  that highlights the first section straddling the line 100 pixels below the
  top of the viewport, and the technology chips shown over a project's image.

Files:

- `wrappers.dfy`: module `Wrappers`, with `Option` and `Result`.
- `contact_route.dfy`: module `ContactRoute`. The pure steps of the handler are
  functions: `Validate`, `Candidates`, `Compose`, `ReplyFor` and `Relay` (the
  whole request). The verify loop is the method `SelectTransport`. It has a
  `while` loop that ends with a `break`, and it is proved equal to the scan
  function `ScanAll`. The method `Post` runs the handler's steps in order and is
  proved equal to `Relay`. The lemmas then state the source's promises about
  `ScanAll` and `Relay`.
- `portfolio_page.dfy`: module `PortfolioPage`. It holds the index arithmetic
  (`Next`, `Prev`, `Advance`), the section pick (`FindSection`, `PickSection`)
  and the chip prefix (`ShownTechnologies`) as functions. The state fields
  `currentProjectIndex`, `isAnimating` and `activeNav` are the fields of class
  `Portfolio`, and each event handler is a method of that class.

The nodemailer calls are oracles passed in as parameters:

- `verify: nat -> Probe` gives the outcome of creating and verifying the
  transport of candidate `i`. A `createTransport` that throws is a `Refused`
  outcome, just like a failing `verify()`.
- `send: (Candidate, Mail) -> Delivery` gives the outcome of sending that mail
  through that candidate.

The request body is `Result<Submission, Fault>`. A body that does not parse
lands in the generic catch. The environment variables are a record `Env` of
optional strings. JavaScript truthiness of a string field is `Truthy`
(`undefined`, `null` and `""` are falsy).

Points about the code's behaviour:

- Validation rejects empty strings as well as absent fields, because the guard
  tests falsiness.
- The destination is `SMTP_TO`, falling back to `SMTP_USER`.
- A send failure reports its details as `debug.error` and `debug.code`, not
  `debug.message`.
- The sender falls back to `noreply@yourdomain.com` when `SMTP_USER` is unset.
  This is modelled as written.

The text body is modelled character for character, with the template's line
breaks read as `\n` (JavaScript normalises CR LF inside template literals).

## Model

| member | source | states |
|---|---|---|
| `ContactRoute.Validate` | src/app/api/contact/route.js:10-15 | the submission is rejected exactly when one of firstName, lastName, email or message is falsy; otherwise the submitted values pass on unchanged |
| `ContactRoute.CompanyNotValidated` | src/app/api/contact/route.js:10 | changing the company never changes whether validation passes |
| `ContactRoute.Present` | src/app/api/contact/route.js:77 | `.filter(Boolean)` never lengthens the list |
| `ContactRoute.PresentKeepsOrder` | src/app/api/contact/route.js:77 | the filter keeps the order of the entries: filtering a concatenation is the concatenation of the filtered parts |
| `ContactRoute.PresentMembers` | src/app/api/contact/route.js:77 | the filtered list holds exactly the entries that were present |
| `ContactRoute.GmailEntry` | src/app/api/contact/route.js:66-76 | the Gmail entry exists if and only if GMAIL_USER is truthy, and then it is smtp.gmail.com:587 with requireTLS and the Gmail account |
| `ContactRoute.Candidates` | src/app/api/contact/route.js:26-77 | the filtered list is the 587, 465 and 2525 entries, followed by the Gmail entry only when GMAIL_USER is truthy; its other properties are in `CandidateList` |
| `ContactRoute.CandidateList` | src/app/api/contact/route.js:26-77 | the list has length 4 with GMAIL_USER set and 3 otherwise; ports are 587, 465, 2525 in that order, with their secure/requireTLS modes; the first three use SMTP_HOST (or mail.privateemail.com) and the SMTP account; the Gmail entry comes last, on smtp.gmail.com:587, with the Gmail account |
| `ContactRoute.CandidateCount` | src/app/api/contact/route.js:26-77 | there are always three or four candidates |
| `ContactRoute.ScanFrom` | src/app/api/contact/route.js:84-100 | a selected candidate index lies inside the scanned range |
| `ContactRoute.ScanAll` | src/app/api/contact/route.js:84-100 | a selected index is in range and its verify succeeded, with exactly 0..k tried; without a selection all n were tried. The full characterisation is in `ScanFromFacts` and its corollaries |
| `ContactRoute.SelectTransport` | src/app/api/contact/route.js:79-100 | the `for` loop with its early `break` gives exactly the scan `ScanAll`: the same selected index, the same attempts in order, the same `lastError` |
| `ContactRoute.ScanFromFacts` | src/app/api/contact/route.js:84-100 | a scan from index i stops at the first verified index k, attempts exactly i..k in order, and keeps the failure of k-1 as lastError; if no index verifies, it attempts every index and keeps the last failure |
| `ContactRoute.ScanChoosesFirstVerified` | src/app/api/contact/route.js:84-94 | candidate k is selected if and only if its verify succeeds and every earlier verify failed |
| `ContactRoute.ScanStopsAfterSuccess` | src/app/api/contact/route.js:84-99 | after selecting k, exactly candidates 0..k were verified, in order, with none after k; lastError is candidate k-1's failure (none when k = 0) |
| `ContactRoute.ScanExhausted` | src/app/api/contact/route.js:84-102 | nothing is selected if and only if every verify failed; every candidate was then tried and lastError is the last candidate's failure |
| `ContactRoute.Compose` | src/app/api/contact/route.js:120-162 | replyTo is the submitted email, the subject names the submitter, the text body opens with the header, name and email, and the HTML body has the name block, the email block, the message block and five or six blocks depending on the company; the remaining details are in `ComposeHeaders`, `MessageInBothBodies`, `CompanyInText`, `CompanyInHtml` |
| `ContactRoute.ComposeHeaders` | src/app/api/contact/route.js:121-124 | replyTo is the submitted email; the subject is "New Contact Form: " + first + " " + last; to is SMTP_TO or else SMTP_USER; from is the quoted name with SMTP_USER or noreply@yourdomain.com |
| `ContactRoute.MessageInBothBodies` | src/app/api/contact/route.js:134-154 | the message occurs in the text body and is a block of the HTML body |
| `ContactRoute.CompanyInText` | src/app/api/contact/route.js:131 | the text body carries "Company: " with the company, or "Not provided" when it is falsy |
| `ContactRoute.CompanyInHtml` | src/app/api/contact/route.js:151 | the HTML body has a company line if and only if the company is truthy, and that line shows the company |
| `ContactRoute.ReplyFor` | src/app/api/contact/route.js:165-189 | a successful send gives 200 with its messageId; a failed send gives the 500 "Unable to send message" reply with the error's message and code |
| `ContactRoute.Relay` | src/app/api/contact/route.js:4-190 | the status is 400 exactly for a parsed body with a falsy required field; mail is sent exactly when a transport is used, and that transport is one of the candidates; success implies a transport was used; nothing is sent unless the send was reached. Its per-case properties are in the lemmas below |
| `ContactRoute.Post` | src/app/api/contact/route.js:4-190 | the handler, run step by step with the loop, produces the reply, attempts, transport and mail of `Relay` |
| `ContactRoute.UnparseableBody` | src/app/api/contact/route.js:6 | an unparseable body yields the 500 "Unable to send message" reply of the catch with the error's message and code; no candidate is tried and nothing is sent |
| `ContactRoute.ValidationShortCircuits` | src/app/api/contact/route.js:10-15 | the status is 400 if and only if a required field is falsy; then the reply says "All required fields must be filled", no candidate is verified and no mail is sent |
| `ContactRoute.FirstVerifiedCandidateSends` | src/app/api/contact/route.js:84-172 | when k is the first verified candidate, exactly 0..k are tried and the composed mail goes through candidate k. A successful send gives 200 with its messageId; a failed send gives 500 with the error's message and code, and no other candidate is tried |
| `ContactRoute.AllCandidatesRefused` | src/app/api/contact/route.js:102-115 | when every verify fails, the reply is 500 "Email service configuration failed" carrying the last candidate's error message; every candidate was tried and nothing was sent |
| `ContactRoute.SuccessMeansDelivered` | src/app/api/contact/route.js:84-172 | a successful reply carries the messageId of a successful send through `via`, and `via` is the candidate at the last tried index, whose verify succeeded |
| `ContactRoute.JaneDoeRoundTrip` | src/app/api/contact/route.js:120-172 | a complete form sent against stubs that always connect and send gives 200 with the stub's messageId. Only candidate 0 was tried, replyTo is the submitter's email, and the message and company appear in the mail |
| `PortfolioPage.Next` | src/app/page.tsx:330-332 | the next index stays in [0, n) |
| `PortfolioPage.Prev` | src/app/page.tsx:339-341 | the previous index stays in [0, n) |
| `PortfolioPage.NextIsSuccessorMod` | src/app/page.tsx:330-332 | next is i + 1 modulo n: n-1 wraps to 0 |
| `PortfolioPage.PrevIsPredecessorMod` | src/app/page.tsx:339-341 | prev is i - 1 modulo n: 0 wraps to n-1 |
| `PortfolioPage.PrevUndoesNext` | src/app/page.tsx:330-341 | prev after next returns to the original index |
| `PortfolioPage.NextUndoesPrev` | src/app/page.tsx:330-341 | next after prev returns to the original index |
| `PortfolioPage.Advance` | src/app/page.tsx:330-332 | k nexts in a row stay in range |
| `PortfolioPage.AdvanceMoves` | src/app/page.tsx:330-332 | k nexts move k places forward modulo n |
| `PortfolioPage.FullRound` | src/app/page.tsx:330-332 | n nexts in a row return to the start |
| `PortfolioPage.FindSection` | src/app/page.tsx:307-314 | the find returns a section of the list whose element straddles y = 100, and returns nothing if and only if no section does |
| `PortfolioPage.PickSection` | src/app/page.tsx:306-314 | a picked section straddles y = 100, and nothing is picked if and only if no section straddles; the first-hit property is `PickSectionIsFirstHit` |
| `PortfolioPage.FindSectionFirstHit` | src/app/page.tsx:306-314 | over a list without repeats, the find returns the k-th section if and only if it straddles and no earlier one does |
| `PortfolioPage.PickSectionIsFirstHit` | src/app/page.tsx:306-314 | of home, services, projects, company, brochures and contact, the first in that order that straddles y = 100 is picked |
| `PortfolioPage.ShownTechnologies` | src/app/page.tsx:901 | the chips are a prefix of the technologies, at most 3 on mobile and 6 otherwise, and all of them when fewer fit |
| `PortfolioPage.MobileChipsPrefixDesktop` | src/app/page.tsx:901 | the mobile chips are the first of the desktop chips |
| `PortfolioPage.Portfolio.constructor` | src/app/page.tsx:79-82 | the page starts at project 0, not animating, with "home" highlighted |
| `PortfolioPage.Portfolio.NextProject` | src/app/page.tsx:327-334 | while animating nothing changes; otherwise the index moves to Next and the animation starts; the highlight is untouched |
| `PortfolioPage.Portfolio.PrevProject` | src/app/page.tsx:336-343 | while animating nothing changes; otherwise the index moves to Prev and the animation starts; the highlight is untouched |
| `PortfolioPage.Portfolio.AnimationFinished` | src/app/page.tsx:333 | the timer callback clears the animation flag, changes nothing else and keeps the index in range |
| `PortfolioPage.Portfolio.KeyDown` | src/app/page.tsx:350-353 | ArrowLeft acts as prev, ArrowRight as next, any other key changes nothing |
| `PortfolioPage.Portfolio.SelectProject` | src/app/page.tsx:980 | a dot click sets the index to k in [0, n) and ignores the animation flag |
| `PortfolioPage.Portfolio.CategoryChanged` | src/app/page.tsx:345-347 | the category effect resets the index to 0 |
| `PortfolioPage.Portfolio.HandleScroll` | src/app/page.tsx:306-318 | the highlight becomes the picked section; when no section is picked it stays as it was; the index stays in range |
| `PortfolioPage.NextThenPrev` | src/app/page.tsx:327-343 | next, then the end of the animation, then prev restores the index |
| `PortfolioPage.PrevThenNext` | src/app/page.tsx:327-343 | prev, then the end of the animation, then next restores the index |

## Left out

- The nodemailer library (`createTransport`, `verify`, `sendMail`) is foreign I/O. Its results are the oracle parameters `verify` and `send`.
- The `tls` options of the candidates (`rejectUnauthorized`, `ciphers`) are not modelled. They only configure the foreign library.
- JSON parsing is not modelled. Its failure is the `Failure` case of the request. Fields holding JSON values other than strings (numbers, booleans, objects) are not modelled. Other runtime errors inside the `try` (for example a body of `null`) are not modelled either.
- The guard at route.js:102 also tests `transporter`. The model tests only the selection, because a selected candidate always has its transporter. The unused `successfulConfig.name` (logged only) is kept as the candidate's `name`.
- The fixed texts of the replies other than `error` (the success `message`, `debug.suggestion` and `debug.step`) are not modelled. They are constants that do not depend on the request.
- Console logging is not modelled. It is telemetry with no effect on the reply.
- The timestamp in the HTML footer is not modelled, because it depends on the clock. The HTML body is modelled as the ordered list of blocks it shows, without its markup and styles.
- `setTimeout` timing is not modelled. The timer's callback is the explicit event `AnimationFinished`. React's batching of state updates and stale closures are not modelled: each handler sees the current state.
- `isMobile` and its resize listener are not modelled. The flag is a parameter of `ShownTechnologies`.
- Element lookup and `getBoundingClientRect` are abstracted. A section without an element is absent from the `layout` map, and a box is a pair of reals.
- The contents of the project table are not modelled, apart from its length of 5. The data tables for services, testimonials and stats are not modelled.
- The particle generation and the torch flicker are not modelled, because they are random and timed. The scroll progress, the opacities and the size classes are not modelled, because they are floating point.
- The form handler's `fetch`, the toasts, the mobile menu, all markup and the framer-motion animations in page.tsx are not modelled. Nor is layout.tsx, which is static metadata.
- `PortfolioPage.Portfolio.CategoryChanged`: the source's category type has the single value "projects". The effect therefore runs only on mount, and the model gives it as a standalone reset event rather than a change of a category field.
