# Contact form handler of the portfolio site, in Dafny

This project models the one piece of logic in the portfolio site's server:
the `POST /contact` handler in `server.js` and the rate limiter it calls.

- **Rate limiter** (`rate_limit.dfy`, module `RateLimit`). `checkRateLimit` keeps a
  process-wide map from client address to `{count, resetTime}`. A window is
  15 minutes long (900000 ms) and admits 5 requests. The map is a `map<string, Entry>`
  field of the class `RateLimiter`, and `Check` updates it in place as the
  source does. The clock reading `Date.now()` is the parameter `now`. The pure
  function `Admit` says what one check answers and leaves behind. `Replay`
  runs a sequence of requests from one client, and the lemmas about it give
  the admission counts.
- **E-mail pattern** (`email.dfy`, module `Email`). The regular expression
  `^[^\s@]+@[^\s@]+\.[^\s@]+$` is the predicate `MatchesAddressPattern`. It
  says: a non-empty run of characters that are neither white space nor `@`,
  then `@`, then such a run, then `.`, then such a run, anchored at both ends.
  `IsValidAddress` is a direct check without backtracking, and it is proved
  to accept exactly the same strings.
- **Trim** (`text.dfy`, module `Text`). JavaScript white space is
  the ECMAScript WhiteSpace and LineTerminator code points, the set that `\s`
  and `String.prototype.trim` both use. `Trim` is proved to be the one slice
  of its input with only white space outside it and none at its ends.
- **Handler** (`contact.dfy`, module `Contact`). It models the missing-field check, the
  address check, sanitisation (`trim().substring(0, n)` with n = 100, 100 and
  1000), the mail options and the choice of response. `Respond` states the
  outcome once the rate limiter has answered. `HandleContact` is the handler
  itself, a method with early returns. The mail transport's behaviour is the
  parameter `send`: `Delivered`, or `Failed(reason)`.

The properties proved include these:
- Checks run in this order: rate limit (429), missing field (400), bad address
  (400), then sending (200, or 500 with a fixed text).
- A request takes its rate-limit slot even when it is then rejected.
- Within an open window exactly the first `5 - count` requests are admitted.
- Any span of 15 minutes admits at most 9 requests from one client, and 9
  can happen.
- The transport's error message never reaches the client.
- Sanitised fields are prefixes of the trimmed input within their bounds.

Where the code and the system's design differ, the model follows the code:
- The design promises at most 5 accepted submissions in any rolling
  15-minute window. The code is a fixed window, and a window that ends at
  `resetTime` still admits a request at exactly `resetTime`. One request at
  time t, four at t + 900000 and five at t + 900001 are all admitted. That is
  nine admissions within two milliseconds (`BoundaryBurst`). The tight bound
  over any 15-minute span is 9 (`SpanAdmitsAtMost`).
- The design says the handler validates, then sanitises. So does the code,
  but validation sees the raw fields. A name or message of only white space
  passes and is sanitised to the empty string (`BlankFieldsPassValidation`).
  An accepted address longer than 100 characters is cut, which can leave a
  reply-to address the pattern itself rejects (`LongAddressLosesDomain`).
- The message is put into the HTML body without escaping. The model keeps
  this: the mail's `content` carries the sanitised, unescaped fields.

## Model

| member | source | states |
|---|---|---|
| `Text.TrimStart` | server.js:100-102 | the leading-white-space half of `trim`: a suffix of the input that does not start with white space; everything removed is white space |
| `Text.TrimEnd` | server.js:100-102 | the trailing half of `trim`: a prefix of the input that does not end with white space; everything removed is white space |
| `Text.Trim` | server.js:100-102 | `trim()` returns a contiguous slice of its input that has only white space outside it and none at its ends; it is empty exactly when the input is all white space |
| `Text.TrimSliceUnique` | server.js:100-102 | only one slice meets that description, so it determines `trim` completely |
| `Text.TrimIdempotent` | server.js:100-102 | trimming a trimmed string changes nothing |
| `Text.TrimUntouched` | server.js:100-102 | a string that neither starts nor ends with white space is its own trim |
| `Email.IndexOf` | server.js:92-93 | the first position of a character, or the length when it is absent |
| `Email.IsValidAddressCorrect` | server.js:92-93 | the direct address check accepts exactly the strings `/^[^\s@]+@[^\s@]+\.[^\s@]+$/` matches |
| `Email.MatchedAddressIsTrimmed` | server.js:92-101 | an address the pattern accepts has no white space, so trimming leaves it unchanged |
| `RateLimit.Admit` | server.js:47-70 | a request is denied exactly when the client's window is open (`now <= resetTime`) and already holds 5; an unseen client, or `now > resetTime` strictly, gets `{count: 1, resetTime: now + 900000}`; otherwise the count goes up by one and `resetTime` stays; a denial changes nothing; no other client's entry changes; counts stay within 1..5 |
| `RateLimit.RateLimiter.constructor` | server.js:45 | the limiter starts with an empty map |
| `RateLimit.RateLimiter.Check` | server.js:47-70 | `checkRateLimit` answers and updates the map exactly as `Admit` says, and keeps every count within 1..5 |
| `RateLimit.Replay` | server.js:47-70 | a run of checks from one client keeps counts within 1..5, never changes another client's entry, and admits at most as many requests as it makes |
| `RateLimit.ReplayAppend` | server.js:47-70 | running two batches of requests one after the other is the same as running them as one batch |
| `RateLimit.OpenWindowAdmits` | server.js:59-69 | in an open window holding `count` requests, exactly the first `5 - count` further requests up to `resetTime` are admitted, and the window's end does not move |
| `RateLimit.NewWindowAdmits` | server.js:52-62 | the first request of an unseen client, or the first after the window ended, opens a window in which exactly the first 5 requests within 900000 ms are admitted |
| `RateLimit.SpanAdmitsAtMost` | server.js:47-70 | within any span of 900000 ms one client gets at most 9 requests admitted, whatever the order of the clock readings |
| `RateLimit.BoundaryBurst` | server.js:59-69 | nine requests within two milliseconds around a window's end are all admitted, so the fixed window allows more than 5 per rolling window |
| `Contact.Sanitize` | server.js:100-102 | `trim().substring(0, n)` is a prefix of the trimmed field whose length is the trimmed length capped at `n` |
| `Contact.Validate` | server.js:85-102 | a missing or empty field is rejected as missing first, whatever the address; otherwise an address the pattern rejects is rejected as invalid; otherwise the result is the three sanitised fields |
| `Contact.MailIdentifiesSender` | server.js:118-122 | the mail goes from and to the configured account, replies to the sanitised address, and its subject gives back the sanitised name after the fixed prefix |
| `Contact.Respond` | server.js:73-187 | an over-limit request gets 429 whatever its body holds; then a missing field gets 400 "All fields are required." before any address check; a bad address gets 400 "Please provide a valid email address."; a mail is built only for a form that passes both, with the sanitised reply-to address, name and message; 200 with the fixed thanks exactly when that mail is delivered; 500 with the fixed generic text when the transport fails |
| `Contact.FailureReasonWithheld` | server.js:171-185 | the outcome does not depend on the transport's error message, so it never reaches the client |
| `Contact.HandleContact` | server.js:73-187 | the handler updates the limiter as `Admit` says, even for a request it then rejects, and its response and mail are what `Respond` gives for the limiter's answer |
| `Contact.BlankFieldsPassValidation` | server.js:85-102 | a name or message of white space only is not missing, passes validation, and is sanitised to the empty string |
| `Contact.ShortAddressKept` | server.js:92-101 | an accepted address of at most 100 characters is the reply-to address unchanged |
| `Contact.LongAddressLosesDomain` | server.js:92-101 | an accepted address of 104 characters is cut to one ending in `@`, which the pattern rejects |
| `Contact.EmptyNameExample` | server.js:85-89 | `{name: "", email: "a@b.com", message: "hi"}` is rejected as a missing field |
| `Contact.NotAnAddressExample` | server.js:91-97 | `{name: "A", email: "not-an-email", message: "hi"}` is rejected as an invalid address |
| `Contact.CleanFormAccepted` | server.js:85-102 | a form with non-empty, already trimmed fields within their bounds and an accepted address comes through unchanged |
| `Contact.LongNameTruncated` | server.js:100 | a name longer than 100 characters after trimming is cut to exactly its first 100 |

## Left out

- `public/script.js` is not part of this model. It is page animation and DOM handling in the browser.
- Express set-up is not modelled: helmet, CORS, body parsing, static files, the 404 and global error handlers, `/health`, `/api`, `server.listen`, and the signal and `EADDRINUSE` handling. It is library configuration and process plumbing.
- The nodemailer transport is replaced by the `send` parameter, and so are its Gmail settings and TLS options. The console logging of the error is left out.
- The HTML and plain-text bodies are not modelled as text. `MailOptions.content` holds the three sanitised fields they show. The layout and the `toLocaleString()` timestamp are left out because they depend on locale and clock.
- `process.env.EMAIL_USER` is the parameter `account`. An unset variable is not modelled.
- The client address `req.ip || req.connection.remoteAddress` is a string parameter. An undefined address, which JavaScript would use as a map key too, is not modelled.
- Request fields are either absent or strings. A number, boolean, object or array in the JSON body is not modelled. A truthy non-string would make `trim()` throw outside the `try` block.
- Strings are sequences of Unicode scalar values. JavaScript counts UTF-16 code units, so for characters outside the Basic Multilingual Plane `substring(0, n)` cuts at a different place. A cut inside a surrogate pair cannot be represented.
- Clock readings and counts are unbounded integers. JavaScript numbers hold them exactly up to 2^53, far beyond any reachable value.
- `userData.count++` changes the stored record in place. The model replaces the map entry instead. No other reference to the record exists, so the difference cannot be observed.
- Requests are handled one at a time. In Node the limiter's read-modify-write runs without suspension before the `await` on sending, so interleaving at that `await` cannot change the limiter's behaviour. Mail sends of different requests overlapping is not modelled.
