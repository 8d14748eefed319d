# Realtime polling chat: a Dafny model

This project models the behaviour of a small real-time chat and polling
application, with a TypeScript backend and a React client, and proves
properties of that model.

**Backend**
- The Socket.IO handler keeps one poll in memory. It applies `vote` events to it
  in place and broadcasts every poll update. It relays chat messages and typing
  signals to the right audience: the sender only, everyone, or everyone but the
  sender.
- The authentication service registers users against a user collection whose
  schema trims and lower-cases fields and checks them. Login looks the user up by
  username first, then by email.
- The HTTP controller turns the service's outcomes and errors into status codes
  and JSON bodies.

**Client**
- The chat view keeps a list of messages and a typing indicator. It guards
  against sending a blank message and computes avatar initials and colours.
- The poll view sends at most one vote. It shows each option's percentage and
  marks the leading option.
- The sign-in form chooses the endpoint and the payload, and decides which error
  message to show.

## Modelling choices

State that the source changes in place is a `class`:
- the server's poll (`Sockets.PollServer`, whose `options` is an `array` mutated
  by `vote`);
- the user collection (`AuthService.UserStore`);
- a Mongoose document during its pre-save hook (`UserModel.UserDocument`);
- the three React components (`ChatClient.ChatView`, `PollClient.PollView`,
  `AuthClient.AuthForm`).

Each handler runs as one atomic step and appends what it emits to an `outbox`
sequence. Every server emission carries its audience. `Protocol.Recipients`
gives the Socket.IO meaning of each audience.

Everything else is pure and written as functions:
- the field rules of the user schema;
- the login lookup;
- the controller's mapping from outcomes to responses;
- the client's rendering arithmetic.

Things outside the program become parameters:
- bcrypt and JWT are the function-valued fields of `AuthService.Crypto`;
- the generated salt is a `salt` argument;
- the server clock is a `now` argument;
- the HTTP call is the `post` argument of `AuthForm.Submit`, and the browser's
  `type="email"` syntax check is its `isEmailAddress` argument.

JavaScript details are written out explicitly:
- `String.prototype.trim` uses the full set of white-space and line-terminator
  characters.
- `x || fallback` treats an empty string as falsy.
- `Math.max()` of no values (`-Infinity`) becomes `None`.
- `charCodeAt` sums UTF-16 code units, so a character beyond the Basic
  Multilingual Plane counts as its two surrogates.

Mongoose semantics the model follows:
- The `trim` and `lowercase` setters also apply to query filters, so
  `findOne({ username })` and `findOne({ email })` compare the normalised probe.
- Validation runs before the `pre('save')` hook.
- `required` rejects an empty string.
- `minlength` and `match` skip an absent value.
- `match` also skips an empty value.

The email pattern `/.+\@.+\..+/` is stated twice. `UserModel.EmailRegex` is an
existential specification. `UserModel.EmailMatches` is a scanner. The two are
proved equal.

The code has no per-voter vote deduplication. It also has no poll lifecycle and
no edit, delete, history, user-count or preference events. A repeated vote is
counted every time (`Sockets.RepeatedVoteCounted`, `Sockets.ApplyVotesEffect`).
The only guard against a second vote is the client-side `hasVoted` flag
(`PollClient.PollView.HandleVote`).

## Model

| member | source | states |
|---|---|---|
| JsString.LeadingSpec | backend/src/modules/auth/user.model.ts:18 | the leading count covers only white space and stops at the first other character |
| JsString.TrailingSpec | backend/src/modules/auth/user.model.ts:18 | the trailing count covers only white space and stops at the last other character |
| JsString.TrimSpec | backend/src/modules/auth/user.model.ts:18 | `trim()` is the slice after the leading white space that leaves only white space outside it and neither starts nor ends with white space |
| JsString.TrimEmptyIff | frontend/src/components/Chat.tsx:59 | `trim()` is empty exactly when the string is all white space |
| JsString.TrimNoop | frontend/src/components/Chat.tsx:59 | trimming a string without white space at either end gives it back |
| JsString.TrimIdempotent | backend/src/modules/auth/user.model.ts:18 | trimming twice is trimming once |
| JsString.ToLower | backend/src/modules/auth/user.model.ts:26 | `toLowerCase()` keeps the length, maps A-Z to a-z and keeps every other character in place |
| JsString.ToUpper | frontend/src/components/Chat.tsx:77 | `toUpperCase()` keeps the length, maps a-z to A-Z and keeps every other character in place |
| JsString.LowerCharKeepsClass | backend/src/modules/auth/user.model.ts:25-26 | lower-casing a character neither creates nor removes white space or a line terminator |
| JsString.LeadingLower | backend/src/modules/auth/user.model.ts:25-26 | lower-casing keeps the leading white-space count |
| JsString.TrailingLower | backend/src/modules/auth/user.model.ts:25-26 | lower-casing keeps the trailing white-space count |
| JsString.TrimLowerCommute | backend/src/modules/auth/user.model.ts:25-26 | trimming and lower-casing commute |
| JsString.LowerIdempotent | backend/src/modules/auth/user.model.ts:26 | lower-casing twice is lower-casing once |
| Protocol.Lookup | frontend/src/components/Chat.tsx:35-38 | a payload field is present exactly when its key is, with that key's value (a decision rule; what it means for the chat is stated by `RoundTrip.ChatRoundTrip` and `RoundTrip.TypingRoundTrip`) |
| Protocol.OrElse | frontend/src/components/Chat.tsx:36 | `x \|\| fallback` gives the field when it is present and non-empty, else the fallback (a decision rule; used by `ChatClient.MessageOf` and `RoundTrip.OwnMessageRecognised`) |
| Protocol.TotalVotesUpdate | backend/src/sockets/index.ts:57-63 | changing one option's count changes the total by exactly the difference |
| Protocol.VotesBoundedByTotal | backend/src/sockets/index.ts:24 | no option has more votes than the total |
| Protocol.Recipients | backend/src/sockets/index.ts:21-42 | `socket.emit` reaches only the sender; `io.emit` reaches every connection; `socket.broadcast.emit` reaches every connection except the sender |
| Sockets.FirstMatch | backend/src/sockets/index.ts:55 | `find` lands on the first option with the id, or on none exactly when no option has it |
| Sockets.ApplyVoteEffect | backend/src/sockets/index.ts:54-57 | one vote adds one to the found option and leaves every other option, and every id, text and position, unchanged; an unknown id changes nothing; the total grows by one or by zero |
| Sockets.RepeatedVoteCounted | backend/src/sockets/index.ts:54-57 | two votes for "2" on the starting poll give option "2" ("Python") two votes and a total of two |
| Sockets.ApplyVotesEffect | backend/src/sockets/index.ts:54-66 | over any sequence of votes the total grows by the number of votes for listed ids, no count decreases, and the shape is kept |
| Sockets.StampMessage | backend/src/sockets/index.ts:34 | the relayed message keeps every client field except `id` and `timestamp`, which are the sender's socket id and the server time |
| Sockets.StampTyping | backend/src/sockets/index.ts:38 | the typing relay keeps every client field except `id`, which is the sender's socket id |
| Sockets.PollServer.Snapshot | backend/src/sockets/index.ts:21-25 | the `update_poll` payload's total is the sum of its options' votes |
| Sockets.PollServer.constructor | backend/src/sockets/index.ts:7-15 | the server starts with the fixed question and four options "1" to "4" with no votes |
| Sockets.PollServer.Connect | backend/src/sockets/index.ts:17-25 | a new connection is sent the current poll, to it alone |
| Sockets.PollServer.RequestPoll | backend/src/sockets/index.ts:46-52 | `request_poll` sends the current poll to the requester alone |
| Sockets.PollServer.FindOption | backend/src/sockets/index.ts:55 | the linear search returns exactly `FirstMatch` |
| Sockets.PollServer.Vote | backend/src/sockets/index.ts:54-66 | the array becomes `ApplyVote` of the old one, the total grows by one exactly when the id is listed, counts never decrease, and the new poll goes to everyone only when an option was found |
| Sockets.PollServer.SendMessage | backend/src/sockets/index.ts:33-35 | the stamped message goes to every connection, the sender included |
| Sockets.PollServer.Typing | backend/src/sockets/index.ts:37-39 | the stamped typing payload goes to everyone but the sender |
| Sockets.PollServer.StopTyping | backend/src/sockets/index.ts:41-43 | `{ id }` goes to everyone but the sender |
| Sockets.PollServer.Handle | backend/src/sockets/index.ts:17-66 | only `vote` touches the poll; `send_message` appends the stamped message for everyone, `typing` and `stop_typing` their relays for all but the sender, `request_poll` the current poll for the sender only, and a vote for a listed option the new poll for everyone; a vote for an unknown id emits nothing; earlier emissions are kept |
| Sockets.TypingNotEchoed | backend/src/sockets/index.ts:37-43 | a typist never sees its own typing events, and every other connection does |
| UserModel.EmailMatchesIff | backend/src/modules/auth/user.model.ts:27 | the scanner accepts a string exactly when `/.+\@.+\..+/` matches somewhere in it (no line terminators inside the match) |
| UserModel.Problems | backend/src/modules/auth/user.model.ts:13-37 | a field is reported exactly when one of its validators fails on its normalised value |
| UserModel.UsernameRule | backend/src/modules/auth/user.model.ts:14-20 | a username passes iff it is given and its trimmed form is at least 3 UTF-16 code units long, as JavaScript's `length` counts |
| UserModel.EmailRule | backend/src/modules/auth/user.model.ts:21-28 | an email passes iff it is given and its trimmed, lower-cased form matches the pattern |
| UserModel.PasswordRule | backend/src/modules/auth/user.model.ts:29-33 | a password passes iff it is given and is at least 6 UTF-16 code units long, untrimmed |
| UserModel.AstralLengths | backend/src/modules/auth/user.model.ts:14-33 | three characters beyond the BMP (six code units) are a valid password and two a valid username, while five ASCII letters are too short a password |
| UserModel.Validate | backend/src/modules/auth/user.model.ts:13-37 | validation succeeds iff no field fails; a failure lists every failing field; a success stores the trimmed username, the trimmed lower-cased email, the password as given and notifications defaulting to true |
| UserModel.ValidateStable | backend/src/modules/auth/user.model.ts:13-37 | a stored document validates again to itself |
| UserModel.UserDocument.PreSave | backend/src/modules/auth/user.model.ts:40-49 | the password is replaced by its hash only when it was modified |
| AuthService.Secret | backend/src/modules/auth/auth.service.ts:6-7 | an unset or empty secret variable falls back to the built-in secret |
| AuthService.FindByUsername | backend/src/modules/auth/auth.repository.ts:10-12 | a lookup finds a stored user whose username is the trimmed probe, or none exactly when no user has it |
| AuthService.FindByEmail | backend/src/modules/auth/auth.repository.ts:14-16 | a lookup finds a stored user whose email is the trimmed, lower-cased probe, or none exactly when no user has it |
| AuthService.FindUnique | backend/src/modules/auth/user.model.ts:17-24 | under the unique indexes, a lookup returns the one user holding the key |
| AuthService.Login | backend/src/modules/auth/auth.service.ts:34-63 | login fails only with 'Invalid credentials' |
| AuthService.LoginOutcome | backend/src/modules/auth/auth.service.ts:34-79 | login succeeds iff a user is found, has a password, and it matches; the result names that user by id and username, and both tokens sign those claims with their secret and expiry (case by case; complemented by `AuthService.LoginLookupOrder` and `RoundTrip.LoginShown`) |
| AuthService.LoginLookupOrder | backend/src/modules/auth/auth.service.ts:38-44 | a username match wins over an email match; the email is used only when no username matches; nobody is found iff neither matches |
| AuthService.UserStore.CreateUser | backend/src/modules/auth/auth.repository.ts:18-21 | an invalid document is refused with its failing fields; a unique-key clash is refused; otherwise the user is appended with the hashed password and nothing else changes |
| AuthService.UserStore.Register | backend/src/modules/auth/auth.service.ts:12-32 | a taken username, then a taken email, are refused; a failure stores nothing and is never a duplicate-key error; with free keys it succeeds iff validation does, appends exactly one user with the normalised fields and hashed password, and returns that user's id, name, email and tokens |
| AuthController.SignupRequest | backend/src/modules/auth/auth.controller.ts:9 | the service gets exactly the body's username, email and password (a field-by-field rule; `AuthController.RequestIgnoresRest` is its partner) |
| AuthController.LoginRequest | backend/src/modules/auth/auth.controller.ts:24 | the service gets exactly the body's username and password (a field-by-field rule; `AuthController.RequestIgnoresRest` is its partner) |
| AuthController.RequestIgnoresRest | backend/src/modules/auth/auth.controller.ts:9-10 | extra body fields never reach the service |
| AuthController.SignupResponse | backend/src/modules/auth/auth.controller.ts:7-20 | 201 with the result on success; 400 with the service's message for a taken username or email; 500 'Server error' otherwise |
| AuthController.LoginResponse | backend/src/modules/auth/auth.controller.ts:22-35 | 200 with the result on success; 400 'Invalid credentials'; 500 'Server error' otherwise |
| AuthController.Login | backend/src/modules/auth/auth.controller.ts:22-35 | a login is answered 200 or 400, never 500, and 400 exactly when the service fails |
| AuthController.Signup | backend/src/modules/auth/auth.controller.ts:7-20 | 201 exactly when one user was added, otherwise nothing is stored; the taken-username and taken-email answers; an invalid form with free keys gets 500 |
| ChatClient.Split | frontend/src/components/Chat.tsx:77 | `split(' ')` gives at least one piece and no piece holds a space |
| ChatClient.SplitJoin | frontend/src/components/Chat.tsx:77 | joining the pieces with a space gives the name back |
| ChatClient.HeadsOfSplit | frontend/src/components/Chat.tsx:77 | the first characters of the pieces are the characters that start a word |
| ChatClient.TakeTwo | frontend/src/components/Chat.tsx:77 | `slice(0, 2)` is the prefix of length two, or the whole string when it is shorter |
| ChatClient.GetInitials | frontend/src/components/Chat.tsx:76-78 | the initials are at most two characters: the first two word-starting characters, upper-cased |
| ChatClient.ColorIndex | frontend/src/components/Chat.tsx:90 | the index is always within the six colours |
| ChatClient.GetUserColor | frontend/src/components/Chat.tsx:81-92 | the colour is one of the six gradients |
| ChatClient.ColorIgnoresOrder | frontend/src/components/Chat.tsx:90 | reordering the parts of a name does not change its colour |
| ChatClient.MessageOf | frontend/src/components/Chat.tsx:33-40 | a received message keeps id, text and timestamp; its username is the payload's or 'Anonymous', never empty |
| ChatClient.OwnMessageOf | frontend/src/components/Chat.tsx:142 | a message is shown as the reader's own iff its username, with 'Anonymous' for a missing one, is the reader's |
| ChatClient.ChatView.constructor | frontend/src/components/Chat.tsx:17-22 | the view starts with no messages, an empty input and nobody typing |
| ChatClient.ChatView.ReceiveMessage | frontend/src/components/Chat.tsx:33-40 | exactly one message is appended and the earlier ones stay |
| ChatClient.ChatView.DisplayTyping | frontend/src/components/Chat.tsx:42-44 | the indicator shows the payload's username, or 'Someone' |
| ChatClient.ChatView.StopDisplayTyping | frontend/src/components/Chat.tsx:46-48 | the indicator is cleared |
| ChatClient.ChatView.HandleInput | frontend/src/components/Chat.tsx:66-73 | the input follows the field, `typing` is emitted, and the stop timer is armed |
| ChatClient.ChatView.TypingTimerFires | frontend/src/components/Chat.tsx:69-72 | a pending timer emits `stop_typing` once; a spent one emits nothing |
| ChatClient.ChatView.HandleSendMessage | frontend/src/components/Chat.tsx:57-64 | a blank input emits nothing and is kept; otherwise the untrimmed text is sent, then `stop_typing`, and the input is cleared |
| PollClient.MaxVotes | frontend/src/components/Poll.tsx:51 | the maximum is some option's count and no count exceeds it; there is none for no options |
| PollClient.LeaderIff | frontend/src/components/Poll.tsx:75 | an option leads iff votes were cast and no option has more, so ties give several leaders |
| PollClient.SomeLeader | frontend/src/components/Poll.tsx:75 | once votes are cast, some option leads |
| PollClient.Percentage | frontend/src/components/Poll.tsx:70-72 | 0 when no votes were cast; otherwise the share rounded to the nearest percent, halves up; at most 100 for a count within the total, and 100 for the whole total |
| PollClient.PercentageOfSnapshot | frontend/src/components/Poll.tsx:70-72 | in a snapshot whose total is the sum of its options, every bar is at most 100 percent |
| PollClient.PollView.constructor | frontend/src/components/Poll.tsx:19-32 | mounting shows nothing, has not voted, and emits only `request_poll` |
| PollClient.PollView.UpdatePoll | frontend/src/components/Poll.tsx:24-26 | an update replaces the snapshot and nothing else |
| PollClient.PollView.HandleVote | frontend/src/components/Poll.tsx:34-39 | the first vote selects the option and emits `vote` with only its id; later calls do nothing; at most one vote ever leaves |
| AuthClient.Endpoint | frontend/src/components/Auth.tsx:23 | '/auth/login' exactly in login mode, '/auth/signup' exactly otherwise (a decision rule; `AuthClient.AuthForm.Submit` ties it to the request sent) |
| AuthClient.RequestBody | frontend/src/components/Auth.tsx:24 | both modes send the username and password; the email is sent exactly when signing up (a decision rule; `AuthClient.AuthForm.Submit` ties it to the request sent) |
| AuthClient.ErrorMessage | frontend/src/components/Auth.tsx:35-46 | the server's message (or 'Server error occurred.' for a missing one), else the no-response text when a request went out, else the error's own message |
| AuthClient.ServerMessageWins | frontend/src/components/Auth.tsx:37-39 | a non-empty server message is always what is shown |
| AuthClient.AuthForm.constructor | frontend/src/components/Auth.tsx:11-16 | the form starts in login mode, with empty fields, no error and not loading |
| AuthClient.AuthForm.EditFields | frontend/src/components/Auth.tsx:76-111 | the fields hold what was typed |
| AuthClient.AuthForm.ToggleMode | frontend/src/components/Auth.tsx:131-134 | the mode flips and the error is cleared |
| AuthClient.AuthForm.BeginSubmit | frontend/src/components/Auth.tsx:18-24 | the error is cleared, loading starts, and the request of the current mode is chosen |
| AuthClient.AuthForm.FinishSubmit | frontend/src/components/Auth.tsx:26-50 | loading ends on both paths; success calls `onLogin` with the returned username and token; failure shows the chosen message |
| AuthClient.AuthForm.Submit | frontend/src/components/Auth.tsx:18-51 | a press of the submit button does nothing exactly when loading (the button is disabled) or the browser's `required` / `minLength={6}` / `type="email"` validation fails; otherwise the current mode's request is posted, loading has ended, success has logged in with an empty error and failure shows its message |
| RoundTrip.ChatRoundTrip | backend/src/sockets/index.ts:33-35 | a sent message arrives with the sender's socket id, the text as typed, the name (or 'Anonymous') and the server time |
| RoundTrip.StampCannotBeForged | backend/src/sockets/index.ts:34 | whatever a client sends, the id and time others see are the server's |
| RoundTrip.OwnMessageRecognised | frontend/src/components/Chat.tsx:142 | a sender recognises its echoed message as its own iff its name is not empty |
| RoundTrip.TypingRoundTrip | backend/src/sockets/index.ts:37-39 | other clients' indicator names the typist, or 'Someone' for an empty name |
| RoundTrip.ClientOutcome | frontend/src/components/Auth.tsx:27-40 | a non-2xx answer reaches the form as a failure carrying the body's message |
| RoundTrip.LoginShown | backend/src/modules/auth/auth.controller.ts:22-35 | a failed login always shows 'Invalid credentials'; success logs in under the stored username with the access token |
| RoundTrip.SubmittedPasswordPasses | frontend/src/components/Auth.tsx:104-111 | every password the form lets through also passes the schema's six-code-unit password rule |
| RoundTrip.BlankUsernameReachesServer | frontend/src/components/Auth.tsx:76-83 | a username of spaces passes the browser's untrimmed `required` check and is rejected only by the schema's trimmed rule |
| RoundTrip.SignupShown | backend/src/modules/auth/auth.controller.ts:7-20 | a failed signup shows the taken-username or taken-email message, or 'Server error'; success logs in under the stored username |
| RoundTrip.BroadcastBarsBounded | frontend/src/components/Poll.tsx:70-72 | no bar of any poll the server broadcast is wider than 100 percent |

## Left out

- Connection set-up, server start-up, routing, middleware, database configuration
  (including the index drop at start-up) and the client's HTTP and socket
  configuration are I/O wiring, so they are not part of this model.
- The `disconnect` handler only logs, and `console.log` / `console.error` are
  output only, so neither is modelled.
- Socket.IO delivery, reconnection and interleaving of handlers are not modelled.
  Each handler is one atomic step, and a client receives whatever its audience
  says.
- `socket.off` clean-up, scrolling and rendering are not modelled.
- `toLocaleTimeString` formatting of timestamps is not modelled, because it
  depends on the locale.
- The server clock is the `now` argument, and `new Date()`'s own value is not
  modelled.
- The two-second typing timeout is state plus a `TypingTimerFires` step; real
  time is not modelled.
- bcrypt hashing and comparison, salt generation and JWT signing are opaque
  function parameters, because they are foreign library calls.
- Store queries, saves and the bcrypt calls always resolve in the model, and two
  HTTP requests never interleave: each request runs to completion against the
  store as one step. A rejected database call or bcrypt call, and the E11000
  duplicate-key error of two concurrent signups with the same key, reach the
  controllers' 500 branches in the source but not in the model.
- AuthService.Login: "a failed login is always Invalid credentials" holds only
  because store lookups and `bcrypt.compare` cannot reject in the model.
- AuthController.Login: "login never answers 500" holds only under the same
  assumption; a rejected lookup or comparison answers 500 'Server error' in the
  source.
- RoundTrip.LoginShown: "a failed login shows Invalid credentials" leaves out the
  'Server error' the form shows when the store or bcrypt rejects.
- AuthService.UserStore.Register: "a failed register is never a duplicate-key
  error" holds only because requests run one at a time; two concurrent signups
  with the same username or email can both pass the existence checks, and one
  save then fails with E11000.
- Protocol.ClientEvent: socket payloads are JSON objects with string-valued fields,
  and `vote` always carries a string `optionId`. In the source, a `vote` sent
  without a payload throws a TypeError in the handler when it reads
  `data.optionId`, and nothing catches it; a numeric `optionId` never matches;
  non-string `send_message` and `typing` fields are relayed as they are, and the
  client's `||` fallbacks treat `0` and `false` as missing. None of this is
  modelled.
- AuthClient.Submittable: the `type="email"` check is the parameter `isEmailAddress`,
  because the HTML e-mail grammar and the browser's stripping of white space from
  e-mail input values are not modelled.
- Request bodies with missing or non-string fields are not modelled.
  `SignupBody` and `LoginBody` always carry their string fields, so the `undefined`
  values of JavaScript never reach the service or a query filter.
- JsString.ToLower: maps only ASCII letters, because full Unicode case mapping
  (including length-changing mappings) is not modelled.
- JsString.ToUpper: maps only ASCII letters, for the same reason.
- JsString.TrimSpec: works on Dafny characters (code points), while JavaScript trims
  UTF-16 code units. Every white-space character is in the Basic Multilingual
  Plane, so the result is the same.
- ChatClient.TakeTwo: keeps two characters (code points), while `slice(0, 2)` keeps
  two UTF-16 code units. The two differ when one of the first two characters lies
  beyond the BMP: JavaScript then keeps half a surrogate pair, which a Dafny
  string cannot hold.
- ChatClient.GetInitials: takes the first character of each word, while `n[0]`
  takes its first UTF-16 code unit. For a word starting beyond the BMP,
  JavaScript yields a lone high surrogate and the model the whole character; on
  names inside the BMP the two agree.
- UserModel.EmailMatchesIff: covers the one pattern of the schema, not
  JavaScript regular expressions in general.
- AuthService.Message: gives only the start of the two Mongoose error messages,
  because their full text depends on the library.
- PollClient.Percentage: rounds the exact share, while the client rounds a
  floating-point quotient. For 29 votes of 200, `29 / 200 * 100` evaluates to
  slightly below 14.5 and shows 14, where the exact value rounds to 15.
- RoundTrip.ClientOutcome: the error text HTTP clients attach to a rejected
  request is a fixed string without the status code. The form shows it only when
  no response exists, which never happens for such a request.
- Poll and chat model schemas are not modelled. The socket handler keeps its
  poll in memory and never stores anything.
- The top-level `App` component's join guard is a trim check, and it is
  already covered by `ChatView.HandleSendMessage`'s guard.
