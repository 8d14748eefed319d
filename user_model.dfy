/** The Mongoose `User` schema: how each field is normalised and validated before
    a document is stored, the `settings.notifications` default, and the pre-save
    hook that replaces a modified password by its hash. */
module UserModel {
  import opened Wrappers
  import opened JsString

  // ---------------------------------------------------------------------------
  // The email pattern /.+\@.+\..+/ (unanchored, `.` = any non-line-terminator)
  // ---------------------------------------------------------------------------

  /** A match of the pattern whose '@' is at `at` and whose '.' is at `dot`. Because
      the pattern is unanchored, its first and last `.+` can be shrunk to a single
      character, so one character before the '@' and one after the '.' suffice. */
  ghost predicate MatchAt(s: string, at: int, dot: int) {
    && 1 <= at && at + 2 <= dot && dot + 2 <= |s|
    && s[at] == '@' && s[dot] == '.'
    && !IsLineTerminator(s[at - 1])
    && (forall k :: at < k < dot ==> !IsLineTerminator(s[k]))
    && !IsLineTerminator(s[dot + 1])
  }

  /** `/.+\@.+\..+/.test(s)`, as the meaning of the regular expression. */
  ghost predicate EmailRegex(s: string) {
    exists at, dot :: MatchAt(s, at, dot)
  }

  /** The states of a left-to-right scanner for the pattern. `Run`: inside a run of
      non-line-terminators; `AfterAt`: just read an '@' that has a character before
      it; `Middle`: at least one character since such an '@'; `AfterDot`: just read
      a '.' after the middle; `Matched`: a match has been seen. */
  datatype ScanState = Idle | Run | AfterAt | Middle | AfterDot | Matched

  function Step(st: ScanState, c: char): ScanState {
    if st == Matched then Matched
    else if IsLineTerminator(c) then Idle
    else match st
      case Idle => Run
      case Run => if c == '@' then AfterAt else Run
      case AfterAt => Middle
      case Middle => if c == '.' then AfterDot else Middle
      case AfterDot => Matched
  }

  function Scan(s: string): ScanState {
    if s == [] then Idle else Step(Scan(s[..|s| - 1]), s[|s| - 1])
  }

  /** The `match` validator's test, computed by the scanner. */
  predicate EmailMatches(s: string) {
    Scan(s) == Matched
  }

  /** An '@' at `a` with a character before it and only non-line-terminators after
      it, up to the end of `p`. */
  ghost predicate OpenAt(p: string, a: int) {
    && 1 <= a < |p| && p[a] == '@' && !IsLineTerminator(p[a - 1])
    && forall k :: a < k < |p| ==> !IsLineTerminator(p[k])
  }

  /** `p` ends in the '.' of a match that lacks only its last character. */
  ghost predicate DotReady(p: string, a: int) {
    OpenAt(p, a) && a + 3 <= |p| && p[|p| - 1] == '.'
  }

  /** What each scanner state says about the prefix read so far. */
  ghost predicate ScanInvariant(p: string, st: ScanState) {
    && (st == Matched <==> EmailRegex(p))
    && (st == Idle ==> p == [] || IsLineTerminator(p[|p| - 1]))
    && (st == Run ==> p != [] && !IsLineTerminator(p[|p| - 1]) && forall a :: !OpenAt(p, a))
    && (st == AfterAt ==> OpenAt(p, |p| - 1) && forall a :: OpenAt(p, a) ==> a == |p| - 1)
    && (st == Middle ==> (exists a :: OpenAt(p, a) && a + 2 <= |p|) && forall a :: !DotReady(p, a))
    && (st == AfterDot ==> exists a :: DotReady(p, a))
  }

  lemma MatchExtends(p: string, c: char)
    requires EmailRegex(p)
    ensures EmailRegex(p + [c])
  {
    var at, dot :| MatchAt(p, at, dot);
    assert MatchAt(p + [c], at, dot);
  }

  /** A match that appears with the last character ends there, and was one
      character short before it. */
  lemma NewMatch(p: string, c: char)
    requires EmailRegex(p + [c]) && !EmailRegex(p)
    ensures !IsLineTerminator(c) && exists a :: DotReady(p, a)
  {
    var q := p + [c];
    var at, dot :| MatchAt(q, at, dot);
    assert forall k :: 0 <= k < |p| ==> q[k] == p[k];
    if dot + 2 <= |p| {
      assert MatchAt(p, at, dot);
      assert false;
    }
    assert dot == |p| - 1;
    assert DotReady(p, at);
  }

  lemma OpenAtExtends(p: string, c: char, a: int)
    requires a < |p|
    ensures OpenAt(p + [c], a) <==> OpenAt(p, a) && !IsLineTerminator(c)
  {
    var q := p + [c];
    if OpenAt(q, a) {
      assert forall k :: a < k < |p| ==> q[k] == p[k];
      assert !IsLineTerminator(q[|p|]);
    }
  }

  lemma OpenAtLast(p: string, c: char)
    ensures OpenAt(p + [c], |p|) <==> c == '@' && |p| >= 1 && !IsLineTerminator(p[|p| - 1])
  {
  }

  /** In every state short of `AfterDot`, the prefix cannot be one character away
      from a match. */
  lemma NoDotReady(p: string, st: ScanState)
    requires ScanInvariant(p, st) && st != AfterDot && st != Matched
    ensures forall a :: !DotReady(p, a)
  {
  }

  lemma {:induction false} StepKeepsInvariant(p: string, st: ScanState, c: char)
    requires ScanInvariant(p, st)
    ensures ScanInvariant(p + [c], Step(st, c))
  {
    var q := p + [c];
    if st == Matched {
      MatchExtends(p, c);
      return;
    }
    forall a | a < |p| ensures OpenAt(q, a) <==> OpenAt(p, a) && !IsLineTerminator(c) {
      OpenAtExtends(p, c, a);
    }
    OpenAtLast(p, c);
    if st != AfterDot {
      NoDotReady(p, st);
    }
    if (IsLineTerminator(c) || st != AfterDot) && EmailRegex(q) {
      NewMatch(p, c);
      assert false;
    }
    if IsLineTerminator(c) {
      return;
    }
    match st
    case Idle =>
    case Run =>
    case AfterAt =>
      assert forall a :: !DotReady(q, a);
    case Middle =>
      var a :| OpenAt(p, a) && a + 2 <= |p|;
      assert OpenAt(q, a);
      if c == '.' {
        assert DotReady(q, a);
      }
    case AfterDot =>
      var a :| DotReady(p, a);
      assert MatchAt(q, a, |p| - 1);
  }

  lemma {:induction false} ScanKeepsInvariant(s: string)
    ensures ScanInvariant(s, Scan(s))
  {
    if s != [] {
      var p := s[..|s| - 1];
      ScanKeepsInvariant(p);
      StepKeepsInvariant(p, Scan(p), s[|s| - 1]);
      assert p + [s[|s| - 1]] == s;
    }
  }

  /** The scanner accepts exactly the strings the regular expression matches. */
  lemma EmailMatchesIff(s: string)
    ensures EmailMatches(s) <==> EmailRegex(s)
  {
    ScanKeepsInvariant(s);
  }

  // ---------------------------------------------------------------------------
  // Field rules
  // ---------------------------------------------------------------------------

  datatype Field = Username | Email | Password

  /** The fields handed to `new UserModel(...)`; `None` is an absent field. */
  datatype UserInput = UserInput(
    username: Option<string>, email: Option<string>, password: Option<string>,
    notifications: Option<bool>)

  /** A document that passed validation, with its setters applied. */
  datatype UserDoc = UserDoc(username: string, email: string, password: string, notifications: bool)

  const UsernameMinLength: nat := 3
  const PasswordMinLength: nat := 6

  /** `trim: true`. */
  function NormalizeUsername(s: string): string {
    Trim(s)
  }

  /** `trim: true, lowercase: true`, applied in that order. */
  function NormalizeEmail(s: string): string {
    ToLower(Trim(s))
  }

  function MapOption(v: Option<string>, f: string -> string): Option<string> {
    match v
    case None => None
    case Some(x) => Some(f(x))
  }

  /** `required: true` on a String path: present and not the empty string. */
  predicate Required(v: Option<string>) {
    v.Some? && v.value != ""
  }

  /** `minlength: n`, which Mongoose does not run on an absent value. It compares
      the JavaScript `length`, so a character beyond the BMP counts twice. */
  predicate MinLength(v: Option<string>, n: nat) {
    v.None? || Utf16Length(v.value) >= n
  }

  /** `match: regex`, which Mongoose does not run on an absent or empty value. */
  predicate MatchesEmail(v: Option<string>) {
    v.None? || v.value == "" || EmailMatches(v.value)
  }

  /** Whether a field passes all of its validators, on the value after its setters. */
  predicate FieldPasses(f: Field, input: UserInput) {
    match f
    case Username =>
      var u := MapOption(input.username, NormalizeUsername);
      Required(u) && MinLength(u, UsernameMinLength)
    case Email =>
      var e := MapOption(input.email, NormalizeEmail);
      Required(e) && MatchesEmail(e)
    case Password =>
      Required(input.password) && MinLength(input.password, PasswordMinLength)
  }

  /** The fields whose validators fail. */
  function Problems(input: UserInput): (bad: set<Field>)
    ensures forall f :: f in bad <==> !FieldPasses(f, input)
  {
    (if FieldPasses(Username, input) then {} else {Username})
    + (if FieldPasses(Email, input) then {} else {Email})
    + (if FieldPasses(Password, input) then {} else {Password})
  }

  /** A username passes iff it is given and has at least three UTF-16 code units
      once trimmed. */
  lemma UsernameRule(input: UserInput)
    ensures FieldPasses(Username, input) <==>
      input.username.Some? && Utf16Length(Trim(input.username.value)) >= UsernameMinLength
  {
  }

  /** An email passes iff it is given and its trimmed, lower-cased form matches
      /.+\@.+\..+/. */
  lemma EmailRule(input: UserInput)
    ensures FieldPasses(Email, input) <==>
      input.email.Some? && EmailRegex(ToLower(Trim(input.email.value)))
  {
    if input.email.Some? {
      var e := NormalizeEmail(input.email.value);
      EmailMatchesIff(e);
      assert EmailMatches(e) ==> e != "";
    }
  }

  /** A password passes iff it is given and has at least six UTF-16 code units; it
      is not trimmed. */
  lemma PasswordRule(input: UserInput)
    ensures FieldPasses(Password, input) <==>
      input.password.Some? && Utf16Length(input.password.value) >= PasswordMinLength
  {
  }

  /** Three emoji beyond the BMP are six code units, so they make a valid password,
      and two make a valid username; five ASCII letters are too short a password. */
  lemma {:induction false} AstralLengths()
    ensures FieldPasses(Password, UserInput(None, None, Some(['\U{1F600}', '\U{1F600}', '\U{1F600}']), None))
    ensures FieldPasses(Username, UserInput(Some(['\U{1F600}', '\U{1F600}']), None, None, None))
    ensures !FieldPasses(Password, UserInput(None, None, Some("abcde"), None))
  {
    var e := '\U{1F600}';
    assert !IsWhiteSpace(e);
    TrimNoop([e, e]);
    assert Utf16Length([e, e]) == 4 by {
      assert [e, e][1..] == [e];
      assert [e][1..] == [];
    }
    assert Utf16Length([e, e, e]) == 6 by {
      assert [e, e, e][1..] == [e, e];
      assert [e, e][1..] == [e];
      assert [e][1..] == [];
    }
  }

  /** Mongoose's `validate()` on the values after their setters: either the
      normalised document, with `settings.notifications` defaulting to true, or
      every failing field at once. */
  function Validate(input: UserInput): (r: Result<UserDoc, set<Field>>)
    ensures r.Success? <==> Problems(input) == {}
    ensures r.Failure? ==> r.error == Problems(input)
    ensures r.Success? ==>
      && r.value.username == Trim(input.username.value)
      && r.value.email == ToLower(Trim(input.email.value))
      && r.value.password == input.password.value
      && r.value.notifications == input.notifications.GetOr(true)
  {
    var bad := Problems(input);
    if bad != {} then Failure(bad)
    else Success(UserDoc(
      NormalizeUsername(input.username.value),
      NormalizeEmail(input.email.value),
      input.password.value,
      input.notifications.GetOr(true)))
  }

  /** The fields of a stored document, as they would be handed back to the model. */
  function AsInput(d: UserDoc): UserInput {
    UserInput(Some(d.username), Some(d.email), Some(d.password), Some(d.notifications))
  }

  /** Normalisation is stable: a validated document passes validation again and
      comes back unchanged. */
  lemma ValidateStable(input: UserInput)
    requires Validate(input).Success?
    ensures Validate(AsInput(Validate(input).value)) == Validate(input)
  {
    var d := Validate(input).value;
    var again := AsInput(d);
    TrimIdempotent(input.username.value);
    assert Trim(d.username) == d.username;
    var t := Trim(input.email.value);
    assert d.email == ToLower(t);
    TrimIdempotent(input.email.value);
    assert Trim(t) == t;
    TrimLowerCommute(t);
    assert Trim(d.email) == d.email;
    LowerIdempotent(t);
    assert ToLower(Trim(d.email)) == d.email;
    UsernameRule(input);
    UsernameRule(again);
    assert FieldPasses(Username, again);
    EmailRule(input);
    EmailRule(again);
    assert FieldPasses(Email, again);
    assert FieldPasses(Password, again);
    assert Problems(again) == {};
  }

  // ---------------------------------------------------------------------------
  // The pre-save hook
  // ---------------------------------------------------------------------------

  /** A `User` document in memory, between validation and the write. */
  class UserDocument {
    var username: string
    var email: string
    var password: string
    var notifications: bool

    function Value(): UserDoc
      reads this
    {
      UserDoc(username, email, password, notifications)
    }

    constructor (d: UserDoc)
      ensures Value() == d
    {
      username, email, password, notifications := d.username, d.email, d.password, d.notifications;
    }

    /** `pre('save')`: when the password path was modified, it is replaced by its
        hash under a freshly generated salt; otherwise the document is untouched.
        bcrypt is the parameter `hash`, the generated salt the parameter `salt`. */
    method PreSave(passwordModified: bool, salt: string, hash: (string, string) -> string)
      modifies this`password
      ensures password == if passwordModified then hash(old(password), salt) else old(password)
    {
      if !passwordModified {
        return;
      }
      password := hash(password, salt);
    }
  }
}
