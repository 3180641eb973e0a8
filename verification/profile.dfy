/** The profile completion form (src/components/CompleteProfileForm.tsx): the three field
    validators, the all-valid gate of `handleSubmit`, and the per-field update of
    `handleChange`. Rendering, navigation and timers are not modelled; the awaited
    `createOrUpdateUser` call is an input to `Settle`.

    JavaScript strings are sequences of UTF-16 code units. Only the display-name check
    counts them; the two regular expressions give the same verdict on code units as on
    characters here, since a character outside the Basic Multilingual Plane is neither a
    `\w` character, white space nor `@`, and neither are its two surrogate halves.
 */
module Profile {
  import opened Wrappers
  import opened Text

  // ---------------------------------------------------------------------------------------
  // The validators

  /** `/^[a-zA-Z0-9_]{3,15}$/`: between 3 and 15 characters, each an ASCII letter, digit or
      underscore. */
  predicate ValidUsername(u: string) {
    3 <= |u| <= 15 && forall k :: 0 <= k < |u| ==> IsWordChar(u[k])
  }

  /** `validateUsername`, as the anchored regex is run: the length bounds, then one pass
      over the characters that stops at the first one outside the class. */
  method CheckUsername(u: string) returns (ok: bool)
    ensures ok <==> ValidUsername(u)
    ensures ok ==> !IsBlank(u) && !IsSpace(u[0])
  {
    if |u| < 3 || |u| > 15 {
      return false;
    }
    var i := 0;
    while i < |u|
      invariant 0 <= i <= |u|
      invariant forall k :: 0 <= k < i ==> IsWordChar(u[k])
    {
      if !IsWordChar(u[i]) {
        return false;
      }
      i := i + 1;
    }
    assert !IsSpace(u[0]);
    return true;
  }

  /** The number of UTF-16 code units of `s`, which is what `length` counts: two for a
      character above U+FFFF, one for any other. */
  function Utf16Length(s: string): (n: nat)
    ensures |s| <= n <= 2 * |s|
    ensures (forall k :: 0 <= k < |s| ==> s[k] as int <= 0xFFFF) ==> n == |s|
  {
    if s == [] then 0 else (if s[0] as int > 0xFFFF then 2 else 1) + Utf16Length(s[1..])
  }

  /** `validateDisplayName`: between 2 and 50 code units. */
  predicate ValidDisplayName(name: string) {
    2 <= Utf16Length(name) <= 50
  }

  /** For display names written in the Basic Multilingual Plane the bounds are on the number
      of characters; any name longer than 50 characters is refused, and any name of 2 to 25
      characters is accepted. */
  lemma DisplayNameBounds(name: string)
    ensures (forall k :: 0 <= k < |name| ==> name[k] as int <= 0xFFFF) ==>
      (ValidDisplayName(name) <==> 2 <= |name| <= 50)
    ensures |name| > 50 ==> !ValidDisplayName(name)
    ensures 2 <= |name| <= 25 ==> ValidDisplayName(name)
  {
  }

  /** `[^\s@]`: neither white space nor `@`. */
  predicate IsEmailChar(c: char) {
    !IsSpace(c) && c != '@'
  }

  /** A match of `/^[^\s@]+@[^\s@]+\.[^\s@]+$/` with the `@` at `at` and the `.` at `dot`:
      three non-empty runs of `[^\s@]` around the two. */
  ghost predicate EmailMatchAt(e: string, at: int, dot: int) {
    && 0 < at && at + 1 < dot && dot + 1 < |e|
    && e[at] == '@' && e[dot] == '.'
    && forall k :: 0 <= k < |e| && k != at ==> IsEmailChar(e[k])
  }

  /** The regular expression of `validateEmail` matches `e`. */
  ghost predicate EmailRegex(e: string) {
    exists at, dot :: EmailMatchAt(e, at, dot)
  }

  /** `validateEmail`, stated on the whole string: exactly one `@`, no white space, a
      non-empty part before the `@`, and a `.` in the part after it that is neither its
      first nor its last character. */
  function ValidateEmail(e: string): (ok: bool)
    ensures ok <==> EmailRegex(e)
  {
    var ok :=
      && Count(e, '@') == 1
      && (forall k :: 0 <= k < |e| ==> !IsSpace(e[k]))
      && var at := IndexOf(e, '@');
         var domain := e[at + 1..];
         at > 0 && |domain| >= 3 && '.' in domain[1..|domain| - 1];
    EmailCharacterization(e);
    ok
  }

  /** `c` occurs exactly once in `s`, at `i`. */
  lemma CountOnce(s: string, c: char, i: nat)
    requires i < |s| && s[i] == c
    ensures Count(s, c) == 1 <==> forall k :: 0 <= k < |s| && k != i ==> s[k] != c
  {
    assert s == s[..i] + [c] + s[i + 1..];
    assert multiset(s) == multiset(s[..i]) + multiset{c} + multiset(s[i + 1..]);
    if forall k :: 0 <= k < |s| && k != i ==> s[k] != c {
      assert c !in s[..i];
      var rest := s[i + 1..];
      assert c !in rest by {
        forall k | 0 <= k < |rest| ensures rest[k] != c {
          assert rest[k] == s[i + 1 + k];
        }
      }
    } else {
      var k :| 0 <= k < |s| && k != i && s[k] == c;
      if k < i {
        assert s[..i][k] == c;
      } else {
        assert s[i + 1..][k - i - 1] == c;
      }
    }
  }

  /** The whole-string statement and the regex decomposition agree. */
  lemma EmailCharacterization(e: string)
    ensures (
      && Count(e, '@') == 1
      && (forall k :: 0 <= k < |e| ==> !IsSpace(e[k]))
      && var at := IndexOf(e, '@');
         var domain := e[at + 1..];
         at > 0 && |domain| >= 3 && '.' in domain[1..|domain| - 1]) <==> EmailRegex(e)
  {
    if EmailRegex(e) {
      var at, dot :| EmailMatchAt(e, at, dot);
      CountOnce(e, '@', at);
      assert IndexOf(e, '@') == at;
      var domain := e[at + 1..];
      assert domain[1..|domain| - 1][dot - at - 2] == '.';
    }
    if Count(e, '@') == 1 && (forall k :: 0 <= k < |e| ==> !IsSpace(e[k])) {
      var at := IndexOf(e, '@');
      var domain := e[at + 1..];
      if at > 0 && |domain| >= 3 && '.' in domain[1..|domain| - 1] {
        CountOnce(e, '@', at);
        var j := IndexOf(domain[1..|domain| - 1], '.');
        var dot := at + 2 + j;
        assert e[dot] == domain[1..|domain| - 1][j];
        assert EmailMatchAt(e, at, dot);
      }
    }
  }

  /** An address of the expected shape is accepted. */
  lemma ShortAddressAccepted()
    ensures ValidateEmail("a@b.c")
  {
    assert EmailMatchAt("a@b.c", 1, 3);
  }

  /** A domain without a `.` strictly inside it is refused. */
  lemma DotAtDomainEdgeRefused()
    ensures !ValidateEmail("a@b.")
    ensures !ValidateEmail("a@.c")
  {
  }

  // ---------------------------------------------------------------------------------------
  // The form state

  datatype Field = Username | DisplayName | Email

  /** One value per field: the form's `formData` and its `validation` flags. */
  datatype Fields<T> = Fields(username: T, displayName: T, email: T)

  function Get<T>(r: Fields<T>, f: Field): T {
    match f
    case Username => r.username
    case DisplayName => r.displayName
    case Email => r.email
  }

  /** `{ ...prev, [name]: value }`: field `f` set to `v`, the others kept. */
  function With<T>(r: Fields<T>, f: Field, v: T): (r': Fields<T>)
    ensures Get(r', f) == v
    ensures forall g :: g != f ==> Get(r', g) == Get(r, g)
  {
    match f
    case Username => r.(username := v)
    case DisplayName => r.(displayName := v)
    case Email => r.(email := v)
  }

  /** The component's state: the field values, the validation flags, the error shown, and
      the `loading` and `success` flags. */
  datatype Form = Form(data: Fields<string>, validation: Fields<bool>, error: Option<string>,
                       loading: bool, success: bool)

  /** The state on first render: an empty username, the signed-in user's name and email (or
      empty strings), every flag valid. */
  function InitialForm(name: Option<string>, email: Option<string>): (form: Form)
    ensures form.data.username == []
    ensures form.data.displayName == (if name.Some? then name.value else [])
    ensures form.data.email == (if email.Some? then email.value else [])
    ensures forall f :: Get(form.validation, f)
    ensures form.error.None? && !form.loading && !form.success
  {
    Form(Fields([], name.GetOr([]), email.GetOr([])), Fields(true, true, true), None, false, false)
  }

  /** The validator of each field. */
  predicate FieldValid(f: Field, v: string) {
    match f
    case Username => ValidUsername(v)
    case DisplayName => ValidDisplayName(v)
    case Email => ValidateEmail(v)
  }

  /** The three validators applied to the field values. */
  function Validate(data: Fields<string>): (v: Fields<bool>)
    ensures forall f :: Get(v, f) == FieldValid(f, Get(data, f))
  {
    var v := Fields(ValidUsername(data.username), ValidDisplayName(data.displayName), ValidateEmail(data.email));
    assert Get(v, Username) == FieldValid(Username, Get(data, Username));
    assert Get(v, DisplayName) == FieldValid(DisplayName, Get(data, DisplayName));
    assert Get(v, Email) == FieldValid(Email, Get(data, Email));
    v
  }

  /** What `handleSubmit` does before any I/O: either it stops, or it calls
      `createOrUpdateUser` with `form.data` and shows the form as loading. */
  datatype Submit = Halted(form: Form) | Submitting(form: Form)

  /** `handleSubmit` up to the awaited call. */
  function HandleSubmit(form: Form): (s: Submit)
    ensures forall f :: Get(s.form.validation, f) == FieldValid(f, Get(form.data, f))
    ensures s.Submitting? <==> forall f :: FieldValid(f, Get(form.data, f))
    ensures s.form.data == form.data && s.form.error.None? && s.form.success == form.success
    ensures s.Submitting? ==> s.form.loading
    ensures s.Halted? ==> s.form.loading == form.loading
  {
    var v := Validate(form.data);
    var checked := form.(error := None, validation := v);
    assert v.username == Get(v, Username) && v.displayName == Get(v, DisplayName) && v.email == Get(v, Email);
    if !v.username || !v.displayName || !v.email then Halted(checked)
    else Submitting(checked.(loading := true))
  }

  /** How the awaited `createOrUpdateUser` settles: saved, or a rejection carrying the message
      of an `Error` (`None` when something else was thrown). */
  datatype CallResult = Saved | Rejected(message: Option<string>)

  const UpdateFailed := "Failed to update profile"

  /** The `try`/`catch`/`finally` after the call: success is shown, or the error message;
      the form stops loading either way. */
  function Settle(form: Form, result: CallResult): (r: Form)
    ensures !r.loading && r.data == form.data && r.validation == form.validation
    ensures r.success <==> result.Saved? || form.success
    ensures result.Saved? ==> r.error == form.error
    ensures result.Rejected? ==> r.error == Some(result.message.GetOr(UpdateFailed))
  {
    match result
    case Saved => form.(success := true, loading := false)
    case Rejected(message) => form.(error := Some(message.GetOr(UpdateFailed)), loading := false)
  }

  /** `handleChange`: the named field takes the typed value and its validation flag is
      cleared back to valid; every other field, flag and the rest of the state are kept. */
  function HandleChange(form: Form, f: Field, value: string): (r: Form)
    ensures Get(r.data, f) == value && Get(r.validation, f)
    ensures forall g :: g != f ==> Get(r.data, g) == Get(form.data, g)
    ensures forall g :: g != f ==> Get(r.validation, g) == Get(form.validation, g)
    ensures r.error == form.error && r.loading == form.loading && r.success == form.success
  {
    form.(data := With(form.data, f, value), validation := With(form.validation, f, true))
  }

  /** Two fields of a record are equal when they agree field by field. */
  lemma FieldsEqual<T>(a: Fields<T>, b: Fields<T>)
    requires forall f :: Get(a, f) == Get(b, f)
    ensures a == b
  {
    assert Get(a, Username) == Get(b, Username);
    assert Get(a, DisplayName) == Get(b, DisplayName);
    assert Get(a, Email) == Get(b, Email);
  }

  /** Edits to two different fields commute, and of two edits to one field the later wins. */
  lemma ChangesCommute(form: Form, f: Field, a: string, g: Field, b: string)
    ensures f != g ==> HandleChange(HandleChange(form, f, a), g, b) == HandleChange(HandleChange(form, g, b), f, a)
    ensures HandleChange(HandleChange(form, f, a), f, b) == HandleChange(form, f, b)
  {
    var x := HandleChange(HandleChange(form, f, a), f, b);
    var y := HandleChange(form, f, b);
    FieldsEqual(x.data, y.data);
    FieldsEqual(x.validation, y.validation);
    if f != g {
      var p := HandleChange(HandleChange(form, f, a), g, b);
      var q := HandleChange(HandleChange(form, g, b), f, a);
      FieldsEqual(p.data, q.data);
      FieldsEqual(p.validation, q.validation);
    }
  }

  /** The flags a submit shows depend on the field values alone: whatever `handleChange`
      cleared before is recomputed. */
  lemma SubmitIgnoresOldFlags(f1: Form, f2: Form)
    requires f1.data == f2.data && f1.loading == f2.loading && f1.success == f2.success
    ensures HandleSubmit(f1) == HandleSubmit(f2)
  {
  }

  /** A username the form accepts passes the server's blank check on the same field: it has
      a character that is not white space. */
  lemma AcceptedUsernameIsNotBlank(u: string)
    requires ValidUsername(u)
    ensures !IsBlank(u) && Trim(u) != []
  {
    assert !IsSpace(u[0]);
  }
}
