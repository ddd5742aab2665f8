/** The add-employee dialog: ten text inputs on two tabs, client-side
    validation that must pass before the parent's `onSubmit` is called, and
    the submit state (spinner flag, general error, active tab). */
module AddEmployeeModal {
  import opened Wrappers
  import opened Text

  /** The inputs, by their `name` attribute. */
  datatype Field =
    | Firstname | Lastname | Email | Password | Phone | Cnic
    | InternalRole | Department | Shift | JoiningDate

  datatype EmployeeForm = EmployeeForm(
    firstname: string, lastname: string, email: string, password: string,
    phone: string, cnic: string,
    internalRole: string, department: string, shift: string, joiningDate: string)

  /** The form as the dialog opens: every input empty. */
  function EmptyForm(): (f: EmployeeForm)
    ensures forall g :: Get(f, g) == ""
  {
    EmployeeForm("", "", "", "", "", "", "", "", "", "")
  }

  function Get(f: EmployeeForm, g: Field): string {
    match g
    case Firstname => f.firstname
    case Lastname => f.lastname
    case Email => f.email
    case Password => f.password
    case Phone => f.phone
    case Cnic => f.cnic
    case InternalRole => f.internalRole
    case Department => f.department
    case Shift => f.shift
    case JoiningDate => f.joiningDate
  }

  /** `{ ...prev, [name]: value }`: the named input takes the value and every
      other input keeps its own. */
  function Set(f: EmployeeForm, g: Field, v: string): (r: EmployeeForm)
    ensures Get(r, g) == v
    ensures forall h | h != g :: Get(r, h) == Get(f, h)
  {
    match g
    case Firstname => f.(firstname := v)
    case Lastname => f.(lastname := v)
    case Email => f.(email := v)
    case Password => f.(password := v)
    case Phone => f.(phone := v)
    case Cnic => f.(cnic := v)
    case InternalRole => f.(internalRole := v)
    case Department => f.(department := v)
    case Shift => f.(shift := v)
    case JoiningDate => f.(joiningDate := v)
  }

  // ---------------------------------------------------------------------------
  // The e-mail pattern /^[^\s@]+@[^\s@]+\.[^\s@]+$/

  /** A character the class `[^\s@]` accepts. */
  predicate Plain(c: char) {
    !IsSpace(c) && c != '@'
  }

  predicate AllPlain(s: string) {
    forall k | 0 <= k < |s| :: Plain(s[k])
  }

  /** The pattern matches `s`: `s` splits at an '@' (position `a`) and a '.'
      (position `b`) into three non-empty runs of plain characters. */
  predicate EmailPatternMatches(s: string) {
    exists a, b | 0 < a < |s| && a + 1 < b < |s| - 1 ::
      && s[a] == '@' && s[b] == '.'
      && AllPlain(s[..a]) && AllPlain(s[a + 1..b]) && AllPlain(s[b + 1..])
  }

  function CountChar(c: char, s: string): nat {
    if s == [] then 0 else (if s[0] == c then 1 else 0) + CountChar(c, s[1..])
  }

  /** A character occurs in `s` iff its count is positive. */
  lemma {:induction false} CountZero(c: char, s: string)
    ensures CountChar(c, s) == 0 <==> c !in s
  {
    if s != [] {
      CountZero(c, s[1..]);
      assert s == [s[0]] + s[1..];
    }
  }

  /** Given one occurrence at `a`, the count is one iff there is no other. */
  lemma {:induction false} CountOne(c: char, s: string, a: nat)
    requires a < |s| && s[a] == c
    ensures CountChar(c, s) == 1 <==> forall k | 0 <= k < |s| && k != a :: s[k] != c
  {
    if a == 0 {
      CountZero(c, s[1..]);
      if forall k | 0 <= k < |s| && k != a :: s[k] != c {
        assert c !in s[1..];
      } else {
        var k :| 0 <= k < |s| && k != a && s[k] == c;
        assert s[1..][k - 1] == c;
      }
    } else {
      CountOne(c, s[1..], a - 1);
      if s[0] == c {
        CountZero(c, s[1..]);
        assert s[1..][a - 1] == c;
      }
    }
  }

  /** The domain after the '@' has a '.' that is neither its first nor its
      last character. */
  predicate HasInteriorDot(d: string) {
    exists i | 0 < i < |d| - 1 :: d[i] == '.'
  }

  /** The pattern's meaning in plain terms: no white space, exactly one '@',
      a non-empty part before it, and a domain after it with an interior '.'. */
  predicate EmailShape(s: string) {
    && (forall k | 0 <= k < |s| :: !IsSpace(s[k]))
    && CountChar('@', s) == 1
    && exists a | 0 < a < |s| :: s[a] == '@' && HasInteriorDot(s[a + 1..])
  }

  /** A slice that avoids the only '@' of a space-free string is plain. */
  lemma PlainSlice(s: string, lo: nat, hi: nat, a: nat)
    requires lo <= hi <= |s| && (a < lo || hi <= a)
    requires forall k | 0 <= k < |s| :: !IsSpace(s[k])
    requires forall k | 0 <= k < |s| && k != a :: s[k] != '@'
    ensures AllPlain(s[lo..hi])
  {
    var t := s[lo..hi];
    forall k | 0 <= k < |t| ensures Plain(t[k]) {
      assert t[k] == s[lo + k];
    }
  }

  lemma PatternHasShape(s: string)
    requires EmailPatternMatches(s)
    ensures EmailShape(s)
  {
    var a, b :| 0 < a < |s| && a + 1 < b < |s| - 1
                && s[a] == '@' && s[b] == '.'
                && AllPlain(s[..a]) && AllPlain(s[a + 1..b]) && AllPlain(s[b + 1..]);
    var left, mid, right := s[..a], s[a + 1..b], s[b + 1..];
    forall k | 0 <= k < |s| && k != a
      ensures Plain(s[k]) || k == b
    {
      if k < a {
        assert left[k] == s[k];
      } else if a < k < b {
        assert mid[k - a - 1] == s[k];
      } else if k > b {
        assert right[k - b - 1] == s[k];
      }
    }
    CountOne('@', s, a);
    assert s[a + 1..][b - a - 1] == '.';
  }

  lemma ShapeHasPattern(s: string)
    requires EmailShape(s)
    ensures EmailPatternMatches(s)
  {
    var a :| 0 < a < |s| && s[a] == '@' && HasInteriorDot(s[a + 1..]);
    var d := s[a + 1..];
    var i :| 0 < i < |d| - 1 && d[i] == '.';
    var b := a + 1 + i;
    assert s[b] == d[i];
    CountOne('@', s, a);
    PlainSlice(s, 0, a, a);
    PlainSlice(s, a + 1, b, a);
    PlainSlice(s, b + 1, |s|, a);
  }

  /** What the pattern means. */
  lemma EmailPatternMeaning(s: string)
    ensures EmailPatternMatches(s) <==> EmailShape(s)
  {
    if EmailPatternMatches(s) {
      PatternHasShape(s);
    }
    if EmailShape(s) {
      ShapeHasPattern(s);
    }
  }

  // ---------------------------------------------------------------------------
  // The browser's check of `type="email"`: a "valid email address" in the
  // sense of the HTML standard (section 4.10.5.1.5 of the WHATWG HTML Living
  // Standard), that is
  // /^[a-zA-Z0-9.!#$%&'*+\/=?^_`{|}~-]+@[a-zA-Z0-9](?:[a-zA-Z0-9-]{0,61}[a-zA-Z0-9])?(?:\.[a-zA-Z0-9](?:[a-zA-Z0-9-]{0,61}[a-zA-Z0-9])?)*$/

  predicate AsciiAlnum(c: char) {
    ('a' <= c <= 'z') || ('A' <= c <= 'Z') || ('0' <= c <= '9')
  }

  /** A character allowed before the '@'. */
  predicate LocalChar(c: char) {
    AsciiAlnum(c) || c in ".!#$%&'*+/=?^_`{|}~-"
  }

  /** A character allowed inside a domain label. */
  predicate LabelChar(c: char) {
    AsciiAlnum(c) || c == '-'
  }

  /** One to 63 letters, digits and hyphens, starting and ending with a
      letter or digit. */
  predicate ValidLabel(l: string) {
    && 1 <= |l| <= 63
    && AsciiAlnum(l[0]) && AsciiAlnum(l[|l| - 1])
    && forall k | 0 <= k < |l| :: LabelChar(l[k])
  }

  /** Labels separated by single dots. */
  predicate ValidDomain(d: string)
    decreases |d|
  {
    || ValidLabel(d)
    || exists i | 0 < i < |d| :: d[i] == '.' && ValidLabel(d[..i]) && ValidDomain(d[i + 1..])
  }

  predicate HtmlValidEmail(s: string) {
    exists a | 0 < a < |s| ::
      s[a] == '@' && (forall k | 0 <= k < a :: LocalChar(s[k])) && ValidDomain(s[a + 1..])
  }

  lemma AllowedCharsArePlain(c: char)
    ensures LocalChar(c) ==> Plain(c)
    ensures LabelChar(c) || c == '.' ==> Plain(c)
  {
  }

  /** A domain is built from label characters and dots, and starts and ends
      with a letter or digit. */
  lemma {:induction false} DomainShape(d: string)
    requires ValidDomain(d)
    ensures |d| > 0 && AsciiAlnum(d[0]) && AsciiAlnum(d[|d| - 1])
    ensures forall k | 0 <= k < |d| :: LabelChar(d[k]) || d[k] == '.'
  {
    if !ValidLabel(d) {
      var i :| 0 < i < |d| && d[i] == '.' && ValidLabel(d[..i]) && ValidDomain(d[i + 1..]);
      var rest := d[i + 1..];
      DomainShape(rest);
      assert d[0] == d[..i][0];
      assert d[|d| - 1] == rest[|rest| - 1];
      forall k | 0 <= k < |d| ensures LabelChar(d[k]) || d[k] == '.' {
        if k < i {
          assert d[k] == d[..i][k];
        } else if k > i {
          assert d[k] == rest[k - i - 1];
        }
      }
    }
  }

  /** In an address the browser accepts, every character but its '@' is
      plain. */
  lemma AcceptedIsPlain(s: string, a: nat)
    requires 0 < a < |s| && s[a] == '@'
    requires forall k | 0 <= k < a :: LocalChar(s[k])
    requires ValidDomain(s[a + 1..])
    ensures forall k | 0 <= k < |s| && k != a :: Plain(s[k])
  {
    var d := s[a + 1..];
    DomainShape(d);
    forall k | 0 <= k < |s| && k != a ensures Plain(s[k]) {
      AllowedCharsArePlain(s[k]);
      if k > a {
        assert s[k] == d[k - a - 1];
      }
    }
  }

  /** A domain's dots are never at its ends. */
  lemma DotInDomain(d: string)
    requires ValidDomain(d)
    ensures HasInteriorDot(d) <==> '.' in d
  {
    DomainShape(d);
    if '.' in d {
      var i :| 0 <= i < |d| && d[i] == '.';
      assert !AsciiAlnum('.');
      assert 0 < i < |d| - 1;
    }
  }

  /** The browser's check and the handler's pattern disagree only on the
      dot: an address the browser accepts matches the pattern exactly when
      its domain has a dot, so "a@b" reaches the handler and is rejected
      there. */
  lemma BrowserAcceptedAgainstPattern(s: string, a: nat)
    requires HtmlValidEmail(s) && a < |s| && s[a] == '@'
    ensures EmailPatternMatches(s) <==> '.' in s[a + 1..]
  {
    var a0 :| 0 < a0 < |s| && s[a0] == '@'
              && (forall k | 0 <= k < a0 :: LocalChar(s[k])) && ValidDomain(s[a0 + 1..]);
    AcceptedIsPlain(s, a0);
    assert a == a0 by {
      assert !Plain(s[a]);
    }
    CountOne('@', s, a0);
    assert forall k | 0 <= k < |s| :: !IsSpace(s[k]) by {
      forall k | 0 <= k < |s| ensures !IsSpace(s[k]) {
        if k != a0 {
          assert Plain(s[k]);
        }
      }
    }
    EmailPatternMeaning(s);
    DotInDomain(s[a0 + 1..]);
    if EmailShape(s) {
      var b :| 0 < b < |s| && s[b] == '@' && HasInteriorDot(s[b + 1..]);
      assert b == a0 by {
        assert !Plain(s[b]);
      }
    }
  }

  // ---------------------------------------------------------------------------
  // Validation

  /** `validateForm`'s error map, built in the same order: the required-field
      checks, the password length check that overrides the required message,
      then the pattern check that overrides the e-mail required message. */
  function Validate(f: EmployeeForm): (errs: map<Field, string>)
    ensures Firstname in errs <==> f.firstname == ""
    ensures Lastname in errs <==> f.lastname == ""
    ensures InternalRole in errs <==> f.internalRole == ""
    ensures Password in errs <==> Utf16Length(f.password) < 6
    ensures Email in errs <==> !EmailPatternMatches(f.email)
    ensures errs.Keys <= {Firstname, Lastname, Email, Password, InternalRole}
    ensures Firstname in errs ==> errs[Firstname] == "First name is required"
    ensures Lastname in errs ==> errs[Lastname] == "Last name is required"
    ensures InternalRole in errs ==> errs[InternalRole] == "Role is required"
    ensures Password in errs && f.password == "" ==> errs[Password] == "Password is required"
    ensures Password in errs && f.password != "" ==> errs[Password] == "Password must be at least 6 characters"
    ensures Email in errs && f.email == "" ==> errs[Email] == "Email is required"
    ensures Email in errs && f.email != "" ==> errs[Email] == "Invalid email format"
  {
    var e0: map<Field, string> := map[];
    var e1 := if f.firstname == "" then e0[Firstname := "First name is required"] else e0;
    var e2 := if f.lastname == "" then e1[Lastname := "Last name is required"] else e1;
    var e3 := if f.email == "" then e2[Email := "Email is required"] else e2;
    var e4 := if f.password == "" then e3[Password := "Password is required"] else e3;
    var e5 := if f.password != "" && Utf16Length(f.password) < 6
              then e4[Password := "Password must be at least 6 characters"] else e4;
    var e6 := if f.internalRole == "" then e5[InternalRole := "Role is required"] else e5;
    var e7 := if f.email != "" && !EmailPatternMatches(f.email)
              then e6[Email := "Invalid email format"] else e6;
    e7
  }

  /** `validateForm()` returns true: the error map has no keys. */
  predicate IsValid(f: EmployeeForm) {
    |Validate(f)| == 0
  }

  /** The password's length is counted in UTF-16 code units, two for an
      emoji: three emoji pass the length check, and so do four letters and an
      emoji, while five letters do not. */
  lemma PasswordLengthInCodeUnits(f: EmployeeForm)
    ensures f.password == "\U{1F600}\U{1F600}\U{1F600}" ==> Password !in Validate(f)
    ensures f.password == "abcd\U{1F600}" ==> Password !in Validate(f)
    ensures f.password == "abcde" ==>
              Password in Validate(f) && Validate(f)[Password] == "Password must be at least 6 characters"
  {
    var smile := "\U{1F600}";
    assert smile[0] as int > 0xFFFF;
    assert Utf16Length(smile) == 2;
    assert "\U{1F600}\U{1F600}\U{1F600}"[1..] == smile + smile && (smile + smile)[1..] == smile;
    assert "abcd\U{1F600}"[1..] == "bcd\U{1F600}" && "bcd\U{1F600}"[1..] == "cd\U{1F600}";
    assert "cd\U{1F600}"[1..] == "d\U{1F600}" && "d\U{1F600}"[1..] == smile;
    Utf16LengthBmp("abcde");
  }

  /** The form is valid exactly when the three required names are filled in,
      the password has at least six UTF-16 code units and the e-mail matches the
      pattern; phone, CNIC, department, shift and joining date never matter. */
  lemma ValidIff(f: EmployeeForm)
    ensures IsValid(f) <==>
              && f.firstname != "" && f.lastname != "" && f.internalRole != ""
              && Utf16Length(f.password) >= 6 && EmailPatternMatches(f.email)
  {
    var errs := Validate(f);
    if |errs| == 0 {
      assert errs == map[];
    } else {
      var k :| k in errs.Keys;
    }
  }

  // ---------------------------------------------------------------------------
  // Dialog state

  datatype Tab = Personal | Employment

  datatype ModalState = ModalState(
    form: EmployeeForm,
    errors: map<Field, string>,
    isSubmitting: bool,
    generalError: string,
    tab: Tab)

  function Opened(): (s: ModalState)
    ensures s.form == EmptyForm() && s.errors == map[] && !s.isSubmitting
    ensures s.generalError == "" && s.tab == Personal
  {
    ModalState(EmptyForm(), map[], false, "", Personal)
  }

  /** `handleChange`: store the value, and blank the field's error message if
      it had a non-empty one. */
  function HandleChange(s: ModalState, g: Field, v: string): (r: ModalState)
    ensures Get(r.form, g) == v
    ensures forall h | h != g :: Get(r.form, h) == Get(s.form, h)
    ensures forall h | h != g :: (h in r.errors <==> h in s.errors)
    ensures forall h | h != g && h in s.errors :: r.errors[h] == s.errors[h]
    ensures g in s.errors && s.errors[g] != "" ==> g in r.errors && r.errors[g] == ""
    ensures !(g in s.errors && s.errors[g] != "") ==> r.errors == s.errors
    ensures r.isSubmitting == s.isSubmitting && r.generalError == s.generalError && r.tab == s.tab
  {
    var form := Set(s.form, g, v);
    if g in s.errors && s.errors[g] != "" then
      s.(form := form, errors := s.errors[g := ""])
    else
      s.(form := form)
  }

  /** The inputs on the "personal" tab. */
  const PersonalFields: set<Field> := {Firstname, Lastname, Email, Password, Phone, Cnic}

  /** `personalFieldErrors.some((field) => errors[field])`. */
  predicate HasPersonalError(errors: map<Field, string>) {
    exists g | g in PersonalFields :: g in errors && errors[g] != ""
  }

  /** Typing never adds or removes an error entry; afterwards the edited
      input shows no error, and the personal tab has an error shown exactly
      when another personal input had one. The tab does not move. */
  lemma ChangeClearsOwnError(s: ModalState, g: Field, v: string)
    ensures var r := HandleChange(s, g, v);
            && r.errors.Keys == s.errors.Keys
            && !(g in r.errors && r.errors[g] != "")
            && (HasPersonalError(r.errors) <==>
                  exists h | h in PersonalFields && h != g :: h in s.errors && s.errors[h] != "")
            && r.tab == s.tab
  {
    var r := HandleChange(s, g, v);
    if HasPersonalError(r.errors) {
      var h :| h in PersonalFields && h in r.errors && r.errors[h] != "";
      assert h != g && h in s.errors && s.errors[h] != "";
    }
    if exists h | h in PersonalFields && h != g :: h in s.errors && s.errors[h] != "" {
      var h :| h in PersonalFields && h != g && h in s.errors && s.errors[h] != "";
      assert h in r.errors && r.errors[h] != "";
    }
  }

  /** Typing a value and then the input's old value again restores the form;
      only the error message of that input may have been blanked. */
  lemma ChangeBackRestoresForm(s: ModalState, g: Field, v: string)
    ensures var r := HandleChange(HandleChange(s, g, v), g, Get(s.form, g));
            && r.form == s.form
            && r.errors.Keys == s.errors.Keys
            && forall h | h in s.errors && h != g :: r.errors[h] == s.errors[h]
  {
    match g
    case Firstname => {}
    case Lastname => {}
    case Email => {}
    case Password => {}
    case Phone => {}
    case Cnic => {}
    case InternalRole => {}
    case Department => {}
    case Shift => {}
    case JoiningDate => {}
  }

  /** How the parent's `onSubmit` promise settles. */
  datatype SubmitOutcome = Resolved(success: bool) | Rejected(message: string)

  /** The dialog after a submit, whether `onSubmit` was called, and whether
      `onClose` was called. */
  datatype SubmitResult = SubmitResult(state: ModalState, submitted: bool, closed: bool)

  /** The browser's interactive validation stops the submit before
      `handleSubmit` runs when the e-mail input holds a non-empty value that
      is not a valid address. Only the visible tab's inputs are in the
      document, so the check applies on the personal tab alone. */
  predicate BrowserBlocks(s: ModalState) {
    s.tab == Personal && s.form.email != "" && !HtmlValidEmail(s.form.email)
  }

  /** `handleSubmit`, once the browser lets the submit through. The general
      error is cleared and the fresh error map stored; an invalid form
      switches tab and stops there. The tab choice reads `errors` from the
      render in which the submit happened, that is the map before this
      validation. A valid form calls `onSubmit`, whose settlement is
      `outcome`. */
  function HandleSubmit(s: ModalState, outcome: SubmitOutcome): (r: SubmitResult)
    ensures BrowserBlocks(s) ==> r == SubmitResult(s, false, false)
    ensures r.submitted <==> !BrowserBlocks(s) && IsValid(s.form)
    ensures r.state.form == s.form
    ensures !BrowserBlocks(s) ==> r.state.errors == Validate(s.form)
    ensures !BrowserBlocks(s) && !r.submitted ==>
              && !r.closed
              && r.state.isSubmitting == s.isSubmitting
              && r.state.generalError == ""
              && (r.state.tab == Personal <==> HasPersonalError(s.errors))
    ensures r.submitted ==> && !r.state.isSubmitting
                            && (r.closed <==> outcome == Resolved(true))
                            && (outcome.Rejected? ==> r.state.generalError == outcome.message)
                            && (outcome.Resolved? ==> r.state.generalError == "")
                            && r.state.tab == s.tab
  {
    if BrowserBlocks(s) then SubmitResult(s, false, false)
    else
      var errs := Validate(s.form);
      var cleared := s.(generalError := "", errors := errs);
      if |errs| != 0 then
        SubmitResult(cleared.(tab := if HasPersonalError(s.errors) then Personal else Employment), false, false)
      else
        match outcome
        case Resolved(success) => SubmitResult(cleared.(isSubmitting := false), true, success)
        case Rejected(message) =>
          SubmitResult(cleared.(isSubmitting := false, generalError := message), true, false)
  }

  /** "a@b.co" is an address the browser accepts. */
  lemma SampleAddressAccepted()
    ensures HtmlValidEmail("a@b.co")
  {
    var e := "a@b.co";
    var d := e[2..];
    assert d == "b.co" && d[1] == '.';
    assert d[..1] == "b" && ValidLabel("b");
    assert d[2..] == "co" && ValidLabel("co");
    assert ValidDomain(d);
    assert e[1] == '@' && LocalChar(e[0]);
  }

  /** "abc" on the personal tab never reaches the handler: nothing changes.
      On the employment tab the e-mail input is not in the document, the
      handler runs and reports the format error. "a@b" passes the browser
      and fails the handler's pattern. */
  lemma EmailGateExample(s: ModalState, outcome: SubmitOutcome)
    requires s.form.email == "abc"
    ensures s.tab == Personal ==> HandleSubmit(s, outcome) == SubmitResult(s, false, false)
    ensures s.tab == Employment ==>
              var errs := HandleSubmit(s, outcome).state.errors;
              Email in errs && errs[Email] == "Invalid email format"
    ensures HtmlValidEmail("a@b") && !EmailPatternMatches("a@b")
  {
    assert "abc"[0] == 'a' && "abc"[1] == 'b' && "abc"[2] == 'c';
    assert !HtmlValidEmail("abc");
    assert !EmailPatternMatches("abc");
    var d := "a@b"[2..];
    assert d == "b" && ValidLabel(d) && ValidDomain(d);
    assert "a@b"[1] == '@' && LocalChar("a@b"[0]);
    assert HtmlValidEmail("a@b");
    BrowserAcceptedAgainstPattern("a@b", 1);
  }

  /** The first submit of a form whose only problem is an empty first name:
      the error is on the personal tab, yet the dialog switches to the
      employment tab because the previous error map was still empty. */
  lemma StaleTabChoice()
    ensures var f := EmptyForm().(lastname := "B", email := "a@b.co", password := "secret",
                                  internalRole := "Guard");
            var r := HandleSubmit(Opened().(form := f), Resolved(true));
            && Validate(f).Keys == {Firstname}
            && !r.submitted
            && r.state.tab == Employment
  {
    var f := EmptyForm().(lastname := "B", email := "a@b.co", password := "secret",
                          internalRole := "Guard");
    assert EmailPatternMatches(f.email) by {
      assert f.email[1] == '@' && f.email[3] == '.';
      assert AllPlain(f.email[..1]) && AllPlain(f.email[2..3]) && AllPlain(f.email[4..]);
    }
    SampleAddressAccepted();
    Utf16LengthBmp(f.password);
    assert !HasPersonalError(map[]);
  }

  /** The submit handler with the tab chosen from the error map this submit
      just computed. */
  function HandleSubmitFreshTab(s: ModalState, outcome: SubmitOutcome): (r: SubmitResult)
    ensures r.submitted <==> !BrowserBlocks(s) && IsValid(s.form)
    ensures BrowserBlocks(s) || r.submitted ==> r == HandleSubmit(s, outcome)
    ensures !BrowserBlocks(s) ==> r.state.errors == Validate(s.form) && r.state.form == s.form
    ensures !BrowserBlocks(s) && !r.submitted ==>
              (r.state.tab == Personal <==> HasPersonalError(Validate(s.form)))
  {
    var r := HandleSubmit(s, outcome);
    if r.submitted || BrowserBlocks(s) then r
    else r.(state := r.state.(tab := if HasPersonalError(r.state.errors) then Personal else Employment))
  }

  /** With the fresh map, a rejected form lands on the tab of an invalid
      field: personal when a personal input failed, and otherwise employment,
      where the role is then necessarily missing. */
  lemma FreshTabShowsAnError(s: ModalState, outcome: SubmitOutcome)
    ensures var r := HandleSubmitFreshTab(s, outcome);
            !BrowserBlocks(s) && !r.submitted ==>
              || (r.state.tab == Personal && exists g | g in PersonalFields :: g in Validate(s.form))
              || (r.state.tab == Employment && InternalRole in Validate(s.form))
  {
    var errs := Validate(s.form);
    if !BrowserBlocks(s) && !IsValid(s.form) && !HasPersonalError(errs) {
      assert Firstname !in errs && Lastname !in errs && Email !in errs && Password !in errs;
      var k :| k in errs.Keys;
    }
  }
}
