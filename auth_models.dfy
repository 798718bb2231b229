/** The sign-up rules of pact_backend/models/auth.py: the `min_length`
    configuration, the two regular-expression validators, the title-casing
    of the full name and the password validator. */
module AuthModels {
  import opened PyBuiltins

  // ---------------------------------------------------------------------
  // Character classes

  predicate IsUpper(c: char) { 'A' <= c <= 'Z' }
  predicate IsLower(c: char) { 'a' <= c <= 'z' }

  /** `[A-Za-z]`; also the cased characters of ASCII text. */
  predicate IsLetter(c: char) { IsUpper(c) || IsLower(c) }

  /** `\w` on ASCII text: letters, digits and the underscore. */
  predicate IsWordChar(c: char) { IsLetter(c) || IsDigit(c) || c == '_' }

  /** `[A-Za-z ]`. */
  predicate IsNameChar(c: char) { IsLetter(c) || c == ' ' }

  /** Every character of `s` is in the class `p`. */
  predicate AllIn(p: char -> bool, s: string) {
    forall i :: 0 <= i < |s| ==> p(s[i])
  }

  // ---------------------------------------------------------------------
  // `re.match("^[class]+$", s)`

  /** Length of the longest run of `p`-characters starting at `i`: how far
      the greedy `+` gets. */
  function RunFrom(p: char -> bool, s: string, i: nat): (n: nat)
    requires i <= |s|
    ensures i + n <= |s|
    ensures forall j :: i <= j < i + n ==> p(s[j])
    ensures i + n < |s| ==> !p(s[i + n])
    decreases |s| - i
  {
    if i < |s| && p(s[i]) then 1 + RunFrom(p, s, i + 1) else 0
  }

  /** `re.match` of `^` + one-or-more of `p` + `$`, for a class that does not
      contain a newline: the greedy run must be non-empty and end where `$`
      matches, at the end of the string or just before a final newline.
      Backing off the run cannot help, since the character after a shorter
      run is in the class and so neither the end nor the newline. */
  predicate AnchoredPlus(p: char -> bool, s: string) {
    var n := RunFrom(p, s, 0);
    n >= 1 && (n == |s| || (n == |s| - 1 && s[n] == '\n'))
  }

  /** What the pattern accepts: a non-empty string of the class, possibly
      followed by one newline. */
  lemma AnchoredPlusIff(p: char -> bool, s: string)
    requires !p('\n')
    ensures AnchoredPlus(p, s) <==>
              (|s| >= 1 && AllIn(p, s)) ||
              (|s| >= 2 && s[|s| - 1] == '\n' && AllIn(p, s[..|s| - 1]))
  {
    var n := RunFrom(p, s, 0);
    if |s| >= 1 && AllIn(p, s) {
      assert n == |s|;
    }
    if |s| >= 2 && s[|s| - 1] == '\n' && AllIn(p, s[..|s| - 1]) {
      assert forall j :: 0 <= j < |s| - 1 ==> p(s[j]) by {
        forall j | 0 <= j < |s| - 1 ensures p(s[j]) {
          assert s[..|s| - 1][j] == s[j];
        }
      }
      assert n == |s| - 1;
    }
  }

  // ---------------------------------------------------------------------
  // The validators

  /** Why a field is refused. */
  datatype FieldError =
    | TooShort       // `str_min_length = 1` in `Config`
    | BadUsername
    | BadFullName
    | BadPassword
    | BadEmail

  /** The text of each refusal; the full-name message names digits and
      underscores, which the pattern refuses. */
  function Message(e: FieldError): string {
    match e
    case TooShort => "String should have at least 1 character"
    case BadUsername => "Username must have only alphabets, digits and underscores"
    case BadFullName => "Full name must have only alphabets, digits and underscores"
    case BadPassword => "Password must be between 8-12 characters"
    case BadEmail => "value is not a valid email address"
  }

  /** `validate_username`, after the minimum-length check. */
  function ValidateUsername(v: string): Result<string, FieldError> {
    if |v| < 1 then Err(TooShort)
    else if !AnchoredPlus(IsWordChar, v) then Err(BadUsername)
    else Ok(v)
  }

  /** A username is accepted, unchanged, iff it is word characters, with one
      trailing newline tolerated by `$`. */
  lemma UsernameAcceptedIff(v: string)
    ensures ValidateUsername(v).Ok? <==>
              (|v| >= 1 && AllIn(IsWordChar, v)) ||
              (|v| >= 2 && v[|v| - 1] == '\n' && AllIn(IsWordChar, v[..|v| - 1]))
    ensures ValidateUsername(v).Ok? ==> ValidateUsername(v).value == v
    ensures ValidateUsername(v).Err? ==> ValidateUsername(v).error in {TooShort, BadUsername}
  {
    AnchoredPlusIff(IsWordChar, v);
  }

  function Upper(c: char): (r: char)
    ensures IsLetter(r) <==> IsLetter(c)
    ensures IsLetter(c) ==> IsUpper(r)
  {
    if IsLower(c) then (c as int - 32) as char else c
  }

  function Lower(c: char): (r: char)
    ensures IsLetter(r) <==> IsLetter(c)
    ensures IsLetter(c) ==> IsLower(r)
  {
    if IsUpper(c) then (c as int + 32) as char else c
  }

  /** `str.title()` from a position whose predecessor was (or was not) a
      cased character: a cased character is upper-cased after an uncased
      one and lower-cased after a cased one. */
  function TitleFrom(afterCased: bool, s: string): (r: string)
    ensures |r| == |s|
    decreases |s|
  {
    if s == [] then []
    else if IsLetter(s[0]) then [if afterCased then Lower(s[0]) else Upper(s[0])] + TitleFrom(true, s[1..])
    else [s[0]] + TitleFrom(false, s[1..])
  }

  /** `value.title()`. */
  function Title(s: string): (r: string)
    ensures |r| == |s|
  {
    TitleFrom(false, s)
  }

  /** The title-cased character at position `i`, from `s` alone. */
  function TitleAt(s: string, i: nat): char
    requires i < |s|
  {
    if !IsLetter(s[i]) then s[i]
    else if i > 0 && IsLetter(s[i - 1]) then Lower(s[i])
    else Upper(s[i])
  }

  lemma {:induction false} TitleFromAt(afterCased: bool, s: string, i: nat)
    requires i < |s|
    ensures TitleFrom(afterCased, s)[i] ==
              if !IsLetter(s[i]) then s[i]
              else if (if i == 0 then afterCased else IsLetter(s[i - 1])) then Lower(s[i])
              else Upper(s[i])
    decreases |s|
  {
    if i > 0 {
      TitleFromAt(IsLetter(s[0]), s[1..], i - 1);
      if i > 1 {
        assert s[1..][i - 2] == s[i - 1];
      }
    }
  }

  /** Title-casing upper-cases the first letter of every run of letters and
      lower-cases the rest; every other character stays where it was. */
  lemma TitlePointwise(s: string)
    ensures forall i :: 0 <= i < |s| ==> Title(s)[i] == TitleAt(s, i)
  {
    forall i | 0 <= i < |s| ensures Title(s)[i] == TitleAt(s, i) {
      TitleFromAt(false, s, i);
    }
  }

  /** Title-casing twice is title-casing once, so the router's second
      `.title()` changes nothing. */
  lemma TitleIdempotent(s: string)
    ensures Title(Title(s)) == Title(s)
  {
    var t := Title(s);
    TitlePointwise(s);
    TitlePointwise(t);
    forall i | 0 <= i < |s| ensures Title(t)[i] == t[i] {
      assert IsLetter(t[i]) <==> IsLetter(s[i]);
      if i > 0 {
        assert IsLetter(t[i - 1]) <==> IsLetter(s[i - 1]);
      }
    }
  }

  /** Title-casing keeps each character's class, so an accepted full name
      is still accepted after it. */
  lemma TitleKeepsClass(s: string)
    ensures forall i :: 0 <= i < |s| ==> (IsLetter(Title(s)[i]) <==> IsLetter(s[i]))
    ensures forall i :: 0 <= i < |s| && !IsLetter(s[i]) ==> Title(s)[i] == s[i]
  {
    TitlePointwise(s);
  }

  /** `validate_full_name`, after the minimum-length check: the title-cased
      name, or the refusal. */
  function ValidateFullName(v: string): Result<string, FieldError> {
    if |v| < 1 then Err(TooShort)
    else if !AnchoredPlus(IsNameChar, v) then Err(BadFullName)
    else Ok(Title(v))
  }

  /** A full name is accepted iff it is ASCII letters and spaces (one
      trailing newline tolerated); the stored name has the same length, the
      same spaces, and is its own title case. */
  lemma FullNameAcceptedIff(v: string)
    ensures ValidateFullName(v).Ok? <==>
              (|v| >= 1 && AllIn(IsNameChar, v)) ||
              (|v| >= 2 && v[|v| - 1] == '\n' && AllIn(IsNameChar, v[..|v| - 1]))
    ensures ValidateFullName(v).Ok? ==>
              var n := ValidateFullName(v).value;
              |n| == |v| && (forall i :: 0 <= i < |v| ==> (n[i] == ' ' <==> v[i] == ' ')) && Title(n) == n
  {
    AnchoredPlusIff(IsNameChar, v);
    TitleKeepsClass(v);
    TitleIdempotent(v);
  }

  /** The full-name message promises digits and underscores, yet a name
      holding either is refused. */
  lemma FullNameRefusesDigits()
    ensures ValidateFullName("Ann 2") == Err(BadFullName)
    ensures ValidateFullName("Ann_B") == Err(BadFullName)
  {
    assert RunFrom(IsNameChar, "Ann 2", 4) == 0;
    assert RunFrom(IsNameChar, "Ann_B", 3) == 0;
  }

  /** `validate_password`, after the minimum-length check. */
  function ValidatePassword(v: string): Result<string, FieldError> {
    if |v| < 1 then Err(TooShort)
    else if |v| < 8 && |v| > 12 then Err(BadPassword)
    else Ok(v)
  }

  /** The length test can never hold, so any non-empty password is accepted
      unchanged, however short or long. */
  lemma PasswordOnlyNeedsOneChar(v: string)
    ensures ValidatePassword(v).Ok? <==> |v| >= 1
    ensures ValidatePassword(v).Ok? ==> ValidatePassword(v).value == v
    ensures ValidatePassword(v).Err? ==> ValidatePassword(v).error == TooShort
  {
  }

  /** A validated `SignUpRequest`. */
  datatype SignUpRequest = SignUpRequest(username: string, fullName: string, email: string, password: string)

  /** Constructing a `SignUpRequest`: every field is validated and the
      errors are reported together, in field order. `emailNorm` stands for
      the `EmailStr` validation: `None` when it refuses the address, and
      otherwise the normalised address it stores in its place. */
  function SignUp(username: string, fullName: string, email: string, password: string,
                  emailNorm: string -> Option<string>): (r: Result<SignUpRequest, seq<FieldError>>)
    ensures r.Ok? <==> ValidateUsername(username).Ok? && ValidateFullName(fullName).Ok? &&
                       |email| >= 1 && emailNorm(email).Some? && ValidatePassword(password).Ok?
    ensures r.Err? ==> |r.error| >= 1
  {
    var u := ValidateUsername(username);
    var f := ValidateFullName(fullName);
    var e: Result<string, FieldError> :=
      if |email| < 1 then Err(TooShort)
      else if emailNorm(email).None? then Err(BadEmail)
      else Ok(emailNorm(email).value);
    var p := ValidatePassword(password);
    var errors := ErrorOf(u) + ErrorOf(f) + ErrorOf(e) + ErrorOf(p);
    if errors == [] then Ok(SignUpRequest(u.value, f.value, e.value, p.value))
    else Err(errors)
  }

  /** The error a field contributes, if any. */
  function ErrorOf(r: Result<string, FieldError>): (es: seq<FieldError>)
    ensures es == [] <==> r.Ok?
  {
    if r.Ok? then [] else [r.error]
  }

  /** An accepted sign-up keeps the username and password as sent, stores
      the title-cased full name and the normalised e-mail address. */
  lemma SignUpStoresTitleCase(username: string, fullName: string, email: string, password: string,
                              emailNorm: string -> Option<string>)
    requires SignUp(username, fullName, email, password, emailNorm).Ok?
    ensures emailNorm(email).Some?
    ensures SignUp(username, fullName, email, password, emailNorm).value ==
              SignUpRequest(username, Title(fullName), emailNorm(email).value, password)
  {
  }
}
