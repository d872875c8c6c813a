/** The checks the registration form runs, in order, before it sends the
    register request; the first failing check is the error shown. */
module RegisterForm {
  import opened Text

  /** The form's outcome: the error it shows, or the request body it sends. */
  datatype Outcome = Rejected(error: string) | Submit(email: string, password: string)

  const AllFieldsRequired: string := "All fields are required"
  const InvalidEmail: string := "Please enter a valid email address"
  const PasswordTooShort: string := "Password must be at least 6 characters long"
  const PasswordsDiffer: string := "Passwords do not match"
  const MinPasswordLength: nat := 6

  /** One `[^\s@]+` run of the e-mail pattern. */
  predicate PlainRun(t: string) {
    |t| > 0 && forall k :: 0 <= k < |t| ==> !IsSpace(t[k]) && t[k] != '@'
  }

  /** `/^[^\s@]+@[^\s@]+\.[^\s@]+$/` matches `s` with its `@` at position
      `at` and its `\.` at position `dot`. */
  predicate MatchAt(s: string, at: nat, dot: nat) {
    && at < dot < |s|
    && s[at] == '@' && s[dot] == '.'
    && PlainRun(s[..at]) && PlainRun(s[at + 1..dot]) && PlainRun(s[dot + 1..])
  }

  /** `emailRegex.test(s)`: a match needs an `@` and at least the five
      characters of `x@y.z`. */
  ghost predicate MatchesEmailPattern(s: string)
    ensures MatchesEmailPattern(s) ==> '@' in s && |s| >= 5
  {
    exists at: nat, dot: nat :: MatchAt(s, at, dot)
  }

  /** The pattern read as plain conditions: no white space, exactly one `@`
      with something before it, and a `.` after it that is neither the first
      character of the domain nor the last character of the address. */
  predicate LooksLikeEmail(s: string) {
    && (forall k :: 0 <= k < |s| ==> !IsSpace(s[k]))
    && exists at :: 0 < at < |s| && s[at] == '@'
         && (forall k :: 0 <= k < |s| && k != at ==> s[k] != '@')
         && exists dot :: at + 1 < dot < |s| - 1 && s[dot] == '.'
  }

  /** The plain reading is exactly the pattern. */
  lemma EmailPatternCharacterised(s: string)
    ensures MatchesEmailPattern(s) <==> LooksLikeEmail(s)
  {
    if MatchesEmailPattern(s) {
      var at: nat, dot: nat :| MatchAt(s, at, dot);
      forall k | 0 <= k < |s| ensures !IsSpace(s[k]) && (k != at ==> s[k] != '@') {
        if k < at {
          assert s[..at][k] == s[k];
        } else if at < k < dot {
          assert s[at + 1..dot][k - at - 1] == s[k];
        } else if dot < k {
          assert s[dot + 1..][k - dot - 1] == s[k];
        }
      }
      assert s[at + 1..dot] != [] && s[dot + 1..] != [];
    }
    if LooksLikeEmail(s) {
      var at :| 0 < at < |s| && s[at] == '@'
         && (forall k :: 0 <= k < |s| && k != at ==> s[k] != '@')
         && exists dot :: at + 1 < dot < |s| - 1 && s[dot] == '.';
      var dot :| at + 1 < dot < |s| - 1 && s[dot] == '.';
      assert MatchAt(s, at, dot);
    }
  }

  /** `handleSubmit`'s checks, first failure first. */
  function Validate(email: string, password: string, confirm: string): (r: Outcome)
    ensures r == Rejected(AllFieldsRequired) <==> (email == "" || password == "" || confirm == "")
    ensures r == Rejected(InvalidEmail) <==>
      email != "" && password != "" && confirm != "" && !MatchesEmailPattern(email)
    ensures r == Rejected(PasswordTooShort) <==>
      email != "" && password != "" && confirm != "" && MatchesEmailPattern(email)
      && |password| < MinPasswordLength
    ensures r == Rejected(PasswordsDiffer) <==>
      email != "" && password != "" && confirm != "" && MatchesEmailPattern(email)
      && |password| >= MinPasswordLength && password != confirm
    ensures r.Submit? <==>
      email != "" && password != "" && confirm != "" && MatchesEmailPattern(email)
      && |password| >= MinPasswordLength && password == confirm
    ensures r.Submit? ==> r == Submit(email, password)
  {
    EmailPatternCharacterised(email);
    if email == "" || password == "" || confirm == "" then Rejected(AllFieldsRequired)
    else if !LooksLikeEmail(email) then Rejected(InvalidEmail)
    else if |password| < MinPasswordLength then Rejected(PasswordTooShort)
    else if password != confirm then Rejected(PasswordsDiffer)
    else Submit(email, password)
  }

  /** An address the form sends is left as it is by the server's trim, so the
      server stores it lower-cased, and never as the empty address. */
  lemma SubmittedEmailSurvivesTrim(email: string, password: string, confirm: string)
    requires Validate(email, password, confirm).Submit?
    ensures Trim(email) == email
    ensures Normalize(email) == Lower(email) && Normalize(email) != ""
  {
    EmailPatternCharacterised(email);
    TrimOfTrimmed(email);
  }

  /** The length check runs on the password before the server trims it: five
      spaces and a letter pass the form and are stored as a one-letter password. */
  lemma LengthCheckPrecedesServerTrim()
    ensures Validate("a@b.co", "     x", "     x") == Submit("a@b.co", "     x")
    ensures Trim("     x") == "x"
  {
    SampleAddressMatches();
    SpacesThenLetterTrim();
  }

  lemma SampleAddressMatches()
    ensures MatchesEmailPattern("a@b.co")
  {
    var s := "a@b.co";
    assert s[..1] == "a" && s[2..3] == "b" && s[4..] == "co";
    assert MatchAt(s, 1, 3);
  }

  lemma SpacesThenLetterTrim()
    ensures Trim("     x") == "x"
  {
    var p := "     x";
    assert p[1..][1..][1..][1..][1..] == "x";
    assert TrimStart(p) == "x";
  }
}
