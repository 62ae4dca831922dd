/** The sign-in page (pages/AuthPage.tsx): the password rule checked on sign-up, the mapping
    from the authentication service's error codes to the messages shown, and the order of
    the checks when the email form is submitted. The sign-in calls themselves are
    parameters: `None` when they succeed, or the error code they throw. */
module AuthPage {
  import opened Wrappers
  import opened Strings

  /** The message shown for a password the rule refuses. */
  const WeakPasswordMessage: string :=
    "Password must be at least 6 characters, include 1 uppercase letter, 1 number, and 1 symbol."

  const MismatchMessage: string := "Passwords do not match."

  /** The sentinel the page renders as its own unauthorized-domain panel. */
  const DomainError: string := "DOMAIN_ERROR"

  const GenericMessage: string := "Authentication failed. Please try again."

  /** The three character classes the rule asks for. */
  datatype CharClass = Upper | Digit | Symbol

  predicate InClass(c: char, k: CharClass)
  {
    match k
    case Upper => 'A' <= c <= 'Z'
    case Digit => '0' <= c <= '9'
    case Symbol => c in "!@#$%^&*"
  }

  /** The characters a regular expression's `.` does not match. */
  predicate LineTerminator(c: char)
  {
    c == '\n' || c == '\r' || c == '\U{2028}' || c == '\U{2029}'
  }

  /** No line terminator among the first `i` characters. */
  predicate NoBreakBefore(s: string, i: nat)
    requires i <= |s|
  {
    forall j :: 0 <= j < i ==> !LineTerminator(s[j])
  }

  /** The lookahead `(?=.*[class])` anchored at the start: a character of the class that
      `.*` can reach, that is one with no line terminator before it. */
  predicate Lookahead(s: string, k: CharClass)
  {
    exists i :: 0 <= i < |s| && InClass(s[i], k) && NoBreakBefore(s, i)
  }

  /** The lookahead `(?=.{n,})` anchored at the start. Without the `u` flag `.` matches one
      UTF-16 code unit, so it asks for a run of `n` code units before any line terminator. */
  predicate LongEnough(s: string, n: nat)
  {
    exists i :: 0 <= i <= |s| && NoBreakBefore(s, i) && n <= Utf16Length(s[..i])
  }

  /** What `passwordRegex.test` accepts: an uppercase letter, a digit and one of `!@#$%^&*`
      on the first line, and a first line of at least six code units. */
  predicate MatchesRule(s: string)
  {
    Lookahead(s, Upper) && Lookahead(s, Digit) && Lookahead(s, Symbol) && LongEnough(s, 6)
  }

  /** Where the first line ends: the index of the first line terminator, or the whole
      length when there is none. */
  function FirstLineEnd(s: string): (r: nat)
    ensures r <= |s| && NoBreakBefore(s, r)
    ensures r < |s| ==> LineTerminator(s[r])
  {
    if s == [] || LineTerminator(s[0]) then 0 else 1 + FirstLineEnd(s[1..])
  }

  /** The length of the first line in UTF-16 code units; for a string on one line, its
      whole JavaScript `length`. */
  function FirstLineLength(s: string): (r: nat)
    ensures r <= Utf16Length(s)
    ensures (forall j :: 0 <= j < |s| ==> !LineTerminator(s[j])) ==> r == Utf16Length(s)
  {
    var k := FirstLineEnd(s);
    assert s == s[..k] + s[k..];
    Utf16LengthAppend(s[..k], s[k..]);
    Utf16Length(s[..k])
  }

  /** The classes of the characters on the first line, collected in one scan. */
  function ClassesSeen(s: string): set<CharClass>
  {
    if s == [] || LineTerminator(s[0]) then {}
    else (set k | k in {Upper, Digit, Symbol} && InClass(s[0], k)) + ClassesSeen(s[1..])
  }

  /** The scan finds a class exactly when the lookahead for it succeeds. */
  lemma {:induction false} ClassesSeenIff(s: string, k: CharClass)
    ensures k in ClassesSeen(s) <==> Lookahead(s, k)
  {
    if s == [] || LineTerminator(s[0]) {
    } else {
      ClassesSeenIff(s[1..], k);
      if Lookahead(s[1..], k) {
        var i :| 0 <= i < |s[1..]| && InClass(s[1..][i], k) && NoBreakBefore(s[1..], i);
        assert InClass(s[i + 1], k) && NoBreakBefore(s, i + 1);
      }
      if Lookahead(s, k) && !InClass(s[0], k) {
        var i :| 0 <= i < |s| && InClass(s[i], k) && NoBreakBefore(s, i);
        assert i > 0;
        assert InClass(s[1..][i - 1], k) && NoBreakBefore(s[1..], i - 1);
      }
    }
  }

  /** The first line is long enough exactly when the lookahead `.{n,}` succeeds. */
  lemma FirstLineLengthIff(s: string, n: nat)
    ensures FirstLineLength(s) >= n <==> LongEnough(s, n)
  {
    var k := FirstLineEnd(s);
    if FirstLineLength(s) >= n {
      assert NoBreakBefore(s, k) && n <= Utf16Length(s[..k]);
    }
    if LongEnough(s, n) {
      var i :| 0 <= i <= |s| && NoBreakBefore(s, i) && n <= Utf16Length(s[..i]);
      assert i <= k;
      assert s[..k] == s[..i] + s[i..k];
      Utf16LengthAppend(s[..i], s[i..k]);
    }
  }

  /** `validatePassword`: no message for a password that passes the rule, the fixed message
      otherwise. */
  function ValidatePassword(pwd: string): Option<string>
  {
    if {Upper, Digit, Symbol} <= ClassesSeen(pwd) && FirstLineLength(pwd) >= 6 then None
    else Some(WeakPasswordMessage)
  }

  /** The scan agrees with the regular expression: no message exactly when it matches, and
      otherwise always the same message. */
  lemma ValidatePasswordIff(pwd: string)
    ensures ValidatePassword(pwd).None? <==> MatchesRule(pwd)
    ensures ValidatePassword(pwd).Some? ==> ValidatePassword(pwd).value == WeakPasswordMessage
  {
    ClassesSeenIff(pwd, Upper);
    ClassesSeenIff(pwd, Digit);
    ClassesSeenIff(pwd, Symbol);
    FirstLineLengthIff(pwd, 6);
  }

  /** On a string without line terminators a lookahead finds any character of its class. */
  lemma SingleLineLookahead(pwd: string, k: CharClass)
    requires forall j :: 0 <= j < |pwd| ==> !LineTerminator(pwd[j])
    ensures Lookahead(pwd, k) <==> exists i :: 0 <= i < |pwd| && InClass(pwd[i], k)
  {
    if exists i :: 0 <= i < |pwd| && InClass(pwd[i], k) {
      var i :| 0 <= i < |pwd| && InClass(pwd[i], k);
      assert NoBreakBefore(pwd, i);
    }
  }

  /** On one line the regular expression asks for a `length` of six code units and one
      character of each class anywhere. */
  lemma SingleLineRule(pwd: string)
    requires forall j :: 0 <= j < |pwd| ==> !LineTerminator(pwd[j])
    ensures MatchesRule(pwd) <==>
              Utf16Length(pwd) >= 6 &&
              (exists i :: 0 <= i < |pwd| && InClass(pwd[i], Upper)) &&
              (exists i :: 0 <= i < |pwd| && InClass(pwd[i], Digit)) &&
              (exists i :: 0 <= i < |pwd| && InClass(pwd[i], Symbol))
  {
    FirstLineLengthIff(pwd, 6);
    SingleLineLookahead(pwd, Upper);
    SingleLineLookahead(pwd, Digit);
    SingleLineLookahead(pwd, Symbol);
  }

  /** For a password on one line (what a password field holds) the rule reads plainly:
      a `length` of at least six code units, an uppercase letter, a digit and a symbol. */
  lemma ValidateSingleLine(pwd: string)
    requires forall j :: 0 <= j < |pwd| ==> !LineTerminator(pwd[j])
    ensures ValidatePassword(pwd).None? <==>
              Utf16Length(pwd) >= 6 &&
              (exists i :: 0 <= i < |pwd| && 'A' <= pwd[i] <= 'Z') &&
              (exists i :: 0 <= i < |pwd| && '0' <= pwd[i] <= '9') &&
              (exists i :: 0 <= i < |pwd| && pwd[i] in "!@#$%^&*")
  {
    ValidatePasswordIff(pwd);
    SingleLineRule(pwd);
  }

  /** An emoji outside the Basic Multilingual Plane is two code units: "Ab1!" followed by
      one emoji has five characters but a `length` of six, and passes the rule. */
  lemma EmojiCountsTwice()
    ensures ValidatePassword("Ab1!\U{1F600}").None?
  {
    var pwd := "Ab1!\U{1F600}";
    assert Utf16Length(pwd[4..]) == 2;
    Utf16LengthAppend(pwd[..4], pwd[4..]);
    assert pwd == pwd[..4] + pwd[4..];
    Utf16LengthBmp(pwd[..4]);
    ValidateSingleLine(pwd);
    assert 'A' <= pwd[0] <= 'Z' && '0' <= pwd[2] <= '9' && pwd[3] in "!@#$%^&*";
  }

  /** The error codes with a message of their own, in the order of the switch. */
  const KnownCodes: seq<string> := [
    "auth/email-already-in-use", "auth/invalid-credential", "auth/weak-password",
    "auth/user-not-found", "auth/wrong-password", "auth/unauthorized-domain",
    "auth/popup-closed-by-user", "auth/cancelled-popup-request", "auth/operation-not-allowed"]

  /** `getFriendlyErrorMessage`. */
  function FriendlyMessage(code: string): (r: string)
    ensures r == DomainError <==> code == "auth/unauthorized-domain"
    ensures r == GenericMessage <==> code !in KnownCodes
    ensures r != ""
  {
    if code == "auth/email-already-in-use" then "That email is already in use."
    else if code == "auth/invalid-credential" then "Invalid email or password."
    else if code == "auth/weak-password" then "Password is too weak."
    else if code == "auth/user-not-found" then "No account found with this email."
    else if code == "auth/wrong-password" then "Incorrect password."
    else if code == "auth/unauthorized-domain" then DomainError
    else if code == "auth/popup-closed-by-user" then "Sign in cancelled."
    else if code == "auth/cancelled-popup-request" then "Only one sign-in attempt allowed at a time."
    else if code == "auth/operation-not-allowed" then "Guest login is not enabled in Firebase Console."
    else GenericMessage
  }

  /** The requests the email form sends. */
  datatype AuthRequest = SignIn(email: string, password: string) | SignUp(email: string, password: string)

  class AuthForm {
    var isLogin: bool
    var email: string
    var password: string
    var confirmPassword: string
    var error: string

    constructor ()
      ensures isLogin && email == "" && password == "" && confirmPassword == "" && error == ""
    {
      isLogin, email, password, confirmPassword, error := true, "", "", "", "";
    }

    /** The two mode tabs: switching mode clears the error. */
    method SetMode(login: bool)
      modifies this`isLogin, this`error
      ensures isLogin == login && error == ""
    {
      isLogin, error := login, "";
    }

    /** `handleEmailAuth`, with the outcome of the request it sends (`None` for success, or
        the thrown code). Signing in sends the request unchecked. Signing up first refuses a
        password that fails the rule, then a confirmation that differs, and sends nothing
        in either case. A thrown code is shown as its message; otherwise the error is
        cleared. */
    method EmailAuth(failure: Option<string>) returns (sent: Option<AuthRequest>)
      modifies this`error
      ensures isLogin ==> sent == Some(SignIn(email, password))
      ensures !isLogin && ValidatePassword(password).Some? ==>
                sent.None? && error == WeakPasswordMessage
      ensures !isLogin && ValidatePassword(password).None? && password != confirmPassword ==>
                sent.None? && error == MismatchMessage
      ensures !isLogin && ValidatePassword(password).None? && password == confirmPassword ==>
                sent == Some(SignUp(email, password))
      ensures sent.Some? ==> error == (if failure.Some? then FriendlyMessage(failure.value) else "")
    {
      error := "";
      if isLogin {
        sent := Some(SignIn(email, password));
      } else {
        var pwdError := ValidatePassword(password);
        if pwdError.Some? {
          error := pwdError.value;
          return None;
        }
        if password != confirmPassword {
          error := MismatchMessage;
          return None;
        }
        sent := Some(SignUp(email, password));
      }
      if failure.Some? {
        error := FriendlyMessage(failure.value);
      }
    }

    /** `handleSocialLogin` and `handleGuestLogin`: the previous error is cleared, and a
        thrown code is shown as its message. */
    method PopupOrGuestLogin(failure: Option<string>)
      modifies this`error
      ensures error == (if failure.Some? then FriendlyMessage(failure.value) else "")
    {
      error := "";
      if failure.Some? {
        error := FriendlyMessage(failure.value);
      }
    }
  }
}
