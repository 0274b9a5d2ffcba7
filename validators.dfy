/** Validators.swift: the input checks used by the sign-up and profile
    forms. Each regular expression is given as the character-level condition
    a full match (`SELF MATCHES`) imposes; `\d` is read as an ASCII digit. */
module Validators {
  import opened Wrappers
  import opened Text
  import opened Constants

  /** The result of a check that explains its failure. */
  datatype Verdict = Verdict(isValid: bool, message: Option<string>)

  // ---------------------------------------------------------------------
  // Email addresses: `[A-Z0-9a-z._%+-]+@[A-Za-z0-9.-]+\.[A-Za-z]{2,64}`

  predicate IsEmailLocalChar(c: char)
  {
    IsAsciiAlnum(c) || c == '.' || c == '_' || c == '%' || c == '+' || c == '-'
  }

  predicate IsEmailDomainChar(c: char)
  {
    IsAsciiAlnum(c) || c == '.' || c == '-'
  }

  /** `s` read as local part `s[..at]`, `@`, domain `s[at + 1..dot]`, `.` and
      top-level domain `s[dot + 1..]`, which is what the pattern
      `L+@D+\.[A-Za-z]{2,64}` accepts for the character classes `local` and
      `domain`. */
  predicate EmailSplitAt(s: string, at: int, dot: int, local: char -> bool, domain: char -> bool)
  {
    && 0 < at && at + 1 < dot && dot < |s|
    && (forall k :: 0 <= k < at ==> local(s[k]))
    && s[at] == '@'
    && (forall k :: at < k < dot ==> domain(s[k]))
    && s[dot] == '.'
    && 2 <= |s| - dot - 1 <= 64
    && (forall k :: dot < k < |s| ==> IsAsciiLetter(s[k]))
  }

  /** A full match of `L+@D+\.[A-Za-z]{2,64}`: some way of splitting the
      string fits. */
  predicate MatchesEmailPattern(s: string, local: char -> bool, domain: char -> bool)
  {
    exists at, dot | 0 <= at < |s| && 0 <= dot < |s| :: EmailSplitAt(s, at, dot, local, domain)
  }

  /** `isValidEmail`. */
  predicate IsValidEmail(email: string)
    ensures IsValidEmail(email) ==> 6 <= |email|
  {
    MatchesEmailPattern(email, IsEmailLocalChar, IsEmailDomainChar)
  }

  /** `s` ends in a dot followed by `n` ASCII letters. */
  predicate EndsWithLetters(s: string, n: nat)
  {
    n < |s| && s[|s| - n - 1] == '.' && forall k :: |s| - n <= k < |s| ==> IsAsciiLetter(s[k])
  }

  /** Every accepted address has exactly one `@` and ends in a dot followed
      by 2 to 64 ASCII letters. */
  lemma AcceptedEmailShape(email: string)
    requires IsValidEmail(email)
    ensures CountOf(email, '@') == 1
    ensures exists n :: 2 <= n <= 64 && EndsWithLetters(email, n)
  {
    var at, dot :| 0 <= at < |email| && 0 <= dot < |email| && EmailSplitAt(email, at, dot, IsEmailLocalChar, IsEmailDomainChar);
    forall k | 0 <= k < |email| && k != at
      ensures email[k] != '@'
    {
      if k < at {
        assert IsEmailLocalChar(email[k]);
      } else if k < dot {
        assert IsEmailDomainChar(email[k]);
      } else if k > dot {
        assert IsAsciiLetter(email[k]);
      }
    }
    CountOfOnlyAt(email, at, '@');
    assert EndsWithLetters(email, |email| - dot - 1);
  }

  // ---------------------------------------------------------------------
  // Passwords

  const PasswordTooShortMessage: string :=
    "Password must be at least " + DecimalString(MinPasswordLength) + " characters"

  /** `isValidPassword`: long enough, with the reason when it is not. */
  function IsValidPassword(password: string): (v: Verdict)
    ensures v.isValid <==> |password| >= MinPasswordLength
    ensures v.message.None? <==> v.isValid
    ensures !v.isValid ==> v.message == Some(PasswordTooShortMessage)
  {
    if |password| < MinPasswordLength then Verdict(false, Some(PasswordTooShortMessage))
    else Verdict(true, None)
  }

  lemma PasswordMessageText()
    ensures PasswordTooShortMessage == "Password must be at least 8 characters"
  {
    assert DecimalString(8) == "8";
  }

  // ---------------------------------------------------------------------
  // Names

  const EmptyNameMessage: string := "Name cannot be empty"
  const ShortNameMessage: string := "Name must be at least 2 characters"

  /** `isValidName`: at least two characters once whitespace and newlines
      are trimmed from both ends, with the reason when not. A name made only
      of whitespace counts as empty. */
  function IsValidName(name: string): (v: Verdict)
    ensures var t := Trim(name, IsWhitespaceOrNewline);
      && (v.isValid <==> |t| >= 2)
      && (v.message.None? <==> v.isValid)
      && (|t| == 1 ==> v.message == Some(ShortNameMessage))
    ensures (forall k :: 0 <= k < |name| ==> IsWhitespaceOrNewline(name[k])) <==>
      v == Verdict(false, Some(EmptyNameMessage))
  {
    var trimmed := Trim(name, IsWhitespaceOrNewline);
    if trimmed == [] then Verdict(false, Some(EmptyNameMessage))
    else if |trimmed| < 2 then Verdict(false, Some(ShortNameMessage))
    else Verdict(true, None)
  }

  /** Surrounding whitespace never changes the verdict on a name. */
  lemma NamePaddingIrrelevant(w1: string, name: string, w2: string)
    requires forall k :: 0 <= k < |w1| ==> IsWhitespaceOrNewline(w1[k])
    requires forall k :: 0 <= k < |w2| ==> IsWhitespaceOrNewline(w2[k])
    ensures IsValidName(w1 + name + w2) == IsValidName(name)
  {
    TrimIgnoresPadding(w1, name, w2, IsWhitespaceOrNewline);
  }

  // ---------------------------------------------------------------------
  // Student IDs: `^\d{2}[A-Z]\d{7}$`

  /** `isValidStudentID`, as written: two digits, an upper-case letter, then
      seven digits. */
  predicate IsValidStudentId(id: string)
    ensures IsValidStudentId(id) ==> forall k :: 0 <= k < |id| ==> IsAsciiAlnum(id[k])
  {
    && |id| == 10
    && IsAsciiDigit(id[0]) && IsAsciiDigit(id[1])
    && IsAsciiUpper(id[2])
    && forall k :: 3 <= k < 10 ==> IsAsciiDigit(id[k])
  }

  /** The format of the example beside the pattern ("22B030477"): two
      digits, an upper-case letter, then six digits. */
  predicate IsValidStudentIdCorrected(id: string)
    ensures IsValidStudentIdCorrected(id) ==> forall k :: 0 <= k < |id| ==> IsAsciiAlnum(id[k])
    ensures IsValidStudentIdCorrected(id) ==> !IsValidStudentId(id)
  {
    && |id| == 9
    && IsAsciiDigit(id[0]) && IsAsciiDigit(id[1])
    && IsAsciiUpper(id[2])
    && forall k :: 3 <= k < 9 ==> IsAsciiDigit(id[k])
  }

  /** The pattern as written rejects its own example, and so every ID of that
      format; the corrected one accepts it. */
  lemma StudentIdExample()
    ensures !IsValidStudentId("22B030477")
    ensures IsValidStudentIdCorrected("22B030477")
  {
  }

  /** Accepted IDs have exactly ten characters under the pattern as written,
      nine under the corrected one, so no ID passes both. */
  lemma StudentIdFormatsDisjoint(id: string)
    ensures IsValidStudentId(id) ==> |id| == 10
    ensures IsValidStudentIdCorrected(id) ==> |id| == 9
    ensures !(IsValidStudentId(id) && IsValidStudentIdCorrected(id))
  {
  }

  // ---------------------------------------------------------------------
  // Phone numbers: `^[+]?[0-9]{10,15}$`

  /** `isValidPhoneNumber`: an optional leading `+`, then 10 to 15 digits. */
  function IsValidPhoneNumber(phone: string): (ok: bool)
    ensures ok <==> || (AllDigits(phone) && 10 <= |phone| <= 15)
                    || (phone != [] && phone[0] == '+' && AllDigits(phone[1..]) && 11 <= |phone| <= 16)
    ensures ok ==> 10 <= |phone| <= 16
    ensures ok ==> forall k :: 1 <= k < |phone| ==> IsAsciiDigit(phone[k])
  {
    var digits := if phone != [] && phone[0] == '+' then phone[1..] else phone;
    10 <= |digits| <= 15 && AllDigits(digits)
  }
}
