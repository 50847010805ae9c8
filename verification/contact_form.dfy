/** The contact form's checks: the e-mail and mobile-number validators, the
    trimming of the inputs, and the per-field decision taken on submit and on
    leaving a field. The DOM updates themselves are not modelled. */
module ContactForm {
  import opened Optional

  // ----- characters -----

  /** JavaScript's `\s`: the WhiteSpace and LineTerminator characters, which
      are also what `String.prototype.trim` strips. */
  predicate IsSpace(c: char)
  {
    || '\t' <= c <= '\r'
    || c == ' '
    || c == '\U{00A0}'
    || c == '\U{1680}'
    || '\U{2000}' <= c <= '\U{200A}'
    || c == '\U{2028}'
    || c == '\U{2029}'
    || c == '\U{202F}'
    || c == '\U{205F}'
    || c == '\U{3000}'
    || c == '\U{FEFF}'
  }

  /** `\d` without the `u` flag: an ASCII digit. */
  predicate IsDigit(c: char)
  {
    '0' <= c <= '9'
  }

  /** `[^\s@]`. */
  predicate Plain(c: char)
  {
    !IsSpace(c) && c != '@'
  }

  predicate AllPlain(s: string)
  {
    forall k :: 0 <= k < |s| ==> Plain(s[k])
  }

  /** How often `c` occurs in `s`. */
  function CharCount(s: string, c: char): nat
  {
    if s == [] then 0 else (if s[0] == c then 1 else 0) + CharCount(s[1..], c)
  }

  /** The position of the first `c` in `s`, or `|s|` when there is none. */
  function FirstIndex(s: string, c: char): (r: nat)
    ensures r <= |s|
    ensures r < |s| ==> s[r] == c
    ensures forall k :: 0 <= k < r ==> s[k] != c
  {
    if s == [] then 0
    else if s[0] == c then 0
    else 1 + FirstIndex(s[1..], c)
  }

  // ----- validateEmail -----

  /** `validateEmail`: the whole string matches `[^\s@]+@[^\s@]+\.[^\s@]+`. */
  predicate ValidateEmail(email: string)
    ensures ValidateEmail(email) ==>
      |email| >= 5 && Plain(email[0]) && Plain(email[|email| - 1])
  {
    exists at, dot ::
      && 0 < at && at + 1 < dot && dot + 1 < |email|
      && email[at] == '@' && email[dot] == '.'
      && AllPlain(email[..at]) && AllPlain(email[at + 1..dot]) && AllPlain(email[dot + 1..])
  }

  /** The same test read as a shape: no whitespace, exactly one `@`, something
      before it, and a `.` strictly inside the part after it. */
  predicate EmailShape(email: string)
  {
    && (forall k :: 0 <= k < |email| ==> !IsSpace(email[k]))
    && CharCount(email, '@') == 1
    && var at := FirstIndex(email, '@');
       && 0 < at
       && exists dot :: at + 1 < dot < |email| - 1 && email[dot] == '.'
  }

  lemma {:induction false} CharCountAbsent(s: string, c: char)
    requires forall k :: 0 <= k < |s| ==> s[k] != c
    ensures CharCount(s, c) == 0
  {
    if s != [] {
      CharCountAbsent(s[1..], c);
    }
  }

  lemma {:induction false} CharCountPresent(s: string, c: char, k: nat)
    requires k < |s| && s[k] == c
    ensures CharCount(s, c) >= 1
  {
    if k > 0 {
      CharCountPresent(s[1..], c, k - 1);
    }
  }

  lemma {:induction false} CharCountTwo(s: string, c: char, i: nat, j: nat)
    requires i < j < |s| && s[i] == c && s[j] == c
    ensures CharCount(s, c) >= 2
  {
    if i > 0 {
      CharCountTwo(s[1..], c, i - 1, j - 1);
    } else {
      CharCountPresent(s[1..], c, j - 1);
    }
  }

  /** A string with a single `c` holds it at one position only. */
  lemma SingleOccurrence(s: string, c: char, i: nat, j: nat)
    requires CharCount(s, c) == 1 && i < j < |s| && s[i] == c
    ensures s[j] != c
  {
    if s[j] == c {
      CharCountTwo(s, c, i, j);
    }
  }

  /** A string whose only `c` is at `at` holds it once. */
  lemma {:induction false} CharCountOnce(s: string, c: char, at: nat)
    requires at < |s| && s[at] == c
    requires forall k :: 0 <= k < |s| && k != at ==> s[k] != c
    ensures CharCount(s, c) == 1
  {
    if at > 0 {
      CharCountOnce(s[1..], c, at - 1);
    } else {
      CharCountAbsent(s[1..], c);
    }
  }

  /** In a match of the e-mail pattern every character but the `@` is plain. */
  lemma EmailMatchIsPlain(email: string, at: nat, dot: nat)
    requires 0 < at && at + 1 < dot && dot + 1 < |email|
    requires email[at] == '@' && email[dot] == '.'
    requires AllPlain(email[..at]) && AllPlain(email[at + 1..dot]) && AllPlain(email[dot + 1..])
    ensures forall k :: 0 <= k < |email| && k != at ==> Plain(email[k])
  {
    forall k | 0 <= k < |email| && k != at
      ensures Plain(email[k])
    {
      if k < at {
        assert email[k] == email[..at][k];
      } else if k < dot {
        assert email[k] == email[at + 1..dot][k - at - 1];
      } else if k > dot {
        assert email[k] == email[dot + 1..][k - dot - 1];
      }
    }
  }

  /** An e-mail that passes holds exactly one `@` and no whitespace. */
  lemma EmailValidHasShape(email: string)
    requires ValidateEmail(email)
    ensures EmailShape(email)
  {
    var at, dot :|
      && 0 < at && at + 1 < dot && dot + 1 < |email|
      && email[at] == '@' && email[dot] == '.'
      && AllPlain(email[..at]) && AllPlain(email[at + 1..dot]) && AllPlain(email[dot + 1..]);
    EmailMatchIsPlain(email, at, dot);
    CharCountOnce(email, '@', at);
    assert FirstIndex(email, '@') == at;
  }

  /** An e-mail of that shape passes. */
  lemma EmailShapeIsValid(email: string)
    requires EmailShape(email)
    ensures ValidateEmail(email)
  {
    var at := FirstIndex(email, '@');
    var dot :| at + 1 < dot < |email| - 1 && email[dot] == '.';
    forall k | 0 <= k < |email| && k != at
      ensures Plain(email[k])
    {
      if k > at {
        SingleOccurrence(email, '@', at, k);
      }
    }
    assert AllPlain(email[..at]);
    assert AllPlain(email[at + 1..dot]);
    assert AllPlain(email[dot + 1..]);
  }

  /** `validateEmail` holds exactly for the strings of that shape. */
  lemma EmailValidIffShape(email: string)
    ensures ValidateEmail(email) <==> EmailShape(email)
  {
    if ValidateEmail(email) {
      EmailValidHasShape(email);
    }
    if EmailShape(email) {
      EmailShapeIsValid(email);
    }
  }

  /** In particular an e-mail without `@`, with two or more, or with any
      whitespace is rejected. */
  lemma EmailRejects(email: string)
    requires CharCount(email, '@') != 1 || exists k :: 0 <= k < |email| && IsSpace(email[k])
    ensures !ValidateEmail(email)
  {
    if ValidateEmail(email) {
      EmailValidHasShape(email);
    }
  }

  // ----- validateMobile -----

  /** `[\d\s\-\+\(\)]`. */
  predicate MobileChar(c: char)
  {
    IsDigit(c) || IsSpace(c) || c == '-' || c == '+' || c == '(' || c == ')'
  }

  /** `s.replace(/\D/g, '')`: the digits of `s`, in order. */
  function Digits(s: string): (r: string)
    ensures |r| <= |s|
    ensures forall k :: 0 <= k < |r| ==> IsDigit(r[k])
  {
    if s == [] then [] else (if IsDigit(s[0]) then [s[0]] else []) + Digits(s[1..])
  }

  /** No digit is lost: every digit occurs in `Digits(s)` as often as in `s`,
      so `|Digits(s)|` is the number of digits of `s`. */
  lemma {:induction false} DigitsKeepsEveryDigit(s: string)
    ensures forall c :: IsDigit(c) ==> multiset(Digits(s))[c] == multiset(s)[c]
  {
    if s != [] {
      DigitsKeepsEveryDigit(s[1..]);
      assert s == [s[0]] + s[1..];
    }
  }

  /** `validateMobile`: only digits, whitespace, `-`, `+`, `(` and `)`, at least
      one character, and at least ten digits. */
  predicate ValidateMobile(mobile: string)
    ensures ValidateMobile(mobile) ==> |mobile| >= 10
  {
    && |mobile| > 0
    && (forall k :: 0 <= k < |mobile| ==> MobileChar(mobile[k]))
    && |Digits(mobile)| >= 10
  }

  lemma {:induction false} DigitsAppend(a: string, b: string)
    ensures Digits(a + b) == Digits(a) + Digits(b)
  {
    if a == [] {
      assert a + b == b;
    } else {
      assert (a + b)[1..] == a[1..] + b;
      DigitsAppend(a[1..], b);
    }
  }

  /** Formatting characters do not count: inserting or deleting one anywhere
      leaves the digits, and so the verdict, unchanged. */
  lemma FormattingIsIgnored(a: string, b: string, c: char)
    requires MobileChar(c) && !IsDigit(c)
    ensures Digits(a + [c] + b) == Digits(a + b)
    ensures ValidateMobile(a + [c] + b) <==> ValidateMobile(a + b)
  {
    DigitsAppend(a + [c], b);
    DigitsAppend(a, [c]);
    DigitsAppend(a, b);
    assert Digits([c]) == [] by {
      assert [c][1..] == [];
    }
    var s, t := a + [c] + b, a + b;
    if ValidateMobile(t) {
      forall k | 0 <= k < |s|
        ensures MobileChar(s[k])
      {
        if k < |a| {
          assert s[k] == t[k];
        } else if k > |a| {
          assert s[k] == t[k - 1];
        }
      }
    }
    if ValidateMobile(s) {
      forall k | 0 <= k < |t|
        ensures MobileChar(t[k])
      {
        if k < |a| {
          assert t[k] == s[k];
        } else {
          assert t[k] == s[k + 1];
        }
      }
    }
  }

  /** However it is formatted, a number with fewer than ten digits is rejected,
      and a string of ten or more digits alone is accepted. */
  lemma MobileDigitBound(mobile: string)
    ensures |Digits(mobile)| < 10 ==> !ValidateMobile(mobile)
    ensures (forall k :: 0 <= k < |mobile| ==> IsDigit(mobile[k])) && |mobile| >= 10 ==>
      ValidateMobile(mobile)
  {
    if forall k :: 0 <= k < |mobile| ==> IsDigit(mobile[k]) {
      AllDigitsKept(mobile);
    }
  }

  lemma {:induction false} AllDigitsKept(s: string)
    requires forall k :: 0 <= k < |s| ==> IsDigit(s[k])
    ensures Digits(s) == s
  {
    if s != [] {
      AllDigitsKept(s[1..]);
    }
  }

  // ----- trim -----

  /** Where the leading whitespace of `s` ends. */
  function TrimStartIndex(s: string): (i: nat)
    ensures i <= |s|
    ensures forall k :: 0 <= k < i ==> IsSpace(s[k])
    ensures i == |s| || !IsSpace(s[i])
  {
    if s != [] && IsSpace(s[0]) then 1 + TrimStartIndex(s[1..]) else 0
  }

  /** Where the trailing whitespace of `s[lo..hi]` starts. */
  function TrimEndIndex(s: string, lo: nat, hi: nat): (j: nat)
    requires lo <= hi <= |s|
    ensures lo <= j <= hi
    ensures forall k :: j <= k < hi ==> IsSpace(s[k])
    ensures j == lo || !IsSpace(s[j - 1])
    decreases hi
  {
    if lo < hi && IsSpace(s[hi - 1]) then TrimEndIndex(s, lo, hi - 1) else hi
  }

  /** `String.prototype.trim`: the slice of the input between its leading and
      its trailing whitespace; empty exactly when the input is all
      whitespace. */
  function Trim(s: string): (r: string)
    ensures exists i, j ::
      && 0 <= i <= j <= |s| && r == s[i..j]
      && (forall k :: 0 <= k < i ==> IsSpace(s[k]))
      && (forall k :: j <= k < |s| ==> IsSpace(s[k]))
    ensures r == [] <==> forall k :: 0 <= k < |s| ==> IsSpace(s[k])
    ensures r != [] ==> !IsSpace(r[0]) && !IsSpace(r[|r| - 1])
  {
    var i := TrimStartIndex(s);
    var j := TrimEndIndex(s, i, |s|);
    s[i..j]
  }

  /** Trimming twice is trimming once. */
  lemma TrimIdempotent(s: string)
    ensures Trim(Trim(s)) == Trim(s)
  {
    var r := Trim(s);
    if r != [] {
      assert TrimStartIndex(r) == 0;
      assert TrimEndIndex(r, 0, |r|) == |r|;
      assert r[0..|r|] == r;
    }
  }

  // ----- the submit handler -----

  /** The error state of one field after a check. */
  datatype FieldCheck = Cleared | FieldError(message: string)

  const EmailRequired := "Email address is required"
  const EmailInvalid := "Please enter a valid email address"
  const MobileRequired := "Mobile number is required"
  const MobileInvalid := "Please enter a valid mobile number (at least 10 digits)"

  /** The submit handler's check of the e-mail field. */
  function CheckEmail(raw: string): (r: FieldCheck)
    ensures r == FieldError(EmailRequired) <==> forall k :: 0 <= k < |raw| ==> IsSpace(raw[k])
    ensures r == Cleared <==> ValidateEmail(Trim(raw))
    ensures r.FieldError? ==> r.message in {EmailRequired, EmailInvalid}
  {
    var email := Trim(raw);
    if email == "" then FieldError(EmailRequired)
    else if !ValidateEmail(email) then FieldError(EmailInvalid)
    else Cleared
  }

  /** The submit handler's check of the mobile field. */
  function CheckMobile(raw: string): (r: FieldCheck)
    ensures r == FieldError(MobileRequired) <==> forall k :: 0 <= k < |raw| ==> IsSpace(raw[k])
    ensures r == Cleared <==> ValidateMobile(Trim(raw))
    ensures r.FieldError? ==> r.message in {MobileRequired, MobileInvalid}
  {
    var mobile := Trim(raw);
    if mobile == "" then FieldError(MobileRequired)
    else if !ValidateMobile(mobile) then FieldError(MobileInvalid)
    else Cleared
  }

  /** What a submit decides: each field's error state and whether the form is
      held back. */
  datatype SubmitOutcome = SubmitOutcome(email: FieldCheck, mobile: FieldCheck, hasErrors: bool)

  /** The submit handler: both fields are checked, the mobile one whatever the
      e-mail one found, and the form goes through only when both pass. */
  function Submit(emailRaw: string, mobileRaw: string): (r: SubmitOutcome)
    ensures r.email == CheckEmail(emailRaw) && r.mobile == CheckMobile(mobileRaw)
    ensures !r.hasErrors <==>
      && Trim(emailRaw) != "" && ValidateEmail(Trim(emailRaw))
      && Trim(mobileRaw) != "" && ValidateMobile(Trim(mobileRaw))
  {
    var email := CheckEmail(emailRaw);
    var mobile := CheckMobile(mobileRaw);
    SubmitOutcome(email, mobile, email.FieldError? || mobile.FieldError?)
  }

  // ----- the blur handlers -----

  /** Leaving the e-mail field: an error only for a non-empty invalid entry. */
  function BlurEmail(raw: string): (r: Option<string>)
    ensures r.Some? <==> Trim(raw) != "" && !ValidateEmail(Trim(raw))
    ensures r.Some? ==> CheckEmail(raw) == FieldError(r.value)
  {
    var email := Trim(raw);
    if email != "" && !ValidateEmail(email) then Some(EmailInvalid) else None
  }

  /** Leaving the mobile field: an error only for a non-empty invalid entry. */
  function BlurMobile(raw: string): (r: Option<string>)
    ensures r.Some? <==> Trim(raw) != "" && !ValidateMobile(Trim(raw))
    ensures r.Some? ==> CheckMobile(raw) == FieldError(r.value)
  {
    var mobile := Trim(raw);
    if mobile != "" && !ValidateMobile(mobile) then Some(MobileInvalid) else None
  }

  /** An address the form accepts, and the same one with a space in it,
      which it rejects. */
  method EmailExamples()
  {
    var s := "ana@solar.io";
    assert s[3] == '@' && s[9] == '.';
    assert AllPlain(s[..3]) && AllPlain(s[4..9]) && AllPlain(s[10..]);
    assert ValidateEmail(s);
    var spaced := "ana @solar.io";
    assert IsSpace(spaced[3]);
    EmailRejects(spaced);
    assert !ValidateEmail(spaced);
  }

  /** A ten-digit number is accepted. */
  method MobileExamples()
  {
    var ten := "5551234567";
    MobileDigitBound(ten);
    assert ValidateMobile(ten);
  }
}
