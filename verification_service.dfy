/** The verification service: generating a code, replacing a user's code
    for a purpose, checking a typed code, verifying an email address and
    resetting a password. Tables are sequences in primary-key order, so
    "the first row" of a query is the first match in the sequence. */
module VerificationService {
  import opened Common
  import opened VerificationCodes

  // ---------------------------------------------------------------------
  // Code generation

  const CODE_LENGTH: nat := 8

  /** `string.ascii_uppercase`: `A` to `Z`. */
  const UPPERCASE: string := seq(26, i requires 0 <= i < 26 => ('A' as int + i) as char)

  /** `string.digits`: `0` to `9`. */
  const DIGITS: string := seq(10, i requires 0 <= i < 10 => ('0' as int + i) as char)

  const CODE_ALPHABET: string := UPPERCASE + DIGITS

  /** The alphabet spelled out: 36 symbols. */
  lemma AlphabetSpelledOut()
    ensures CODE_ALPHABET == "ABCDEFGHIJKLMNOPQRSTUVWXYZ0123456789"
    ensures |CODE_ALPHABET| == 36
  {
    assert UPPERCASE == "ABCDEFGHIJKLMNOPQRSTUVWXYZ";
    assert DIGITS == "0123456789";
  }

  /** The code built from the random draws: the `i`-th character is the
      alphabet entry the `i`-th draw selects. */
  function GeneratedCode(draw: nat -> nat): string
  {
    seq(CODE_LENGTH, i requires 0 <= i < CODE_LENGTH => CODE_ALPHABET[draw(i) % |CODE_ALPHABET|])
  }

  /** `generate_numeric_code`: eight draws from the alphabet. The random
      source is the parameter `draw`. */
  method GenerateCode(draw: nat -> nat) returns (code: string)
    ensures |code| == CODE_LENGTH
    ensures forall i :: 0 <= i < |code| ==> code[i] in CODE_ALPHABET
    ensures code == GeneratedCode(draw)
  {
    code := "";
    for i := 0 to CODE_LENGTH
      invariant |code| == i
      invariant forall k :: 0 <= k < i ==> code[k] == CODE_ALPHABET[draw(k) % |CODE_ALPHABET|]
    {
      code := code + [CODE_ALPHABET[draw(i) % |CODE_ALPHABET|]];
    }
  }

  /** A generated code fits the code column and is already in upper case,
      so typing it in any case matches. */
  lemma GeneratedCodeFits(draw: nat -> nat)
    ensures |GeneratedCode(draw)| <= CODE_MAX_LENGTH
    ensures Upper(GeneratedCode(draw)) == GeneratedCode(draw)
  {
    var c := GeneratedCode(draw);
    forall i | 0 <= i < |c|
      ensures UpperChar(c[i]) == c[i]
    {
      var k := draw(i) % |CODE_ALPHABET|;
      assert c[i] == CODE_ALPHABET[k];
      assert k < 26 ==> CODE_ALPHABET[k] == UPPERCASE[k];
      assert k >= 26 ==> CODE_ALPHABET[k] == DIGITS[k - 26];
    }
  }

  // ---------------------------------------------------------------------
  // Tables and the queries on them

  /** A user row; `password` stands for the stored credential. */
  datatype Account = Account(id: nat, email: Option<string>, isEmailVerified: bool, password: string)

  /** The codes that do not belong to the user and purpose, in order. */
  function CodesWithout(codes: seq<VerificationCode>, userId: nat, purpose: Purpose): (r: seq<VerificationCode>)
    ensures forall c :: c in r <==> c in codes && !(c.userId == userId && c.purpose == purpose)
  {
    if |codes| == 0 then []
    else
      var init := codes[..|codes| - 1];
      var last := codes[|codes| - 1];
      assert codes == init + [last];
      CodesWithout(init, userId, purpose) + (if last.userId == userId && last.purpose == purpose then [] else [last])
  }

  /** The code is an unused one of the user for the purpose. */
  predicate ActiveFor(c: VerificationCode, userId: nat, purpose: Purpose)
  {
    c.userId == userId && c.purpose == purpose && !c.isUsed
  }

  /** Index of the first unused code of the user for the purpose. */
  function FirstActive(codes: seq<VerificationCode>, userId: nat, purpose: Purpose): (r: Option<nat>)
    ensures r.Some? ==> r.value < |codes| && ActiveFor(codes[r.value], userId, purpose)
                        && forall j :: 0 <= j < r.value ==> !ActiveFor(codes[j], userId, purpose)
    ensures r.None? ==> forall j :: 0 <= j < |codes| ==> !ActiveFor(codes[j], userId, purpose)
  {
    if |codes| == 0 then None
    else if ActiveFor(codes[0], userId, purpose) then Some(0)
    else
      var rest := FirstActive(codes[1..], userId, purpose);
      if rest.None? then None else Some(rest.value + 1)
  }

  /** Index of the first user with the email who has verified it. */
  function FirstVerifiedByEmail(users: seq<Account>, email: string): (r: Option<nat>)
    ensures r.Some? ==> r.value < |users| && users[r.value].email == Some(email) && users[r.value].isEmailVerified
                        && forall j :: 0 <= j < r.value ==> !(users[j].email == Some(email) && users[j].isEmailVerified)
    ensures r.None? ==> forall j :: 0 <= j < |users| ==> !(users[j].email == Some(email) && users[j].isEmailVerified)
  {
    if |users| == 0 then None
    else if users[0].email == Some(email) && users[0].isEmailVerified then Some(0)
    else
      var rest := FirstVerifiedByEmail(users[1..], email);
      if rest.None? then None else Some(rest.value + 1)
  }

  /** `validate_code`: an expired code never matches; otherwise the codes
      are compared ignoring case. */
  predicate ValidateCode(c: VerificationCode, input: string, now: int, expiry: nat)
  {
    !IsExpired(c, now, expiry) && Upper(c.code) == Upper(input)
  }

  // ---------------------------------------------------------------------
  // The service as specification functions

  /** The state the service works on. */
  datatype Tables = Tables(users: seq<Account>, codes: seq<VerificationCode>)

  /** The email the worker is asked to send. */
  datatype MailTask = MailTask(purpose: Purpose, userId: nat, code: string)

  /** `create_and_send_code`, table side: every code of the user for the
      purpose is deleted and the new one is appended. */
  function CreateCode(codes: seq<VerificationCode>, userId: nat, purpose: Purpose, code: string, now: int)
    : seq<VerificationCode>
  {
    CodesWithout(codes, userId, purpose) + [NewCode(userId, code, purpose, now)]
  }

  datatype VerifyResult = VerifyResult(ok: bool, message: string)

  /** `verify_code` for the user at `userIdx`: the first unused code of the
      user for the purpose is checked; a matching email code verifies the
      user and is used up, a matching reset code is only reported. */
  function VerifySpec(t: Tables, userIdx: nat, input: string, purpose: Purpose, now: int, expiry: nat)
    : (VerifyResult, Tables)
    requires userIdx < |t.users|
  {
    var user := t.users[userIdx];
    match FirstActive(t.codes, user.id, purpose)
    case None => (VerifyResult(false, "No active verification code found or code expired"), t)
    case Some(i) =>
      if !ValidateCode(t.codes[i], input, now, expiry) then (VerifyResult(false, "Code invalid or expired"), t)
      else if purpose == EmailVerification then
        (VerifyResult(true, "Email verified."),
         Tables(t.users[userIdx := user.(isEmailVerified := true)], t.codes[i := t.codes[i].(isUsed := true)]))
      else (VerifyResult(true, "Valid password reset code"), t)
  }

  /** `get_valid_code_or_raise`: `None` stands for the validation error. */
  function ValidResetCode(t: Tables, email: string, input: string, now: int, expiry: nat): Option<(nat, nat)>
  {
    match FirstVerifiedByEmail(t.users, email)
    case None => None
    case Some(u) =>
      match FirstActive(t.codes, t.users[u].id, PasswordReset)
      case None => None
      case Some(i) => if ValidateCode(t.codes[i], input, now, expiry) then Some((u, i)) else None
  }

  /** `execute_password_reset`: the password is set and the code used up,
      together. */
  function ResetPassword(t: Tables, userIdx: nat, codeIdx: nat, newPassword: string): Tables
    requires userIdx < |t.users| && codeIdx < |t.codes|
  {
    Tables(t.users[userIdx := t.users[userIdx].(password := newPassword)],
           t.codes[codeIdx := t.codes[codeIdx].(isUsed := true)])
  }

  // ---------------------------------------------------------------------
  // The service on the stored tables

  class VerificationDb {
    var users: seq<Account>
    var codes: seq<VerificationCode>

    constructor(users: seq<Account>, codes: seq<VerificationCode>)
      ensures this.users == users && this.codes == codes
    {
      this.users := users;
      this.codes := codes;
    }

    function State(): Tables
      reads this
    {
      Tables(users, codes)
    }

    /** Generates a code, replaces the user's codes for the purpose with it
      in one transaction, and hands the email to the worker. */
    method CreateAndSendCode(userId: nat, purpose: Purpose, draw: nat -> nat, now: int) returns (mail: MailTask)
      modifies this
      ensures users == old(users)
      ensures codes == CreateCode(old(codes), userId, purpose, GeneratedCode(draw), now)
      ensures mail == MailTask(purpose, userId, GeneratedCode(draw))
    {
      var code := GenerateCode(draw);
      codes := CreateCode(codes, userId, purpose, code, now);
      mail := MailTask(purpose, userId, code);
    }

    method VerifyCode(userIdx: nat, input: string, purpose: Purpose, now: int, expiry: nat)
      returns (result: VerifyResult)
      requires userIdx < |users|
      modifies this
      ensures (result, State()) == VerifySpec(old(State()), userIdx, input, purpose, now, expiry)
    {
      var user := users[userIdx];
      var found := FirstActive(codes, user.id, purpose);
      if found.None? {
        return VerifyResult(false, "No active verification code found or code expired");
      }
      var i := found.value;
      if !ValidateCode(codes[i], input, now, expiry) {
        return VerifyResult(false, "Code invalid or expired");
      }
      if purpose == EmailVerification {
        users := users[userIdx := user.(isEmailVerified := true)];
        codes := codes[i := codes[i].(isUsed := true)];
        return VerifyResult(true, "Email verified.");
      }
      return VerifyResult(true, "Valid password reset code");
    }

    method ExecutePasswordReset(userIdx: nat, codeIdx: nat, newPassword: string)
      requires userIdx < |users| && codeIdx < |codes|
      modifies this
      ensures State() == ResetPassword(old(State()), userIdx, codeIdx, newPassword)
    {
      users := users[userIdx := users[userIdx].(password := newPassword)];
      codes := codes[codeIdx := codes[codeIdx].(isUsed := true)];
    }
  }

  // ---------------------------------------------------------------------
  // Properties

  /** After a code is created, the user has exactly one code for the
      purpose, the new unused one, which is the one the next check finds;
      the other codes are those that were there. */
  lemma CreateLeavesOneCode(codes: seq<VerificationCode>, userId: nat, purpose: Purpose, code: string, now: int)
    ensures var after := CreateCode(codes, userId, purpose, code, now);
      && (forall c :: c in after && c.userId == userId && c.purpose == purpose ==> c == NewCode(userId, code, purpose, now))
      && (forall c: VerificationCode :: !(c.userId == userId && c.purpose == purpose) ==> (c in after <==> c in codes))
      && FirstActive(after, userId, purpose) == Some(|after| - 1)
  {
    var after := CreateCode(codes, userId, purpose, code, now);
    var kept := CodesWithout(codes, userId, purpose);
    forall j | 0 <= j < |kept|
      ensures !ActiveFor(after[j], userId, purpose)
    {
      assert after[j] == kept[j] && kept[j] in kept;
    }
    assert ActiveFor(after[|kept|], userId, purpose);
  }

  /** Validation ignores the case of what the user types, and never accepts
      an expired code. */
  lemma ValidateCodeMeaning(c: VerificationCode, input: string, now: int, expiry: nat)
    ensures IsExpired(c, now, expiry) ==> !ValidateCode(c, input, now, expiry)
    ensures !IsExpired(c, now, expiry) ==> ValidateCode(c, Lower(c.code), now, expiry)
    ensures ValidateCode(c, input, now, expiry) == ValidateCode(c, Upper(input), now, expiry)
  {
    var l := Lower(c.code);
    forall i | 0 <= i < |l|
      ensures UpperChar(l[i]) == UpperChar(c.code[i])
    {
    }
    assert Upper(l) == Upper(c.code);
    var u := Upper(input);
    forall i | 0 <= i < |u|
      ensures UpperChar(u[i]) == UpperChar(input[i])
    {
    }
    assert Upper(u) == Upper(input);
  }

  /** A check that fails writes nothing; a check that succeeds writes only
      for email verification, where it verifies the user and uses up the
      code it matched, and nothing else. */
  lemma VerifyEffects(t: Tables, userIdx: nat, input: string, purpose: Purpose, now: int, expiry: nat)
    requires userIdx < |t.users|
    ensures var (res, after) := VerifySpec(t, userIdx, input, purpose, now, expiry);
      var found := FirstActive(t.codes, t.users[userIdx].id, purpose);
      && (res.ok <==> found.Some? && ValidateCode(t.codes[found.value], input, now, expiry))
      && (!res.ok || purpose == PasswordReset ==> after == t)
      && (res.ok && purpose == EmailVerification ==>
            && |after.users| == |t.users| && |after.codes| == |t.codes|
            && after.users[userIdx].isEmailVerified
            && after.codes[found.value].isUsed
            && (forall j :: 0 <= j < |t.users| && j != userIdx ==> after.users[j] == t.users[j])
            && (forall j :: 0 <= j < |t.codes| && j != found.value ==> after.codes[j] == t.codes[j]))
  {
  }

  /** The reset form finds a verified user with the email and a valid
      unused reset code of theirs; it is refused when no user with that
      email has verified it. */
  lemma ValidResetCodeMeaning(t: Tables, email: string, input: string, now: int, expiry: nat)
    ensures var r := ValidResetCode(t, email, input, now, expiry);
      && (r.Some? ==> var (u, i) := r.value;
            && u < |t.users| && t.users[u].email == Some(email) && t.users[u].isEmailVerified
            && i < |t.codes| && ActiveFor(t.codes[i], t.users[u].id, PasswordReset)
            && ValidateCode(t.codes[i], input, now, expiry))
      && ((forall j :: 0 <= j < |t.users| ==> !(t.users[j].email == Some(email) && t.users[j].isEmailVerified))
          ==> r.None?)
  {
  }

  /** A fresh reset code works once: typed in any case before it expires it
      passes the reset form, and after the reset it no longer does. */
  lemma ResetCodeSingleUse(t: Tables, u: nat, email: string, draw: nat -> nat, now: int, later: int,
                           expiry: nat, newPassword: string)
    requires FirstVerifiedByEmail(t.users, email) == Some(u)
    requires now <= later <= now + expiry
    ensures var code := GeneratedCode(draw);
      var created := Tables(t.users, CreateCode(t.codes, t.users[u].id, PasswordReset, code, now));
      && ValidResetCode(created, email, Lower(code), later, expiry) == Some((u, |created.codes| - 1))
      && ResetPassword(created, u, |created.codes| - 1, newPassword).users[u].password == newPassword
      && ValidResetCode(ResetPassword(created, u, |created.codes| - 1, newPassword), email, code, later, expiry).None?
  {
    var code := GeneratedCode(draw);
    var id := t.users[u].id;
    var codes := CreateCode(t.codes, id, PasswordReset, code, now);
    var created := Tables(t.users, codes);
    var last := |codes| - 1;
    CreateLeavesOneCode(t.codes, id, PasswordReset, code, now);
    ValidateCodeMeaning(codes[last], Lower(code), later, expiry);
    ResetKeepsOwner(created, u, last, newPassword, email);
    LastCodeUsedUp(codes, id, PasswordReset);
  }

  /** Setting a password leaves the account found by the e-mail lookup. */
  lemma ResetKeepsOwner(t: Tables, u: nat, i: nat, newPassword: string, email: string)
    requires FirstVerifiedByEmail(t.users, email) == Some(u) && i < |t.codes|
    ensures FirstVerifiedByEmail(ResetPassword(t, u, i, newPassword).users, email) == Some(u)
  {
    var users := ResetPassword(t, u, i, newPassword).users;
    assert users[u].email == Some(email) && users[u].isEmailVerified;
    forall j | 0 <= j < u
      ensures !(users[j].email == Some(email) && users[j].isEmailVerified)
    {
      assert users[j] == t.users[j];
    }
  }

  /** Using up the only active code of a user leaves none active. */
  lemma LastCodeUsedUp(codes: seq<VerificationCode>, id: nat, purpose: Purpose)
    requires |codes| > 0 && FirstActive(codes, id, purpose) == Some(|codes| - 1)
    ensures FirstActive(codes[|codes| - 1 := codes[|codes| - 1].(isUsed := true)], id, purpose).None?
  {
    var last := |codes| - 1;
    var after := codes[last := codes[last].(isUsed := true)];
    forall j | 0 <= j < |after|
      ensures !ActiveFor(after[j], id, purpose)
    {
      if j != last {
        assert after[j] == codes[j];
      }
    }
  }
}
