/** The verification code row: a short code sent to a user for one
    purpose, which expires a fixed time after its creation. Times are in
    seconds. */
module VerificationCodes {

  datatype Purpose = EmailVerification | PasswordReset

  /** The code column holds at most eight characters. */
  const CODE_MAX_LENGTH: nat := 8

  datatype VerificationCode = VerificationCode(userId: nat, code: string, purpose: Purpose, createdAt: int,
                                               isUsed: bool)

  /** `EXPIRY_TIME`: the configured number of minutes, in seconds. The
      setting is read once, so every code of either purpose shares it. */
  function ExpiryTime(expiryMinutes: nat): nat
  {
    expiryMinutes * 60
  }

  /** A code is expired strictly after its creation time plus the expiry
      time. */
  predicate IsExpired(c: VerificationCode, now: int, expiry: nat)
  {
    now > c.createdAt + expiry
  }

  /** A row as created: stamped with the creation time and not used. */
  function NewCode(userId: nat, code: string, purpose: Purpose, now: int): (c: VerificationCode)
    ensures !c.isUsed && c.createdAt == now
    ensures !IsExpired(c, now, 0)
  {
    VerificationCode(userId, code, purpose, now, false)
  }

  predicate ValidCodeRow(c: VerificationCode)
  {
    |c.code| <= CODE_MAX_LENGTH
  }

  /** A code at exactly the boundary is still valid; one second later it
      is expired. */
  lemma ExpiryBoundary(c: VerificationCode, expiryMinutes: nat)
    ensures !IsExpired(c, c.createdAt + ExpiryTime(expiryMinutes), ExpiryTime(expiryMinutes))
    ensures IsExpired(c, c.createdAt + ExpiryTime(expiryMinutes) + 1, ExpiryTime(expiryMinutes))
  {
  }

  /** Once expired, a code stays expired. */
  lemma ExpiredStaysExpired(c: VerificationCode, now: int, later: int, expiry: nat)
    requires now <= later && IsExpired(c, now, expiry)
    ensures IsExpired(c, later, expiry)
  {
  }
}
