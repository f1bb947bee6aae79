/** The user signal handlers: after every save the user's external game
    data is refreshed or cleaned, after a delete it is cleaned, and an email
    address that is new or changed is flagged before the save and sent a
    verification code after it. */
module UserSignals {
  import opened Common
  import opened VerificationCodes
  import opened VerificationService

  /** The fields of a user instance the handlers read and write.
      `emailChanged` stands for the transient `_email_changed` attribute
      (absent = false) and `migrationInProgress` for
      `_migration_in_progress`. */
  datatype UserState = UserState(pk: Option<nat>, email: Option<string>, isEmailVerified: bool,
                                 prunUsername: Option<string>, fioApikey: Option<string>,
                                 emailChanged: bool, migrationInProgress: bool)

  /** Python truthiness of an optional string: present and not empty. */
  predicate Truthy(s: Option<string>)
  {
    s.Some? && s.value != ""
  }

  predicate HasFioCredentials(u: UserState)
  {
    Truthy(u.prunUsername) && Truthy(u.fioApikey)
  }

  // ---------------------------------------------------------------------
  // External data tasks

  datatype FioTask = RefreshFio(userId: nat, prunUsername: string, apiKey: string) | CleanFio(userId: nat)

  /** `trigger_fio_refresh`, after any save of the user `userId`. */
  function FioTaskAfterSave(userId: nat, u: UserState): FioTask
  {
    if HasFioCredentials(u) then RefreshFio(userId, u.prunUsername.value, u.fioApikey.value) else CleanFio(userId)
  }

  /** `cleanup_fio_on_delete`. */
  function FioTaskAfterDelete(userId: nat): (t: FioTask)
    ensures t.CleanFio? && t.userId == userId
  {
    CleanFio(userId)
  }

  /** A refresh is dispatched exactly when both the game user name and the
      API key are set and not empty, and carries them; otherwise the data
      is cleaned. */
  lemma FioTaskMeaning(userId: nat, u: UserState)
    ensures FioTaskAfterSave(userId, u).RefreshFio? <==> Truthy(u.prunUsername) && Truthy(u.fioApikey)
    ensures FioTaskAfterSave(userId, u).userId == userId
    ensures FioTaskAfterSave(userId, u).RefreshFio? ==>
              Some(FioTaskAfterSave(userId, u).prunUsername) == u.prunUsername
              && Some(FioTaskAfterSave(userId, u).apiKey) == u.fioApikey
              && FioTaskAfterSave(userId, u).prunUsername != "" && FioTaskAfterSave(userId, u).apiKey != ""
  {
  }

  // ---------------------------------------------------------------------
  // Email verification

  /** `check_email_change`, before the save. `storedEmail` is the email of
      the stored row with the instance's key, `None` when there is no such
      row. */
  function CheckEmailChange(u: UserState, storedEmail: Option<Option<string>>): UserState
  {
    if u.migrationInProgress then u
    else if u.pk.Some? then
      if storedEmail.Some? && u.email != storedEmail.value && Truthy(u.email)
      then u.(emailChanged := true, isEmailVerified := false)
      else u
    else if Truthy(u.email) && !u.isEmailVerified then u.(emailChanged := true)
    else u
  }

  /** `handle_email_verification_trigger`, after the save: whether a code
      is sent. */
  predicate SendsVerification(u: UserState, created: bool)
  {
    !u.migrationInProgress && (u.emailChanged || (created && Truthy(u.email) && !u.isEmailVerified))
  }

  /** The instance after the trigger: the flag is dropped once the code is
      sent. */
  function AfterEmailTrigger(u: UserState, created: bool): UserState
  {
    if SendsVerification(u, created) then u.(emailChanged := false) else u
  }

  class UserInstance {
    var pk: Option<nat>
    var email: Option<string>
    var isEmailVerified: bool
    var prunUsername: Option<string>
    var fioApikey: Option<string>
    var emailChanged: bool
    var migrationInProgress: bool

    constructor(u: UserState)
      ensures State() == u
    {
      pk, email, isEmailVerified := u.pk, u.email, u.isEmailVerified;
      prunUsername, fioApikey := u.prunUsername, u.fioApikey;
      emailChanged, migrationInProgress := u.emailChanged, u.migrationInProgress;
    }

    function State(): UserState
      reads this
    {
      UserState(pk, email, isEmailVerified, prunUsername, fioApikey, emailChanged, migrationInProgress)
    }

    /** The pre-save handler. */
    method CheckEmailChangeHook(storedEmail: Option<Option<string>>)
      modifies this
      ensures State() == CheckEmailChange(old(State()), storedEmail)
    {
      if migrationInProgress {
        return;
      }
      if pk.Some? {
        if storedEmail.Some? && email != storedEmail.value && Truthy(email) {
          emailChanged := true;
          isEmailVerified := false;
        }
      } else if Truthy(email) && !isEmailVerified {
        emailChanged := true;
      }
    }

    /** The post-save handler: sends an email verification code through the
        service when the address is new or changed, then drops the flag. */
    method HandleEmailVerificationTrigger(created: bool, db: VerificationDb, draw: nat -> nat, now: int)
      returns (mail: Option<MailTask>)
      requires pk.Some?
      modifies this, db
      ensures State() == AfterEmailTrigger(old(State()), created)
      ensures mail.Some? <==> SendsVerification(old(State()), created)
      ensures db.users == old(db.users)
      ensures mail.Some? ==> db.codes == CreateCode(old(db.codes), pk.value, EmailVerification, GeneratedCode(draw), now)
                             && mail.value == MailTask(EmailVerification, pk.value, GeneratedCode(draw))
      ensures mail.None? ==> db.codes == old(db.codes)
    {
      if migrationInProgress {
        return None;
      }
      if emailChanged || (created && Truthy(email) && !isEmailVerified) {
        var task := db.CreateAndSendCode(pk.value, EmailVerification, draw, now);
        mail := Some(task);
        emailChanged := false;
      } else {
        mail := None;
      }
    }
  }

  // ---------------------------------------------------------------------
  // Properties

  /** During a migration neither email hook does anything. */
  lemma MigrationSkipsEmailHooks(u: UserState, storedEmail: Option<Option<string>>, created: bool)
    requires u.migrationInProgress
    ensures CheckEmailChange(u, storedEmail) == u
    ensures !SendsVerification(u, created) && AfterEmailTrigger(u, created) == u
  {
  }

  /** An existing user whose email changed to a non-empty value is flagged
      and loses the verified mark; in every other case the pre-save hook
      on an existing user changes nothing. */
  lemma ExistingUserEmailChange(u: UserState, storedEmail: Option<string>)
    requires !u.migrationInProgress && u.pk.Some?
    ensures u.email != storedEmail && Truthy(u.email) ==>
              CheckEmailChange(u, Some(storedEmail)) == u.(emailChanged := true, isEmailVerified := false)
    ensures !(u.email != storedEmail && Truthy(u.email)) ==> CheckEmailChange(u, Some(storedEmail)) == u
    ensures CheckEmailChange(u, None) == u
  {
  }

  /** A new user is flagged exactly when an email is given and it is not
      yet verified. */
  lemma NewUserFlag(u: UserState)
    requires !u.migrationInProgress && u.pk.None? && !u.emailChanged
    ensures CheckEmailChange(u, None).emailChanged <==> Truthy(u.email) && !u.isEmailVerified
    ensures CheckEmailChange(u, None).isEmailVerified == u.isEmailVerified
  {
  }

  /** Saving an existing user with a changed, non-empty email sends one
      verification code and leaves the user unverified and unflagged;
      saving with the same email, when no flag was left over, sends none. */
  lemma EmailChangeSendsOneCode(u: UserState, storedEmail: Option<string>)
    requires !u.migrationInProgress && u.pk.Some? && !u.emailChanged
    ensures var saved := CheckEmailChange(u, Some(storedEmail));
      && (u.email != storedEmail && Truthy(u.email) ==>
            SendsVerification(saved, false) && !AfterEmailTrigger(saved, false).isEmailVerified
            && !AfterEmailTrigger(saved, false).emailChanged)
      && (u.email == storedEmail ==> !SendsVerification(saved, false) && AfterEmailTrigger(saved, false) == u)
  {
  }

  /** A created user with an email that is not verified is sent a code,
      whether or not the pre-save hook flagged it; the flag never outlives
      the post-save hook. */
  lemma NewUserSentCode(u: UserState)
    requires !u.migrationInProgress && u.pk.None? && Truthy(u.email) && !u.isEmailVerified
    ensures var saved := CheckEmailChange(u, None);
      SendsVerification(saved, true) && !AfterEmailTrigger(saved, true).emailChanged
  {
  }
}
