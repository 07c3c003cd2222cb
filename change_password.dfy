/** The admin's change-password form: the checks made before any request, the
    request sent, and what the form shows and holds afterwards. The server's
    answer is a parameter. */
module ChangePassword {
  import opened Js

  const MISMATCH: string := "New password and confirm password do not match"
  const TOO_SHORT: string := "Password must be at least 6 characters long"
  const NO_TOKEN: string := "Authentication token not found. Please log in again."
  const CHANGED: string := "Password changed successfully"
  const NOT_OK: string := "Network response was not ok"
  const MIN_LENGTH: nat := 6

  /** The body of the request: current and new password. */
  datatype ChangeRequest = ChangeRequest(token: string, currentPassword: string, newPassword: string)

  /** The server's answer: success with its message, or failure with its
      `error` field ("" when there is none). */
  datatype Reply = Success(message: string) | Failure(error: string)

  /** Which check stops a submission, in the order they run, or None when
      the request is sent. */
  datatype Refusal = Mismatch | TooShort | NoToken

  function Check(newPassword: string, confirm: string, token: Option<string>): (r: Option<Refusal>)
    ensures r == Some(Mismatch) <==> newPassword != confirm
    ensures r == Some(TooShort) <==> newPassword == confirm && Utf16Length(newPassword) < MIN_LENGTH
    ensures r.None? <==> newPassword == confirm && Utf16Length(newPassword) >= MIN_LENGTH && token.Some? && token.value != ""
  {
    if newPassword != confirm then Some(Mismatch)
    else if Utf16Length(newPassword) < MIN_LENGTH then Some(TooShort)
    else if token.None? || token.value == "" then Some(NoToken)
    else None
  }

  function RefusalMessage(r: Refusal): string {
    match r
    case Mismatch => MISMATCH
    case TooShort => TOO_SHORT
    case NoToken => NO_TOKEN
  }

  class ChangePasswordForm {
    var currentPassword: string
    var newPassword: string
    var confirmPassword: string
    var error: string
    var success: string

    constructor ()
      ensures currentPassword == "" && newPassword == "" && confirmPassword == ""
      ensures error == "" && success == ""
    {
      currentPassword, newPassword, confirmPassword := "", "", "";
      error, success := "", "";
    }

    /** `handleSubmit`: both messages cleared first; a refused submission
        shows its message, sends nothing and keeps the fields; a success shows
        the server's message (or the default) and empties all three fields; a
        failure shows the server's error (or the default) and keeps them. */
    method Submit(token: Option<string>, reply: Reply) returns (sent: Option<ChangeRequest>)
      modifies this
      ensures sent.None? <==> Check(old(newPassword), old(confirmPassword), token).Some?
      ensures sent.Some? ==> sent.value == ChangeRequest(token.value, old(currentPassword), old(newPassword))
      ensures sent.None? ==>
                error == RefusalMessage(Check(old(newPassword), old(confirmPassword), token).value) && success == "" &&
                currentPassword == old(currentPassword) && newPassword == old(newPassword) &&
                confirmPassword == old(confirmPassword)
      ensures sent.Some? && reply.Success? ==>
                error == "" && success == (if reply.message != "" then reply.message else CHANGED) &&
                currentPassword == "" && newPassword == "" && confirmPassword == ""
      ensures sent.Some? && reply.Failure? ==>
                success == "" && error == (if reply.error != "" then reply.error else NOT_OK) &&
                currentPassword == old(currentPassword) && newPassword == old(newPassword) &&
                confirmPassword == old(confirmPassword)
    {
      error := "";
      success := "";
      var refusal := Check(newPassword, confirmPassword, token);
      if refusal.Some? {
        error := RefusalMessage(refusal.value);
        return None;
      }
      sent := Some(ChangeRequest(token.value, currentPassword, newPassword));
      match reply {
        case Success(message) =>
          success := if message != "" then message else CHANGED;
          currentPassword, newPassword, confirmPassword := "", "", "";
        case Failure(e) =>
          error := if e != "" then e else NOT_OK;
      }
    }
  }

  /** A new password shorter than six code units is never sent, and the
      mismatch is reported before the length. */
  lemma ShortPasswordNeverSent(newPassword: string, confirm: string, token: Option<string>)
    ensures Utf16Length(newPassword) < MIN_LENGTH ==> Check(newPassword, confirm, token).Some?
    ensures newPassword != confirm ==> Check(newPassword, confirm, token) == Some(Mismatch)
  {
  }

  /** The length is counted in UTF-16 code units: three emoji make six, so
      such a password passes the length check and is sent, while three
      letters do not. */
  lemma AstralCharactersCountTwice()
    ensures Check("\U{1F600}\U{1F600}\U{1F600}", "\U{1F600}\U{1F600}\U{1F600}", Some("t")).None?
    ensures Check("abc", "abc", Some("t")) == Some(TooShort)
  {
    var e := "\U{1F600}\U{1F600}\U{1F600}";
    assert e[1..][1..] == [e[2]];
    assert Utf16Length(e[1..][1..]) == 2;
  }
}
