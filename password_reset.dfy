/**
 * Password reset by one-time code: a request stores a code valid for sixty
 * seconds; a reset with that code before it expires replaces the password and
 * clears the code. The code generator, the hash function and the clock sit
 * outside the model: the code, the hash and "now" (in milliseconds) are
 * parameters.
 */
module PasswordReset {
  import opened Common
  import opened Store

  /** How long a code stays valid, in milliseconds. */
  const OtpLifetime: int := 60 * 1000

  /** The user after a reset was requested at `now` with code `otp`. */
  function Requested(u: User, otp: string, now: int): (r: User)
    ensures r.resetOtp == Some(otp) && r.resetExpires == Some(now + OtpLifetime)
    ensures r.email == u.email && r.role == u.role && r.password == u.password
  {
    u.(resetOtp := Some(otp), resetExpires := Some(now + OtpLifetime))
  }

  /** The user after a successful reset to the password hash `hashed`. */
  function Cleared(u: User, hashed: string): (r: User)
    ensures r.resetOtp == None && r.resetExpires == None
    ensures r.email == u.email && r.role == u.role && r.password == hashed
  {
    u.(password := hashed, resetOtp := None, resetExpires := None)
  }

  /** The negation of `user.resetPasswordOTP !== otp || user.resetPasswordExpires < now`,
      where a null expiry compares as 0. */
  function OtpAccepted(u: User, otp: string, now: int): (ok: bool)
    ensures ok <==> u.resetOtp == Some(otp) && now <= (if u.resetExpires.Some? then u.resetExpires.value else 0)
  {
    var expires := if u.resetExpires.None? then 0 else u.resetExpires.value;
    !(u.resetOtp != Some(otp) || expires < now)
  }

  /** requestPasswordReset: an unknown email is a 404. */
  method RequestPasswordReset(db: Database, email: string, otp: string, now: int) returns (r: Result<()>)
    requires db.Valid()
    modifies db`users
    ensures db.Valid()
    ensures (forall u :: u in old(db.users) ==> old(db.users)[u].email != email) ==> r == Err(NotFound) && db.users == old(db.users)
    ensures forall u :: u in old(db.users) && old(db.users)[u].email == email ==>
      r == Ok(()) && db.users == old(db.users)[u := Requested(old(db.users)[u], otp, now)]
  {
    var user := FindUserByEmail(db, email);
    if user.None? {
      return Err(NotFound);
    }
    var u := user.value;
    db.users := db.users[u := Requested(db.users[u], otp, now)];
    r := Ok(());
  }

  /** resetPassword: every input is required (400), the email must be known
      (404), and the code must match and not have expired (400). */
  method ResetPassword(db: Database, email: string, otp: string, newPassword: string, hashed: string, now: int)
      returns (r: Result<()>)
    requires db.Valid()
    modifies db`users
    ensures db.Valid()
    ensures r.Err? ==> db.users == old(db.users)
    ensures email == "" || otp == "" || newPassword == "" ==> r == Err(BadRequest)
    ensures email != "" && otp != "" && newPassword != "" && (forall u :: u in old(db.users) ==> old(db.users)[u].email != email) ==>
      r == Err(NotFound)
    ensures email != "" && otp != "" && newPassword != "" ==>
      forall u :: u in old(db.users) && old(db.users)[u].email == email ==>
        && (!OtpAccepted(old(db.users)[u], otp, now) ==> r == Err(BadRequest))
        && (OtpAccepted(old(db.users)[u], otp, now) ==>
              r == Ok(()) && db.users == old(db.users)[u := Cleared(old(db.users)[u], hashed)])
  {
    if email == "" || otp == "" || newPassword == "" {
      return Err(BadRequest);
    }
    var user := FindUserByEmail(db, email);
    if user.None? {
      return Err(NotFound);
    }
    var u := user.value;
    if !OtpAccepted(db.users[u], otp, now) {
      return Err(BadRequest);
    }
    db.users := db.users[u := Cleared(db.users[u], hashed)];
    r := Ok(());
  }

  /** A requested code is accepted up to and including sixty seconds later,
      refused one millisecond after that, and no other code is accepted. */
  lemma CodeValidForSixtySeconds(u: User, otp: string, other: string, now: int, wait: int)
    requires other != otp
    ensures 0 <= wait <= OtpLifetime ==> OtpAccepted(Requested(u, otp, now), otp, now + wait)
    ensures wait > OtpLifetime ==> !OtpAccepted(Requested(u, otp, now), otp, now + wait)
    ensures !OtpAccepted(Requested(u, otp, now), other, now + wait)
  {
  }

  /** A code works once: after the reset no code is accepted at any time, and
      a later request replaces any earlier code. */
  lemma CodeSingleUse(u: User, otp: string, later: string, hashed: string, now: int, afterwards: int)
    requires later != otp
    ensures forall code, t :: !OtpAccepted(Cleared(u, code), code, t)
    ensures !OtpAccepted(Cleared(Requested(u, otp, now), hashed), otp, afterwards)
    ensures !OtpAccepted(Requested(Requested(u, otp, now), later, now), otp, afterwards)
  {
  }
}
