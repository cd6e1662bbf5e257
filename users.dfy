/** `User`: identity fields, the email's parts and the toggled existence flag. */
module Users {
  import opened Types
  import Strings

  /** The value `exists` has after a toggle request: the requested one, and the
      current one untouched when they already agree. */
  function Toggled(current: bool, value: OtherBool): (b: bool)
    ensures b == value.ToBool()
    ensures current == value.ToBool() ==> b == current
  {
    if current == value.ToBool() then current else value.ToBool()
  }

  /** Toggling twice with the same value is toggling once. */
  lemma ToggledIdempotent(current: bool, value: OtherBool)
    ensures Toggled(Toggled(current, value), value) == Toggled(current, value)
  {
  }

  /** The result of a toggle does not depend on the value before it; kept as
      a named statement of that design property, which follows from the
      contract of `Toggled`. */
  lemma ToggledForgetsCurrent(c1: bool, c2: bool, value: OtherBool)
    ensures Toggled(c1, value) == Toggled(c2, value)
  {
  }

  /** An email with exactly one '@', the only kind whose parts are defined. */
  predicate HasOneAt(email: string)
  {
    Strings.Count(email, '@') == 1
  }

  class User {
    var displayName: string
    const email: string
    /** Kept for the record only; no operation reads it. */
    const password: string
    /** The source's `exists` flag (`exists` is a reserved word here). */
    var existsStatus: bool
    const admin: bool
    const signedOut: bool

    /** A new user; the flags default to existing, not an administrator,
        and not signed out. */
    constructor (displayName: string, email: string, password: string,
                 existsStatus: bool := true, admin: bool := false, signedOut: bool := false)
      ensures this.displayName == displayName && this.email == email && this.password == password
      ensures this.existsStatus == existsStatus && this.admin == admin && this.signedOut == signedOut
    {
      this.displayName := displayName;
      this.email := email;
      this.password := password;
      this.existsStatus := existsStatus;
      this.admin := admin;
      this.signedOut := signedOut;
    }

    /** `[name, domain]` when the name is asked for, else `[domain]`: the
        parts of the email before and after its '@'. */
    function GetEmailDomain(name: bool := false): (r: seq<string>)
      requires HasOneAt(email)
      ensures |r| == if name then 2 else 1
      ensures forall i :: 0 <= i < |r| ==> '@' !in r[i]
      ensures name ==> r[0] + "@" + r[1] == email
      ensures !name ==> |r[0]| < |email| && email[|email| - |r[0]| - 1..] == "@" + r[0]
    {
      var parts := Strings.Split(email, '@');
      Strings.JoinSplit(email, '@');
      assert Strings.Join(parts[1..], '@') == parts[1];
      if name then [parts[0], parts[1]]
      else
        assert email == parts[0] + "@" + parts[1];
        assert email[|parts[0]|..] == "@" + parts[1];
        [parts[1]]
    }

    /** Any split of the email around an '@' into '@'-free parts is the one
        `GetEmailDomain` returns, with or without the name. */
    lemma EmailPartsUnique(local: string, domain: string)
      requires '@' !in local && '@' !in domain
      requires email == local + "@" + domain
      ensures HasOneAt(email)
      ensures GetEmailDomain(true) == [local, domain]
      ensures GetEmailDomain() == [domain]
    {
      Strings.SplitAfterSep(local, '@', domain);
      Strings.SplitWithoutSep(domain, '@');
      assert Strings.Split(email, '@') == [local, domain];
    }

    /** Sets `exists` to the requested value, leaving it alone when it already
        has it, and returns the new value. Nothing else changes. */
    method ToggleExistsStatus(value: OtherBool) returns (r: bool)
      modifies this
      ensures existsStatus == Toggled(old(existsStatus), value)
      ensures r == existsStatus
      ensures displayName == old(displayName)
    {
      var wanted := value.ToBool();
      if existsStatus != wanted {
        existsStatus := wanted;
      }
      r := existsStatus;
    }

    /** `toggleExistsStatus` called with a string: "yes" or "no" toggles, any
        other string is refused before anything changes. */
    method ToggleExistsStatusByName(value: string) returns (r: Result<bool, Error>)
      modifies this
      ensures ParseOtherBool(value).None? ==> r == Err(UnknownOtherBool(value)) && existsStatus == old(existsStatus)
      ensures ParseOtherBool(value).Some? ==>
                existsStatus == Toggled(old(existsStatus), ParseOtherBool(value).value) && r == Ok(existsStatus)
      ensures displayName == old(displayName)
    {
      match ParseOtherBool(value)
      case None =>
        r := Err(UnknownOtherBool(value));
      case Some(v) =>
        var b := ToggleExistsStatus(v);
        r := Ok(b);
    }
  }

  /** What a caller can rely on: the defaults, and toggling on a fresh user. */
  method UserUsage()
  {
    var u := new User("A", "a@b.com", "pw");
    assert u.existsStatus && !u.admin && !u.signedOut;
    var b := u.ToggleExistsStatus(Yes);
    assert b && u.existsStatus;
    b := u.ToggleExistsStatus(No);
    assert !b && !u.existsStatus;
    b := u.ToggleExistsStatus(No);
    assert !b && !u.existsStatus;
    assert u.email == "a" + "@" + "b.com";
    u.EmailPartsUnique("a", "b.com");
    assert u.GetEmailDomain(true) == ["a", "b.com"];
    assert u.GetEmailDomain() == ["b.com"];
    var e := u.ToggleExistsStatusByName("maybe");
    assert e.Err? && !u.existsStatus;
    e := u.ToggleExistsStatusByName("yes");
    assert e == Ok(true) && u.existsStatus;
    e := u.ToggleExistsStatusByName("no");
    assert e == Ok(false) && !u.existsStatus;
  }
}
