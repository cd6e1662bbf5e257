/** `randomGreeting`: a greeting keyed on whether the user is signed in. */
module Greeting {
  import opened Types

  /** The greeting for a visitor. `randomPhrase` is whatever the random,
      clock-dependent choice among the signed-in greetings produces; it is a
      parameter because that choice depends on randomness and the local time. */
  function RandomGreeting(signedIn: bool, username: Option<string>, randomPhrase: string)
    : (r: Result<string, Error>)
    ensures !signedIn ==> r == Ok("Welcome!")
    ensures signedIn ==> (r.Err? <==> !Filled(username))
    ensures r.Err? ==> r.error == MissingUsername
    ensures signedIn && r.Ok? ==> r.value == randomPhrase
  {
    if !signedIn then Ok("Welcome!")
    else if !Filled(username) then Err(MissingUsername)
    else Ok(randomPhrase)
  }

  /** A visitor who is not signed in is welcomed the same way whatever
      username (and whatever random phrase) accompanies the call; a named
      statement of the property, comparing two calls, that follows from the
      contract of `RandomGreeting`. */
  lemma SignedOutIgnoresUsername(u1: Option<string>, u2: Option<string>, p1: string, p2: string)
    ensures RandomGreeting(false, u1, p1) == RandomGreeting(false, u2, p2) == Ok("Welcome!")
  {
  }

  /** The signed-in outcome depends on the username only through whether it
      was filled in: never a greeting without one, never an error with one. */
  lemma SignedInNeedsUsername(u: Option<string>, p: string)
    ensures RandomGreeting(true, u, p).Ok? <==> Filled(u)
    ensures RandomGreeting(true, None, p) == RandomGreeting(true, Some(""), p) == Err(MissingUsername)
  {
  }
}
