/** The two string-literal union types of the library and the failure values
    its operations report. */
module Types {

  datatype Option<+T> = None | Some(value: T)

  datatype Result<+R, +E> = Ok(value: R) | Err(error: E)

  /** The failures the library reports instead of a value. */
  datatype Error =
    | MissingUsername            // signed in, but no username given
    | UnknownTarget(given: string)   // not one of the four URL targets
    | UnknownOtherBool(given: string) // neither "yes" nor "no"

  /** `URLTarget`: where a URL opens; iframes are not supported. */
  datatype URLTarget = Blank | Self | Parent | Top {

    /** The literal that stands for this target. */
    function Name(): (s: string)
      ensures s in {"_blank", "_self", "_parent", "_top"}
    {
      match this
      case Blank => "_blank"
      case Self => "_self"
      case Parent => "_parent"
      case Top => "_top"
    }
  }

  /** Reads a target literal; any string other than the four names is refused. */
  function ParseTarget(s: string): (r: Option<URLTarget>)
    ensures r.Some? ==> r.value.Name() == s
    ensures r.None? ==> forall t: URLTarget :: t.Name() != s
  {
    if s == "_blank" then Some(Blank)
    else if s == "_self" then Some(Self)
    else if s == "_parent" then Some(Parent)
    else if s == "_top" then Some(Top)
    else None
  }

  /** Every target survives being written out and read back. */
  lemma ParseTargetName(t: URLTarget)
    ensures ParseTarget(t.Name()) == Some(t)
  {
  }

  /** `otherBool`: "yes" and "no" in place of true and false. */
  datatype OtherBool = Yes | No {

    function Name(): (s: string)
      ensures s == "yes" || s == "no"
      ensures (s == "yes") == (this == Yes)
    {
      match this
      case Yes => "yes"
      case No => "no"
    }

    /** The boolean the word stands for. */
    function ToBool(): (b: bool)
      ensures b <==> this == Yes
    {
      this.Yes?
    }
  }

  /** Reads a yes/no literal; anything else is refused. */
  function ParseOtherBool(s: string): (r: Option<OtherBool>)
    ensures r.Some? ==> r.value.Name() == s
    ensures r.None? ==> s != "yes" && s != "no"
  {
    if s == "yes" then Some(Yes)
    else if s == "no" then Some(No)
    else None
  }

  lemma ParseOtherBoolName(v: OtherBool)
    ensures ParseOtherBool(v.Name()) == Some(v)
  {
  }

  /** An optional string that a caller has actually filled in: present and
      not empty (both an omitted and an empty argument count as blank). */
  predicate Filled(s: Option<string>)
  {
    s.Some? && s.value != ""
  }
}
