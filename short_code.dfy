/** The short code: a string whose only rule is that it is not empty. */
module ShortCodes {
  import opened Wrappers

  /** A string that is never empty. */
  type NonEmptyString = s: string | s != "" witness "_"

  /** A short code. Its string cannot be empty, so every code in the model,
      however it was built, keeps the rule `New` enforces. */
  datatype ShortCode = ShortCode(value: NonEmptyString)

  datatype ShortCodeError = NoEmptyString

  /** `ShortCode::new`: rejects exactly the empty string; any other string,
      of any length and any characters, is accepted and kept unchanged. */
  function New(e: string): (r: Result<ShortCode, ShortCodeError>)
    ensures r.Failure? <==> e == ""
    ensures r.Failure? ==> r.error == NoEmptyString
    ensures r.Success? ==> r.value.value == e
  {
    if e == "" then Failure(NoEmptyString) else Success(ShortCode(e))
  }

  /** `as_ref`: the stored string, never empty, from which `New` rebuilds the
      same code. */
  function AsRef(c: ShortCode): (s: string)
    ensures s != "" && New(s) == Success(c)
  {
    c.value
  }

  /** `Display`: prints exactly the stored string. */
  function Display(c: ShortCode): (s: string)
    ensures s == AsRef(c)
  {
    c.value
  }

  /** Round trip: the string a successful `New` was given comes back out. */
  lemma NewAsRef(s: string)
    requires s != ""
    ensures New(s).Success? && AsRef(New(s).value) == s && Display(New(s).value) == s
  {
  }
}
