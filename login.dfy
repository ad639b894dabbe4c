/** The user login form's check: a 10-digit ID and a non-empty name (both
    already trimmed). */
module Login {
  import opened Common

  datatype LoginError = BadId | MissingName

  predicate IsDigit(c: char) {
    '0' <= c <= '9'
  }

  /** The pattern ^\d{10}$, read left to right. */
  function DigitsOnly(s: string): (b: bool)
    ensures b <==> forall i :: 0 <= i < |s| ==> IsDigit(s[i])
  {
    if s == [] then true else IsDigit(s[0]) && DigitsOnly(s[1..])
  }

  /** The login button: the ID is checked first, then the name; on success the
      pair is what gets stored for the quiz page. */
  function UserLogin(inputId: string, username: string): (r: Result<(string, string), LoginError>)
    ensures r.Success? <==>
              |inputId| == 10 && (forall i :: 0 <= i < |inputId| ==> IsDigit(inputId[i])) && username != ""
    ensures r.Success? ==> r.value == (inputId, username)
    ensures r == Failure(BadId) <==> !(|inputId| == 10 && DigitsOnly(inputId))
  {
    if !(|inputId| == 10 && DigitsOnly(inputId)) then Failure(BadId)
    else if username == "" then Failure(MissingName)
    else Success((inputId, username))
  }
}
