/** The settings form both firmware servers accept (custom_firmware/server/settings.js
    and custom_firmware/test_server/settings.js check it the same way): a password
    and the Wi-Fi name and password, each absent, null or a string. A string of one
    to three characters is refused as too short. */
module SettingsForm {
  import opened Options

  /** A field of the posted JSON: missing (`undefined`), `null`, or a string. */
  datatype Field = Absent | Null | Text(s: string)

  /** JavaScript truthiness of the field: a non-empty string. */
  predicate Truthy(f: Field) {
    f.Text? && f.s != ""
  }

  /** `f || ''`: the string, or the empty string for anything falsy. */
  function OrEmpty(f: Field): (s: string)
    ensures Truthy(f) ==> s == f.s
    ensures !Truthy(f) ==> s == ""
  {
    if Truthy(f) then f.s else ""
  }

  datatype Form = Form(password: Field, ssid: Field, wifiPassword: Field)

  /** `f && f.length > 0 && f.length < 4`. */
  predicate TooShort(f: Field) {
    Truthy(f) && 0 < |f.s| < 4
  }

  /** What a stored password may be once the form was checked: empty (no password)
      or four characters or more. */
  predicate Acceptable(s: string) {
    s == "" || |s| >= 4
  }

  /** The fields reported 'Too short'. */
  datatype Errors = Errors(password: bool, ssid: bool, wifiPassword: bool)

  /** The answer of `handleSetSettings`: `{error}` or `{success: true}`. */
  datatype Reply = Rejected(errors: Errors) | Success

  /** The check of `handleSetSettings`: None when the form may be stored, else the
      fields that are too short. */
  function Validate(form: Form): (r: Option<Errors>)
    ensures r.None? <==> !TooShort(form.password) && !TooShort(form.ssid) && !TooShort(form.wifiPassword)
    ensures r.Some? ==> r.value == Errors(TooShort(form.password), TooShort(form.ssid), TooShort(form.wifiPassword))
  {
    var e := Errors(TooShort(form.password), TooShort(form.ssid), TooShort(form.wifiPassword));
    if e.password || e.ssid || e.wifiPassword then Some(e) else None
  }

  /** `if (f !== undefined) x = f || ''`: a missing field keeps the old value, null
      clears it, a string replaces it; a checked field leaves an acceptable value. */
  function Assign(before: string, f: Field): (r: string)
    ensures f.Absent? ==> r == before
    ensures f.Null? ==> r == ""
    ensures f.Text? ==> r == f.s
    ensures !TooShort(f) && Acceptable(before) ==> Acceptable(r)
  {
    if f.Absent? then before else OrEmpty(f)
  }

  /** `if (f) x = f`: only a non-empty string replaces the value; a checked field
      keeps a value of four characters or more. */
  function AssignIfTruthy(before: string, f: Field): (r: string)
    ensures Truthy(f) ==> r == f.s
    ensures !Truthy(f) ==> r == before
    ensures !TooShort(f) && |before| >= 4 ==> |r| >= 4
  {
    if Truthy(f) then f.s else before
  }
}
