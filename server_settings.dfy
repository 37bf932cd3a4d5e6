/** The settings of the firmware server (custom_firmware/server/settings.js): the
    login password lives in the file /PASSWORD, the Wi-Fi settings in the system
    settings, which a successful form replaces three seconds later. */
module ServerSettings {
  import opened Options
  import opened SettingsForm

  /** The Wi-Fi part of the system settings. */
  datatype Wifi = Wifi(ssid: string, password: string)

  /** What `handleGetSettings` answers: the Wi-Fi name and whether a Wi-Fi password
      is set. */
  datatype View = View(ssid: string, wifiPasswordSet: bool)

  /** `handleGetSettings`, on the system's current Wi-Fi settings. */
  function GetSettings(wifi: Wifi): (v: View)
    ensures v.ssid == wifi.ssid
    ensures v.wifiPasswordSet <==> wifi.password != ""
  {
    View(wifi.ssid, wifi.password != "")
  }

  /** The `wifi` object handed to `lowsys.setSettings`: the fields to change. */
  datatype WifiUpdate = WifiUpdate(ssid: Option<string>, password: Option<string>)

  /** The Wi-Fi fields a checked form changes. */
  function UpdateOf(form: Form): (u: WifiUpdate)
    ensures u.ssid.Some? <==> Truthy(form.ssid)
    ensures u.ssid.Some? ==> u.ssid.value == form.ssid.s
    ensures u.password.Some? <==> !form.wifiPassword.Absent?
    ensures u.password.Some? ==> u.password.value == OrEmpty(form.wifiPassword)
  {
    WifiUpdate(if Truthy(form.ssid) then Some(form.ssid.s) else None,
               if form.wifiPassword.Absent? then None else Some(OrEmpty(form.wifiPassword)))
  }

  /** A scheduled update changes something, and only to values the form check lets
      through. */
  predicate Sound(u: WifiUpdate) {
    && (u.ssid.Some? || u.password.Some?)
    && (u.ssid.Some? ==> |u.ssid.value| >= 4)
    && (u.password.Some? ==> Acceptable(u.password.value))
  }

  class Settings {
    /** `gPassword`. */
    var password: string
    /** Every content written to /PASSWORD, oldest first. */
    var written: seq<string>
    /** Every `lowsys.setSettings({wifi})` scheduled, oldest first. */
    var scheduled: seq<WifiUpdate>

    /** The file always holds the password in use, and every scheduled update is
        sound. */
    predicate Valid()
      reads this
    {
      && (written != [] ==> written[|written| - 1] == password)
      && forall i :: 0 <= i < |scheduled| ==> Sound(scheduled[i])
    }

    /** Start-up: the password is what /PASSWORD holds. */
    constructor(stored: string)
      ensures Valid()
      ensures password == stored && written == [] && scheduled == []
    {
      password := stored;
      written := [];
      scheduled := [];
    }

    /** `getPassword`. */
    function GetPassword(): (p: string)
      reads this
      requires Valid()
      ensures p == password
      ensures written != [] ==> p == written[|written| - 1]
    {
      password
    }

    /** `handleSetSettings`: a form with a field that is too short is refused and
        changes nothing; otherwise a password present replaces the old one and is
        written to /PASSWORD, and the Wi-Fi fields present are scheduled for the
        system settings when there is any. */
    method SetSettings(form: Form) returns (reply: Reply)
      requires Valid()
      modifies this
      ensures Valid()
      ensures Validate(form).Some? ==> reply == Rejected(Validate(form).value)
      ensures Validate(form).Some? ==> password == old(password) && written == old(written) && scheduled == old(scheduled)
      ensures Validate(form).None? ==> reply == Success
      ensures Validate(form).None? ==> password == Assign(old(password), form.password)
      ensures Validate(form).None? ==> written == old(written) + (if form.password.Absent? then [] else [password])
      ensures Validate(form).None? ==> var u := UpdateOf(form);
        scheduled == old(scheduled) + (if u.ssid.Some? || u.password.Some? then [u] else [])
    {
      var errors := Validate(form);
      if errors.Some? {
        return Rejected(errors.value);
      }
      if !form.password.Absent? {
        password := OrEmpty(form.password);
        written := written + [password];
      }
      var u := UpdateOf(form);
      reply := Success;
      if Truthy(form.ssid) || !form.wifiPassword.Absent? {
        scheduled := scheduled + [u];
      }
    }
  }
}
