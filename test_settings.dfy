/** The settings of the test server (custom_firmware/test_server/settings.js): kept
    in memory only, starting from fixed defaults. */
module TestSettings {
  import opened SettingsForm

  /** What `handleGetSettings` answers: the Wi-Fi name, and whether a Wi-Fi password
      is set; the login password is left out. */
  datatype View = View(ssid: string, wifiPasswordSet: bool)

  /** `gSettings`. */
  class Store {
    var password: string
    var ssid: string
    var wifiPassword: string

    /** Only checked forms are stored, so no password has one to three characters
        and the Wi-Fi name keeps at least four. */
    predicate Valid()
      reads this
    {
      Acceptable(password) && |ssid| >= 4 && Acceptable(wifiPassword)
    }

    constructor()
      ensures Valid()
      ensures password == "customfirmware" && ssid == "Custom Firmware Example"
      ensures wifiPassword == "customfirmware"
    {
      password := "customfirmware";
      ssid := "Custom Firmware Example";
      wifiPassword := "customfirmware";
    }

    /** `getPassword`: the password logins are checked against. */
    function GetPassword(): (p: string)
      reads this
      requires Valid()
      ensures p == password && Acceptable(p)
    {
      password
    }

    /** `handleGetSettings`: the settings without the login password, and the Wi-Fi
        password as a flag only. */
    function GetSettings(): (v: View)
      reads this
      ensures v.ssid == ssid
      ensures v.wifiPasswordSet <==> wifiPassword != ""
    {
      View(ssid, wifiPassword != "")
    }

    /** `handleSetSettings`: a form with a field that is too short is refused and
        changes nothing; otherwise each field present is stored. */
    method SetSettings(form: Form) returns (reply: Reply)
      requires Valid()
      modifies this
      ensures Valid()
      ensures Validate(form).Some? ==> reply == Rejected(Validate(form).value)
      ensures Validate(form).Some? ==> password == old(password) && ssid == old(ssid) && wifiPassword == old(wifiPassword)
      ensures Validate(form).None? ==> reply == Success
      ensures Validate(form).None? ==> password == Assign(old(password), form.password)
      ensures Validate(form).None? ==> ssid == AssignIfTruthy(old(ssid), form.ssid)
      ensures Validate(form).None? ==> wifiPassword == Assign(old(wifiPassword), form.wifiPassword)
    {
      var errors := Validate(form);
      if errors.Some? {
        return Rejected(errors.value);
      }
      password := Assign(password, form.password);
      ssid := AssignIfTruthy(ssid, form.ssid);
      wifiPassword := Assign(wifiPassword, form.wifiPassword);
      reply := Success;
    }
  }
}
