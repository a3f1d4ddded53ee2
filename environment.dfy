/** `EnvironmentRepositoryImpl`: the device description reported to the server, built from
    what the device gateway says about the manufacturer, the model and the language. */
module Environment {
  import opened Common

  /** `DeviceInfo(device, language)`. */
  datatype DeviceInfo = DeviceInfo(device: string, language: string)

  const HTC: string := "HTC"

  /** The manufacturer as shown: any spelling of "HTC" becomes exactly "HTC"; every other
      name, one that merely contains "htc" included, is kept as the gateway gave it. */
  function NormalizeManufacturer(manufacturer: string): (shown: string)
    ensures EqualsIgnoreCase(manufacturer, HTC) ==> shown == HTC
    ensures !EqualsIgnoreCase(manufacturer, HTC) ==> shown == manufacturer
    ensures |shown| == |manufacturer| && EqualsIgnoreCase(shown, manufacturer)
  {
    if EqualsIgnoreCase(manufacturer, HTC) then
      UppercaseHtc(manufacturer);
      Uppercase(manufacturer)
    else manufacturer
  }

  /** Upper-casing a string that equals "HTC" ignoring case gives "HTC". */
  lemma UppercaseHtc(m: string)
    requires EqualsIgnoreCase(m, HTC)
    ensures Uppercase(m) == HTC
  {
    assert CharEqualsIgnoreCase(m[0], 'H');
    assert CharEqualsIgnoreCase(m[1], 'T');
    assert CharEqualsIgnoreCase(m[2], 'C');
    assert m[1..][1..] == [m[2]];
    assert [m[2]][1..] == [];
    assert Uppercase([m[2]]) == [UpperChar(m[2])];
    assert Uppercase(m[1..]) == [UpperChar(m[1]), UpperChar(m[2])];
    assert Uppercase(m) == [UpperChar(m[0]), UpperChar(m[1]), UpperChar(m[2])];
  }

  /** `getDeviceName`: the shown manufacturer, one space, then the model. The name starts
      with the shown manufacturer ("HTC" for any spelling of it, otherwise the
      manufacturer unchanged) and ends with the model, unchanged. */
  function DeviceName(manufacturer: string, model: string): (name: string)
    ensures |name| == |manufacturer| + 1 + |model|
    ensures EqualsIgnoreCase(name[..|manufacturer|], manufacturer)
    ensures name[..|manufacturer|] == NormalizeManufacturer(manufacturer)
    ensures EqualsIgnoreCase(manufacturer, HTC) ==> name[..|manufacturer|] == HTC
    ensures name[|manufacturer|] == ' '
    ensures name[|manufacturer| + 1..] == model
  {
    var shown := NormalizeManufacturer(manufacturer);
    assert (shown + " " + model)[..|manufacturer|] == shown;
    shown + " " + model
  }

  /** `getDeviceInfo`: the device name paired with the current device language, unchanged. */
  function GetDeviceInfo(manufacturer: string, model: string, language: string): (info: DeviceInfo)
    ensures info.language == language
    ensures info.device == DeviceName(manufacturer, model)
  {
    DeviceInfo(DeviceName(manufacturer, model), language)
  }
}
