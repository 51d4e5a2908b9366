/**
 * The device profile a registration posts: the mutable object the
 * configuration block fills in, the JSON object built from it, and the
 * lowercase hexadecimal text the binary device token is sent as.
 */
module ClientDeviceInformation {
  import opened Wrappers
  import opened Foundation

  /** A snapshot of the eight fields of a `ClientDeviceInformation`, each possibly nil. */
  datatype DeviceProfile = DeviceProfile(
    deviceToken: Option<seq<byte>>,
    variantID: Option<string>,
    variantSecret: Option<string>,
    alias: Option<string>,
    categories: Option<seq<string>>,
    operatingSystem: Option<string>,
    osVersion: Option<string>,
    deviceType: Option<string>)

  const EmptyProfile: DeviceProfile := DeviceProfile(None, None, None, None, None, None, None, None)

  // ---- Data.toString(): two lowercase hexadecimal digits per byte ----

  predicate IsLowerHexDigit(c: char)
  {
    ('0' <= c <= '9') || ('a' <= c <= 'f')
  }

  function HexDigit(n: int): (c: char)
    requires 0 <= n < 16
    ensures IsLowerHexDigit(c)
  {
    if n < 10 then ('0' as int + n) as char else ('a' as int + n - 10) as char
  }

  function HexDigitValue(c: char): (n: int)
    requires IsLowerHexDigit(c)
    ensures 0 <= n < 16 && HexDigit(n) == c
  {
    if c <= '9' then c as int - '0' as int else c as int - 'a' as int + 10
  }

  /** `String(format: "%02x", b)` */
  function ByteHex(b: byte): (s: string)
    ensures |s| == 2 && IsLowerHexDigit(s[0]) && IsLowerHexDigit(s[1])
    ensures HexDigitValue(s[0]) * 16 + HexDigitValue(s[1]) == b
  {
    [HexDigit(b / 16), HexDigit(b % 16)]
  }

  /** `Data.toString()`: the bytes mapped to `%02x` and joined. */
  function HexString(data: seq<byte>): (s: string)
    ensures |s| == 2 * |data|
    ensures forall i :: 0 <= i < |s| ==> IsLowerHexDigit(s[i])
  {
    if data == [] then "" else ByteHex(data[0]) + HexString(data[1..])
  }

  /** Reads hexadecimal text back two digits at a time. */
  function HexDecode(s: string): Option<seq<byte>>
  {
    if s == [] then Some([])
    else if |s| == 1 || !IsLowerHexDigit(s[0]) || !IsLowerHexDigit(s[1]) then None
    else
      match HexDecode(s[2..])
      case None => None
      case Some(rest) => Some([HexDigitValue(s[0]) * 16 + HexDigitValue(s[1])] + rest)
  }

  lemma {:induction false} HexRoundTrip(data: seq<byte>)
    ensures HexDecode(HexString(data)) == Some(data)
  {
    if data != [] {
      var b := data[0];
      var s := HexString(data);
      assert s == ByteHex(b) + HexString(data[1..]);
      assert s[2..] == HexString(data[1..]);
      assert HexDigitValue(HexDigit(b / 16)) == b / 16;
      assert HexDigitValue(HexDigit(b % 16)) == b % 16;
      HexRoundTrip(data[1..]);
      assert [b] + data[1..] == data;
    }
  }

  /** The token text identifies the token: two different tokens are never sent as the same text. */
  lemma HexInjective(a: seq<byte>, b: seq<byte>)
    requires HexString(a) == HexString(b)
    ensures a == b
  {
    HexRoundTrip(a);
    HexRoundTrip(b);
  }

  /** The text of a concatenation is the concatenation of the texts. */
  lemma {:induction false} HexAppend(a: seq<byte>, b: seq<byte>)
    ensures HexString(a + b) == HexString(a) + HexString(b)
  {
    if a == [] {
      assert a + b == b;
    } else {
      assert (a + b)[0] == a[0];
      assert (a + b)[1..] == a[1..] + b;
      HexAppend(a[1..], b);
    }
  }

  /** The device token bytes `2c 94` are sent as `"2c94"`, and an empty token as `""`. */
  lemma HexExamples()
    ensures HexString([0x2c, 0x94]) == "2c94"
    ensures HexString([]) == ""
  {
    assert [0x2c, 0x94][1..] == [0x94];
    assert [0x94][1..] == [];
  }

  // ---- extractValues(): the JSON object posted at registration ----

  /** The only keys the registration body can hold. */
  const BodyKeys: set<string> := {"deviceToken", "alias", "categories", "operatingSystem", "osVersion", "deviceType"}

  function StringValue(s: Option<string>): Option<JsonValue>
  {
    if s.Some? then Some(JString(s.value)) else None
  }

  /** `dictionary[key] = value` with an optional value: nil leaves the key out. */
  function Put(m: map<string, JsonValue>, key: string, value: Option<JsonValue>): (r: map<string, JsonValue>)
    requires key !in m
    ensures r.Keys == if value.Some? then m.Keys + {key} else m.Keys
    ensures forall k :: k in m ==> r[k] == m[k]
    ensures value.Some? ==> r[key] == value.value
  {
    if value.Some? then m[key := value.value] else m
  }

  /**
   * The registration body for a profile. A key is present exactly when its
   * field is non-nil (a dictionary drops a key assigned nil); values are
   * copied, except the token, which is sent as its hexadecimal text. The
   * variant id and secret are never part of it.
   */
  function JsonBody(p: DeviceProfile): (body: map<string, JsonValue>)
    ensures body.Keys <= BodyKeys
    ensures "variantID" !in body && "variantSecret" !in body
    ensures "deviceToken" in body <==> p.deviceToken.Some?
    ensures p.deviceToken.Some? ==> body["deviceToken"] == JString(HexString(p.deviceToken.value))
    ensures "alias" in body <==> p.alias.Some?
    ensures p.alias.Some? ==> body["alias"] == JString(p.alias.value)
    ensures "categories" in body <==> p.categories.Some?
    ensures p.categories.Some? ==> body["categories"] == JStringArray(p.categories.value)
    ensures "operatingSystem" in body <==> p.operatingSystem.Some?
    ensures p.operatingSystem.Some? ==> body["operatingSystem"] == JString(p.operatingSystem.value)
    ensures "osVersion" in body <==> p.osVersion.Some?
    ensures p.osVersion.Some? ==> body["osVersion"] == JString(p.osVersion.value)
    ensures "deviceType" in body <==> p.deviceType.Some?
    ensures p.deviceType.Some? ==> body["deviceType"] == JString(p.deviceType.value)
  {
    var m0: map<string, JsonValue> := map[];
    var m1 := Put(m0, "deviceToken", if p.deviceToken.Some? then Some(JString(HexString(p.deviceToken.value))) else None);
    var m2 := Put(m1, "alias", StringValue(p.alias));
    var m3 := Put(m2, "categories", if p.categories.Some? then Some(JStringArray(p.categories.value)) else None);
    var m4 := Put(m3, "operatingSystem", StringValue(p.operatingSystem));
    var m5 := Put(m4, "osVersion", StringValue(p.osVersion));
    Put(m5, "deviceType", StringValue(p.deviceType))
  }

  /** The body does not depend on the credentials: they travel only in the `Authorization` header. */
  lemma BodyIgnoresCredentials(p: DeviceProfile, variantID: Option<string>, variantSecret: Option<string>)
    ensures JsonBody(p.(variantID := variantID, variantSecret := variantSecret)) == JsonBody(p)
  {
  }

  /** `ClientDeviceInformationImpl`: the object the configuration block sets fields on. */
  class ClientDeviceInformationImpl {
    var deviceToken: Option<seq<byte>>
    var variantID: Option<string>
    var variantSecret: Option<string>
    var alias: Option<string>
    var categories: Option<seq<string>>
    var operatingSystem: Option<string>
    var osVersion: Option<string>
    var deviceType: Option<string>

    /** Every field starts nil. */
    constructor ()
      ensures Profile() == EmptyProfile
    {
      deviceToken, variantID, variantSecret := None, None, None;
      alias, categories, operatingSystem, osVersion, deviceType := None, None, None, None, None;
    }

    function Profile(): DeviceProfile
      reads this
    {
      DeviceProfile(deviceToken, variantID, variantSecret, alias, categories, operatingSystem, osVersion, deviceType)
    }

    /** What a configuration block does to the object: leaves each field set to what it chose. */
    method Configure(p: DeviceProfile)
      modifies this
      ensures Profile() == p
    {
      deviceToken, variantID, variantSecret := p.deviceToken, p.variantID, p.variantSecret;
      alias, categories, operatingSystem := p.alias, p.categories, p.operatingSystem;
      osVersion, deviceType := p.osVersion, p.deviceType;
    }

    /** `extractValues()`: the JSON object filled key by key from the fields. */
    method ExtractValues() returns (jsonObject: map<string, JsonValue>)
      ensures jsonObject == JsonBody(Profile())
    {
      jsonObject := map[];
      jsonObject := Put(jsonObject, "deviceToken", if deviceToken.Some? then Some(JString(HexString(deviceToken.value))) else None);
      jsonObject := Put(jsonObject, "alias", StringValue(alias));
      jsonObject := Put(jsonObject, "categories", if categories.Some? then Some(JStringArray(categories.value)) else None);
      jsonObject := Put(jsonObject, "operatingSystem", StringValue(operatingSystem));
      jsonObject := Put(jsonObject, "osVersion", StringValue(osVersion));
      jsonObject := Put(jsonObject, "deviceType", StringValue(deviceType));
    }
  }
}
