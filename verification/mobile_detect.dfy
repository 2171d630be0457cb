/** The `mobile_detect` condition: it classifies the client as mobile, tablet
    or desktop and by vendor. When asked to, the detection caches that
    classification in two cookies, `device` and `device_type`, for two hours;
    `evaluate` never asks it to. */
module MobileDetect {
  import opened PhpValues
  import opened Cookies

  /** What the Mobile_Detect library answers for the current request:
      `isMobile()`, `isTablet()`, and the vendor names `V` for which
      `isV()` holds. */
  datatype Signals = Signals(mobile: bool, tablet: bool, vendors: set<string>)

  /** The array the detection returns: `device` and `device_type`. */
  datatype Data = Data(device: Scalar, deviceType: Scalar)

  /** A PHP ordered array from lower-cased vendor name to vendor name. */
  type Table = seq<(string, string)>

  /** The vendors the condition asks the library about, in the order it asks. */
  const VendorNames: seq<string> :=
    ["iPhone", "BlackBerry", "HTC", "Nexus", "DellStreak", "Motorola",
     "Samsung", "Sony", "Asus", "Palm", "GenericPhone"]

  /** How long, in seconds, the cookies that cache a detection live. */
  const CookieLifetime: int := 7200

  // ---------------------------------------------------------------------
  // The vendor table
  // ---------------------------------------------------------------------

  /** `$table[$key] = $value` on a PHP ordered array: an existing key keeps
      its place and gets the new value, a new key goes at the end. */
  function Put(table: Table, key: string, value: string): Table
  {
    if table == [] then [(key, value)]
    else if table[0].0 == key then [(key, value)] + table[1..]
    else [table[0]] + Put(table[1..], key, value)
  }

  lemma {:induction false} PutNewKeyAppends(table: Table, key: string, value: string)
    requires forall i :: 0 <= i < |table| ==> table[i].0 != key
    ensures Put(table, key, value) == table + [(key, value)]
  {
    if table != [] {
      PutNewKeyAppends(table[1..], key, value);
      assert [table[0]] + (table[1..] + [(key, value)]) == table + [(key, value)];
    }
  }

  /** The table that storing `names` one after the other, each under its
      lower-cased form, builds from an empty array. */
  function TableOf(names: seq<string>): Table
  {
    if names == [] then []
    else
      var last := names[|names| - 1];
      Put(TableOf(names[..|names| - 1]), Lower(last), last)
  }

  function VendorTable(): Table
  {
    TableOf(VendorNames)
  }

  /** No two vendor names have the same lower-cased form, and none of those
      forms is empty or "0". */
  lemma VendorKeysDistinct()
    ensures forall i, j :: 0 <= i < j < |VendorNames| ==> Lower(VendorNames[i]) != Lower(VendorNames[j])
    ensures forall i :: 0 <= i < |VendorNames| ==> Truthy(Str(Lower(VendorNames[i])))
  {
    forall i, j | 0 <= i < j < |VendorNames|
      ensures Lower(VendorNames[i]) != Lower(VendorNames[j])
    {
      if |VendorNames[i]| == |VendorNames[j]| {
        assert Lower(VendorNames[i])[0] != Lower(VendorNames[j])[0];
      }
    }
    forall i | 0 <= i < |VendorNames|
      ensures Truthy(Str(Lower(VendorNames[i])))
    {
      assert Lower(VendorNames[i])[0] != '0';
    }
  }

  lemma {:induction false} VendorPrefixTable(k: nat)
    requires k <= |VendorNames|
    ensures |TableOf(VendorNames[..k])| == k
    ensures forall i :: 0 <= i < k ==> TableOf(VendorNames[..k])[i] == (Lower(VendorNames[i]), VendorNames[i])
  {
    if k > 0 {
      var prefix := VendorNames[..k];
      assert prefix[..k - 1] == VendorNames[..k - 1];
      VendorPrefixTable(k - 1);
      VendorKeysDistinct();
      PutNewKeyAppends(TableOf(VendorNames[..k - 1]), Lower(VendorNames[k - 1]), VendorNames[k - 1]);
    }
  }

  /** The vendor table holds the eleven vendor names in their order, each
      under its lower-cased form; its keys are distinct and all truthy. */
  lemma VendorTableShape()
    ensures |VendorTable()| == |VendorNames| == 11
    ensures forall i :: 0 <= i < 11 ==> VendorTable()[i] == (Lower(VendorNames[i]), VendorNames[i])
    ensures forall i, j :: 0 <= i < j < 11 ==> VendorTable()[i].0 != VendorTable()[j].0
    ensures forall i :: 0 <= i < 11 ==> Truthy(Str(VendorTable()[i].0))
  {
    assert VendorNames[..11] == VendorNames;
    VendorPrefixTable(11);
    VendorKeysDistinct();
  }

  /** `_context_mobile_detect_devices_types`: builds the vendor table. */
  method DevicesTypes() returns (types: Table)
    ensures types == VendorTable()
    ensures |types| == |VendorNames|
    ensures forall i :: 0 <= i < |types| ==> types[i] == (Lower(VendorNames[i]), VendorNames[i])
  {
    types := [];
    for k := 0 to |VendorNames|
      invariant types == TableOf(VendorNames[..k])
    {
      var name := VendorNames[k];
      assert VendorNames[..k + 1][..k] == VendorNames[..k];
      types := Put(types, Lower(name), name);
    }
    assert VendorNames[..|VendorNames|] == VendorNames;
    VendorTableShape();
  }

  // ---------------------------------------------------------------------
  // Classification
  // ---------------------------------------------------------------------

  /** The device code: 1 for a mobile that is not a tablet, 2 for a tablet,
      3 for a desktop. The tablet answer counts only for a mobile. */
  function DeviceCode(mobile: bool, tablet: bool): (code: int)
    ensures 1 <= code <= 3
    ensures code == 2 <==> mobile && tablet
    ensures code == 1 <==> mobile && !tablet
    ensures code == 3 <==> !mobile
  {
    if mobile then (if tablet then 2 else 1) else 3
  }

  /** The key of the first entry of `table` whose vendor the library
      recognises, or 0 when it recognises none of them. */
  function FirstVendor(table: Table, vendors: set<string>): (r: Scalar)
    ensures (forall i :: 0 <= i < |table| ==> table[i].1 !in vendors) ==> r == Int(0)
    ensures forall i :: 0 <= i < |table| && table[i].1 in vendors && (forall j :: 0 <= j < i ==> table[j].1 !in vendors)
                    ==> r == Str(table[i].0)
  {
    FirstVendorFrom(table, vendors, 0)
  }

  /** The search of `FirstVendor`, from entry `k` on. */
  function FirstVendorFrom(table: Table, vendors: set<string>, k: nat): (r: Scalar)
    requires k <= |table|
    ensures (forall i :: k <= i < |table| ==> table[i].1 !in vendors) ==> r == Int(0)
    ensures forall i :: k <= i < |table| && table[i].1 in vendors && (forall j :: k <= j < i ==> table[j].1 !in vendors)
                    ==> r == Str(table[i].0)
    decreases |table| - k
  {
    if k == |table| then Int(0)
    else if table[k].1 in vendors then Str(table[k].0)
    else FirstVendorFrom(table, vendors, k + 1)
  }

  /** The vendor search of `_context_mobile_detect_detect`: walks the vendor
      table and stops at the first vendor the library recognises. */
  method DetectDeviceType(vendors: set<string>) returns (deviceType: Scalar)
    ensures deviceType == FirstVendor(VendorTable(), vendors)
  {
    deviceType := Int(0);
    var types := DevicesTypes();
    VendorTableShape();
    for k := 0 to |types|
      invariant deviceType == Int(0)
      invariant forall j :: 0 <= j < k ==> types[j].1 !in vendors
    {
      var (key, name) := types[k];
      deviceType := if name in vendors then Str(key) else Int(0);
      if Truthy(deviceType) {
        break;
      }
    }
  }

  /** Whether the cookies of the request hold a usable classification:
      `device` is set, numeric and not 0. */
  predicate IsHit(sent: map<string, string>)
  {
    "device" in sent && IsNumeric(sent["device"]) && !LooselyEqualsZero(sent["device"])
  }

  /** The three ways the cookies miss: `device` is unset, is not numeric,
      or is loosely equal to 0. */
  lemma MissCases(sent: map<string, string>)
    ensures !IsHit(sent) <==>
              "device" !in sent || !IsNumeric(sent["device"]) || LooselyEqualsZero(sent["device"])
  {
  }

  /** What the detection returns for a request that carries the cookies
      `sent` and for which the library answers `signals`. */
  function Detected(sent: map<string, string>, signals: Signals): Data
  {
    if IsHit(sent) then
      Data(Str(sent["device"]), if "device_type" in sent then Str(sent["device_type"]) else Int(0))
    else
      Data(Int(DeviceCode(signals.mobile, signals.tablet)), FirstVendor(VendorTable(), signals.vendors))
  }

  /** The jar after both cookies of a detection are written at time `now`. */
  function WrittenBack(cookies: map<string, Cookie>, data: Data, now: int): map<string, Cookie>
  {
    var expires := now + CookieLifetime;
    Stored(Stored(cookies, "device", ToPhpString(data.device), expires),
           "device_type", ToPhpString(data.deviceType), expires)
  }

  /** `_context_mobile_detect_detect($setcookie)` for a request made at time
      `now` by the client whose cookies are in `jar`. */
  method Detect(jar: CookieJar, now: int, signals: Signals, setCookie: bool) returns (data: Data)
    modifies jar
    ensures data == Detected(old(jar.Sent(now)), signals)
    ensures jar.cookies ==
              if setCookie && !IsHit(old(jar.Sent(now))) then WrittenBack(old(jar.cookies), data, now)
              else old(jar.cookies)
  {
    data := Data(Int(3), Int(0));
    var sent := jar.Sent(now);
    if !IsHit(sent) {
      data := data.(device := Int(DeviceCode(signals.mobile, signals.tablet)));
      var deviceType := DetectDeviceType(signals.vendors);
      data := data.(deviceType := deviceType);
      if setCookie {
        jar.SetCookie("device", ToPhpString(data.device), now + CookieLifetime);
        jar.SetCookie("device_type", ToPhpString(data.deviceType), now + CookieLifetime);
      }
    } else {
      data := data.(device := Str(sent["device"]));
      data := data.(deviceType := if "device_type" in sent then Str(sent["device_type"]) else data.deviceType);
    }
  }

  // ---------------------------------------------------------------------
  // Properties of the cache
  // ---------------------------------------------------------------------

  /** A usable cookie decides the result alone: the library's answers do
      not matter. */
  lemma HitIgnoresSignals(sent: map<string, string>, first: Signals, second: Signals)
    requires IsHit(sent)
    ensures Detected(sent, first) == Detected(sent, second)
    ensures Detected(sent, first).device == Str(sent["device"])
    ensures Detected(sent, first).deviceType == (if "device_type" in sent then Str(sent["device_type"]) else Int(0))
  {
  }

  /** On a miss the vendor found is 0 or the non-empty key of a vendor. */
  lemma {:induction false} MissVendorIsKeyOrZero(vendors: set<string>)
    ensures var r := FirstVendor(VendorTable(), vendors);
            r == Int(0) || (r.Str? && r.s != "" && exists i :: 0 <= i < 11 && r.s == Lower(VendorNames[i]))
  {
    VendorTableShape();
    var t := VendorTable();
    if i :| 0 <= i < |t| && t[i].1 in vendors {
      var first := FirstIndex(t, vendors, i);
      assert Truthy(Str(t[first].0));
    }
  }

  /** The smallest index of an entry whose vendor is in `vendors`, given one. */
  lemma {:induction false} FirstIndex(t: Table, vendors: set<string>, i: nat) returns (first: nat)
    requires i < |t| && t[i].1 in vendors
    ensures first <= i && t[first].1 in vendors
    ensures forall j :: 0 <= j < first ==> t[j].1 !in vendors
    decreases i
  {
    if j :| 0 <= j < i && t[j].1 in vendors {
      first := FirstIndex(t, vendors, j);
    } else {
      first := i;
    }
  }

  /** The cookies as a later request reads them back: every value as the
      string `setcookie` wrote. */
  function AsCookies(data: Data): Data
  {
    Data(Str(ToPhpString(data.device)), Str(ToPhpString(data.deviceType)))
  }

  /** Round trip: after a miss that writes the cookies at time `now`, a
      request made before they expire is a hit and reads back the same
      classification, whatever the library would answer then. */
  lemma RoundTrip(cookies: map<string, Cookie>, now: int, later: int, first: Signals, second: Signals)
    requires !IsHit(Live(cookies, now))
    requires now <= later < now + CookieLifetime
    ensures var data := Detected(Live(cookies, now), first);
            var sent := Live(WrittenBack(cookies, data, now), later);
            IsHit(sent) && Detected(sent, second) == AsCookies(data)
  {
    var data := Detected(Live(cookies, now), first);
    var code := DeviceCode(first.mobile, first.tablet);
    PositiveIntStringIsNonZeroNumeric(code);
    MissVendorIsKeyOrZero(first.vendors);
    assert ToPhpString(data.deviceType) != "" by {
      if data.deviceType == Int(0) {
        assert ToPhpString(data.deviceType) == "0";
      }
    }
  }

  /** Expiry: once the lifetime has passed, the written cookies are no longer
      sent, and the next request is a miss that asks the library again. */
  lemma CookiesExpire(cookies: map<string, Cookie>, now: int, later: int, first: Signals, second: Signals)
    requires !IsHit(Live(cookies, now))
    requires later >= now + CookieLifetime
    ensures var data := Detected(Live(cookies, now), first);
            var sent := Live(WrittenBack(cookies, data, now), later);
            !IsHit(sent) && Detected(sent, second) == Detected(map[], second)
  {
    var data := Detected(Live(cookies, now), first);
    var written := WrittenBack(cookies, data, now);
    assert "device" !in Live(written, later);
  }

  // ---------------------------------------------------------------------
  // Evaluation of the condition
  // ---------------------------------------------------------------------

  /** The `mobile_detect` configuration value: the empty string it starts as,
      or the checkboxes the form stores (each option key mapped to its own
      name when checked and to 0 when not). */
  datatype Setting = Text(text: string) | Checkboxes(boxes: map<string, Scalar>)

  /** PHP's `empty()` on the configuration value. */
  predicate IsEmpty(setting: Setting)
  {
    match setting
    case Text(text) => text == "" || text == "0"
    case Checkboxes(boxes) => boxes == map[]
  }

  /** The initial empty string, "0" and an empty array are empty; a form
      value whose boxes are all unchecked still has entries, so it is not. */
  lemma EmptySettings()
    ensures IsEmpty(Text("")) && IsEmpty(Text("0")) && IsEmpty(Checkboxes(map[]))
    ensures !IsEmpty(Text("mobile"))
    ensures !IsEmpty(Checkboxes(map["mobile" := Int(0), "tablet" := Int(0), "desktop" := Int(0)]))
  {
    var boxes: map<string, Scalar> := map["mobile" := Int(0), "tablet" := Int(0), "desktop" := Int(0)];
    assert "mobile" in boxes;
  }

  predicate Selects(setting: Setting, option: string)
  {
    setting.Checkboxes? && option in setting.boxes && Truthy(setting.boxes[option])
  }

  /** The form option that a `device` value stands for. */
  function OptionOf(device: Scalar): Option<string>
  {
    if device == Int(1) || device == Str("1") then Some("mobile")
    else if device == Int(2) || device == Str("2") then Some("tablet")
    else if device == Int(3) || device == Str("3") then Some("desktop")
    else None
  }

  /** What `evaluate` returns as the code stands: TRUE, or the detection
      array itself. */
  datatype Outcome = Met(met: bool) | Array(data: Data)

  function EvaluateAsWritten(setting: Setting, negated: bool, sent: map<string, string>, signals: Signals): Outcome
  {
    if IsEmpty(setting) && !negated then Met(true) else Array(Detected(sent, signals))
  }

  /** PHP's conversion of an outcome to boolean: the detection array has two
      entries, so it is always TRUE. */
  predicate OutcomeHolds(outcome: Outcome)
  {
    match outcome
    case Met(met) => met
    case Array(_) => true
  }

  /** As written, `evaluate` gives TRUE behind the guard and the detection
      array past it, and either reads as TRUE. */
  lemma AsWrittenAlwaysHolds(setting: Setting, negated: bool, sent: map<string, string>, signals: Signals)
    ensures IsEmpty(setting) && !negated ==> EvaluateAsWritten(setting, negated, sent, signals) == Met(true)
    ensures !(IsEmpty(setting) && !negated) ==>
              EvaluateAsWritten(setting, negated, sent, signals) == Array(Detected(sent, signals))
    ensures OutcomeHolds(EvaluateAsWritten(setting, negated, sent, signals))
  {
  }

  /** As written, the condition holds for every client, whatever devices the
      configuration selects: a mobile client passes a desktop-only setting. */
  lemma AsWrittenIgnoresSelection()
    ensures var setting := Checkboxes(map["mobile" := Int(0), "tablet" := Int(0), "desktop" := Str("desktop")]);
            var mobileClient := Signals(true, false, {});
            OutcomeHolds(EvaluateAsWritten(setting, false, map[], mobileClient))
            && !Evaluation(setting, false, map[], mobileClient)
  {
    var setting := Checkboxes(map["mobile" := Int(0), "tablet" := Int(0), "desktop" := Str("desktop")]);
    var mobileClient := Signals(true, false, {});
    assert Detected(map[], mobileClient).device == Int(1);
    assert setting.boxes["mobile"] == Int(0);
    assert !Selects(setting, "mobile");
  }

  /** The intended result of `evaluate`: TRUE for an empty setting that is
      not negated, and otherwise whether the setting selects the detected
      device class. */
  function Evaluation(setting: Setting, negated: bool, sent: map<string, string>, signals: Signals): bool
  {
    (IsEmpty(setting) && !negated)
    || (match OptionOf(Detected(sent, signals).device)
        case Some(option) => Selects(setting, option)
        case None => false)
  }

  /** `evaluate` with its result read as the condition it is meant to be. */
  method Evaluate(setting: Setting, negated: bool, jar: CookieJar, now: int, signals: Signals) returns (met: bool)
    modifies jar
    ensures IsEmpty(setting) && !negated ==> met
    ensures met == Evaluation(setting, negated, old(jar.Sent(now)), signals)
    ensures jar.cookies == old(jar.cookies)
  {
    if IsEmpty(setting) && !negated {
      return true;
    }
    var data := Detect(jar, now, signals, false);
    met := match OptionOf(data.device)
      case Some(option) => Selects(setting, option)
      case None => false;
  }

  /** The form option for the device class the library's answers give. */
  function ClassOption(signals: Signals): string
  {
    if !signals.mobile then "desktop" else if signals.tablet then "tablet" else "mobile"
  }

  /** Past the empty-setting guard, a request without a usable cookie meets
      the intended condition exactly when the setting selects the class the
      library reports. */
  lemma IntendedEvaluationOnMiss(setting: Setting, negated: bool, sent: map<string, string>, signals: Signals)
    requires !(IsEmpty(setting) && !negated)
    requires !IsHit(sent)
    ensures Evaluation(setting, negated, sent, signals) <==> Selects(setting, ClassOption(signals))
  {
    var device := Detected(sent, signals).device;
    assert device == Int(DeviceCode(signals.mobile, signals.tablet));
    assert OptionOf(device) == Some(ClassOption(signals));
  }
}
