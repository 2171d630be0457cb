# Context Mobile Detect: device classification and its cookie cache

This project models, in Dafny, the `mobile_detect` condition plugin of the
Drupal module Context Mobile Detect (`src/Plugin/Condition/MobileDetect.php`).
The plugin asks the Mobile_Detect library whether the client is a mobile, a
tablet, and which of eleven vendors it comes from. It reads an earlier
answer from two client cookies, `device` and `device_type`. When called with
`$setcookie`, the detection also writes a fresh answer into them for 7200
seconds. `evaluate`, its only caller in this source, never passes
`$setcookie`, so the plugin as written only reads the cookies. The write-through,
the round trip and the expiry are properties of the public detection method
for a caller that does pass it.

The model has three modules:

- `PhpValues` (`php_values.dfy`): the PHP semantics the plugin leans on:
  truthiness, `is_numeric` on strings, the loose comparison `$s == 0`,
  integer-to-string conversion and `strtolower`.
- `Cookies` (`cookies.dfy`): the client's cookie jar as a class whose field
  maps each cookie name to its value and expiry time. `SetCookie` updates it;
  `Sent(now)` is the `$_COOKIE` array of a request made at time `now`.
- `MobileDetect` (`mobile_detect.dfy`): the vendor table builder
  (`DevicesTypes`), the three-way device code (`DeviceCode`), the
  first-match vendor search (`DetectDeviceType`, specified by
  `FirstVendor`), the cache guard (`IsHit`), the whole detection with its
  write-through (`Detect`, specified by `Detected` and `WrittenBack`), and
  `evaluate`.

The library's answers for the current request are a parameter,
`Signals(mobile, tablet, vendors)`, where `vendors` is the set of vendor
names `V` for which `isV()` holds. `REQUEST_TIME` is the parameter `now`.
The cookie jar is an explicit object instead of the `$_COOKIE` superglobal
and `setcookie`.

On a hit, the detection returns the cookie strings: `device` is `"1"`, not
the integer `1` a miss returns. So the round trip is stated on what
`setcookie` writes. After a miss that writes the cookies, a later request
reads back `AsCookies(data)`, which is both values as PHP strings.

## Model

| member | source | states |
|---|---|---|
| `MobileDetect.DevicesTypes` | src/Plugin/Condition/MobileDetect.php:104-111 | the loop returns the vendor table: eleven entries, the i-th mapping the lower-cased i-th vendor name to that name |
| `MobileDetect.VendorTableShape` | src/Plugin/Condition/MobileDetect.php:104-111 | the table built from the names of line 106 has exactly those 11 names in order, each key is the lowercase of its value, the keys are distinct and none is falsy |
| `MobileDetect.VendorKeysDistinct` | src/Plugin/Condition/MobileDetect.php:106-108 | no two vendor names lower-case to the same key, and no key is "" or "0" |
| `MobileDetect.VendorPrefixTable` | src/Plugin/Condition/MobileDetect.php:107-109 | after the first k iterations the table holds the first k names in order, under their lower-cased keys |
| `MobileDetect.PutNewKeyAppends` | src/Plugin/Condition/MobileDetect.php:108 | assigning a key the array does not hold appends the entry at the end |
| `MobileDetect.DeviceCode` | src/Plugin/Condition/MobileDetect.php:122 | the code is 2 exactly when mobile and tablet hold, 1 exactly when mobile holds without tablet, 3 exactly when mobile does not hold, so a tablet answer alone gives 3 |
| `MobileDetect.FirstVendor` | src/Plugin/Condition/MobileDetect.php:127-132 | the result is the key of the earliest entry whose vendor the library recognises; when it recognises none, the result is 0 |
| `MobileDetect.DetectDeviceType` | src/Plugin/Condition/MobileDetect.php:124-132 | the loop with its break returns the first-match key of the vendor table, or 0 |
| `MobileDetect.MissVendorIsKeyOrZero` | src/Plugin/Condition/MobileDetect.php:127-132 | on a miss, `device_type` is 0 or a non-empty lower-cased vendor name |
| `MobileDetect.MissCases` | src/Plugin/Condition/MobileDetect.php:119 | the cache guard `IsHit` misses exactly when `device` is unset, is not numeric, or is loosely equal to 0 |
| `PhpValues.NumericHasDigit` | src/Plugin/Condition/MobileDetect.php:119 | `IsNumeric` models `is_numeric`: optional whitespace and sign, digits with at most one point, an optional exponent; every string it accepts holds a digit |
| `PhpValues.LooseZeroIsNumericZero` | src/Plugin/Condition/MobileDetect.php:119 | `LooselyEqualsZero` models `$_COOKIE['device'] == 0`: it holds exactly for numeric strings whose mantissa digits are all 0 |
| `MobileDetect.Detect` | src/Plugin/Condition/MobileDetect.php:113-145 | the result is the cookie values on a hit and the detected code and vendor on a miss; the jar changes only on a miss with `$setcookie`, and then both cookies are set to the result with expiry `now + 7200` |
| `MobileDetect.HitIgnoresSignals` | src/Plugin/Condition/MobileDetect.php:139-142 | on a hit the library's answers do not affect the result, `device` is the cookie value unchanged, and `device_type` is the cookie if set and 0 otherwise |
| `MobileDetect.RoundTrip` | src/Plugin/Condition/MobileDetect.php:119-141 | after a miss that writes the cookies at `now`, any request before `now + 7200` is a hit and reads back the same pair, as strings |
| `MobileDetect.CookiesExpire` | src/Plugin/Condition/MobileDetect.php:135-136 | from `now + 7200` on, the written cookies are not sent and the request is a miss |
| `MobileDetect.Evaluate` | src/Plugin/Condition/MobileDetect.php:92-99 | an empty setting that is not negated gives TRUE; otherwise the result is whether the setting selects the detected class; the jar is never changed, since detection runs without `$setcookie` |
| `MobileDetect.IntendedEvaluationOnMiss` | src/Plugin/Condition/MobileDetect.php:94-98 | past the guard and on a miss, `evaluate` holds exactly when the setting selects the class the library reports |
| `MobileDetect.EmptySettings` | src/Plugin/Condition/MobileDetect.php:94 | `IsEmpty` models `empty()` on the setting: "", "0" and an empty array are empty, while a form value with every box unchecked is not |
| `MobileDetect.AsWrittenAlwaysHolds` | src/Plugin/Condition/MobileDetect.php:92-98 | `EvaluateAsWritten` returns TRUE behind the guard and the detection array past it, and PHP reads both as TRUE |
| `MobileDetect.AsWrittenIgnoresSelection` | src/Plugin/Condition/MobileDetect.php:98 | as written, a mobile client passes a desktop-only setting, because the returned array is always truthy |
| `PhpValues.PositiveIntStringIsNonZeroNumeric` | src/Plugin/Condition/MobileDetect.php:119 | a positive integer written as a cookie is numeric and not equal to 0, so it passes the cache guard |
| `PhpValues.DigitsAreNumeric` | src/Plugin/Condition/MobileDetect.php:119 | a digit string without a leading 0 is numeric, its mantissa is itself, and it is not equal to 0 |
| `PhpValues.NatToStringDigits` | src/Plugin/Condition/MobileDetect.php:135 | an integer converted for `setcookie` is a non-empty string of digits, and has no leading 0 when positive |
| `PhpValues.NonNumericExamples` | src/Plugin/Condition/MobileDetect.php:119 | "", "abc" and "1a" are not numeric, so such a `device` cookie is a miss |
| `PhpValues.PaddedNumberExample` | src/Plugin/Condition/MobileDetect.php:119 | " 2 " is numeric and not 0, so such a cookie is a hit |
| `PhpValues.ZeroExamples` | src/Plugin/Condition/MobileDetect.php:119 | "0" and "-0.0" equal 0, so such a cookie is a miss |
| `Cookies.Stored` | src/Plugin/Condition/MobileDetect.php:135-136 | `setcookie` with a non-empty value replaces that one cookie, with an empty value deletes it, and leaves every other cookie as it was |
| `Cookies.Live` | src/Plugin/Condition/MobileDetect.php:119 | a request carries exactly the cookies whose expiry time is later than its own time, with their values |
| `Cookies.CookieJar.SetCookie` | src/Plugin/Condition/MobileDetect.php:135-136 | the jar becomes the `Stored` update of the old jar |

## Left out

- The Mobile_Detect library (`isMobile`, `isTablet`, `is<Vendor>`, loaded at lines 120-121) is not part of this model; its answers are the `Signals` parameter.
- The cookie attributes taken from `session_get_cookie_params` (path, domain, secure, httponly) are not modelled; only the value and the expiry time are.
- Cookie expiry on the client is modelled as the cookie no longer being sent once `now` reaches its expiry time; the code never compares times itself.
- `$_COOKIE` entries that PHP turns into arrays (a cookie named `device[]`) are not modelled; every cookie value is a string.
- `PhpValues.LooselyEqualsZero`: a numeric string whose value underflows to 0.0 as a float (for example "1e-400") is treated as non-zero.
- `PhpValues.IsNumeric` follows PHP 8, which also accepts trailing whitespace; PHP 7 rejects it.
- `PhpValues.Lower` lower-cases ASCII letters only, as PHP 8 does; older PHP versions followed the locale.
- The call at line 124 names the table builder as a free function, which PHP would reject; the model calls the class's own builder.
- Line 105 initialises `$type` instead of `$types`; the model starts the table from an empty array.
- `evaluate` returns the detection array (line 98); the model's `Evaluate` returns whether the setting selects the detected class (see Findings). Negation is applied by Drupal's condition manager after `evaluate` and is not modelled.
- `MobileDetect.Evaluate`: a `device` cookie counts for a class only when it is exactly "1", "2" or "3"; other numeric spellings select nothing.
- The `dsm` debug call at line 93, `create`, the constructor, the configuration form methods and `summary` are Drupal glue and are not modelled.
- `src/Plugin/Condition/TestDetect.php` only looks up whether a module is enabled and builds form options; it is not part of this model.

## Findings

| source | as written | input that shows it | evidently intended | confidence | as-written member | corrected member |
|---|---|---|---|---|---|---|
| src/Plugin/Condition/MobileDetect.php:98 | `evaluate` returns the detection array, which PHP reads as TRUE | setting with only "desktop" checked, not negated, a mobile client without cookies: the condition holds | TRUE only when the setting selects the detected class (mobile, tablet or desktop) | medium, not executed | `MobileDetect.AsWrittenIgnoresSelection` | `MobileDetect.Evaluate` |
