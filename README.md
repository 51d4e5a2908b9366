# AeroGear push client: registration and metrics

A Dafny model of the protocol core of the AeroGear UnifiedPush iOS client. It covers these parts.

- **Device registration** (`DeviceRegistration`). The configuration block fills a fresh device profile. Gaps are then filled:
  - the variant id and secret come from configuration;
  - the server URL comes from configuration;
  - the device token comes from the token stored by an earlier registration.
- **Configuration lookup** (`configValueForKey`). Configuration comes from the caller's override map, a named plist, or the Info dictionary, and an empty string counts as no value.
- **Validation and sending.**
  - Four mandatory fields are checked in order, and the first missing one is reported.
  - The identity is written to `UserDefaults` before anything is sent.
  - A JSON `POST` to `rest/registry/device` goes out with HTTP Basic authentication.
  - The completion picks exactly one of `success`/`failure`.
  - A redirect re-sends the original request (method, headers, body) to the new location.
- **Device profile** (`ClientDeviceInformationImpl`). Its `extractValues` builds the JSON object. `Data.toString` turns the binary token into lowercase hexadecimal text.
- **Metrics** (`PushAnalytics`). Two hooks pick a message id out of the launch options, or out of a notification opened while the app was inactive or in the background. `sendMetrics` reads the stored identity. It then either reports that registration is missing, or sends an authenticated `PUT` to `rest/registry/device/pushMessage/<id>`.

## How the model is laid out

- `foundation.dfy`: platform values (`Option`, `Url`, `Request`, `Response`, `NSError`, the `Bundle`).
  - `UserDefaults` is a class whose `entries` map the registration updates in place.
- `utf8.dfy` and `base64.dfy`: what `String.data(using: .utf8)` and `Data.base64EncodedString()` compute.
  - UTF-8 as in RFC 3629; base 64 as in section 4 of RFC 4648.
  - Each has a decoder and a round-trip proof.
- `http.dfy`:
  - the Basic `Authorization` header of section 2 of RFC 7617, proved to give the credentials back;
  - the way both completion handlers classify a response.
- `client_device_information.dfy`: the profile object, `extractValues` and the hexadecimal token text.
- `registration.dfy`: the `DeviceRegistration` class.
  - `Register` is an imperative method that mutates the object, the profile object and the store.
  - It is proved against `RegistrationSpec`.
  - Module `RegistrationProperties` holds the lemmas about the lookup precedence, validation, persistence, the request, and the outcome.
- `push_analytics.dfy`:
  - the hooks and `SendMetrics`, proved against `MetricsSpec` and `HookSpec`;
  - module `RegistrationThenMetrics`, which shows that a registration that went out leaves exactly the identity metrics needs.

Inputs the source obtains from its environment become parameters:

- **The configuration block** becomes the profile values it leaves, or `None` for a nil block.
- **The bundle** becomes a value holding the plists and the Info dictionary.
- **The response** becomes what the data task completes with, after any redirects.
- **Callbacks** are returned values. This gives the `RegistrationOutcome` of `register`, and a `Completion` (not called, or called with an optional error) for the hooks.

### Precedence in the code

- A server URL the object already holds wins over every configuration source, the override map included (AeroGearPush/DeviceRegistration.swift:124). The same holds for variant ids and secrets set by the configuration block (lines 116-122). See `RegistrationProperties.InstanceURLWins` and `RegistrationProperties.BlockValuesWin`.
- Without a named plist, the app's Info dictionary is read (line 248). A named plist, once chosen, shadows the Info dictionary even when the plist lacks the key. See `RegistrationProperties.PlistShadowsInfo` and `RegistrationProperties.InfoDictionaryLast`.
- Validation only checks that each mandatory value is there (lines 134-153). An empty token, variant id or secret set by the block is persisted and sent; only configured values treat `""` as absent (line 250). See `RegistrationProperties.EmptyValuesPassValidation`.

## Model

| member | source | states |
|---|---|---|
| Foundation.AppendingPathComponent | AeroGearPush/DeviceRegistration.swift:162 | the result starts with the URL's text and ends with `/` followed by the component |
| Foundation.DataForKey | AeroGearPush/DeviceRegistration.swift:131 | a token is read exactly when the key holds `Data`, and it is those bytes |
| Foundation.ParseUrl | AeroGearPush/DeviceRegistration.swift:125 | a URL exactly for a non-empty string of URL characters, and its text is that string; the approximation is described under "## Left out" |
| Foundation.NewRequest | AeroGearPush/DeviceRegistration.swift:162 | a fresh request to the URL: a GET with no header fields and no body |
| Foundation.SetValue | AeroGearPush/DeviceRegistration.swift:163 | the field is set to the value; every other header field, the method, the URL and the body are unchanged |
| Foundation.UserDefaults.Set | AeroGearPush/DeviceRegistration.swift:156-159 | the store afterwards is the old one with that one key replaced |
| Foundation.StringForKey | push-sdk-swift/PushAnalytics.swift:65-67 | a string is read exactly when the key holds a string, and it is that string |
| Utf8.EncodeChar | AeroGearPush/DeviceRegistration.swift:167 | one to four bytes per character; one byte exactly for ASCII; the rest are continuation bytes |
| Utf8.Encode | AeroGearPush/DeviceRegistration.swift:167 | the encoding has between one and four bytes per character |
| Utf8.DecodeEncode | AeroGearPush/DeviceRegistration.swift:167 | decoding the UTF-8 bytes of any string gives the string back, with a decoder that rejects overlong forms as RFC 3629 requires |
| Utf8.EncodeAppend | AeroGearPush/DeviceRegistration.swift:167 | the encoding of a concatenation is the concatenation of the encodings |
| Utf8.EncodeAscii | AeroGearPush/DeviceRegistration.swift:167 | ASCII text encodes to one byte per character, equal to its code |
| Base64.Encode | AeroGearPush/DeviceRegistration.swift:168 | four characters per started block of three bytes; only alphabet characters, with `=` only in the last two places |
| Base64.DecodeEncode | AeroGearPush/DeviceRegistration.swift:168 | decoding the encoding gives the bytes back |
| Base64.EncodeInjective | AeroGearPush/DeviceRegistration.swift:168 | different byte sequences never share an encoding |
| Http.BasicAuthorization | AeroGearPush/DeviceRegistration.swift:166-170 | the header is `Basic ` followed by text that decodes to the UTF-8 bytes of `id:secret` |
| Http.BasicAuthorizationRecoverable | AeroGearPush/DeviceRegistration.swift:166-170 | a server parsing the header recovers exactly the variant id and secret (id without a colon) |
| Http.BasicAuthorizationInjective | push-sdk-swift/PushAnalytics.swift:77-81 | two variants with colon-free ids never share a header |
| Http.BasicAuthorizationExample | push-sdk-swift/PushAnalytics.swift:78-81 | variant `V` with secret `S` sends `Basic VjpT` |
| Http.ResponseError | push-sdk-swift/PushAnalytics.swift:86-107 | no error exactly for status 200; a transport error is passed on unchanged; any other status gives `NSURLErrorBadServerResponse` in the caller's domain |
| ClientDeviceInformation.ByteHex | AeroGearPush/ClientDeviceInformationImpl.swift:54 | two lowercase hexadecimal digits that read back as the byte |
| ClientDeviceInformation.HexString | AeroGearPush/ClientDeviceInformationImpl.swift:52-55 | the text of n bytes has 2n characters, all lowercase hexadecimal digits |
| ClientDeviceInformation.HexRoundTrip | AeroGearPush/ClientDeviceInformationImpl.swift:54 | reading the text back two digits at a time gives the bytes back |
| ClientDeviceInformation.HexInjective | AeroGearPush/ClientDeviceInformationImpl.swift:54 | two different tokens are never sent as the same text |
| ClientDeviceInformation.HexAppend | AeroGearPush/ClientDeviceInformationImpl.swift:54 | the text of a concatenation is the concatenation of the texts |
| ClientDeviceInformation.HexExamples | AeroGearPush/ClientDeviceInformationImpl.swift:54 | bytes `2c 94` give `"2c94"`, no bytes give `""` |
| ClientDeviceInformation.Put | AeroGearPush/ClientDeviceInformationImpl.swift:41-46 | assigning nil leaves the dictionary as it was; assigning a value adds exactly that key, and keeps every other key and value |
| ClientDeviceInformation.JsonBody | AeroGearPush/ClientDeviceInformationImpl.swift:38-49 | keys are among the six body keys; each key is present exactly when its field is non-nil, with the field's value (the token as hex text); variant id and secret never appear |
| ClientDeviceInformation.BodyIgnoresCredentials | AeroGearPush/ClientDeviceInformationImpl.swift:38-49 | the body does not depend on the variant id or secret |
| ClientDeviceInformation.ClientDeviceInformationImpl.constructor | AeroGearPush/ClientDeviceInformationImpl.swift:25-36 | every field of a fresh profile object is nil |
| ClientDeviceInformation.ClientDeviceInformationImpl.Configure | AeroGearPush/DeviceRegistration.swift:111-113 | after the block runs, the profile object holds the values the block chose |
| ClientDeviceInformation.ClientDeviceInformationImpl.ExtractValues | AeroGearPush/ClientDeviceInformationImpl.swift:38-49 | the dictionary filled key by key is the body `JsonBody` describes for the object's fields |
| Registration.FirstMissing | AeroGearPush/DeviceRegistration.swift:134-153 | no field is reported exactly when all four are present; a reported field is missing and every field checked before it is present |
| Registration.MissingFieldError | AeroGearPush/DeviceRegistration.swift:134-153 | a code-0 error in `PushErrorDomain` whose message is `'<field>' should be set`, naming the field |
| Registration.MissingFieldErrorsDistinct | AeroGearPush/DeviceRegistration.swift:134-153 | each missing field is reported with its own message, none equal to the missing-block message |
| Registration.Persisted | AeroGearPush/DeviceRegistration.swift:155-159 | the store gains exactly the four keys, holding the token as `Data` and the id, secret and URL text as strings; every other entry is kept |
| Registration.OutcomeOf | AeroGearPush/DeviceRegistration.swift:182-204 | `success` exactly for status 200; a transport error goes to `failure` as it is; any other status goes to `failure` with `NSURLErrorBadServerResponse` in `PushErrorDomain` |
| Registration.RedirectedRequest | AeroGearPush/DeviceRegistration.swift:222-234 | the returned request has the proposed URL, and the original method, headers and body |
| Registration.ObservedRequests | AeroGearPush/DeviceRegistration.swift:222-234 | a task with k redirects sends k+1 requests |
| Registration.RedirectsPreserveRequest | AeroGearPush/DeviceRegistration.swift:222-234 | across any number of hops, hop i goes to the i-th proposed URL with the original method, headers and body |
| Registration.DeviceRegistration.WithServerURL | AeroGearPush/DeviceRegistration.swift:42-49 | the object holds the given server URL, no plist name and no overrides |
| Registration.DeviceRegistration.WithConfig | AeroGearPush/DeviceRegistration.swift:57-60 | the object holds the plist name, no server URL and no overrides |
| Registration.DeviceRegistration.constructor | AeroGearPush/DeviceRegistration.swift:66-70 | the object holds no server URL, no plist name and no overrides |
| Registration.DeviceRegistration.Override | AeroGearPush/DeviceRegistration.swift:72-74 | the override map is replaced by the given one; the server URL and plist name are unchanged |
| Registration.DeviceRegistration.ConfigValueForKey | AeroGearPush/DeviceRegistration.swift:237-255 | never an empty string; an override entry decides; otherwise the named plist, or the Info dictionary when no plist is named |
| Registration.DeviceRegistration.Register | AeroGearPush/DeviceRegistration.swift:102-207 | a nil block fails with "configuration block not set" and changes nothing; otherwise the server URL becomes the resolved one, and store, request and outcome are as `RegistrationSpec` says for the gap-filled profile |
| Registration.DeviceRegistration.FillGaps | AeroGearPush/DeviceRegistration.swift:115-132 | the profile object becomes `FilledProfile` of what the block left, and the server URL becomes `ResolvedServerURL` |
| Registration.DeviceRegistration.Completion | AeroGearPush/DeviceRegistration.swift:182-204 | the callback fired is the one `OutcomeOf` selects for the response |
| RegistrationProperties.OverrideDecides | AeroGearPush/DeviceRegistration.swift:239-240 | with an override entry for the key, the bundle is irrelevant; a non-empty entry is the value, and an empty entry gives no value |
| RegistrationProperties.PlistShadowsInfo | AeroGearPush/DeviceRegistration.swift:241-246 | with a plist named and no override entry, the Info dictionary is irrelevant |
| RegistrationProperties.InfoDictionaryLast | AeroGearPush/DeviceRegistration.swift:247-249 | with no override entry and no plist named, the Info dictionary's string is the value unless it is empty |
| RegistrationProperties.BlockValuesWin | AeroGearPush/DeviceRegistration.swift:115-132 | values the block set are kept; a nil id or secret comes from configuration; a nil token comes from stored `Data`, or stays nil only when none is stored; metadata passes through |
| RegistrationProperties.InstanceURLWins | AeroGearPush/DeviceRegistration.swift:124-126 | a server URL held by the object is kept whatever the configuration says |
| RegistrationProperties.ValidationFailureLeavesNoTrace | AeroGearPush/DeviceRegistration.swift:134-153 | when a mandatory field is missing: nothing sent, store unchanged, failure with code 0 in `PushErrorDomain` |
| RegistrationProperties.SentIffComplete | AeroGearPush/DeviceRegistration.swift:134-182 | a request is sent exactly when token, variant id, secret and server URL are all present |
| RegistrationProperties.SucceedsIff | AeroGearPush/DeviceRegistration.swift:182-204 | `success` fires exactly when the request was sent and the answer was status 200 |
| RegistrationProperties.PersistedWhateverTheResponse | AeroGearPush/DeviceRegistration.swift:155-159 | what is stored, and what is sent, do not depend on the server's answer |
| RegistrationProperties.EmptyValuesPassValidation | AeroGearPush/DeviceRegistration.swift:134-159 | an empty token, id and secret from the block pass validation: they are stored and sent, in the header and in the body |
| RegistrationProperties.RegistrationRequestShape | AeroGearPush/DeviceRegistration.swift:161-180 | a JSON `POST` below the server URL ending in `/rest/registry/device`; the header yields back the variant id and secret; the body's `deviceToken` decodes back to the token |
| PushAnalytics.ReadIdentity | push-sdk-swift/PushAnalytics.swift:65-70 | an identity exactly when all three keys hold strings, made of those strings |
| PushAnalytics.SendMetrics | push-sdk-swift/PushAnalytics.swift:64-116 | error, request and store reads are as `MetricsSpec` says; the store is only read |
| PushAnalytics.LaunchMessageId | push-sdk-swift/PushAnalytics.swift:37-45 | an id exactly when the options exist, their notification entry is a dictionary, and its `aerogear-push-id` is a string; the id is that string |
| PushAnalytics.AwokenMessageId | push-sdk-swift/PushAnalytics.swift:55-62 | an id exactly when the app was not active and `aerogear-push-id` is a string; the id is that string |
| PushAnalytics.SendMetricsWhenAppLaunched | push-sdk-swift/PushAnalytics.swift:37-45 | without an id the completion is never called and nothing is sent; with one, metrics are sent for exactly that id |
| PushAnalytics.SendMetricsWhenAppAwoken | push-sdk-swift/PushAnalytics.swift:55-62 | the same for a wake-up, where an active state yields no id |
| PushAnalytics.NotRegisteredIff | push-sdk-swift/PushAnalytics.swift:111-115 | nothing is sent exactly when no identity is stored, and then the error is the code-0 not-registered error |
| PushAnalytics.MetricsSucceedsIff | push-sdk-swift/PushAnalytics.swift:86-107 | no error exactly when sent and answered 200; a transport error is passed on; other statuses give `NSURLErrorBadServerResponse` |
| PushAnalytics.MetricsReadsOnlyIdentity | push-sdk-swift/PushAnalytics.swift:65-67 | stores that agree on the three identity keys give the same request and completion, whatever token they hold |
| PushAnalytics.MetricsRequestShape | push-sdk-swift/PushAnalytics.swift:71-81 | a bodiless JSON `PUT` below the stored URL ending in `/rest/registry/device/pushMessage/<id>`; the header yields back the stored id and secret |
| PushAnalytics.MetricsPathInjective | push-sdk-swift/PushAnalytics.swift:73 | different message ids are put to different URLs |
| PushAnalytics.LaunchSendsForItsId | push-sdk-swift/PushAnalytics.swift:40-41 | a launch by a notification carrying an id sends metrics for exactly that id |
| PushAnalytics.ActiveWakeDoesNothing | push-sdk-swift/PushAnalytics.swift:56 | woken while active, nothing is sent and the completion is never called |
| PushAnalytics.LaunchRegisteredExample | AeroGearPushTests/PushAnalyticsTests.swift:42-66 | message `123456` with an identity for `http://server.com` stored, answered 200: completion without error, PUT to `http://server.com/` followed by the metrics path of `123456` |
| PushAnalytics.ExampleMetrics | AeroGearPushTests/PushAnalyticsTests.swift:42-66 | the metrics step of the same example |
| PushAnalytics.LaunchUnregisteredExample | AeroGearPushTests/PushAnalyticsTests.swift:68-92 | the same launch with nothing stored: completion with the not-registered error, nothing sent |
| RegistrationThenMetrics.RegistrationEnablesMetrics | AeroGearPush/DeviceRegistration.swift:155-159 | after a registration that went out, metrics read its variant and URL back; they are sent to that server with the same `Authorization` header |

## Left out

- **Networking.** `URLSession`, its delegate queue, `task.resume()` and asynchronous delivery are not modelled. The response is an input, and each callback is a returned value.
  - The `session` field is not modelled.
  - The completion handler assumes that, without an error, the response is an `HTTPURLResponse`, as the source's forced cast does.
- **Error payloads.** The `userInfo` of errors is not modelled, apart from the description:
  - the failing request and response entries are left out;
  - the description of a bad status is `StatusText(code)`, standing for `HTTPURLResponse.localizedString(forStatusCode:)`.
- Registration.DeviceRegistration.Register:
  - The body is the JSON object, not the bytes `JSONSerialization` makes of it.
  - The path where serialisation fails and the request goes out without a body is not modelled. `JSONSerialization` is not part of this model.
  - The configuration block is modelled by the field values it leaves in the profile object. Other effects it may have are not captured.
- Registration.DeviceRegistration.ConfigValueForKey, FillGaps and Register require the named plist to exist whenever it is consulted. The source force-unwraps its path and would trap otherwise.
- PushAnalytics.SendMetrics and the two hooks require that a stored server URL parses whenever metrics are sent. The source force-unwraps `URL(string:)` and would trap otherwise.
- Foundation.ParseUrl: `URL(string:)` is approximated. It accepts a non-empty string made only of characters of section 2 of RFC 3986 and `%`. Foundation's full parser is not part of this model.
- Foundation.AppendingPathComponent:
  - Adds one `/` unless the URL already ends with one.
  - Percent-escaping of the component and URLs with a query or fragment are not modelled.
  - Its contract gives the prefix and the `/`-separated suffix, not the exact text.
- Registration.ObservedRequests: redirect hop limits and loops belong to `URLSession` and are not modelled. The handler itself rewrites one hop at a time.
- RegistrationThenMetrics.RegistrationEnablesMetrics: requires that the registered URL's text parses back to the same URL. Foundation guarantees this for URLs, and the approximated parser does not.
- **UIKit.** `UIApplicationState` is a three-value datatype. The launch-options key is the constant `RemoteNotificationKey`. Launch options and notification payloads are maps whose non-string or non-dictionary values are collapsed to a single "other" value.
- **Not in the core.** These files are not part of this model:
  - the Swift 2 duplicates: push-sdk-swift/AGDeviceRegistration.swift, push-sdk-swift/AGPushAnalytics.swift, push-sdk-swift/AGClientDeviceInformationImpl.swift and push-sdk-swift/ClientDeviceInformationImpl.swift;
  - the Objective-C headers;
  - the tests that need a live server.
- **Protocol declarations.** push-sdk-swift/ClientDeviceInformation.swift only declares the profile's fields. It is used as the field list of `DeviceProfile`.
