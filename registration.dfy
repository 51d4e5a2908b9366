/**
 * `DeviceRegistration`: registering a device with the UnifiedPush server.
 * Configuration is looked up in the override map, a named plist or the Info
 * dictionary; the profile is completed from it and from the stored token,
 * checked field by field, persisted, and posted with Basic authentication.
 * Redirects re-send the original request to the new location.
 */
module Registration {
  import opened Wrappers
  import opened Foundation
  import opened ClientDeviceInformation
  import Http

  const PushErrorDomain: string := "PushErrorDomain"

  /** The path the registration request is posted to, below the server URL. */
  const RegistryPath: string := "rest/registry/device"

  /** Which callback a registration ends in. */
  datatype RegistrationOutcome = Succeeded | Failed(error: NSError)

  const ConfigurationBlockNotSet: NSError := NSError(PushErrorDomain, 0, Message("configuration block not set"))

  // ---- The four mandatory fields and the order they are checked in ----

  datatype RequiredField = Token | VariantID | VariantSecret | ServerURL

  /** The position of a field in the order the checks run. */
  function Rank(f: RequiredField): nat
  {
    match f
    case Token => 0
    case VariantID => 1
    case VariantSecret => 2
    case ServerURL => 3
  }

  /** The four values a registration needs, after the gaps have been filled. */
  datatype Candidate = Candidate(
    deviceToken: Option<seq<byte>>,
    variantID: Option<string>,
    variantSecret: Option<string>,
    serverURL: Option<Url>)

  predicate Has(c: Candidate, f: RequiredField)
  {
    match f
    case Token => c.deviceToken.Some?
    case VariantID => c.variantID.Some?
    case VariantSecret => c.variantSecret.Some?
    case ServerURL => c.serverURL.Some?
  }

  /** The field whose check fails first, if any: the checks stop at the first nil field. */
  function FirstMissing(c: Candidate): (m: Option<RequiredField>)
    ensures m.None? <==> forall f :: Has(c, f)
    ensures m.Some? ==> !Has(c, m.value) && forall f :: Rank(f) < Rank(m.value) ==> Has(c, f)
  {
    if c.deviceToken.None? then assert !Has(c, Token); Some(Token)
    else if c.variantID.None? then assert !Has(c, VariantID); Some(VariantID)
    else if c.variantSecret.None? then assert !Has(c, VariantSecret); Some(VariantSecret)
    else if c.serverURL.None? then assert !Has(c, ServerURL); Some(ServerURL)
    else None
  }

  /** The failure a missing field is reported with. */
  function MissingFieldError(f: RequiredField): (e: NSError)
    ensures e.domain == PushErrorDomain && e.code == 0 && e.description.Message?
    ensures e.description.text == "'" + FieldName(f) + "' should be set"
  {
    NSError(PushErrorDomain, 0, Message("'" + FieldName(f) + "' should be set"))
  }

  /** The name a missing field is reported under. */
  function FieldName(f: RequiredField): string
  {
    match f
    case Token => "token"
    case VariantID => "variantID"
    case VariantSecret => "variantSecret"
    case ServerURL => "serverURL"
  }

  /** Each missing field has a message of its own. */
  lemma MissingFieldErrorsDistinct(f: RequiredField, g: RequiredField)
    requires f != g
    ensures MissingFieldError(f) != MissingFieldError(g)
    ensures MissingFieldError(f).description != ConfigurationBlockNotSet.description
  {
    var mf, mg := MissingFieldError(f).description.text, MissingFieldError(g).description.text;
    assert mf[1] != mg[1] || mf[|mf| - 13] != mg[|mg| - 13] || |mf| != |mg|;
  }

  // ---- What a completed validation persists and sends ----

  /** The four keys written to the store once validation passes, before the request is sent. */
  function Persisted(before: map<string, StoredValue>, token: seq<byte>, variantID: string, variantSecret: string, url: Url): (after: map<string, StoredValue>)
    ensures after.Keys == before.Keys + {"deviceToken", "variantID", "variantSecret", "serverURL"}
    ensures DataForKey(after, "deviceToken") == Some(token)
    ensures StringForKey(after, "variantID") == Some(variantID)
    ensures StringForKey(after, "variantSecret") == Some(variantSecret)
    ensures StringForKey(after, "serverURL") == Some(url.absoluteString)
    ensures forall k :: k in before && k !in {"deviceToken", "variantID", "variantSecret", "serverURL"} ==> after[k] == before[k]
  {
    before["deviceToken" := StoredData(token)]["variantID" := StoredString(variantID)]
          ["variantSecret" := StoredString(variantSecret)]["serverURL" := StoredString(url.absoluteString)]
  }

  /** Which callback fires for the response to a sent registration. */
  function OutcomeOf(response: Response): (r: RegistrationOutcome)
    ensures r == Succeeded <==> response == Completed(200)
    ensures response.TransportFailed? ==> r == Failed(response.error)
    ensures response.Completed? && r.Failed? ==>
      r.error == NSError(PushErrorDomain, NSURLErrorBadServerResponse, StatusText(response.statusCode))
  {
    var e := Http.ResponseError(response, PushErrorDomain);
    if e.None? then Succeeded else Failed(e.value)
  }

  /**
   * What a registration does once its configuration block has run, given the
   * completed profile and server URL: on the first missing field, fail with
   * that field's error and touch nothing; otherwise persist the identity,
   * send a Basic-authenticated JSON POST to the registry endpoint, and end in
   * the callback the response selects.
   */
  predicate RegistrationSpec(
    filled: DeviceProfile, url: Option<Url>,
    before: map<string, StoredValue>, after: map<string, StoredValue>,
    response: Response, outcome: RegistrationOutcome, sent: Option<Request>)
  {
    var c := Candidate(filled.deviceToken, filled.variantID, filled.variantSecret, url);
    match FirstMissing(c)
    case Some(f) => outcome == Failed(MissingFieldError(f)) && sent.None? && after == before
    case None =>
      && after == Persisted(before, c.deviceToken.value, c.variantID.value, c.variantSecret.value, c.serverURL.value)
      && sent == Some(Request(
           "POST",
           AppendingPathComponent(c.serverURL.value, RegistryPath),
           map["Content-Type" := "application/json",
               "Authorization" := Http.BasicAuthorization(c.variantID.value, c.variantSecret.value)],
           Some(JsonBody(filled))))
      && outcome == OutcomeOf(response)
  }

  // ---- The redirect handler ----

  /**
   * `urlSession(_:task:willPerformHTTPRedirection:newRequest:completionHandler:)`:
   * the request handed back is the task's original request with only its
   * URL replaced by the proposed one, so a POST stays a POST with its
   * headers and body (the proposed request may have been turned into a GET).
   */
  function RedirectedRequest(original: Request, proposed: Request): (r: Request)
    ensures r.url == proposed.url
    ensures r.httpMethod == original.httpMethod && r.headers == original.headers && r.body == original.body
  {
    original.(url := proposed.url)
  }

  /**
   * The requests a server sees for one task whose redirects proposed the
   * given requests in turn: the original, then one rewritten request per hop.
   */
  function ObservedRequests(original: Request, proposals: seq<Request>): (rs: seq<Request>)
    ensures |rs| == |proposals| + 1
  {
    if proposals == [] then [original]
    else ObservedRequests(original, proposals[..|proposals| - 1]) + [RedirectedRequest(original, proposals[|proposals| - 1])]
  }

  /** Across any number of hops every request carries the original method, headers and body, and hop i goes where the i-th redirect pointed. */
  lemma {:induction false} RedirectsPreserveRequest(original: Request, proposals: seq<Request>, i: nat)
    requires i <= |proposals|
    ensures ObservedRequests(original, proposals)[i] ==
            original.(url := if i == 0 then original.url else proposals[i - 1].url)
  {
    if proposals != [] && i < |proposals| {
      RedirectsPreserveRequest(original, proposals[..|proposals| - 1], i);
    }
  }

  // ---- The registration object ----

  /** `DeviceRegistration`. The session is not modelled. */
  class DeviceRegistration {
    var serverURL: Option<Url>
    var config: Option<string>
    /** The caller's override map (the source spells the field with three r's). */
    var overrrideProperties: Option<map<string, string>>

    /** `init(serverURL:)` */
    constructor WithServerURL(url: Url)
      ensures serverURL == Some(url) && config.None? && overrrideProperties.None?
    {
      serverURL, config, overrrideProperties := Some(url), None, None;
    }

    /** `init(config:)`: the server URL then comes from the named plist. */
    constructor WithConfig(name: string)
      ensures serverURL.None? && config == Some(name) && overrrideProperties.None?
    {
      serverURL, config, overrrideProperties := None, Some(name), None;
    }

    /** `init()` */
    constructor ()
      ensures serverURL.None? && config.None? && overrrideProperties.None?
    {
      serverURL, config, overrrideProperties := None, None, None;
    }

    /** `override(pushProperties:)` */
    method Override(pushProperties: map<string, string>)
      modifies this
      ensures overrrideProperties == Some(pushProperties)
      ensures serverURL == old(serverURL) && config == old(config)
    {
      overrrideProperties := Some(pushProperties);
    }

    predicate OverrideHas(key: string)
      reads this
    {
      overrrideProperties.Some? && key in overrrideProperties.value
    }

    /**
     * A lookup that does not crash: when the override map does not answer
     * and a plist is named, the bundle has that plist (the source
     * force-unwraps its path).
     */
    predicate ConfigReadable(key: string, bundle: Bundle)
      reads this
    {
      OverrideHas(key) || config.None? || config.value in bundle.plists
    }

    /**
     * `configValueForKey(_:)`: the override map when it holds the key,
     * otherwise the named plist when there is one, otherwise the Info
     * dictionary; the empty string counts as no value.
     */
    function ConfigValueForKey(key: string, bundle: Bundle): (r: Option<string>)
      reads this
      requires ConfigReadable(key, bundle)
      ensures r.Some? ==> r.value != ""
      ensures OverrideHas(key) ==> r == NonEmpty(Some(overrrideProperties.value[key]))
      ensures !OverrideHas(key) && config.Some? ==>
        r == NonEmpty(var d := bundle.plists[config.value]; if d.Some? then PropertyString(d.value, key) else None)
      ensures !OverrideHas(key) && config.None? ==> r == NonEmpty(PropertyString(bundle.info, key))
    {
      var value :=
        if OverrideHas(key) then Some(overrrideProperties.value[key])
        else if config.Some? then
          (match bundle.plists[config.value]
           case Some(properties) => PropertyString(properties, key)
           case None => None)
        else PropertyString(bundle.info, key);
      NonEmpty(value)
    }

    /** The lookups a registration makes for a block result do not crash. */
    predicate LookupsReadable(p: DeviceProfile, bundle: Bundle)
      reads this
    {
      && (p.variantID.None? ==> ConfigReadable("variantID", bundle))
      && (p.variantSecret.None? ==> ConfigReadable("variantSecret", bundle))
      && (serverURL.None? ==> ConfigReadable("serverURL", bundle))
    }

    /** The server URL after gap filling: the field if set, otherwise the configured string parsed as a URL. */
    function ResolvedServerURL(bundle: Bundle): Option<Url>
      reads this
      requires serverURL.None? ==> ConfigReadable("serverURL", bundle)
    {
      if serverURL.Some? then serverURL
      else
        match ConfigValueForKey("serverURL", bundle)
        case Some(s) => ParseUrl(s)
        case None => None
    }

    /**
     * The profile after gap filling: what the block set wins; a nil variant
     * id or secret is taken from configuration, a nil token from the store.
     */
    function FilledProfile(p: DeviceProfile, bundle: Bundle, stored: map<string, StoredValue>): DeviceProfile
      reads this
      requires LookupsReadable(p, bundle)
    {
      p.(deviceToken := if p.deviceToken.Some? then p.deviceToken else DataForKey(stored, "deviceToken"),
         variantID := if p.variantID.Some? then p.variantID else ConfigValueForKey("variantID", bundle),
         variantSecret := if p.variantSecret.Some? then p.variantSecret else ConfigValueForKey("variantSecret", bundle))
    }

    /**
     * `register(clientInfo:success:failure:)`. `clientInfo` is what the
     * configuration block leaves in the fresh profile object (None for a nil
     * block); `response` is what the data task completes with. Returns the
     * callback that fires and the request handed to the session, if any.
     */
    method Register(clientInfo: Option<DeviceProfile>, bundle: Bundle, store: UserDefaults, response: Response)
      returns (outcome: RegistrationOutcome, sent: Option<Request>)
      requires clientInfo.Some? ==> LookupsReadable(clientInfo.value, bundle)
      modifies this, store
      ensures config == old(config) && overrrideProperties == old(overrrideProperties)
      ensures clientInfo.None? ==>
        && outcome == Failed(ConfigurationBlockNotSet) && sent.None?
        && serverURL == old(serverURL) && store.entries == old(store.entries)
      ensures clientInfo.Some? ==> serverURL == old(ResolvedServerURL(bundle))
      ensures clientInfo.Some? ==>
        RegistrationSpec(old(FilledProfile(clientInfo.value, bundle, store.entries)), serverURL,
                         old(store.entries), store.entries, response, outcome, sent)
    {
      if clientInfo.None? {
        outcome, sent := Failed(ConfigurationBlockNotSet), None;
        return;
      }
      ghost var filled := FilledProfile(clientInfo.value, bundle, store.entries);
      ghost var before := store.entries;
      ghost var c := Candidate(filled.deviceToken, filled.variantID, filled.variantSecret, ResolvedServerURL(bundle));
      var clientInfoObject := new ClientDeviceInformationImpl();
      clientInfoObject.Configure(clientInfo.value);
      FillGaps(clientInfoObject, bundle, store);

      // fail on the first mandatory field that is still nil
      if clientInfoObject.deviceToken.None? {
        assert FirstMissing(c) == Some(Token);
        outcome, sent := Failed(MissingFieldError(Token)), None;
        return;
      }
      if clientInfoObject.variantID.None? {
        assert FirstMissing(c) == Some(VariantID);
        outcome, sent := Failed(MissingFieldError(VariantID)), None;
        return;
      }
      if clientInfoObject.variantSecret.None? {
        assert FirstMissing(c) == Some(VariantSecret);
        outcome, sent := Failed(MissingFieldError(VariantSecret)), None;
        return;
      }
      if serverURL.None? {
        assert FirstMissing(c) == Some(ServerURL);
        outcome, sent := Failed(MissingFieldError(ServerURL)), None;
        return;
      }
      assert FirstMissing(c).None?;
      var deviceToken := clientInfoObject.deviceToken.value;
      var variantID := clientInfoObject.variantID.value;
      var variantSecret := clientInfoObject.variantSecret.value;
      var serverURLGuard := serverURL.value;

      // stored for later metrics, before anything is sent
      store.Set(StoredData(deviceToken), "deviceToken");
      store.Set(StoredString(variantID), "variantID");
      store.Set(StoredString(variantSecret), "variantSecret");
      store.Set(StoredString(serverURLGuard.absoluteString), "serverURL");
      assert store.entries == Persisted(before, deviceToken, variantID, variantSecret, serverURLGuard);

      var request := NewRequest(AppendingPathComponent(serverURLGuard, RegistryPath));
      request := SetValue(request, "application/json", "Content-Type");
      request := request.(httpMethod := "POST");
      request := SetValue(request, Http.BasicAuthorization(variantID, variantSecret), "Authorization");
      var postData := clientInfoObject.ExtractValues();
      request := request.(body := Some(postData));
      sent := Some(request);

      outcome := Completion(response);
    }

    /**
     * The gap filling of `register`: a nil variant id or secret is read from
     * configuration, a nil server URL field is set from the configured string,
     * and a nil token is read from the store.
     */
    method FillGaps(clientInfoObject: ClientDeviceInformationImpl, bundle: Bundle, store: UserDefaults)
      requires LookupsReadable(clientInfoObject.Profile(), bundle)
      modifies this, clientInfoObject
      ensures clientInfoObject.Profile() == old(FilledProfile(clientInfoObject.Profile(), bundle, store.entries))
      ensures serverURL == old(ResolvedServerURL(bundle))
      ensures config == old(config) && overrrideProperties == old(overrrideProperties)
    {
      // check if config is available
      if clientInfoObject.variantID.None? && ConfigValueForKey("variantID", bundle).Some? {
        clientInfoObject.variantID := ConfigValueForKey("variantID", bundle);
      }
      if clientInfoObject.variantSecret.None? && ConfigValueForKey("variantSecret", bundle).Some? {
        clientInfoObject.variantSecret := ConfigValueForKey("variantSecret", bundle);
      }
      if serverURL.None? && ConfigValueForKey("serverURL", bundle).Some? {
        serverURL := ParseUrl(ConfigValueForKey("serverURL", bundle).value);
      }
      // a nil token falls back to the one stored by an earlier registration
      if clientInfoObject.deviceToken.None? {
        clientInfoObject.deviceToken := DataForKey(store.entries, "deviceToken");
      }
    }

    /** The completion handler of the registration task: which callback fires. */
    method Completion(response: Response) returns (outcome: RegistrationOutcome)
      ensures outcome == OutcomeOf(response)
    {
      match response
      case TransportFailed(error) =>
        outcome := Failed(error);
      case Completed(statusCode) =>
        if statusCode == 200 {
          outcome := Succeeded;
        } else {
          outcome := Failed(NSError(PushErrorDomain, NSURLErrorBadServerResponse, StatusText(statusCode)));
        }
    }
  }

  /** An empty string is no value. */
  function NonEmpty(value: Option<string>): (r: Option<string>)
  {
    if value.None? || value.value == "" then None else value
  }
}

/** Properties of registration, stated over the model above. */
module RegistrationProperties {
  import opened Wrappers
  import opened Foundation
  import opened ClientDeviceInformation
  import opened Registration
  import Http

  // ---- configValueForKey ----

  /** An override entry decides the value alone: plist and Info dictionary are never consulted. */
  lemma OverrideDecides(reg: DeviceRegistration, key: string, b1: Bundle, b2: Bundle)
    requires reg.OverrideHas(key)
    ensures reg.ConfigValueForKey(key, b1) == reg.ConfigValueForKey(key, b2)
    ensures reg.overrrideProperties.value[key] != "" ==> reg.ConfigValueForKey(key, b1) == Some(reg.overrrideProperties.value[key])
    ensures reg.overrrideProperties.value[key] == "" ==> reg.ConfigValueForKey(key, b1).None?
  {
  }

  /** With no override entry and a plist named, only that plist matters: the Info dictionary is never consulted. */
  lemma PlistShadowsInfo(reg: DeviceRegistration, key: string, b1: Bundle, b2: Bundle)
    requires !reg.OverrideHas(key) && reg.config.Some?
    requires reg.config.value in b1.plists && b1.plists == b2.plists
    ensures reg.ConfigValueForKey(key, b1) == reg.ConfigValueForKey(key, b2)
  {
  }

  /** With no override entry and no plist named, the Info dictionary's string is the value, unless empty. */
  lemma InfoDictionaryLast(reg: DeviceRegistration, key: string, bundle: Bundle, v: string)
    requires !reg.OverrideHas(key) && reg.config.None?
    requires key in bundle.info && bundle.info[key] == PString(v)
    ensures reg.ConfigValueForKey(key, bundle) == if v == "" then None else Some(v)
  {
  }

  // ---- gap filling ----

  /**
   * What the configuration block set is kept; only its nil variant id,
   * variant secret and token are filled, from configuration and from the
   * store; the metadata fields pass through.
   */
  lemma BlockValuesWin(reg: DeviceRegistration, p: DeviceProfile, bundle: Bundle, stored: map<string, StoredValue>)
    requires reg.LookupsReadable(p, bundle)
    ensures var f := reg.FilledProfile(p, bundle, stored);
      && (p.variantID.Some? ==> f.variantID == p.variantID)
      && (p.variantID.None? ==> f.variantID == reg.ConfigValueForKey("variantID", bundle))
      && (p.variantSecret.Some? ==> f.variantSecret == p.variantSecret)
      && (p.variantSecret.None? ==> f.variantSecret == reg.ConfigValueForKey("variantSecret", bundle))
      && (p.deviceToken.Some? ==> f.deviceToken == p.deviceToken)
      && (p.deviceToken.None? && "deviceToken" in stored && stored["deviceToken"].StoredData? ==>
            f.deviceToken == Some(stored["deviceToken"].bytes))
      && (f.deviceToken.None? ==> p.deviceToken.None? && !("deviceToken" in stored && stored["deviceToken"].StoredData?))
      && f.alias == p.alias && f.categories == p.categories && f.operatingSystem == p.operatingSystem
      && f.osVersion == p.osVersion && f.deviceType == p.deviceType
  {
  }

  /** A server URL already held by the object wins over every configuration source, the override map included. */
  lemma InstanceURLWins(reg: DeviceRegistration, bundle: Bundle)
    requires reg.serverURL.Some?
    ensures reg.ResolvedServerURL(bundle) == reg.serverURL
  {
  }

  // ---- after the block ----

  /** A failed check sends nothing and leaves the store as it was. */
  lemma ValidationFailureLeavesNoTrace(
    filled: DeviceProfile, url: Option<Url>, before: map<string, StoredValue>, after: map<string, StoredValue>,
    response: Response, outcome: RegistrationOutcome, sent: Option<Request>)
    requires RegistrationSpec(filled, url, before, after, response, outcome, sent)
    requires filled.deviceToken.None? || filled.variantID.None? || filled.variantSecret.None? || url.None?
    ensures sent.None? && after == before && outcome.Failed?
    ensures outcome.error.domain == PushErrorDomain && outcome.error.code == 0
  {
    var c := Candidate(filled.deviceToken, filled.variantID, filled.variantSecret, url);
    assert !Has(c, Token) || !Has(c, VariantID) || !Has(c, VariantSecret) || !Has(c, ServerURL);
  }

  /** A request is sent exactly when every mandatory field is present. */
  lemma SentIffComplete(
    filled: DeviceProfile, url: Option<Url>, before: map<string, StoredValue>, after: map<string, StoredValue>,
    response: Response, outcome: RegistrationOutcome, sent: Option<Request>)
    requires RegistrationSpec(filled, url, before, after, response, outcome, sent)
    ensures sent.Some? <==>
      filled.deviceToken.Some? && filled.variantID.Some? && filled.variantSecret.Some? && url.Some?
  {
    var c := Candidate(filled.deviceToken, filled.variantID, filled.variantSecret, url);
    if sent.Some? {
      assert forall f :: Has(c, f);
      assert Has(c, Token) && Has(c, VariantID) && Has(c, VariantSecret) && Has(c, ServerURL);
    }
  }

  /** `success` fires exactly when the request went out and the server answered 200. */
  lemma SucceedsIff(
    filled: DeviceProfile, url: Option<Url>, before: map<string, StoredValue>, after: map<string, StoredValue>,
    response: Response, outcome: RegistrationOutcome, sent: Option<Request>)
    requires RegistrationSpec(filled, url, before, after, response, outcome, sent)
    ensures outcome == Succeeded <==> sent.Some? && response == Completed(200)
  {
    var c := Candidate(filled.deviceToken, filled.variantID, filled.variantSecret, url);
    if FirstMissing(c).Some? {
      assert outcome.Failed?;
    }
  }

  /**
   * The identity is written before the request is sent, so what is stored
   * does not depend on how the server answers.
   */
  lemma PersistedWhateverTheResponse(
    filled: DeviceProfile, url: Option<Url>, before: map<string, StoredValue>,
    after1: map<string, StoredValue>, response1: Response, outcome1: RegistrationOutcome, sent1: Option<Request>,
    after2: map<string, StoredValue>, response2: Response, outcome2: RegistrationOutcome, sent2: Option<Request>)
    requires RegistrationSpec(filled, url, before, after1, response1, outcome1, sent1)
    requires RegistrationSpec(filled, url, before, after2, response2, outcome2, sent2)
    ensures after1 == after2 && sent1 == sent2
  {
  }

  /**
   * Validation asks only whether a value is there, not whether it is empty:
   * an empty token, variant id and secret set by the configuration block are
   * persisted and sent as they are (only configured values treat `""` as
   * absent).
   */
  lemma EmptyValuesPassValidation(
    filled: DeviceProfile, url: Option<Url>, before: map<string, StoredValue>, after: map<string, StoredValue>,
    response: Response, outcome: RegistrationOutcome, sent: Option<Request>)
    requires RegistrationSpec(filled, url, before, after, response, outcome, sent)
    requires filled.deviceToken == Some([]) && filled.variantID == Some("") && filled.variantSecret == Some("")
    requires url.Some?
    ensures sent.Some? && outcome == OutcomeOf(response)
    ensures sent.value.headers["Authorization"] == Http.BasicAuthorization("", "")
    ensures sent.value.body.Some? && sent.value.body.value["deviceToken"] == JString("")
    ensures StringForKey(after, "variantID") == Some("") && DataForKey(after, "deviceToken") == Some([])
  {
    var c := Candidate(filled.deviceToken, filled.variantID, filled.variantSecret, url);
    assert Has(c, Token) && Has(c, VariantID) && Has(c, VariantSecret) && Has(c, ServerURL);
    assert FirstMissing(c).None?;
  }

  /**
   * The wire shape of a sent registration: a JSON POST to
   * `…/rest/registry/device` whose `Authorization` header gives back the
   * variant id and secret, and whose body gives back the device token.
   */
  lemma RegistrationRequestShape(
    filled: DeviceProfile, url: Option<Url>, before: map<string, StoredValue>, after: map<string, StoredValue>,
    response: Response, outcome: RegistrationOutcome, sent: Option<Request>)
    requires RegistrationSpec(filled, url, before, after, response, outcome, sent)
    requires sent.Some?
    ensures var r := sent.value;
      && r.httpMethod == "POST"
      && url.Some? && r.url.absoluteString[..|url.value.absoluteString|] == url.value.absoluteString
      && r.url.absoluteString[|r.url.absoluteString| - |RegistryPath| - 1..] == "/" + RegistryPath
      && r.headers.Keys == {"Content-Type", "Authorization"}
      && r.headers["Content-Type"] == "application/json"
      && (':' !in filled.variantID.value ==>
            Http.ParseBasicAuthorization(r.headers["Authorization"]) == Some((filled.variantID.value, filled.variantSecret.value)))
      && r.body.Some? && "deviceToken" in r.body.value
      && HexDecode(r.body.value["deviceToken"].text) == Some(filled.deviceToken.value)
  {
    SentIffComplete(filled, url, before, after, response, outcome, sent);
    var id, secret := filled.variantID.value, filled.variantSecret.value;
    var c := Candidate(filled.deviceToken, filled.variantID, filled.variantSecret, url);
    assert Has(c, Token) && Has(c, VariantID) && Has(c, VariantSecret) && Has(c, ServerURL);
    assert FirstMissing(c).None?;
    var headers := map["Content-Type" := "application/json", "Authorization" := Http.BasicAuthorization(id, secret)];
    assert sent.value == Request("POST", AppendingPathComponent(url.value, RegistryPath), headers, Some(JsonBody(filled)));
    if ':' !in id {
      Http.BasicAuthorizationRecoverable(id, secret);
    }
    HexRoundTrip(filled.deviceToken.value);
  }
}
