/**
 * `PushAnalytics`: after a push notification opens the app, tell the server
 * which message did it with an authenticated PUT, using the identity that a
 * successful registration left in the store.
 */
module PushAnalytics {
  import opened Wrappers
  import opened Foundation
  import Http

  const AnalyticsErrorDomain: string := "PushAnalyticsErrorDomain"

  /** The payload key that carries the message id. */
  const PushIdKey: string := "aerogear-push-id"

  /** `UIApplicationLaunchOptionsKey.remoteNotification` */
  const RemoteNotificationKey: string := "UIApplicationLaunchOptionsRemoteNotificationKey"

  /** The error handed to the completion when no identity is stored. */
  const NotRegisteredError: NSError :=
    NSError(AnalyticsErrorDomain, 0, Message("Registration should be done prior to metrics collection"))

  /** The path the metrics for one message are put to, relative to the server URL. */
  function MetricsPath(messageId: string): string
  {
    "rest/registry/device/pushMessage/" + messageId
  }

  /** `UIApplicationState` */
  datatype ApplicationState = Active | Inactive | Background

  /** A value of a notification payload; `PayloadOther` is anything that is not a string. */
  datatype PayloadValue = PayloadString(text: string) | PayloadOther

  /** A launch-options value: a dictionary (the notification payload) or anything else. */
  datatype LaunchOption = NotificationPayload(entries: map<string, PayloadValue>) | OtherOption

  /** What a hook does with its completion handler: never call it, or call it once with an optional error. */
  datatype Completion = NotCalled | Called(error: Option<NSError>)

  /** A stored identity: variant id, variant secret and server URL text. */
  datatype Identity = Identity(variantID: string, variantSecret: string, urlString: string)

  /**
   * The three stored strings metrics needs, present only when all three
   * are; nothing else in the store is looked at.
   */
  function ReadIdentity(entries: map<string, StoredValue>): (r: Option<Identity>)
    ensures r.Some? <==>
      StringForKey(entries, "variantID").Some? && StringForKey(entries, "variantSecret").Some?
      && StringForKey(entries, "serverURL").Some?
    ensures r.Some? ==>
      && entries["variantID"] == StoredString(r.value.variantID)
      && entries["variantSecret"] == StoredString(r.value.variantSecret)
      && entries["serverURL"] == StoredString(r.value.urlString)
  {
    var variantId := StringForKey(entries, "variantID");
    var variantSecret := StringForKey(entries, "variantSecret");
    var urlString := StringForKey(entries, "serverURL");
    if variantId.Some? && variantSecret.Some? && urlString.Some? then
      Some(Identity(variantId.value, variantSecret.value, urlString.value))
    else None
  }

  /** What the store must satisfy for metrics not to trap: a stored server URL is a URL. */
  predicate UrlReadable(entries: map<string, StoredValue>)
  {
    ReadIdentity(entries).Some? ==> ParseUrl(ReadIdentity(entries).value.urlString).Some?
  }

  /**
   * What sending metrics for `messageId` does, given the store and what the
   * server answers: with no identity stored, the not-registered error and no
   * request; otherwise a PUT to the message's metrics path under the stored
   * server URL, authenticated with the stored variant, and the completion
   * error read from the response.
   */
  ghost predicate MetricsSpec(
    messageId: string, entries: map<string, StoredValue>, response: Response,
    error: Option<NSError>, sent: Option<Request>)
  {
    match ReadIdentity(entries)
    case None => error == Some(NotRegisteredError) && sent.None?
    case Some(id) =>
      match ParseUrl(id.urlString)
      case None => false
      case Some(serverURL) =>
        && sent == Some(Request(
             "PUT",
             AppendingPathComponent(serverURL, MetricsPath(messageId)),
             map["Content-Type" := "application/json",
                 "Authorization" := Http.BasicAuthorization(id.variantID, id.variantSecret)],
             None))
        && error == Http.ResponseError(response, AnalyticsErrorDomain)
  }

  /**
   * `sendMetrics(_:completionHandler:)`: reads the three keys, then either
   * reports that registration is missing or builds the request step by step
   * and reads the completion from the response. The store is only read.
   */
  method SendMetrics(messageId: string, store: UserDefaults, response: Response)
    returns (error: Option<NSError>, sent: Option<Request>)
    requires UrlReadable(store.entries)
    ensures MetricsSpec(messageId, store.entries, response, error, sent)
  {
    var variantId := StringForKey(store.entries, "variantID");
    var variantSecret := StringForKey(store.entries, "variantSecret");
    var urlString := StringForKey(store.entries, "serverURL");
    if variantId.Some? && variantSecret.Some? && urlString.Some? {
      var serverURL := ParseUrl(urlString.value);
      var request := NewRequest(AppendingPathComponent(serverURL.value, MetricsPath(messageId)));
      request := SetValue(request, "application/json", "Content-Type");
      request := request.(httpMethod := "PUT");
      var header := Http.BasicAuthorization(variantId.value, variantSecret.value);
      request := SetValue(request, header, "Authorization");
      sent := Some(request);
      match response
      case TransportFailed(e) =>
        error := Some(e);
      case Completed(statusCode) =>
        if statusCode == 200 {
          error := None;
        } else {
          error := Some(NSError(AnalyticsErrorDomain, NSURLErrorBadServerResponse, StatusText(statusCode)));
        }
    } else {
      error := Some(NotRegisteredError);
      sent := None;
    }
  }

  // ---- the two hooks ----

  /** The message id the launch options carry, if they hold a notification dictionary with a string id. */
  function LaunchMessageId(launchOptions: Option<map<string, LaunchOption>>): (r: Option<string>)
    ensures r.Some? <==>
      && launchOptions.Some? && RemoteNotificationKey in launchOptions.value
      && launchOptions.value[RemoteNotificationKey].NotificationPayload?
      && PushIdKey in launchOptions.value[RemoteNotificationKey].entries
      && launchOptions.value[RemoteNotificationKey].entries[PushIdKey].PayloadString?
    ensures r.Some? ==> launchOptions.value[RemoteNotificationKey].entries[PushIdKey] == PayloadString(r.value)
  {
    if launchOptions.None? then None
    else if RemoteNotificationKey !in launchOptions.value then None
    else
      match launchOptions.value[RemoteNotificationKey]
      case OtherOption => None
      case NotificationPayload(option) =>
        if PushIdKey in option && option[PushIdKey].PayloadString? then Some(option[PushIdKey].text) else None
  }

  /** The message id a wake-up sends metrics for: only when the app was inactive or in the background. */
  function AwokenMessageId(applicationState: ApplicationState, userInfo: map<string, PayloadValue>): (r: Option<string>)
    ensures r.Some? <==>
      applicationState != Active && PushIdKey in userInfo && userInfo[PushIdKey].PayloadString?
    ensures r.Some? ==> userInfo[PushIdKey] == PayloadString(r.value)
  {
    if applicationState == Inactive || applicationState == Background then
      if PushIdKey in userInfo && userInfo[PushIdKey].PayloadString? then Some(userInfo[PushIdKey].text) else None
    else
      assert applicationState == Active;
      None
  }

  /** A hook: nothing at all without a message id, otherwise exactly what sending metrics for it does. */
  ghost predicate HookSpec(
    messageId: Option<string>, entries: map<string, StoredValue>, response: Response,
    completion: Completion, sent: Option<Request>)
  {
    match messageId
    case None => completion == NotCalled && sent.None?
    case Some(id) => completion.Called? && MetricsSpec(id, entries, response, completion.error, sent)
  }

  /** `sendMetricsWhenAppLaunched(launchOptions:completionHandler:)` */
  method SendMetricsWhenAppLaunched(
    launchOptions: Option<map<string, LaunchOption>>, store: UserDefaults, response: Response)
    returns (completion: Completion, sent: Option<Request>)
    requires LaunchMessageId(launchOptions).Some? ==> UrlReadable(store.entries)
    ensures HookSpec(LaunchMessageId(launchOptions), store.entries, response, completion, sent)
  {
    completion, sent := NotCalled, None;
    if launchOptions.Some? && RemoteNotificationKey in launchOptions.value {
      match launchOptions.value[RemoteNotificationKey]
      case OtherOption =>
      case NotificationPayload(option) =>
        if PushIdKey in option && option[PushIdKey].PayloadString? {
          var error;
          error, sent := SendMetrics(option[PushIdKey].text, store, response);
          completion := Called(error);
        }
    }
  }

  /** `sendMetricsWhenAppAwoken(applicationState:userInfo:completionHandler:)` */
  method SendMetricsWhenAppAwoken(
    applicationState: ApplicationState, userInfo: map<string, PayloadValue>, store: UserDefaults, response: Response)
    returns (completion: Completion, sent: Option<Request>)
    requires AwokenMessageId(applicationState, userInfo).Some? ==> UrlReadable(store.entries)
    ensures HookSpec(AwokenMessageId(applicationState, userInfo), store.entries, response, completion, sent)
  {
    completion, sent := NotCalled, None;
    if applicationState == Inactive || applicationState == Background {
      if PushIdKey in userInfo && userInfo[PushIdKey].PayloadString? {
        var error;
        error, sent := SendMetrics(userInfo[PushIdKey].text, store, response);
        completion := Called(error);
      }
    }
  }

  // ---- properties ----

  /** A request goes out exactly when an identity is stored; without one the completion gets the not-registered error. */
  lemma NotRegisteredIff(
    messageId: string, entries: map<string, StoredValue>, response: Response,
    error: Option<NSError>, sent: Option<Request>)
    requires MetricsSpec(messageId, entries, response, error, sent)
    ensures sent.None? <==> ReadIdentity(entries).None?
    ensures sent.None? ==> error == Some(NotRegisteredError) && error.value.code == 0
  {
  }

  /** The completion gets no error exactly when the request went out and the server answered 200. */
  lemma MetricsSucceedsIff(
    messageId: string, entries: map<string, StoredValue>, response: Response,
    error: Option<NSError>, sent: Option<Request>)
    requires MetricsSpec(messageId, entries, response, error, sent)
    ensures error.None? <==> sent.Some? && response == Completed(200)
    ensures sent.Some? && response.TransportFailed? ==> error == Some(response.error)
    ensures sent.Some? && response.Completed? && response.statusCode != 200 ==>
      error.value.domain == AnalyticsErrorDomain && error.value.code == NSURLErrorBadServerResponse
  {
  }

  /**
   * Only the three identity keys are read: two stores that agree on them
   * (whatever else they hold, a persisted device token included) give the
   * same request and the same completion.
   */
  lemma MetricsReadsOnlyIdentity(
    messageId: string, response: Response,
    entries1: map<string, StoredValue>, error1: Option<NSError>, sent1: Option<Request>,
    entries2: map<string, StoredValue>, error2: Option<NSError>, sent2: Option<Request>)
    requires forall k :: k in {"variantID", "variantSecret", "serverURL"} ==>
      (k in entries1 <==> k in entries2) && (k in entries1 ==> entries1[k] == entries2[k])
    requires MetricsSpec(messageId, entries1, response, error1, sent1)
    requires MetricsSpec(messageId, entries2, response, error2, sent2)
    ensures error1 == error2 && sent1 == sent2
  {
    assert "variantID" in {"variantID", "variantSecret", "serverURL"};
    assert "variantSecret" in {"variantID", "variantSecret", "serverURL"};
    assert "serverURL" in {"variantID", "variantSecret", "serverURL"};
    assert ReadIdentity(entries1) == ReadIdentity(entries2);
  }

  /**
   * The wire shape of a metrics request: a bodiless JSON PUT to
   * `…/rest/registry/device/pushMessage/<id>` under the stored server URL,
   * whose `Authorization` header gives back the stored variant id and secret.
   */
  lemma MetricsRequestShape(
    messageId: string, entries: map<string, StoredValue>, response: Response,
    error: Option<NSError>, sent: Option<Request>)
    requires MetricsSpec(messageId, entries, response, error, sent)
    requires sent.Some?
    ensures var id := ReadIdentity(entries);
      var r := sent.value;
      var u := r.url.absoluteString;
      && id.Some?
      && r.httpMethod == "PUT" && r.body.None?
      && |id.value.urlString| <= |u| && u[..|id.value.urlString|] == id.value.urlString
      && u[|u| - |MetricsPath(messageId)| - 1..] == "/" + MetricsPath(messageId)
      && r.headers.Keys == {"Content-Type", "Authorization"}
      && r.headers["Content-Type"] == "application/json"
      && (':' !in id.value.variantID ==>
            Http.ParseBasicAuthorization(r.headers["Authorization"]) == Some((id.value.variantID, id.value.variantSecret)))
  {
    var id := ReadIdentity(entries).value;
    var serverURL := ParseUrl(id.urlString).value;
    assert serverURL.absoluteString == id.urlString;
    var headers := map["Content-Type" := "application/json",
                       "Authorization" := Http.BasicAuthorization(id.variantID, id.variantSecret)];
    assert sent.value == Request("PUT", AppendingPathComponent(serverURL, MetricsPath(messageId)), headers, None);
    if ':' !in id.variantID {
      Http.BasicAuthorizationRecoverable(id.variantID, id.variantSecret);
    }
  }

  /** Different message ids are put to different URLs. */
  lemma MetricsPathInjective(entries: map<string, StoredValue>, response: Response,
    id1: string, error1: Option<NSError>, sent1: Option<Request>,
    id2: string, error2: Option<NSError>, sent2: Option<Request>)
    requires MetricsSpec(id1, entries, response, error1, sent1)
    requires MetricsSpec(id2, entries, response, error2, sent2)
    requires sent1.Some? && sent2.Some? && sent1.value.url == sent2.value.url
    ensures id1 == id2
  {
    var u := ParseUrl(ReadIdentity(entries).value.urlString).value;
    var r1 := AppendingPathComponent(u, MetricsPath(id1)).absoluteString;
    var r2 := AppendingPathComponent(u, MetricsPath(id2)).absoluteString;
    var prefix := "rest/registry/device/pushMessage/";
    assert r1 == r2;
    assert |r1| - |MetricsPath(id1)| == |r2| - |MetricsPath(id2)|;
    assert MetricsPath(id1) == r1[|r1| - |MetricsPath(id1)|..];
    assert MetricsPath(id2) == r2[|r2| - |MetricsPath(id2)|..];
    assert id1 == MetricsPath(id1)[|prefix|..];
    assert id2 == MetricsPath(id2)[|prefix|..];
  }

  /** The launch hook sends for exactly the id of the notification it was launched by. */
  lemma LaunchSendsForItsId(
    launchOptions: Option<map<string, LaunchOption>>, entries: map<string, StoredValue>, response: Response,
    completion: Completion, sent: Option<Request>, payload: map<string, PayloadValue>, messageId: string)
    requires launchOptions.Some? && RemoteNotificationKey in launchOptions.value
    requires launchOptions.value[RemoteNotificationKey] == NotificationPayload(payload)
    requires PushIdKey in payload && payload[PushIdKey] == PayloadString(messageId)
    requires HookSpec(LaunchMessageId(launchOptions), entries, response, completion, sent)
    ensures completion.Called?
    ensures MetricsSpec(messageId, entries, response, completion.error, sent)
  {
  }

  /** Woken while active, the app reports nothing and never calls the completion. */
  lemma ActiveWakeDoesNothing(
    userInfo: map<string, PayloadValue>, entries: map<string, StoredValue>, response: Response,
    completion: Completion, sent: Option<Request>)
    requires HookSpec(AwokenMessageId(Active, userInfo), entries, response, completion, sent)
    ensures completion == NotCalled && sent.None?
  {
  }

  /** The launch options of a notification carrying message `123456`. */
  const ExampleLaunch: Option<map<string, LaunchOption>> :=
    Some(map[RemoteNotificationKey := NotificationPayload(map[PushIdKey := PayloadString("123456")])])

  /**
   * A launch for message `123456` with a variant of `http://server.com`
   * stored (the variant id and secret are left open), answered 200,
   * completes with no error.
   */
  lemma LaunchRegisteredExample(variantID: string, variantSecret: string, completion: Completion, sent: Option<Request>)
    requires HookSpec(
      LaunchMessageId(ExampleLaunch),
      map["variantID" := StoredString(variantID), "variantSecret" := StoredString(variantSecret),
          "serverURL" := StoredString("http://server.com")],
      Completed(200), completion, sent)
    ensures completion == Called(None)
    ensures sent.Some? && sent.value.httpMethod == "PUT"
    ensures sent.value.url == Url("http://server.com/" + MetricsPath("123456"))
  {
    var entries := map["variantID" := StoredString(variantID), "variantSecret" := StoredString(variantSecret),
                       "serverURL" := StoredString("http://server.com")];
    LaunchSendsForItsId(ExampleLaunch, entries, Completed(200), completion, sent,
                        map[PushIdKey := PayloadString("123456")], "123456");
    ExampleMetrics(variantID, variantSecret, entries, completion.error, sent);
  }

  /** Metrics for `123456` against a variant of `http://server.com`, answered 200. */
  lemma ExampleMetrics(variantID: string, variantSecret: string, entries: map<string, StoredValue>,
    error: Option<NSError>, sent: Option<Request>)
    requires entries == map["variantID" := StoredString(variantID), "variantSecret" := StoredString(variantSecret),
                            "serverURL" := StoredString("http://server.com")]
    requires MetricsSpec("123456", entries, Completed(200), error, sent)
    ensures error == None
    ensures sent.Some? && sent.value.httpMethod == "PUT"
    ensures sent.value.url == Url("http://server.com/" + MetricsPath("123456"))
  {
    assert ReadIdentity(entries) == Some(Identity(variantID, variantSecret, "http://server.com"));
    ExampleUrlParses();
    ExampleMetricsUrl();
  }

  lemma ExampleMetricsUrl()
    ensures AppendingPathComponent(Url("http://server.com"), MetricsPath("123456")).absoluteString
      == "http://server.com/" + MetricsPath("123456")
  {
    var s, c := "http://server.com", MetricsPath("123456");
    assert s[|s| - 1] == 'm';
    assert AppendingPathComponent(Url(s), c) == Url(s + "/" + c);
    assert s + "/" == "http://server.com/";
  }

  lemma ExampleUrlParses()
    ensures ParseUrl("http://server.com") == Some(Url("http://server.com"))
  {
    var s := "http://server.com";
    forall i | 0 <= i < |s|
      ensures IsUrlChar(s[i])
    {
    }
  }

  /** The same launch with nothing stored completes with the not-registered error and sends nothing. */
  lemma LaunchUnregisteredExample(completion: Completion, sent: Option<Request>)
    requires HookSpec(LaunchMessageId(ExampleLaunch), map[], Completed(200), completion, sent)
    ensures completion == Called(Some(NotRegisteredError)) && sent.None?
  {
    assert LaunchMessageId(ExampleLaunch) == Some("123456");
  }
}

/** How a registration and later metrics fit together through the store. */
module RegistrationThenMetrics {
  import opened Wrappers
  import opened Foundation
  import opened ClientDeviceInformation
  import opened Registration
  import opened RegistrationProperties
  import opened PushAnalytics

  /**
   * A registration that sent its request leaves behind exactly the identity
   * metrics needs, whatever the server answered: metrics then goes out, to
   * the registered server, with the same `Authorization` header the
   * registration carried.
   */
  lemma RegistrationEnablesMetrics(
    filled: DeviceProfile, url: Option<Url>, before: map<string, StoredValue>, after: map<string, StoredValue>,
    response: Response, outcome: RegistrationOutcome, sent: Option<Request>,
    messageId: string, metricsResponse: Response, metricsError: Option<NSError>, metricsSent: Option<Request>)
    requires RegistrationSpec(filled, url, before, after, response, outcome, sent)
    requires sent.Some?
    requires url.Some? && ParseUrl(url.value.absoluteString) == Some(url.value)
    requires MetricsSpec(messageId, after, metricsResponse, metricsError, metricsSent)
    ensures ReadIdentity(after) == Some(Identity(filled.variantID.value, filled.variantSecret.value, url.value.absoluteString))
    ensures metricsSent.Some?
    ensures metricsSent.value.url == AppendingPathComponent(url.value, MetricsPath(messageId))
    ensures metricsSent.value.headers["Authorization"] == sent.value.headers["Authorization"]
  {
    SentIffComplete(filled, url, before, after, response, outcome, sent);
    var c := Candidate(filled.deviceToken, filled.variantID, filled.variantSecret, url);
    assert Has(c, Token) && Has(c, VariantID) && Has(c, VariantSecret) && Has(c, ServerURL);
    assert FirstMissing(c).None?;
    assert after == Persisted(before, filled.deviceToken.value, filled.variantID.value, filled.variantSecret.value, url.value);
    assert after["variantID"] == StoredString(filled.variantID.value);
    assert after["variantSecret"] == StoredString(filled.variantSecret.value);
    assert after["serverURL"] == StoredString(url.value.absoluteString);
  }
}
