/** The optional value used throughout the model, standing for Swift's `T?`. */
module Wrappers {

  datatype Option<+T> = None | Some(value: T)
}

/**
 * Values of the platform types the push client works with: bytes, URLs,
 * requests, responses, errors, the user-defaults store and the app bundle.
 * Only what the client observes of them is kept.
 */
module Foundation {
  import opened Wrappers

  /** An element of `Data`. */
  type byte = b: int | 0 <= b < 256

  /** A URL, identified by its `absoluteString`. */
  datatype Url = Url(absoluteString: string)

  /** A character that may appear in a URL string (section 2 of RFC 3986, plus `%` for escapes). */
  predicate IsUrlChar(c: char)
  {
    ('a' <= c <= 'z') || ('A' <= c <= 'Z') || ('0' <= c <= '9') || c in "-._~:/?#[]@!$&'()*+,;=%"
  }

  /** `URL(string:)`: no URL for the empty string or for a string with a character a URL cannot hold. */
  function ParseUrl(s: string): (r: Option<Url>)
    ensures r.Some? <==> s != [] && forall i :: 0 <= i < |s| ==> IsUrlChar(s[i])
    ensures r.Some? ==> r.value.absoluteString == s
  {
    if s != [] && forall i :: 0 <= i < |s| ==> IsUrlChar(s[i]) then Some(Url(s)) else None
  }

  /** `URL.appendingPathComponent(_:)`: one `/` separates the URL from the new component. */
  function AppendingPathComponent(u: Url, component: string): (r: Url)
    ensures |u.absoluteString| <= |r.absoluteString| && |component| < |r.absoluteString|
    ensures r.absoluteString[..|u.absoluteString|] == u.absoluteString
    ensures r.absoluteString[|r.absoluteString| - |component| - 1..] == "/" + component
  {
    var s := u.absoluteString;
    if s != [] && s[|s| - 1] == '/' then Url(s + component) else Url(s + "/" + component)
  }

  /** What `NSError.localizedDescription` is made of here: a fixed message, or the text for a status code. */
  datatype ErrorDescription = Message(text: string) | StatusText(statusCode: int)

  datatype NSError = NSError(domain: string, code: int, description: ErrorDescription)

  /** Foundation's `NSURLErrorBadServerResponse`. */
  const NSURLErrorBadServerResponse: int := -1011

  /** A value of the JSON object the registration body is serialised from. */
  datatype JsonValue = JString(text: string) | JStringArray(items: seq<string>)

  /** A `URLRequest`: method, URL, header fields and body. */
  datatype Request = Request(
    httpMethod: string,
    url: Url,
    headers: map<string, string>,
    body: Option<map<string, JsonValue>>)

  /** `URLRequest(url:)`: a GET with no header and no body. */
  function NewRequest(url: Url): (r: Request)
    ensures r.url == url && r.httpMethod == "GET"
    ensures r.headers == map[] && r.body.None?
  {
    Request("GET", url, map[], None)
  }

  /** `URLRequest.setValue(_:forHTTPHeaderField:)`. */
  function SetValue(r: Request, value: string, field: string): (r': Request)
    ensures r'.headers.Keys == r.headers.Keys + {field} && r'.headers[field] == value
    ensures forall f :: f in r.headers && f != field ==> r'.headers[f] == r.headers[f]
    ensures r'.httpMethod == r.httpMethod && r'.url == r.url && r'.body == r.body
  {
    r.(headers := r.headers[field := value])
  }

  /**
   * What a data task's completion handler receives for the request it sent
   * (after any redirects): a transport error, or an HTTP response.
   */
  datatype Response = TransportFailed(error: NSError) | Completed(statusCode: int)

  /** A value held by `UserDefaults`; `Other` is any property-list object that is neither `Data` nor `String`. */
  datatype StoredValue = StoredData(bytes: seq<byte>) | StoredString(text: string) | Other

  /** `UserDefaults.standard`: a key-value store that outlives the process. */
  class UserDefaults {
    var entries: map<string, StoredValue>

    /** `set(_:forKey:)` */
    method Set(value: StoredValue, key: string)
      modifies this
      ensures entries == old(entries)[key := value]
    {
      entries := entries[key := value];
    }
  }

  /** `object(forKey:) as? Data` on the entries of a store. */
  function DataForKey(entries: map<string, StoredValue>, key: string): (r: Option<seq<byte>>)
    ensures r.Some? <==> key in entries && entries[key].StoredData?
    ensures r.Some? ==> entries[key] == StoredData(r.value)
  {
    if key in entries && entries[key].StoredData? then Some(entries[key].bytes) else None
  }

  /** `value(forKey:) as? String` on the entries of a store. */
  function StringForKey(entries: map<string, StoredValue>, key: string): (r: Option<string>)
    ensures r.Some? <==> key in entries && entries[key].StoredString?
    ensures r.Some? ==> entries[key] == StoredString(r.value)
  {
    if key in entries && entries[key].StoredString? then Some(entries[key].text) else None
  }

  /** A value read from a property list; `POther` is anything that is not a string. */
  datatype PropertyValue = PString(text: string) | POther

  /**
   * `Bundle.main` as far as configuration goes: the plist resources by name
   * (None when the file exists but does not parse as a dictionary) and the
   * Info dictionary.
   */
  datatype Bundle = Bundle(
    plists: map<string, Option<map<string, PropertyValue>>>,
    info: map<string, PropertyValue>)

  /** `dictionary[key] as? String` */
  function PropertyString(d: map<string, PropertyValue>, key: string): Option<string>
  {
    if key in d && d[key].PString? then Some(d[key].text) else None
  }
}
