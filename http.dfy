/**
 * The HTTP pieces registration and metrics share: the Basic `Authorization`
 * header both requests carry, and the way both classify what their data task
 * completes with.
 */
module Http {
  import opened Wrappers
  import opened Foundation
  import Utf8
  import Base64

  const BasicPrefix: string := "Basic "

  /**
   * The `Authorization` value for a variant: `Basic ` and the base 64
   * encoding of the UTF-8 bytes of `user:password` (section 2 of RFC 7617).
   */
  function BasicAuthorization(user: string, password: string): (h: string)
    ensures |BasicPrefix| <= |h| && h[..|BasicPrefix|] == BasicPrefix
    ensures Base64.Decode(h[|BasicPrefix|..]) == Some(Utf8.Encode(user + ":" + password))
  {
    var credentials := Utf8.Encode(user + ":" + password);
    var encoded := Base64.Encode(credentials);
    Base64.DecodeEncode(credentials);
    assert (BasicPrefix + encoded)[|BasicPrefix|..] == encoded;
    BasicPrefix + encoded
  }

  /** Splits a `user-pass` at its first colon. */
  function SplitAtColon(s: string): Option<(string, string)>
  {
    if s == [] then None
    else if s[0] == ':' then Some(([], s[1..]))
    else
      match SplitAtColon(s[1..])
      case None => None
      case Some((user, password)) => Some(([s[0]] + user, password))
  }

  lemma {:induction false} SplitJoined(user: string, password: string)
    requires ':' !in user
    ensures SplitAtColon(user + ":" + password) == Some((user, password))
  {
    var s := user + ":" + password;
    if user == [] {
      assert s == [':'] + password;
    } else {
      assert s[0] == user[0];
      assert s[1..] == user[1..] + ":" + password;
      SplitJoined(user[1..], password);
      assert [user[0]] + user[1..] == user;
    }
  }

  /** What a server reads out of an `Authorization` value: the user-id and password of a Basic credential. */
  function ParseBasicAuthorization(h: string): Option<(string, string)>
  {
    if |h| < |BasicPrefix| || h[..|BasicPrefix|] != BasicPrefix then None
    else
      match Base64.Decode(h[|BasicPrefix|..])
      case None => None
      case Some(bytes) =>
        match Utf8.Decode(bytes)
        case None => None
        case Some(text) => SplitAtColon(text)
  }

  /**
   * The header loses nothing: a server recovers exactly the variant id and
   * secret it was built from, provided the id holds no colon (RFC 7617
   * forbids one in a user-id).
   */
  lemma BasicAuthorizationRecoverable(user: string, password: string)
    requires ':' !in user
    ensures ParseBasicAuthorization(BasicAuthorization(user, password)) == Some((user, password))
  {
    Utf8.DecodeEncode(user + ":" + password);
    SplitJoined(user, password);
  }

  /** Two variants with colon-free ids never share a header. */
  lemma BasicAuthorizationInjective(user1: string, password1: string, user2: string, password2: string)
    requires ':' !in user1 && ':' !in user2
    requires BasicAuthorization(user1, password1) == BasicAuthorization(user2, password2)
    ensures user1 == user2 && password1 == password2
  {
    BasicAuthorizationRecoverable(user1, password1);
    BasicAuthorizationRecoverable(user2, password2);
  }

  /** The variant `V` with secret `S` authenticates as `Basic VjpT`. */
  lemma BasicAuthorizationExample()
    ensures BasicAuthorization("V", "S") == "Basic VjpT"
  {
    ExampleCredentialBytes();
    ExampleCredentialText();
  }

  lemma ExampleCredentialBytes()
    ensures Utf8.Encode("V" + ":" + "S") == [0x56, 0x3A, 0x53]
  {
    assert "V" + ":" + "S" == "V:S";
    Utf8.EncodeAscii("V:S");
  }

  lemma ExampleCredentialText()
    ensures Base64.Encode([0x56, 0x3A, 0x53]) == "VjpT"
  {
    var bytes: seq<byte> := [0x56, 0x3A, 0x53];
    assert bytes[3..] == [];
    assert Base64.Encode(bytes) == Base64.EncodeBlock(0x56, 0x3A, 0x53) + Base64.Encode([]);
  }

  /**
   * How a data task's completion is read: a transport error is handed on as
   * it is, status 200 is success, and any other status is a bad server
   * response in the caller's error domain.
   */
  function ResponseError(response: Response, domain: string): (e: Option<NSError>)
    ensures e.None? <==> response == Completed(200)
    ensures response.TransportFailed? ==> e == Some(response.error)
    ensures response.Completed? && e.Some? ==>
      e.value == NSError(domain, NSURLErrorBadServerResponse, StatusText(response.statusCode))
  {
    match response
    case TransportFailed(error) => Some(error)
    case Completed(status) =>
      if status == 200 then None else Some(NSError(domain, NSURLErrorBadServerResponse, StatusText(status)))
  }
}
