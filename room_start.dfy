/**
 * The entry page of src/pages/room-start.ts. On load it posts the `token`
 * query parameter to /room/verify; when that fails it turns the error into a
 * message for the user and redirects back to the room's ready page.
 */
module RoomStart {
  import opened Wrappers
  import opened Fetcher

  const JwtExpired: string := "jwt expired"
  const InvalidToken: string := "invalid token"
  const ExpiredTokenText: string := "입장 토큰이 만료되었습니다. 다시 입장해주세요"
  const MalformedTokenText: string := "토큰 형식이 잘못되었습니다. 다시 입장해주세요"

  /** How a template literal renders a possibly undefined string. */
  function Interpolate(s: Option<string>): string {
    match s
    case Some(text) => text
    case None => "undefined"
  }

  /** The user's text for a parsed message: the two token errors get their own text, anything else passes. */
  function UserMessage(parsed: Option<string>): string {
    if parsed == Some(JwtExpired) then ExpiredTokenText
    else if parsed == Some(InvalidToken) then MalformedTokenText
    else Interpolate(parsed)
  }

  /**
   * The catch handler of `connectedCallback`: the message is parsed, then
   * rewritten by the two checks in turn, and the page goes to
   * `room/ready/<id>?message=<message>`.
   */
  method OnVerifyError(e: AxiosError, roomId: string) returns (target: string)
    ensures target == "room/ready/" + roomId + "?message=" + UserMessage(ParseErrMsg(e))
  {
    var message := ParseErrMsg(e);
    if message == Some(JwtExpired) {
      message := Some(ExpiredTokenText);
    }
    if message == Some(InvalidToken) {
      message := Some(MalformedTokenText);
    }
    target := "room/ready/" + roomId + "?message=" + Interpolate(message);
  }

  /** A parsed message other than the two token errors reaches the user unchanged. */
  lemma OtherMessagesPassThrough(parsed: string)
    requires parsed != JwtExpired && parsed != InvalidToken
    ensures UserMessage(Some(parsed)) == parsed
  {
  }

  /**
   * At most one rewrite applies: the rewritten texts are not themselves
   * rewritable, so rewriting the result again changes nothing.
   */
  lemma RewriteIsFinal(parsed: Option<string>)
    ensures UserMessage(Some(UserMessage(parsed))) == UserMessage(parsed)
  {
    assert ExpiredTokenText[0] != JwtExpired[0] && ExpiredTokenText[0] != InvalidToken[0];
    assert MalformedTokenText[0] != JwtExpired[0] && MalformedTokenText[0] != InvalidToken[0];
    if parsed.Some? && parsed.value != JwtExpired && parsed.value != InvalidToken {
      OtherMessagesPassThrough(parsed.value);
    }
  }

  /** Position i holds the first parameter named `key`. */
  ghost predicate FirstWithKey(params: seq<(string, string)>, key: string, i: int) {
    0 <= i < |params| && params[i].0 == key && forall j :: 0 <= j < i ==> params[j].0 != key
  }

  /** `URLSearchParams.get(key)`: the value of the first parameter named `key`, or null. */
  function GetParam(params: seq<(string, string)>, key: string): (r: Option<string>)
    ensures r.None? <==> forall i :: 0 <= i < |params| ==> params[i].0 != key
    ensures r.Some? ==> exists i :: FirstWithKey(params, key, i) && params[i].1 == r.value
  {
    if params == [] then None
    else if params[0].0 == key then Some(params[0].1)
    else
      var r := GetParam(params[1..], key);
      assert r.Some? ==> exists i :: FirstWithKey(params, key, i) && params[i].1 == r.value by {
        if r.Some? {
          var i :| FirstWithKey(params[1..], key, i) && params[1..][i].1 == r.value;
          assert FirstWithKey(params, key, i + 1);
        }
      }
      r
  }

  /** The POST that `sendToken` sends. */
  datatype VerifyRequest = VerifyRequest(path: string, token: Option<string>)

  /** `sendToken`: posts `{token}` to /room/verify, the token being the first `token` query parameter or null. */
  function SendToken(query: seq<(string, string)>): (r: VerifyRequest)
    ensures r.path == "/room/verify"
    ensures r.token.None? <==> forall i :: 0 <= i < |query| ==> query[i].0 != "token"
    ensures r.token.Some? ==> exists i :: FirstWithKey(query, "token", i) && query[i].1 == r.token.value
  {
    VerifyRequest("/room/verify", GetParam(query, "token"))
  }
}
