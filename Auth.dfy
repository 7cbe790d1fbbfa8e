/**
 * Logging in and reading the user back from a token. A token is
 * `token_{id}_{timestamp}` and carries no secret: whoever presents it is the
 * user whose id it names.
 */
module Auth {
  import opened Js
  import opened Strings
  import opened Lists

  /** JavaScript `===` on JSON values from two different sources: arrays are never the same object. */
  predicate StrictEq(a: JsVal, b: JsVal) {
    !a.Arr? && a == b
  }

  /** The user record without its `password` field. */
  function WithoutPassword(user: JsObject): (r: JsObject)
    ensures "password" !in r
    ensures forall k :: k in user && k != "password" ==> k in r && r[k] == user[k]
    ensures forall k :: k in r ==> k in user
  {
    user - {"password"}
  }

  /** The token issued at time `now` (milliseconds) to the user with id `id`. */
  function Token(id: JsVal, now: nat): string {
    "token_" + ToStr(id) + "_" + NatToStr(now)
  }

  datatype LoginAnswer = Unauthorized | LoggedIn(user: JsObject, token: string)

  predicate Credentials(user: JsObject, username: JsVal, password: JsVal) {
    StrictEq(Get(user, "username"), username) && StrictEq(Get(user, "password"), password)
  }

  /**
   * `POST /auth/login`: the first user whose username and password both equal
   * the ones sent, without the password, and a token naming that user's id.
   */
  function Login(users: seq<JsObject>, body: JsObject, now: nat): (r: LoginAnswer)
    ensures r.Unauthorized? <==>
      forall i :: 0 <= i < |users| ==> !Credentials(users[i], Get(body, "username"), Get(body, "password"))
    ensures r.LoggedIn? ==> "password" !in r.user
    ensures r.LoggedIn? ==>
      exists i :: 0 <= i < |users|
        && Credentials(users[i], Get(body, "username"), Get(body, "password"))
        && r.user == WithoutPassword(users[i]) && r.token == Token(Get(users[i], "id"), now)
  {
    var i := FindIndex(users, u => Credentials(u, Get(body, "username"), Get(body, "password")));
    if i < 0 then Unauthorized
    else LoggedIn(WithoutPassword(users[i]), Token(Get(users[i], "id"), now))
  }

  /** `(authorization || '').trim()` with an optional `Bearer ` prefix removed. */
  function TokenOfHeader(authorization: string): string {
    var h := Trim(authorization);
    if StartsWith(h, "Bearer ") then h[7..] else h
  }

  /** The second `_`-separated field of a `token_` token, when it is not empty. */
  function TokenUserId(token: string): (r: Option<string>)
    ensures r.Some? ==> StartsWith(token, "token_") && r.value != "" && '_' !in r.value
    ensures !StartsWith(token, "token_") ==> r.None?
  {
    if !StartsWith(token, "token_") then None
    else
      assert token == "token" + ['_'] + token[6..];
      SplitAfter("token", '_', token[6..]);
      SplitParts(token, '_');
      var userId := Split(token, '_')[1];
      if userId == "" then None else Some(userId)
  }

  /** The first user whose id, as a string, is `userId`. */
  function UserById(users: seq<JsObject>, userId: string): (r: Option<JsObject>)
    ensures r.None? <==> forall i :: 0 <= i < |users| ==> ToStr(Get(users[i], "id")) != userId
    ensures r.Some? ==> exists i :: 0 <= i < |users| && r.value == users[i] && ToStr(Get(users[i], "id")) == userId
  {
    var i := FindIndex(users, u => ToStr(Get(u, "id")) == userId);
    if i < 0 then None else Some(users[i])
  }

  /**
   * The user a request's `Authorization` header names (`getAuthUser`), or
   * none when the token lacks the `token_` prefix, names no id, or names an
   * id no user has.
   */
  function UserOfHeader(users: seq<JsObject>, authorization: string): (r: Option<JsObject>)
    ensures r.Some? ==> TokenUserId(TokenOfHeader(authorization)).Some?
    ensures r.Some? ==> r == UserById(users, TokenUserId(TokenOfHeader(authorization)).value)
    ensures !StartsWith(TokenOfHeader(authorization), "token_") ==> r.None?
  {
    match TokenUserId(TokenOfHeader(authorization))
    case None => None
    case Some(userId) => UserById(users, userId)
  }

  datatype MeAnswer = NotAuthorized | Me(user: JsObject)

  /** `GET /auth/me`: the header's user without the password, or 401. */
  function MeOf(users: seq<JsObject>, authorization: string): (r: MeAnswer)
    ensures r.Me? ==> "password" !in r.user
    ensures r.NotAuthorized? <==> UserOfHeader(users, authorization).None?
  {
    match UserOfHeader(users, authorization)
    case None => NotAuthorized
    case Some(user) => Me(WithoutPassword(user))
  }

  /** Ids as strings tell users apart. */
  predicate UniqueIds(users: seq<JsObject>) {
    forall i, j :: 0 <= i < j < |users| ==> ToStr(Get(users[i], "id")) != ToStr(Get(users[j], "id"))
  }

  /** Reading the user id back from an issued token. */
  lemma TokenNamesId(id: string, now: nat)
    requires id != [] && '_' !in id
    ensures TokenUserId("token_" + id + "_" + NatToStr(now)) == Some(id)
  {
    var digits := NatToStr(now);
    var token := "token_" + id + "_" + digits;
    assert '_' !in digits by {
      assert forall i :: 0 <= i < |digits| ==> IsDigit(digits[i]);
    }
    assert token == "token" + ['_'] + id + ['_'] + digits;
    SplitThree("token", id, digits, '_');
  }

  /** A token that starts with `t` and ends in a digit reads back the same, bare or after `Bearer `. */
  lemma HeaderCarries(token: string)
    requires token != [] && token[0] == 't' && IsDigit(token[|token| - 1])
    ensures TokenOfHeader(token) == token
    ensures TokenOfHeader("Bearer " + token) == token
  {
    assert TrimStart(token) == token;
    assert TrimEnd(token) == token;
    assert !StartsWith(token, "Bearer ") by {
      if 7 <= |token| {
        assert token[..7][0] == 't';
      }
    }
    var bearer := "Bearer " + token;
    assert bearer[0] == 'B' && bearer[|bearer| - 1] == token[|token| - 1];
    assert TrimStart(bearer) == bearer;
    assert TrimEnd(bearer) == bearer;
    assert bearer[..7] == "Bearer ";
  }

  /** With unique ids, the user found by a user's own id is that user. */
  lemma FindsOwnId(users: seq<JsObject>, i: int)
    requires UniqueIds(users) && 0 <= i < |users|
    ensures UserById(users, ToStr(Get(users[i], "id"))) == Some(users[i])
  {
    var found := UserById(users, ToStr(Get(users[i], "id")));
    var j :| 0 <= j < |users| && found.value == users[j] && ToStr(Get(users[j], "id")) == ToStr(Get(users[i], "id"));
    assert j == i;
  }

  /**
   * The login round trip: presenting the token a login issued, with or
   * without `Bearer `, gives back the same user, provided ids are unique and
   * the user's id, as text, is not empty and holds no `_` (the token's
   * separator).
   */
  lemma LoginRoundTrip(users: seq<JsObject>, body: JsObject, now: nat, user: JsObject, token: string)
    requires UniqueIds(users)
    requires Login(users, body, now) == LoggedIn(user, token)
    requires ToStr(Get(user, "id")) != [] && '_' !in ToStr(Get(user, "id"))
    ensures MeOf(users, token) == Me(user)
    ensures MeOf(users, "Bearer " + token) == Me(user)
  {
    var i :| 0 <= i < |users| && Credentials(users[i], Get(body, "username"), Get(body, "password"))
      && user == WithoutPassword(users[i]) && token == Token(Get(users[i], "id"), now);
    var id := ToStr(Get(users[i], "id"));
    assert Get(user, "id") == Get(users[i], "id");
    TokenNamesId(id, now);
    var digits := NatToStr(now);
    assert token[|token| - 1] == digits[|digits| - 1];
    HeaderCarries(token);
    FindsOwnId(users, i);
  }
}
