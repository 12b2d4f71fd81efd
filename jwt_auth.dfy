/** Token extraction and the two authentication middlewares
    (backend/middleware/jwtAuthMiddleware.js). Signature checking is abstract:
    the middlewares take `verify`, which maps a token to the claims it carries
    or to `None` when it is forged or expired. */
module JwtAuth {
  import opened Common

  /** The payload signed into a session token: `formatUser`'s result. */
  datatype Claims = Claims(id: string, email: string, name: string)

  /** The index of the first entry starting with `prefix` (`Array.find`). */
  function FindFirst(entries: seq<string>, prefix: string): (r: Option<nat>)
    ensures r.Some? ==> r.value < |entries| && StartsWith(entries[r.value], prefix)
    ensures r.Some? ==> forall j :: 0 <= j < r.value ==> !StartsWith(entries[j], prefix)
    ensures r.None? ==> forall j :: 0 <= j < |entries| ==> !StartsWith(entries[j], prefix)
    decreases |entries|
  {
    if entries == [] then None
    else if StartsWith(entries[0], prefix) then Some(0)
    else match FindFirst(entries[1..], prefix)
      case None => None
      case Some(k) => Some(k + 1)
  }

  /** `authorization?.split(" ")[1]` */
  function HeaderToken(authorization: Option<string>): Option<string>
  {
    if authorization.None? then None
    else
      var parts := Split(authorization.value, " ");
      if |parts| >= 2 then Some(parts[1]) else None
  }

  /** An entry starting with `token=` splits on `=` into at least two pieces,
      the second being the text after `token=` up to the next `=`. */
  lemma TokenEntryPieces(entry: string)
    requires StartsWith(entry, "token=")
    ensures |Split(entry, "=")| >= 2
    ensures Split(entry, "=")[1] == Split(entry[6..], "=")[0]
  {
    assert entry == "token" + "=" + entry[6..];
    SplitAtFirst("token", "=", entry[6..]);
  }

  /** The cookie fallback: the value of the first `; `-separated entry that
      starts with `token=`, cut at its second `=`. */
  function CookieToken(cookies: string): Option<string>
  {
    var entries := Split(cookies, "; ");
    match FindFirst(entries, "token=")
      case None => None
      case Some(i) =>
        TokenEntryPieces(entries[i]);
        Some(Split(entries[i], "=")[1])
  }

  /** `extractToken`: the header token when it is non-empty, otherwise the
      cookie token when there is a cookie header at all. */
  function ExtractToken(authorization: Option<string>, cookies: Option<string>): Option<string>
  {
    var token := HeaderToken(authorization);
    if Truthy(token) then token
    else if Truthy(cookies) then CookieToken(cookies.value)
    else token
  }

  // ---------------------------------------------------------------------------
  // properties of extractToken

  /** The second space-separated word of the Authorization header wins over
      any cookie. */
  lemma HeaderTokenWins(scheme: string, token: string, tail: string, cookies: Option<string>)
    requires ' ' !in scheme && ' ' !in token && token != ""
    requires tail == [] || tail[0] == ' '
    ensures ExtractToken(Some(scheme + " " + token + tail), cookies) == Some(token)
  {
    assert scheme + " " + token + tail == scheme + " " + (token + tail);
    SplitAtFirst(scheme, " ", token + tail);
    if tail == [] {
      assert token + tail == token;
      SplitWithout(token, " ");
    } else {
      assert token + tail == token + " " + tail[1..];
      SplitAtFirst(token, " ", tail[1..]);
    }
  }

  /** A header without a space yields no header token, so the cookie decides. */
  lemma HeaderWithoutSpaceFallsThrough(header: string, cookies: Option<string>)
    requires ' ' !in header
    ensures ExtractToken(Some(header), cookies) == ExtractToken(None, cookies)
  {
    SplitWithout(header, " ");
  }

  /** With neither a header token nor a cookie header there is no token. */
  lemma NoSourcesNoToken()
    ensures ExtractToken(None, None) == None
    ensures ExtractToken(None, Some("")) == None
  {
  }

  /** A lone `token=` cookie gives the text up to the next `=`: anything after
      a further `=` is dropped. */
  lemma CookieValueStopsAtSecondEquals(value: string, tail: string)
    requires ';' !in value + tail && '=' !in value
    requires tail == [] || tail[0] == '='
    ensures ExtractToken(None, Some("token=" + value + tail)) == Some(value)
  {
    var c := "token=" + value + tail;
    assert c == "token=" + (value + tail);
    PrefixedWithout("token=", value + tail, ';');
    SingleTokenCookie(c);
    assert c[6..] == value + tail;
    FirstPiece(value, tail, '=');
  }

  /** A `token=` cookie alone in the header gives its value up to the next `=`. */
  lemma SingleTokenCookie(c: string)
    requires ';' !in c && StartsWith(c, "token=")
    ensures CookieToken(c) == Some(Split(c[6..], "=")[0])
  {
    SplitWithout(c, "; ");
    TokenEntryPieces(c);
  }

  /** A prefix and a text that both lack `x` lack it together. */
  lemma PrefixedWithout(prefix: string, t: string, x: char)
    requires x !in prefix && x !in t
    ensures x !in prefix + t
  {
    forall k | 0 <= k < |prefix + t| ensures (prefix + t)[k] != x {
      if k < |prefix| {
        assert (prefix + t)[k] == prefix[k];
      } else {
        assert (prefix + t)[k] == t[k - |prefix|];
      }
    }
  }

  /** Splitting `value + tail` at `sep` when `tail` is empty or starts with it
      gives `value` as the first piece. */
  lemma FirstPiece(value: string, tail: string, sep: char)
    requires sep !in value
    requires tail == [] || tail[0] == sep
    ensures Split(value + tail, [sep])[0] == value
  {
    if tail == [] {
      assert value + tail == value;
      SplitWithout(value, [sep]);
    } else {
      assert value + tail == value + [sep] + tail[1..];
      SplitAtFirst(value, [sep], tail[1..]);
    }
  }

  /** A single cookie whose name merely begins with `token` (such as
      `tokenX=...`) is not the token cookie. */
  lemma LookalikeCookieIgnored(entry: string)
    requires ';' !in entry && !StartsWith(entry, "token=")
    ensures ExtractToken(None, Some(entry)) == None
  {
    SplitWithout(entry, "; ");
  }

  /** When several entries start with `token=`, the first one is used. */
  lemma FirstTokenCookieWins(before: seq<string>, entry: string, after: seq<string>)
    requires forall j :: 0 <= j < |before| ==> !StartsWith(before[j], "token=")
    requires StartsWith(entry, "token=")
    ensures FindFirst(before + [entry] + after, "token=") == Some(|before|)
  {
    var entries := before + [entry] + after;
    assert entries[|before|] == entry;
  }

  // ---------------------------------------------------------------------------
  // middlewares

  /** The reply a middleware gives: continue to the handler, or an error. */
  datatype Outcome = Next | Reject(status: nat, message: string)

  /** The part of an Express request the middlewares touch. */
  class Request {
    var user: Option<Claims>

    constructor()
      ensures user == None
    {
      user := None;
    }
  }

  /** `jwtAuthMiddleware`: 401 "Unauthorized" without a token, 401 "Invalid
      token" when verification fails; `req.user` is set only on success. */
  method Authenticate(req: Request, authorization: Option<string>, cookies: Option<string>,
                      verify: string -> Option<Claims>) returns (outcome: Outcome)
    modifies req
    ensures var t := ExtractToken(authorization, cookies);
      if !Truthy(t) then outcome == Reject(401, "Unauthorized") && req.user == old(req.user)
      else if verify(t.value).None? then outcome == Reject(401, "Invalid token") && req.user == old(req.user)
      else outcome == Next && req.user == verify(t.value)
  {
    var token := ExtractToken(authorization, cookies);
    if !Truthy(token) {
      return Reject(401, "Unauthorized");
    }
    var decoded := verify(token.value);
    if decoded.None? {
      return Reject(401, "Invalid token");
    }
    req.user := decoded;
    outcome := Next;
  }

  /** `optionalJwtAuth`: always continues; sets `req.user` only for a token that
      verifies. */
  method AuthenticateOptionally(req: Request, authorization: Option<string>, cookies: Option<string>,
                                verify: string -> Option<Claims>) returns (outcome: Outcome)
    modifies req
    ensures outcome == Next
    ensures var t := ExtractToken(authorization, cookies);
      req.user == if Truthy(t) && verify(t.value).Some? then verify(t.value) else old(req.user)
  {
    var token := ExtractToken(authorization, cookies);
    if Truthy(token) {
      var decoded := verify(token.value);
      if decoded.Some? {
        req.user := decoded;
      }
    }
    outcome := Next;
  }
}
