/**
 The authentication gate that runs in front of the protected API routes.
 It reads the second space-separated word of the `authorization` header as
 the token, asks a verifier for the token's payload, and either answers 401
 or forwards the request with the verified payload written into the
 `x-user-payload` header.

 The verifier (a JWT signature and expiry check) and the payload's
 serialisation are parameters: the gate is generic in the payload type `C`.
 */
module Middleware {
  import opened Wrappers
  import opened Text
  import opened Http

  const Authorization := "authorization"
  const UserPayload := "x-user-payload"

  const TokenRequired := "Authentication token is required."
  const TokenInvalid := "Invalid or expired token."

  const NotesPrefix := "/api/notes"
  const TenantsPrefix := "/api/tenants"

  datatype GateResult =
    | Reject(response: Response)     // answered by the gate itself
    | Forward(headers: Headers)      // passed on to the route handler with these headers

  function Unauthenticated(text: string): Response {
    Response(401, map[ContentType := "application/json"], Message(text))
  }

  // ---------------------------------------------------------------------------
  // Token extraction

  /**
   `headers.get('authorization')?.split(' ')[1]`, with `undefined` and the empty
   string (both falsy) as `None`. `get` hands back the value with whitespace
   removed from both ends; the first word is never looked at.
   */
  function Token(headers: Headers): (t: Option<string>)
    ensures Authorization !in headers ==> t == None
    ensures t.Some? ==> t.value != "" && ' ' !in t.value
  {
    if Authorization !in headers then None
    else
      var words := Split(Trim(headers[Authorization]), ' ');
      if |words| >= 2 && words[1] != "" then Some(words[1]) else None
  }

  /** Whatever the first word is, the word after the first space is the token. */
  lemma AnySchemeAccepted(headers: Headers, scheme: string, token: string, rest: string)
    requires Authorization in headers
    requires Trim(headers[Authorization]) == scheme + [' '] + token + rest
    requires ' ' !in scheme && ' ' !in token && token != ""
    requires rest == "" || rest[0] == ' '
    ensures Token(headers) == Some(token)
  {
    assert Trim(headers[Authorization]) == scheme + [' '] + (token + rest);
    SplitAfterSeparator(scheme, ' ', token + rest);
    if rest == "" {
      assert token + rest == token;
      SplitWithoutSeparator(token, ' ');
    } else {
      assert token + rest == token + [' '] + rest[1..];
      SplitAfterSeparator(token, ' ', rest[1..]);
    }
  }

  /**
   A found token is exactly the second word: the trimmed header is
   `scheme token rest`, and the scheme word is not empty.
   */
  lemma TokenIsSecondWord(headers: Headers) returns (scheme: string, rest: string)
    requires Token(headers).Some?
    ensures scheme != "" && ' ' !in scheme
    ensures rest == "" || rest[0] == ' '
    ensures Trim(headers[Authorization]) == scheme + [' '] + Token(headers).value + rest
  {
    var h := Trim(headers[Authorization]);
    var words := Split(h, ' ');
    assert h == words[0] + [' '] + Join(words[1..], ' ');
    scheme := words[0];
    if |words| == 2 {
      rest := "";
      assert Join(words[1..], ' ') == words[1];
    } else {
      rest := [' '] + Join(words[2..], ' ');
      assert words[1..][1..] == words[2..];
    }
    assert h[0] != ' ';
  }

  /** No space, or nothing between the first space and the next one: no token. */
  lemma EmptySecondWordRejected(headers: Headers, scheme: string, rest: string)
    requires Authorization in headers
    requires (' ' !in Trim(headers[Authorization]))
          || (Trim(headers[Authorization]) == scheme + [' '] + rest && ' ' !in scheme
              && (rest == "" || rest[0] == ' '))
    ensures Token(headers) == None
  {
    var h := Trim(headers[Authorization]);
    if ' ' !in h {
      SplitWithoutSeparator(h, ' ');
    } else {
      SplitAfterSeparator(scheme, ' ', rest);
      if rest != "" {
        assert rest == [] + [' '] + rest[1..];
        SplitAfterSeparator([], ' ', rest[1..]);
      }
    }
  }

  /**
   A value that is one space followed by a single word has that space
   stripped by `get`, leaves one word, and so yields no token.
   */
  lemma LeadingSpaceStripped(headers: Headers, word: string)
    requires Authorization in headers
    requires headers[Authorization] == [' '] + word
    requires ' ' !in word && IsTrimmed(word)
    ensures Token(headers) == None
  {
    var h := headers[Authorization];
    assert h[1..] == word;
    assert TrimStart(h) == TrimStart(word) == word;
    assert Trim(h) == word;
    SplitWithoutSeparator(word, ' ');
  }

  // ---------------------------------------------------------------------------
  // Verification and forwarding

  /**
   The gate's decision for one request: 401 without a token, 401 when the
   verifier rejects it, otherwise the incoming headers with `x-user-payload`
   replaced by the serialised verified payload. Writing that header sits
   inside the same `try`: a serialisation `set` refuses (a character above
   U+00FF) is answered like a rejected token.
   */
  function Authenticate<C>(headers: Headers, verify: string -> Option<C>, serialize: C -> string)
    : (r: GateResult)
    ensures Token(headers).None? ==> r == Reject(Unauthenticated(TokenRequired))
    ensures Token(headers).Some? && verify(Token(headers).value).None? ==>
              r == Reject(Unauthenticated(TokenInvalid))
    ensures Token(headers).Some? && verify(Token(headers).value).Some?
            && !IsByteString(serialize(verify(Token(headers).value).value)) ==>
              r == Reject(Unauthenticated(TokenInvalid))
    ensures r.Forward? <==> (&& Token(headers).Some?
                             && verify(Token(headers).value).Some?
                             && IsByteString(serialize(verify(Token(headers).value).value)))
    ensures r.Forward? ==>
              && r.headers.Keys == headers.Keys + {UserPayload}
              && r.headers[UserPayload] == serialize(verify(Token(headers).value).value)
              && forall k | k in headers && k != UserPayload :: r.headers[k] == headers[k]
  {
    match Token(headers)
    case None => Reject(Unauthenticated(TokenRequired))
    case Some(token) =>
      match verify(token)
      case None => Reject(Unauthenticated(TokenInvalid))
      case Some(payload) =>
        var value := serialize(payload);
        if IsByteString(value) then Forward(headers[UserPayload := value])
        else Reject(Unauthenticated(TokenInvalid))
  }

  /** Without a token the verifier's answer makes no difference: it is not consulted. */
  lemma VerifierNotConsultedWithoutToken<C>(headers: Headers, verify1: string -> Option<C>,
                                            verify2: string -> Option<C>, serialize: C -> string)
    requires Token(headers).None?
    ensures Authenticate(headers, verify1, serialize) == Authenticate(headers, verify2, serialize)
            == Reject(Unauthenticated(TokenRequired))
  {
  }

  /**
   What the client sends under `x-user-payload` (any value, or none) has no
   effect on the gate's decision or on the headers it forwards.
   */
  lemma ClientPayloadIgnored<C>(h1: Headers, h2: Headers, verify: string -> Option<C>,
                                serialize: C -> string)
    requires forall k | k != UserPayload :: k in h1 <==> k in h2
    requires forall k | k in h1 && k in h2 && k != UserPayload :: h1[k] == h2[k]
    ensures Authenticate(h1, verify, serialize) == Authenticate(h2, verify, serialize)
  {
    assert Authorization != UserPayload;
    assert Authorization in h1 ==> h1[Authorization] == h2[Authorization];
    assert Token(h1) == Token(h2);
  }

  // ---------------------------------------------------------------------------
  // Which paths the gate runs on

  /**
   The path pattern `prefix/:path*`: the prefix alone, or the prefix, a slash
   and zero or more non-empty segments separated by slashes, with at most one
   trailing slash.
   */
  predicate MatchesPattern(path: string, prefix: string) {
    || path == prefix
    || (&& |path| > |prefix|
        && path[..|prefix| + 1] == prefix + "/"
        && Segments(path[|prefix| + 1..]))
  }

  predicate Segments(rest: string) {
    if rest == "" then true
    else
      var r := if rest[|rest| - 1] == '/' then rest[..|rest| - 1] else rest;
      r != "" && forall seg | seg in Split(r, '/') :: seg != ""
  }

  /** The middleware's `config.matcher`. */
  function InScope(path: string): (r: bool)
    ensures r ==> NotesPrefix <= path || TenantsPrefix <= path
  {
    MatchesPattern(path, NotesPrefix) || MatchesPattern(path, TenantsPrefix)
  }

  /** The gate as installed: requests outside the matcher pass through untouched. */
  function Gate<C>(path: string, headers: Headers, verify: string -> Option<C>,
                   serialize: C -> string): (r: GateResult)
    ensures !InScope(path) ==> r == Forward(headers)
    ensures InScope(path) ==> r == Authenticate(headers, verify, serialize)
  {
    if InScope(path) then Authenticate(headers, verify, serialize) else Forward(headers)
  }

  /**
   Every path below a protected prefix made of non-empty segments goes
   through the gate, with or without a trailing slash.
   */
  lemma SegmentPathsGated(prefix: string, segments: seq<string>)
    requires prefix == NotesPrefix || prefix == TenantsPrefix
    requires |segments| >= 1
    requires forall i | 0 <= i < |segments| :: segments[i] != "" && '/' !in segments[i]
    ensures InScope(prefix + "/" + Join(segments, '/'))
    ensures InScope(prefix + "/" + Join(segments, '/') + "/")
  {
    var rest := Join(segments, '/');
    JoinedSegments(segments);
    MatchesBelowPrefix(prefix, rest);
    assert (rest + "/")[..|rest + "/"| - 1] == rest;
    assert Segments(rest + "/");
    assert prefix + "/" + rest + "/" == prefix + "/" + (rest + "/");
    MatchesBelowPrefix(prefix, rest + "/");
  }

  /** Non-empty, slash-free segments joined by slashes form a segment list. */
  lemma JoinedSegments(segments: seq<string>)
    requires |segments| >= 1
    requires forall i | 0 <= i < |segments| :: segments[i] != "" && '/' !in segments[i]
    ensures var rest := Join(segments, '/');
            rest != "" && rest[|rest| - 1] != '/' && Segments(rest)
  {
    var rest := Join(segments, '/');
    SplitJoin(segments, '/');
    JoinEndsWithLastPart(segments, '/');
    var last := segments[|segments| - 1];
    assert rest[|rest| - 1] == last[|last| - 1];
    assert last[|last| - 1] in last;
  }

  lemma MatchesBelowPrefix(prefix: string, rest: string)
    requires Segments(rest)
    ensures MatchesPattern(prefix + "/" + rest, prefix)
  {
    var path := prefix + "/" + rest;
    assert path[..|prefix| + 1] == prefix + "/";
    assert path[|prefix| + 1..] == rest;
  }

  /**
   The converse of `SegmentPathsGated`: a path inside the gate is a protected
   prefix alone, that prefix with a slash, or that prefix followed by
   non-empty, slash-free segments joined by slashes, with or without one
   trailing slash.
   */
  lemma InScopeIsSegmentPath(path: string) returns (prefix: string, segments: seq<string>)
    requires InScope(path)
    ensures prefix == NotesPrefix || prefix == TenantsPrefix
    ensures forall i | 0 <= i < |segments| :: segments[i] != "" && '/' !in segments[i]
    ensures || path == prefix
            || path == prefix + "/"
            || (&& |segments| >= 1
                && (|| path == prefix + "/" + Join(segments, '/')
                    || path == prefix + "/" + Join(segments, '/') + "/"))
  {
    prefix := if MatchesPattern(path, NotesPrefix) then NotesPrefix else TenantsPrefix;
    segments := MatchedSegments(path, prefix);
  }

  /** The segments below `prefix` of a path the pattern `prefix/:path*` accepts. */
  lemma MatchedSegments(path: string, prefix: string) returns (segments: seq<string>)
    requires MatchesPattern(path, prefix)
    ensures forall i | 0 <= i < |segments| :: segments[i] != "" && '/' !in segments[i]
    ensures || path == prefix
            || path == prefix + "/"
            || (&& |segments| >= 1
                && (|| path == prefix + "/" + Join(segments, '/')
                    || path == prefix + "/" + Join(segments, '/') + "/"))
  {
    segments := [];
    if path != prefix {
      var rest := path[|prefix| + 1..];
      assert path == prefix + "/" + rest;
      if rest != "" {
        var r := if rest[|rest| - 1] == '/' then rest[..|rest| - 1] else rest;
        assert rest == r || rest == r + "/";
        segments := Split(r, '/');
        forall i | 0 <= i < |segments|
          ensures segments[i] != ""
        {
          assert segments[i] in Split(r, '/');
        }
      }
    }
  }

  /** Both protected collections, with or without a trailing slash, and every item below them go through the gate. */
  lemma ItemRoutesGated(prefix: string, item: string)
    requires prefix == NotesPrefix || prefix == TenantsPrefix
    requires item != "" && '/' !in item
    ensures InScope(prefix) && InScope(prefix + "/") && InScope(prefix + "/" + item)
  {
  }

  /** The plan-upgrade route `/api/tenants/<slug>/upgrade` goes through the gate. */
  lemma UpgradeRouteGated(slug: string)
    requires slug != "" && '/' !in slug
    ensures InScope(TenantsPrefix + "/" + slug + "/upgrade")
  {
    var path := TenantsPrefix + "/" + slug + "/upgrade";
    var rest := slug + "/upgrade";
    assert path[..|TenantsPrefix| + 1] == TenantsPrefix + "/";
    assert path[|TenantsPrefix| + 1..] == rest;
    assert rest == slug + ['/'] + "upgrade";
    SplitAfterSeparator(slug, '/', "upgrade");
    SplitWithoutSeparator("upgrade", '/');
  }

  /** Signup and health are outside the gate, and so is a path that only shares a prefix. */
  lemma PublicRoutesNotGated()
    ensures !InScope("/api/auth/signup")
    ensures !InScope("/api/health")
    ensures !InScope("/api/notesearch")
  {
    var signup, health, search := "/api/auth/signup", "/api/health", "/api/notesearch";
    assert signup[5] != NotesPrefix[5] && signup[5] != TenantsPrefix[5];
    assert signup[..|NotesPrefix| + 1][5] == signup[5];
    assert signup[..|TenantsPrefix| + 1][5] == signup[5];
    assert health[5] != NotesPrefix[5] && health[5] != TenantsPrefix[5];
    assert health != NotesPrefix && health != TenantsPrefix;
    assert search[..|NotesPrefix| + 1][10] == search[10] != '/';
    assert search[5] != TenantsPrefix[5];
    assert search[..|TenantsPrefix| + 1][5] == search[5];
  }
}
