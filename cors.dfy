/**
 * The CORS middleware: which request origins are allowed, the headers an
 * allowed origin receives, and the short-circuit of pre-flight requests.
 */
module Cors {
  import opened Wrappers
  import opened Strings

  /** The entry of the allowlist at i matches the origin: trimmed, ignoring case. */
  predicate EntryMatches(allowedOrigins: seq<string>, i: int, origin: string)
    requires 0 <= i < |allowedOrigins|
  {
    EqualFold(TrimSpace(allowedOrigins[i]), origin)
  }

  /** An origin is allowed when it is not empty and some allowlist entry matches it. */
  predicate Allowed(allowedOrigins: seq<string>, origin: string) {
    origin != "" && exists i :: 0 <= i < |allowedOrigins| && EntryMatches(allowedOrigins, i, origin)
  }

  /** isAllowed: the empty origin and the empty allowlist allow nothing; otherwise the entries are searched in order. */
  method IsAllowed(allowedOrigins: seq<string>, origin: string) returns (ok: bool)
    ensures origin == "" || |allowedOrigins| == 0 ==> !ok
    ensures ok <==> origin != "" && exists i :: 0 <= i < |allowedOrigins| && EntryMatches(allowedOrigins, i, origin)
  {
    if origin == "" || |allowedOrigins| == 0 {
      return false;
    }
    var i := 0;
    while i < |allowedOrigins|
      invariant 0 <= i <= |allowedOrigins|
      invariant forall j :: 0 <= j < i ==> !EntryMatches(allowedOrigins, j, origin)
    {
      if EqualFold(TrimSpace(allowedOrigins[i]), origin) {
        assert EntryMatches(allowedOrigins, i, origin);
        return true;
      }
      i := i + 1;
    }
    return false;
  }

  /** The headers an allowed origin receives; Allow-Origin echoes the request's origin. */
  function CorsHeaders(origin: string): (h: map<string, string>)
    ensures h.Keys == {"Access-Control-Allow-Origin", "Vary", "Access-Control-Allow-Headers", "Access-Control-Allow-Methods"}
    ensures h["Access-Control-Allow-Origin"] == origin
  {
    map[
      "Access-Control-Allow-Origin" := origin,
      "Vary" := "Origin",
      "Access-Control-Allow-Headers" := "Content-Type, Authorization, X-Marketplace-Token",
      "Access-Control-Allow-Methods" := "GET, POST, OPTIONS"]
  }

  /** The part of an HTTP response the middleware writes. */
  class ResponseWriter {
    var headers: map<string, string>
    /** The status written with WriteHeader, None while nothing has been written. */
    var status: Option<int>

    constructor()
      ensures headers == map[] && status == None
    {
      headers := map[];
      status := None;
    }
  }

  /**
   * The middleware's handler: the CORS headers for an allowed origin, then an
   * OPTIONS request is answered 204 on the spot and any other request is passed
   * on (callsNext), allowed or not.
   */
  method Handle(allowedOrigins: seq<string>, w: ResponseWriter, httpMethod: string, origin: string)
    returns (callsNext: bool)
    modifies w
    ensures Allowed(allowedOrigins, origin) ==> w.headers == old(w.headers) + CorsHeaders(origin)
    ensures !Allowed(allowedOrigins, origin) ==> w.headers == old(w.headers)
    ensures callsNext <==> httpMethod != "OPTIONS"
    ensures httpMethod == "OPTIONS" ==> w.status == Some(204)
    ensures httpMethod != "OPTIONS" ==> w.status == old(w.status)
  {
    var allowed := IsAllowed(allowedOrigins, origin);
    if allowed {
      w.headers := w.headers + CorsHeaders(origin);
    }
    if httpMethod == "OPTIONS" {
      w.status := Some(204);
      return false;
    }
    return true;
  }

  /** Lowercasing keeps a white-space character and maps nothing else onto one. */
  lemma LowerCharSpace(c: char, d: char)
    requires IsSpace(d) && LowerChar(c) == LowerChar(d)
    ensures c == d
  {
  }

  /**
   * The origin itself is not trimmed: an origin that starts with white space
   * matches no entry, since the trimmed entries never start with white space.
   */
  lemma UntrimmedOriginNeverAllowed(allowedOrigins: seq<string>, origin: string)
    requires origin != "" && IsSpace(origin[0])
    ensures !Allowed(allowedOrigins, origin)
  {
    forall i | 0 <= i < |allowedOrigins| ensures !EntryMatches(allowedOrigins, i, origin) {
      var t := TrimSpace(allowedOrigins[i]);
      TrimSpaceTrimmed(allowedOrigins[i]);
      if EqualFold(t, origin) {
        assert |t| == |ToLower(t)| == |ToLower(origin)| == |origin|;
        assert LowerChar(t[0]) == ToLower(t)[0] == ToLower(origin)[0] == LowerChar(origin[0]);
        LowerCharSpace(t[0], origin[0]);
        assert false;
      }
    }
  }

  /** Case does not matter: origins that agree ignoring case are allowed alike. */
  lemma AllowedIgnoresCase(allowedOrigins: seq<string>, a: string, b: string)
    requires EqualFold(a, b)
    ensures Allowed(allowedOrigins, a) <==> Allowed(allowedOrigins, b)
  {
    assert |a| == |ToLower(a)| == |ToLower(b)| == |b|;
    forall i | 0 <= i < |allowedOrigins|
      ensures EntryMatches(allowedOrigins, i, a) <==> EntryMatches(allowedOrigins, i, b)
    {
    }
  }

  /** Adding entries never withdraws an origin, and an origin equal to a trimmed entry is allowed. */
  lemma AllowedByEntry(allowedOrigins: seq<string>, more: seq<string>, origin: string)
    requires origin != "" && origin in allowedOrigins && TrimSpace(origin) == origin
    ensures Allowed(allowedOrigins, origin)
    ensures Allowed(allowedOrigins + more, origin)
  {
    var i :| 0 <= i < |allowedOrigins| && allowedOrigins[i] == origin;
    assert EntryMatches(allowedOrigins, i, origin);
    assert (allowedOrigins + more)[i] == origin;
    assert EntryMatches(allowedOrigins + more, i, origin);
  }
}
