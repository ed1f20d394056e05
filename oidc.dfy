/**
 * The GitHub OIDC gate: the JSON Web Key Set cache with its refresh rule, the
 * filter that turns a fetched key set into RSA public keys, the checks around
 * token parsing, and the decision that a verification workflow passed.
 *
 * Signature checking, the RS256 restriction and issuer/audience/expiry
 * validation belong to the JWT library; they appear as an abstract verdict
 * `accepts`. Base64 decoding is an abstract partial function `decode`, and the
 * key-set and GitHub API responses are inputs.
 */
module Oidc {
  import opened Wrappers
  import opened Strings
  import opened Models
  import opened Config

  /** The token claims GitHub Actions issues (the registered claims are left to the library). */
  datatype Claims = Claims(
    repository: string,
    repositoryOwner: string,
    ref: string,
    refType: string,
    sha: string,
    workflow: string,
    jobWorkflowRef: string,
    actor: string,
    runId: int,
    runAttempt: int)

  newtype byte = x: int | 0 <= x < 256

  /** An RSA public key: modulus and exponent. */
  datatype PublicKey = PublicKey(n: nat, e: int)

  /** One entry of the key set document, its fields as sent. */
  datatype JwkEntry = JwkEntry(kid: string, kty: string, alg: string, use: string, n: string, e: string)

  /** What the key set request came back with: the keys list, or None when the body is not valid JSON. */
  datatype JwksResponse =
    | JwksUnreachable
    | JwksAnswered(status: int, keys: Option<seq<JwkEntry>>)

  datatype FetchError =
    | TransportFailed   // the request could not be made
    | BadStatus(status: int) // "jwks fetch failed: <status>"
    | DecodeFailed      // the body did not decode
    | NoKeysFound       // "no jwks keys found"

  datatype KeyError =
    | FetchFailed(cause: FetchError)
    | UnknownKid        // "unknown kid"

  /** How long a fetched key set is trusted: 30 minutes, in seconds. */
  const CacheLifetime: int := 30 * 60

  /** The key set endpoint. */
  const JwksUrl := "https://token.actions.githubusercontent.com/.well-known/jwks"

  // ---------------------------------------------------------------------
  // Key material

  /** big.Int.SetBytes: the unsigned big-endian value of the bytes. */
  function BigEndian(bytes: seq<byte>): nat {
    if bytes == [] then 0 else BigEndian(bytes[..|bytes| - 1]) * 256 + bytes[|bytes| - 1] as nat
  }

  /** big.Int.Int64: the low 64 bits of the value read as a two's-complement int64. */
  function Int64Of(v: nat): (r: int)
    ensures -0x8000_0000_0000_0000 <= r < 0x8000_0000_0000_0000
    ensures r % 0x1_0000_0000_0000_0000 == v % 0x1_0000_0000_0000_0000
  {
    var low := v % 0x1_0000_0000_0000_0000;
    if low < 0x8000_0000_0000_0000 then low else low - 0x1_0000_0000_0000_0000
  }

  /** A value that fits in int64 is read unchanged; 2^63 reads as a negative number. */
  lemma Int64OfSmall(v: nat)
    ensures v < 0x8000_0000_0000_0000 ==> Int64Of(v) == v
    ensures Int64Of(0x8000_0000_0000_0000) < 0
  {
  }

  /**
   * The key an entry yields, if any: kid, n and e must be non-empty, n and e must
   * decode, and the exponent read as int64 must be positive. kty, alg and use are
   * not looked at.
   */
  function KeyOf(entry: JwkEntry, decode: string -> Option<seq<byte>>): Option<PublicKey> {
    if entry.kid == "" || entry.n == "" || entry.e == "" then None
    else
      match decode(entry.n)
      case None => None
      case Some(nBytes) =>
        match decode(entry.e)
        case None => None
        case Some(eBytes) =>
          var e := Int64Of(BigEndian(eBytes));
          if e <= 0 then None else Some(PublicKey(BigEndian(nBytes), e))
  }

  /** The key map built from the entries in order: a later entry for a kid replaces an earlier one. */
  function KeysFrom(entries: seq<JwkEntry>, decode: string -> Option<seq<byte>>): map<string, PublicKey> {
    if entries == [] then map[]
    else
      var keys := KeysFrom(entries[..|entries| - 1], decode);
      var last := entries[|entries| - 1];
      match KeyOf(last, decode)
      case None => keys
      case Some(key) => keys[last.kid := key]
  }

  /** Some entry for kid yields a key. */
  ghost predicate HasUsable(entries: seq<JwkEntry>, kid: string, decode: string -> Option<seq<byte>>) {
    exists i :: 0 <= i < |entries| && entries[i].kid == kid && KeyOf(entries[i], decode).Some?
  }

  lemma HasUsableSnoc(init: seq<JwkEntry>, last: JwkEntry, kid: string, decode: string -> Option<seq<byte>>)
    ensures HasUsable(init + [last], kid, decode) <==>
      HasUsable(init, kid, decode) || (last.kid == kid && KeyOf(last, decode).Some?)
  {
    var all := init + [last];
    if HasUsable(init, kid, decode) {
      var i :| 0 <= i < |init| && init[i].kid == kid && KeyOf(init[i], decode).Some?;
      assert all[i] == init[i];
    }
    if last.kid == kid && KeyOf(last, decode).Some? {
      assert all[|init|] == last;
    }
    if HasUsable(all, kid, decode) {
      var i :| 0 <= i < |all| && all[i].kid == kid && KeyOf(all[i], decode).Some?;
      if i < |init| {
        assert all[i] == init[i];
      }
    }
  }

  /** A kid is in the key map exactly when some entry for it yields a key. */
  lemma {:induction false} KeysFromDomain(entries: seq<JwkEntry>, decode: string -> Option<seq<byte>>)
    ensures forall kid :: kid in KeysFrom(entries, decode) <==> HasUsable(entries, kid, decode)
  {
    if entries != [] {
      var init := entries[..|entries| - 1];
      var last := entries[|entries| - 1];
      assert entries == init + [last];
      KeysFromDomain(init, decode);
      forall kid ensures HasUsable(entries, kid, decode) <==>
        HasUsable(init, kid, decode) || (last.kid == kid && KeyOf(last, decode).Some?)
      {
        HasUsableSnoc(init, last, kid, decode);
      }
    }
  }

  /** The key kept for a kid is the one from the last entry for it that yields a key. */
  lemma {:induction false} KeysFromLastWins(entries: seq<JwkEntry>, i: nat, decode: string -> Option<seq<byte>>)
    requires i < |entries| && KeyOf(entries[i], decode).Some?
    requires forall j :: i < j < |entries| && entries[j].kid == entries[i].kid ==> KeyOf(entries[j], decode).None?
    ensures entries[i].kid in KeysFrom(entries, decode)
    ensures KeysFrom(entries, decode)[entries[i].kid] == KeyOf(entries[i], decode).value
  {
    if i < |entries| - 1 {
      var init := entries[..|entries| - 1];
      assert init[i] == entries[i];
      forall j | i < j < |init| && init[j].kid == init[i].kid ensures KeyOf(init[j], decode).None? {
        assert init[j] == entries[j];
      }
      KeysFromLastWins(init, i, decode);
    }
  }

  /** Entries that differ only in kty, alg and use give the same key map. */
  lemma {:induction false} KeysFromIgnoresKtyAlgUse(a: seq<JwkEntry>, b: seq<JwkEntry>, decode: string -> Option<seq<byte>>)
    requires |a| == |b|
    requires forall i :: 0 <= i < |a| ==> a[i].kid == b[i].kid && a[i].n == b[i].n && a[i].e == b[i].e
    ensures KeysFrom(a, decode) == KeysFrom(b, decode)
  {
    if a != [] {
      var n := |a| - 1;
      KeysFromIgnoresKtyAlgUse(a[..n], b[..n], decode);
      assert KeyOf(a[n], decode) == KeyOf(b[n], decode);
    }
  }

  /** fetchJWKS: the key map of a key set response, or why there is none. */
  function FetchOutcome(resp: JwksResponse, decode: string -> Option<seq<byte>>): Result<map<string, PublicKey>, FetchError> {
    match resp
    case JwksUnreachable => Err(TransportFailed)
    case JwksAnswered(status, keys) =>
      if status != 200 then Err(BadStatus(status))
      else if keys.None? then Err(DecodeFailed)
      else
        var out := KeysFrom(keys.value, decode);
        if |out| == 0 then Err(NoKeysFound) else Ok(out)
  }

  /** A fetch succeeds exactly when a 200 response decodes and at least one entry yields a key. */
  lemma FetchSucceeds(resp: JwksResponse, decode: string -> Option<seq<byte>>)
    ensures FetchOutcome(resp, decode).Ok? <==>
      resp.JwksAnswered? && resp.status == 200 && resp.keys.Some? &&
      exists i :: 0 <= i < |resp.keys.value| && KeyOf(resp.keys.value[i], decode).Some?
    ensures FetchOutcome(resp, decode).Ok? ==>
      forall kid :: kid in FetchOutcome(resp, decode).value <==> HasUsable(resp.keys.value, kid, decode)
    ensures (resp.JwksAnswered? && resp.status == 200 && resp.keys.Some? &&
             forall i :: 0 <= i < |resp.keys.value| ==> KeyOf(resp.keys.value[i], decode).None?) ==>
      FetchOutcome(resp, decode) == Err(NoKeysFound)
  {
    if resp.JwksAnswered? && resp.keys.Some? {
      var entries := resp.keys.value;
      KeysFromDomain(entries, decode);
      var out := KeysFrom(entries, decode);
      if i :| 0 <= i < |entries| && KeyOf(entries[i], decode).Some? {
        assert entries[i].kid in out;
      }
      if |out| != 0 {
        var kid :| kid in out;
        assert HasUsable(entries, kid, decode);
      }
    }
  }

  /** The filtering loop of fetchJWKS, building the map entry by entry. */
  method FetchJWKS(resp: JwksResponse, decode: string -> Option<seq<byte>>) returns (r: Result<map<string, PublicKey>, FetchError>)
    ensures r == FetchOutcome(resp, decode)
  {
    if resp.JwksUnreachable? {
      return Err(TransportFailed);
    }
    if resp.status != 200 {
      return Err(BadStatus(resp.status));
    }
    if resp.keys.None? {
      return Err(DecodeFailed);
    }
    var entries := resp.keys.value;
    var out: map<string, PublicKey> := map[];
    var i := 0;
    while i < |entries|
      invariant 0 <= i <= |entries|
      invariant out == KeysFrom(entries[..i], decode)
    {
      var entry := entries[i];
      assert entries[..i + 1][..i] == entries[..i];
      var key := KeyOf(entry, decode);
      if key.Some? {
        out := out[entry.kid := key.value];
      }
      i := i + 1;
    }
    assert entries[..i] == entries;
    if |out| == 0 {
      return Err(NoKeysFound);
    }
    return Ok(out);
  }

  // ---------------------------------------------------------------------
  // The key cache

  /** The cached key map (None until the first successful fetch) and its expiry. */
  class JwksCache {
    var keysByKid: Option<map<string, PublicKey>>
    var expires: Time

    /** A new cache holds no keys. */
    constructor()
      ensures keysByKid == None
    {
      keysByKid := None;
      expires := 0;
    }

    /** The keys are fetched again when none are held or the expiry has passed. */
    predicate NeedsRefresh(now: Time)
      reads this
    {
      keysByKid.None? || now > expires
    }

    /**
     * keyForKID at time now, with resp the answer the key set endpoint would give
     * if asked. A successful refresh replaces the whole map and trusts it for 30
     * minutes; a failed one leaves the cache as it was.
     */
    method KeyForKID(kid: string, now: Time, resp: JwksResponse, decode: string -> Option<seq<byte>>)
      returns (r: Result<PublicKey, KeyError>)
      modifies this
      ensures old(NeedsRefresh(now)) && FetchOutcome(resp, decode).Err? ==>
        r == Err(FetchFailed(FetchOutcome(resp, decode).error)) &&
        keysByKid == old(keysByKid) && expires == old(expires)
      ensures old(NeedsRefresh(now)) && FetchOutcome(resp, decode).Ok? ==>
        keysByKid == Some(FetchOutcome(resp, decode).value) && expires == now + CacheLifetime
      ensures !old(NeedsRefresh(now)) ==> keysByKid == old(keysByKid) && expires == old(expires)
      ensures r.Ok? <==> keysByKid.Some? && kid in keysByKid.value && !(old(NeedsRefresh(now)) && FetchOutcome(resp, decode).Err?)
      ensures r.Ok? ==> r.value == keysByKid.value[kid]
      ensures r.Err? && !(old(NeedsRefresh(now)) && FetchOutcome(resp, decode).Err?) ==> r == Err(UnknownKid)
      ensures !(old(NeedsRefresh(now)) && FetchOutcome(resp, decode).Err?) ==> !NeedsRefresh(now)
    {
      if keysByKid.None? || now > expires {
        var fetched := FetchJWKS(resp, decode);
        if fetched.Err? {
          return Err(FetchFailed(fetched.error));
        }
        keysByKid := Some(fetched.value);
        expires := now + CacheLifetime;
      }
      var keys := keysByKid.value;
      if kid !in keys {
        return Err(UnknownKid);
      }
      return Ok(keys[kid]);
    }
  }

  // ---------------------------------------------------------------------
  // Token verification

  /**
   * What the JWT library makes of a non-blank token before asking for its key:
   * Malformed when it cannot be parsed or is not RS256, otherwise the kid from
   * its header ("" when missing or not a string) and its claims.
   */
  datatype TokenView = Malformed | Decoded(kid: string, claims: Claims)

  datatype TokenFailure =
    | Unparsable
    | MissingKid                  // "missing kid"
    | KeyUnavailable(cause: KeyError)
    | Rejected                    // bad signature, issuer, audience or expiry

  datatype VerifyError =
    | MissingToken                // "missing oidc token"
    | InvalidToken(cause: TokenFailure) // "invalid oidc token: ..."
    | MissingClaims               // "missing required oidc claims"

  /** The claims a publish needs: repository, ref and commit sha. */
  predicate HasRequiredClaims(c: Claims) {
    c.repository != "" && c.ref != "" && c.sha != ""
  }

  datatype WorkflowError =
    | NotConfigured               // "verify workflow not configured"
    | RequestFailed(reason: string) // the client's error
    | ApiError(statusLine: string) // "github api error: <status>"
    | BadPayload(reason: string)  // the JSON decoder's error
    | NotPassed                   // "verify workflow did not pass"

  /** The GitHub API request that VerifyWorkflow sends. */
  datatype ApiRequest = ApiRequest(url: string, headers: map<string, string>)

  /** The GitHub API's answer: the decoded total_count (0 when absent), or the decoder's error. */
  datatype ApiResponse =
    | ApiUnreachable(reason: string)
    | ApiAnswered(status: int, statusLine: string, totalCount: Result<int, string>)

  /** The workflow-runs query for a commit: one successful run of the workflow at that sha. */
  function RunsUrl(repository: string, workflow: string, sha: string): string {
    "https://api.github.com/repos/" + repository + "/actions/workflows/" + workflow
      + "/runs?per_page=1&status=success&head_sha=" + sha
  }

  /** The request headers: Authorization only when an API token is configured. */
  function ApiHeaders(githubToken: string): (h: map<string, string>)
    ensures "Accept" in h && "User-Agent" in h
    ensures h["Accept"] == "application/vnd.github+json" && h["User-Agent"] == "homenavi-marketplace"
    ensures "Authorization" in h <==> !IsBlank(githubToken)
    ensures "Authorization" in h ==> h["Authorization"] == "Bearer " + TrimSpace(githubToken)
    ensures h.Keys <= {"Accept", "User-Agent", "Authorization"}
  {
    var base := map["Accept" := "application/vnd.github+json", "User-Agent" := "homenavi-marketplace"];
    if TrimSpace(githubToken) != "" then base["Authorization" := "Bearer " + TrimSpace(githubToken)] else base
  }

  /** The OIDC verifier, configured once from the service configuration. */
  class Verifier {
    const issuer: string
    const audience: string
    const verifyWorkflow: string
    const githubToken: string
    const jwks: JwksCache

    /** NewGitHubOIDCVerifier: settings copied from the configuration, an empty key cache. */
    constructor(cfg: Config)
      ensures issuer == cfg.oidcIssuer && audience == cfg.oidcAudience
      ensures verifyWorkflow == cfg.oidcVerifyWorkflow && githubToken == cfg.githubApiToken
      ensures fresh(jwks) && jwks.keysByKid == None
    {
      issuer := cfg.oidcIssuer;
      audience := cfg.oidcAudience;
      verifyWorkflow := cfg.oidcVerifyWorkflow;
      githubToken := cfg.githubApiToken;
      jwks := new JwksCache();
    }

    /**
     * Verify: the checks before and after parsing. `view` is the parsed token,
     * `accepts` the library's verdict on signature and registered claims under the
     * key, `now` the time and `resp` the key set endpoint's answer should the
     * cache refresh.
     */
    method Verify(token: string, view: TokenView, accepts: PublicKey -> bool, now: Time,
                  resp: JwksResponse, decode: string -> Option<seq<byte>>)
      returns (r: Result<Claims, VerifyError>)
      modifies jwks
      ensures IsBlank(token) ==> r == Err(MissingToken) && unchanged(jwks)
      ensures !IsBlank(token) && view.Malformed? ==> r == Err(InvalidToken(Unparsable)) && unchanged(jwks)
      ensures !IsBlank(token) && view.Decoded? && view.kid == "" ==>
        r == Err(InvalidToken(MissingKid)) && unchanged(jwks)
      ensures r.Ok? <==>
        && !IsBlank(token) && view.Decoded? && view.kid != ""
        && jwks.keysByKid.Some? && view.kid in jwks.keysByKid.value
        && !(old(jwks.NeedsRefresh(now)) && FetchOutcome(resp, decode).Err?)
        && accepts(jwks.keysByKid.value[view.kid])
        && HasRequiredClaims(view.claims)
      ensures r.Ok? ==> r.value == view.claims
      ensures !IsBlank(token) && view.Decoded? && view.kid != "" ==>
        if old(jwks.NeedsRefresh(now)) && FetchOutcome(resp, decode).Ok? then
          jwks.keysByKid == Some(FetchOutcome(resp, decode).value) && jwks.expires == now + CacheLifetime
        else
          jwks.keysByKid == old(jwks.keysByKid) && jwks.expires == old(jwks.expires)
      ensures r == Err(MissingClaims) ==> view.Decoded? && !HasRequiredClaims(view.claims)
    {
      if TrimSpace(token) == "" {
        return Err(MissingToken);
      }
      if view.Malformed? {
        return Err(InvalidToken(Unparsable));
      }
      if view.kid == "" {
        return Err(InvalidToken(MissingKid));
      }
      var key := jwks.KeyForKID(view.kid, now, resp, decode);
      if key.Err? {
        return Err(InvalidToken(KeyUnavailable(key.error)));
      }
      if !accepts(key.value) {
        return Err(InvalidToken(Rejected));
      }
      var claims := view.claims;
      if claims.repository == "" || claims.ref == "" || claims.sha == "" {
        return Err(MissingClaims);
      }
      return Ok(claims);
    }

    /**
     * VerifyWorkflow: the request it would send (none when no workflow is
     * configured) and whether the configured workflow has a successful run at
     * the token's commit, given the API's answer.
     */
    function VerifyWorkflow(claims: Claims, resp: ApiResponse): (r: (Option<ApiRequest>, Outcome<WorkflowError>))
      ensures verifyWorkflow == "" ==> r.0 == None && r.1 == Fail(NotConfigured)
      ensures verifyWorkflow != "" ==>
        r.0 == Some(ApiRequest(RunsUrl(claims.repository, verifyWorkflow, claims.sha), ApiHeaders(githubToken)))
      ensures r.1 == Pass <==>
        verifyWorkflow != "" && resp.ApiAnswered? && resp.status == 200 &&
        resp.totalCount.Ok? && resp.totalCount.value >= 1
      ensures verifyWorkflow != "" && resp.ApiAnswered? && resp.status != 200 ==>
        r.1 == Fail(ApiError(resp.statusLine))
    {
      if verifyWorkflow == "" then (None, Fail(NotConfigured))
      else
        var request := ApiRequest(RunsUrl(claims.repository, verifyWorkflow, claims.sha), ApiHeaders(githubToken));
        var outcome :=
          match resp
          case ApiUnreachable(reason) => Fail(RequestFailed(reason))
          case ApiAnswered(status, statusLine, totalCount) =>
            if status != 200 then Fail(ApiError(statusLine))
            else if totalCount.Err? then Fail(BadPayload(totalCount.error))
            else if totalCount.value < 1 then Fail(NotPassed)
            else Pass;
        (Some(request), outcome)
    }
  }

  /** The text of a workflow failure, as the handler sends it back. */
  function WorkflowMessage(e: WorkflowError): string {
    match e
    case NotConfigured => "verify workflow not configured"
    case RequestFailed(reason) => reason
    case ApiError(statusLine) => "github api error: " + statusLine
    case BadPayload(reason) => reason
    case NotPassed => "verify workflow did not pass"
  }
}
