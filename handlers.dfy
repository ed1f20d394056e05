/**
 * The publish handlers: the string rules a publish request, a compose file and
 * the OIDC claims must pass, and the order in which PublishOIDC and Publish
 * apply them before the store is written.
 *
 * The OIDC verifier, the compose-file download and the YAML parser are inputs:
 * the verifier as the verdicts its two calls return, the download as its
 * outcome, and the parser as a partial function from text to the services map
 * (service name to its image).
 */
module Handlers {
  import opened Wrappers
  import opened Strings
  import opened Sequences
  import opened Models
  import opened Store
  import Oidc

  // ---------------------------------------------------------------------
  // Responses

  datatype ResponseBody = ErrorBody(message: string) | ItemBody(item: Integration)

  /** The status code and body the handler writes. */
  datatype Response = Response(status: int, body: ResponseBody)

  function Failure(status: int, message: string): Response {
    Response(status, ErrorBody(message))
  }

  /** The response for a failed store publish: 409 for the two conflicts, 500 otherwise. */
  function StoreErrorResponse(e: StoreError): (resp: Response)
    ensures resp.status == 409 <==> e == ListenPathInUse || e == NameInUse
    ensures resp.status != 409 ==> resp == Failure(500, "failed to publish integration")
  {
    match e
    case ListenPathInUse => Failure(409, "listen_path already used")
    case NameInUse => Failure(409, "name already used")
    case _ => Failure(500, "failed to publish integration")
  }

  // ---------------------------------------------------------------------
  // Compose file rules

  const ComposeFileName := "docker-compose.integration.yml"

  /** The text after the last '/', or the whole path when there is none. */
  function BaseName(path: string): string {
    var idx := LastIndexOf(path, '/');
    if idx >= 0 then path[idx + 1..] else path
  }

  /** isIntegrationComposeFile: a non-empty path whose last segment is the integration compose file. */
  function IsIntegrationComposeFile(path: string): bool {
    path != "" && BaseName(path) == ComposeFileName
  }

  /** A path whose last segment is n is n itself or ends in "/" and n. */
  lemma BaseNameIsOnlyIf(path: string, n: string)
    requires path != "" && BaseName(path) == n
    ensures path == n || HasSuffix(path, "/" + n)
  {
    var idx := LastIndexOf(path, '/');
    if idx >= 0 {
      assert path[idx + 1..] == n;
      assert path[idx..] == [path[idx]] + path[idx + 1..];
      assert path[|path| - |"/" + n|..] == path[idx..];
    }
  }

  /** A path ending in "/" and a slash-free n has n as its last segment. */
  lemma BaseNameOfSuffix(path: string, n: string)
    requires '/' !in n && HasSuffix(path, "/" + n)
    ensures BaseName(path) == n
  {
    var at := |path| - |n| - 1;
    assert path[at..] == "/" + n;
    assert path[at] == '/';
    assert LastIndexOf(path, '/') == at;
    assert path[at + 1..] == path[at..][1..];
  }

  /** A slash-free name is its own last segment. */
  lemma BaseNameOfName(n: string)
    requires '/' !in n
    ensures BaseName(n) == n
  {
    assert LastIndexOf(n, '/') < 0;
  }

  /** A path's last segment is a slash-free name n exactly when the path is n or ends in "/" and n. */
  lemma BaseNameIs(path: string, n: string)
    requires n != "" && '/' !in n
    ensures path != "" && BaseName(path) == n <==> path == n || HasSuffix(path, "/" + n)
  {
    if path != "" && BaseName(path) == n {
      BaseNameIsOnlyIf(path, n);
    }
    if HasSuffix(path, "/" + n) {
      BaseNameOfSuffix(path, n);
    } else if path == n {
      BaseNameOfName(n);
    }
  }

  /** Accepted paths are exactly the bare file name and the paths ending in "/" and the file name. */
  lemma IsIntegrationComposeFileIff(path: string)
    ensures IsIntegrationComposeFile(path) <==> path == ComposeFileName || HasSuffix(path, "/" + ComposeFileName)
  {
    var n := ComposeFileName;
    assert '/' !in n by {
      forall i | 0 <= i < |n| ensures n[i] != '/' { }
    }
    BaseNameIs(path, n);
  }

  /** The outcome of downloading the compose file: the body read, or None when reading failed. */
  datatype ComposeFetch =
    | FetchFailed
    | Fetched(status: int, body: Option<string>)

  /** The services map of a compose document (name to image), None when the text is not valid YAML. */
  type ComposeParser = string -> Option<map<string, string>>

  /**
   * The outcomes validateComposeFileContent may produce. Go visits the services
   * map in an unspecified order, so when several services lack an image, any one
   * of them may be the one named.
   */
  predicate ComposeContentOutcome(content: string, services: Option<map<string, string>>, r: Outcome<string>) {
    if !Contains(content, "INTEGRATIONS_ROOT") then r == Fail("compose_file must reference INTEGRATIONS_ROOT")
    else if Contains(content, "HOMENAVI_ROOT") then r == Fail("compose_file must not reference HOMENAVI_ROOT")
    else if services.None? then r == Fail("compose_file invalid")
    else if services.value == map[] then r == Fail("compose_file must define services")
    else if exists name :: name in services.value && IsBlank(services.value[name]) then
      exists name :: name in services.value && IsBlank(services.value[name])
        && r == Fail("compose_file missing image for service: " + name)
    else r == Pass
  }

  /** validateComposeFileContent, visiting the services in whatever order the map yields them. */
  method ValidateComposeFileContent(content: string, services: Option<map<string, string>>) returns (r: Outcome<string>)
    ensures ComposeContentOutcome(content, services, r)
  {
    if !Contains(content, "INTEGRATIONS_ROOT") {
      return Fail("compose_file must reference INTEGRATIONS_ROOT");
    }
    if Contains(content, "HOMENAVI_ROOT") {
      return Fail("compose_file must not reference HOMENAVI_ROOT");
    }
    if services.None? {
      return Fail("compose_file invalid");
    }
    var m := services.value;
    if m == map[] {
      return Fail("compose_file must define services");
    }
    var remaining := m.Keys;
    while remaining != {}
      invariant remaining <= m.Keys
      invariant forall name :: name in m && name !in remaining ==> !IsBlank(m[name])
      decreases remaining
    {
      var name :| name in remaining;
      if TrimSpace(m[name]) == "" {
        return Fail("compose_file missing image for service: " + name);
      }
      remaining := remaining - {name};
    }
    return Pass;
  }

  /** The outcomes of validateComposeFileURL for a download outcome and a parser. */
  predicate ComposeUrlOutcome(composeFile: string, fetch: ComposeFetch, parse: ComposeParser, r: Outcome<string>) {
    var url := TrimSpace(composeFile);
    if url == "" then r == Fail("compose_file is required")
    else if !HasPrefix(url, "http://") && !HasPrefix(url, "https://") then r == Fail("compose_file must be a URL")
    else if !IsIntegrationComposeFile(url) then r == Fail("compose_file must point to docker-compose.integration.yml")
    else
      match fetch
      case FetchFailed => r == Fail("failed to fetch compose_file")
      case Fetched(status, body) =>
        if status < 200 || status >= 300 then r == Fail("compose_file fetch failed")
        else if body.None? then r == Fail("failed to read compose_file")
        else
          var content := TrimSpace(body.value);
          if content == "" then r == Fail("compose_file returned empty content")
          else ComposeContentOutcome(content, parse(content), r)
  }

  /** validateComposeFileURL: the URL rules, then the download, then the content rules. */
  method ValidateComposeFileURL(composeFile: string, fetch: ComposeFetch, parse: ComposeParser) returns (r: Outcome<string>)
    ensures ComposeUrlOutcome(composeFile, fetch, parse, r)
  {
    var url := TrimSpace(composeFile);
    if url == "" {
      return Fail("compose_file is required");
    }
    if !HasPrefix(url, "http://") && !HasPrefix(url, "https://") {
      return Fail("compose_file must be a URL");
    }
    if !IsIntegrationComposeFile(url) {
      return Fail("compose_file must point to docker-compose.integration.yml");
    }
    if fetch.FetchFailed? {
      return Fail("failed to fetch compose_file");
    }
    if fetch.status < 200 || fetch.status >= 300 {
      return Fail("compose_file fetch failed");
    }
    if fetch.body.None? {
      return Fail("failed to read compose_file");
    }
    var content := TrimSpace(fetch.body.value);
    if content == "" {
      return Fail("compose_file returned empty content");
    }
    r := ValidateComposeFileContent(content, parse(content));
  }

  // ---------------------------------------------------------------------
  // The publish request

  /** The required fields of a publish request. */
  datatype Field = Id | Name | Version | ListenPath | ManifestUrl | Image | ComposeFile

  /** The required fields, in the order they are reported. */
  const RequiredFields: seq<Field> := [Id, Name, Version, ListenPath, ManifestUrl, Image, ComposeFile]

  /** The name a field is reported under. */
  function FieldName(f: Field): string {
    match f
    case Id => "id"
    case Name => "name"
    case Version => "version"
    case ListenPath => "listen_path"
    case ManifestUrl => "manifest_url"
    case Image => "image"
    case ComposeFile => "compose_file"
  }

  /** The request's value of a field. */
  function FieldValue(req: PublishRequest, f: Field): string {
    match f
    case Id => req.id
    case Name => req.name
    case Version => req.version
    case ListenPath => req.listenPath
    case ManifestUrl => req.manifestUrl
    case Image => req.image
    case ComposeFile => req.composeFile
  }

  /** The names of the fields among fs that are blank once trimmed, in the order of fs. */
  function MissingAmong(req: PublishRequest, fs: seq<Field>): seq<string> {
    if fs == [] then []
    else
      var rest := MissingAmong(req, fs[..|fs| - 1]);
      var f := fs[|fs| - 1];
      if IsBlank(FieldValue(req, f)) then rest + [FieldName(f)] else rest
  }

  /** The required fields that are missing. */
  function MissingFields(req: PublishRequest): seq<string> {
    MissingAmong(req, RequiredFields)
  }

  /** The missing fields are the blank ones among the given fields, named, in their order. */
  lemma {:induction false} MissingAmongIsFilter(req: PublishRequest, fs: seq<Field>)
    ensures MissingAmong(req, fs) == Map(Filter(fs, (f: Field) => IsBlank(FieldValue(req, f))), FieldName)
  {
    if fs != [] {
      var keep := (f: Field) => IsBlank(FieldValue(req, f));
      var init := fs[..|fs| - 1];
      var f := fs[|fs| - 1];
      assert fs == init + [f];
      MissingAmongIsFilter(req, init);
      FilterAppend(init, [f], keep);
      var last := Filter([f], keep);
      assert last == if keep(f) then [f] else [];
      assert Map(last, FieldName) == if keep(f) then [FieldName(f)] else [];
      MapAppend(Filter(init, keep), last, FieldName);
    }
  }

  /** One more field adds its name when it is blank. */
  lemma MissingSnoc(req: PublishRequest, fs: seq<Field>, f: Field)
    ensures MissingAmong(req, fs + [f]) ==
      MissingAmong(req, fs) + (if IsBlank(FieldValue(req, f)) then [FieldName(f)] else [])
  {
    assert (fs + [f])[..|fs|] == fs;
  }

  /** "missing required fields: " followed by the missing names joined by ", ". */
  function MissingMessage(missing: seq<string>): string {
    "missing required fields: " + Join(missing, ", ")
  }

  /**
   * The outcomes of validatePublishRequest. The trimmed values are only used for
   * the checks: the request itself is passed on untrimmed.
   */
  predicate ValidationOutcome(req: PublishRequest, fetch: ComposeFetch, parse: ComposeParser, r: Outcome<string>) {
    var missing := MissingFields(req);
    if missing != [] then r == Fail(MissingMessage(missing))
    else if |req.images| > 5 then r == Fail("images must be <= 5 items")
    else if !IsIntegrationComposeFile(TrimSpace(req.composeFile)) then
      r == Fail("compose_file must point to docker-compose.integration.yml")
    else ComposeUrlOutcome(TrimSpace(req.composeFile), fetch, parse, r)
  }

  /** The appends of validatePublishRequest: one name per blank field, in the fixed order. */
  method CollectMissing(req: PublishRequest) returns (missing: seq<string>)
    ensures missing == MissingFields(req)
  {
    var fs := RequiredFields;
    missing := [];
    for i := 0 to |fs|
      invariant missing == MissingAmong(req, fs[..i])
    {
      var f := fs[i];
      if TrimSpace(FieldValue(req, f)) == "" {
        missing := missing + [FieldName(f)];
      }
      MissingSnoc(req, fs[..i], f);
      assert fs[..i + 1] == fs[..i] + [f];
    }
    assert fs[..|fs|] == fs;
  }

  /** validatePublishRequest: the missing-field list, the image cap, then the compose file. */
  method ValidatePublishRequest(req: PublishRequest, fetch: ComposeFetch, parse: ComposeParser) returns (r: Outcome<string>)
    ensures ValidationOutcome(req, fetch, parse, r)
  {
    var missing := CollectMissing(req);
    if |missing| > 0 {
      return Fail(MissingMessage(missing));
    }
    if |req.images| > 5 {
      return Fail("images must be <= 5 items");
    }
    var composeFile := TrimSpace(req.composeFile);
    if !IsIntegrationComposeFile(composeFile) {
      return Fail("compose_file must point to docker-compose.integration.yml");
    }
    r := ValidateComposeFileURL(composeFile, fetch, parse);
  }

  /**
   * Whether validation passes does not depend on the order the services are
   * visited in: an outcome is Pass exactly when Pass is a possible outcome.
   */
  lemma ValidationPassIsDetermined(req: PublishRequest, fetch: ComposeFetch, parse: ComposeParser, r: Outcome<string>)
    requires ValidationOutcome(req, fetch, parse, r)
    ensures r == Pass <==> ValidationOutcome(req, fetch, parse, Pass)
  {
    var missing := MissingFields(req);
    var url := TrimSpace(req.composeFile);
    if missing == [] && |req.images| <= 5 && IsIntegrationComposeFile(url) {
      assert ComposeUrlOutcome(url, fetch, parse, r);
      ComposeUrlPassIsDetermined(url, fetch, parse, r);
    }
  }

  lemma ComposeUrlPassIsDetermined(composeFile: string, fetch: ComposeFetch, parse: ComposeParser, r: Outcome<string>)
    requires ComposeUrlOutcome(composeFile, fetch, parse, r)
    ensures r == Pass <==> ComposeUrlOutcome(composeFile, fetch, parse, Pass)
  {
    var url := TrimSpace(composeFile);
    if url != "" && (HasPrefix(url, "http://") || HasPrefix(url, "https://")) && IsIntegrationComposeFile(url)
      && fetch.Fetched? && 200 <= fetch.status < 300 && fetch.body.Some? && TrimSpace(fetch.body.value) != ""
    {
      var content := TrimSpace(fetch.body.value);
      assert ComposeContentOutcome(content, parse(content), r);
    }
  }

  /** Content that passes names INTEGRATIONS_ROOT, not HOMENAVI_ROOT, and parses to services that all have an image. */
  lemma ComposeContentPassMeans(content: string, services: Option<map<string, string>>)
    requires ComposeContentOutcome(content, services, Pass)
    ensures Contains(content, "INTEGRATIONS_ROOT") && !Contains(content, "HOMENAVI_ROOT")
    ensures services.Some? && services.value != map[]
    ensures forall name :: name in services.value ==> !IsBlank(services.value[name])
  {
  }

  /**
   * A compose file that passes is an http(s) URL to the integration compose file
   * whose download succeeded with content that passes.
   */
  lemma ComposeUrlPassMeans(composeFile: string, fetch: ComposeFetch, parse: ComposeParser)
    requires ComposeUrlOutcome(composeFile, fetch, parse, Pass)
    ensures var url := TrimSpace(composeFile);
      && IsIntegrationComposeFile(url)
      && (HasPrefix(url, "http://") || HasPrefix(url, "https://"))
      && fetch.Fetched? && 200 <= fetch.status < 300 && fetch.body.Some?
    ensures var content := TrimSpace(fetch.body.value);
      && Contains(content, "INTEGRATIONS_ROOT") && !Contains(content, "HOMENAVI_ROOT")
      && parse(content).Some? && parse(content).value != map[]
      && forall name :: name in parse(content).value ==> !IsBlank(parse(content).value[name])
  {
    var content := TrimSpace(fetch.body.value);
    ComposeContentPassMeans(content, parse(content));
  }

  /** A request that passes validation has no blank required field. */
  lemma ValidatedFields(req: PublishRequest, fetch: ComposeFetch, parse: ComposeParser)
    requires ValidationOutcome(req, fetch, parse, Pass)
    ensures forall f :: f in RequiredFields ==> !IsBlank(FieldValue(req, f))
  {
    assert MissingFields(req) == [];
    MissingAmongIsFilter(req, RequiredFields);
    var keep := (f: Field) => IsBlank(FieldValue(req, f));
    assert Filter(RequiredFields, keep) == [];
  }

  /** A request that passes validation has every required field, at most five images and a sound compose file. */
  lemma ValidatedRequest(req: PublishRequest, fetch: ComposeFetch, parse: ComposeParser)
    requires ValidationOutcome(req, fetch, parse, Pass)
    ensures forall f :: f in RequiredFields ==> !IsBlank(FieldValue(req, f))
    ensures |req.images| <= 5
    ensures var url := TrimSpace(req.composeFile);
      && IsIntegrationComposeFile(url)
      && (HasPrefix(url, "http://") || HasPrefix(url, "https://"))
      && fetch.Fetched? && 200 <= fetch.status < 300 && fetch.body.Some?
    ensures var content := TrimSpace(fetch.body.value);
      && Contains(content, "INTEGRATIONS_ROOT") && !Contains(content, "HOMENAVI_ROOT")
      && parse(content).Some? && parse(content).value != map[]
      && forall name :: name in parse(content).value ==> !IsBlank(parse(content).value[name])
  {
    ValidatedFields(req, fetch, parse);
    var url := TrimSpace(req.composeFile);
    assert ComposeUrlOutcome(url, fetch, parse, Pass);
    ComposeUrlPassMeans(url, fetch, parse);
    TrimIdempotent(req.composeFile, IsSpace);
  }

  // ---------------------------------------------------------------------
  // Token and claims

  /**
   * bearerToken: the trimmed Authorization header must start, ignoring case,
   * with "bearer "; the token is the trimmed rest.
   */
  function BearerToken(authorization: string): Result<string, string> {
    var value := TrimSpace(authorization);
    if value == "" then Err("missing authorization header")
    else if !HasPrefix(ToLower(value), "bearer ") then Err("invalid authorization header")
    else
      var token := TrimSpace(value[7..]);
      if token == "" then Err("missing bearer token") else Ok(token)
  }

  /**
   * The "missing bearer token" error cannot happen: the trimmed header does not
   * end in white space, so whatever follows "bearer " is not blank. A bearer
   * header yields the trimmed text after the scheme.
   */
  lemma BearerTokenNeverMissing(authorization: string)
    ensures BearerToken(authorization) != Err("missing bearer token")
    ensures BearerToken(authorization).Ok? ==>
      var value := TrimSpace(authorization);
      |value| > 7 && BearerToken(authorization).value == TrimSpace(value[7..]) &&
      BearerToken(authorization).value != ""
  {
    var value := TrimSpace(authorization);
    TrimSpaceTrimmed(authorization);
    if value != "" && HasPrefix(ToLower(value), "bearer ") {
      assert LowerChar(value[6]) == ToLower(value)[6] == ' ';
      assert value[6] == ' ';
      assert |value| > 7;
      var rest := value[7..];
      assert rest[|rest| - 1] == value[|value| - 1];
      TrimEmpty(rest, IsSpace);
    }
  }

  /** The scheme is matched without regard to case: "<any casing of bearer> <token>" yields the token. */
  lemma BearerTokenAccepts(scheme: string, token: string)
    requires ToLower(scheme) == "bearer"
    requires token != "" && IsTrimmed(token)
    ensures BearerToken(scheme + " " + token) == Ok(token)
  {
    var value := scheme + " " + token;
    assert |scheme| == 6;
    assert LowerChar(scheme[0]) == ToLower(scheme)[0] == 'b';
    assert value[0] == scheme[0];
    assert value[|value| - 1] == token[|token| - 1];
    TrimmedWord(value);
    assert ToLower(value)[..7] == ToLower(scheme) + " ";
    assert value[7..] == token;
    TrimmedWord(token);
  }

  /**
   * The two rejections: a header that is blank once trimmed is a missing one, and
   * a header whose trimmed value does not start, ignoring case, with "bearer " is
   * an invalid one.
   */
  lemma BearerTokenRejects(authorization: string)
    ensures IsBlank(authorization) ==> BearerToken(authorization) == Err("missing authorization header")
    ensures !IsBlank(authorization) && !HasPrefix(ToLower(TrimSpace(authorization)), "bearer ") ==>
      BearerToken(authorization) == Err("invalid authorization header")
  {
  }

  const TagRefPrefix := "refs/tags/"

  /**
   * tagFromClaims: a tag ref, its non-blank tag name, and that name starting with
   * the configured prefix unless the prefix is blank.
   */
  function TagFromClaims(claims: Oidc.Claims, prefix: string): (r: Result<string, string>)
    ensures r.Ok? <==>
      && ToLower(claims.refType) == "tag"
      && HasPrefix(claims.ref, TagRefPrefix)
      && !IsBlank(claims.ref[|TagRefPrefix|..])
      && (IsBlank(prefix) || HasPrefix(claims.ref[|TagRefPrefix|..], prefix))
    ensures r.Ok? ==> TagRefPrefix + r.value == claims.ref
  {
    if ToLower(claims.refType) != "tag" then Err("oidc ref_type must be tag")
    else if !HasPrefix(claims.ref, TagRefPrefix) then Err("oidc ref must be a tag")
    else
      var tag := TrimPrefix(claims.ref, TagRefPrefix);
      if TrimSpace(tag) == "" then Err("oidc tag missing")
      else if TrimSpace(prefix) != "" && !HasPrefix(tag, prefix) then Err("tag must start with configured prefix")
      else Ok(tag)
  }

  /** The claims of the handler test: "refs/tags/v1.2.3" with prefix "v" gives "v1.2.3". */
  lemma TagFromClaimsExample()
    ensures TagFromClaims(Oidc.Claims("", "", "refs/tags/v1.2.3", "tag", "", "", "", "", 0, 0), "v") == Ok("v1.2.3")
  {
    var ref := "refs/tags/v1.2.3";
    assert ToLower("tag") == "tag";
    assert ref[..10] == TagRefPrefix;
    assert ref[10..] == "v1.2.3";
    assert TrimSpace("v1.2.3") == "v1.2.3";
    assert TrimSpace("v") == "v";
  }

  /** normalizeRepoURL: trimmed, one ".git" then one "/" removed from the end, lowercased. */
  function NormalizeRepoURL(value: string): string {
    ToLower(TrimSuffix(TrimSuffix(TrimSpace(value), ".git"), "/"))
  }

  /**
   * On a trimmed URL a trailing ".git" is dropped (and then one "/" before it),
   * a trailing "/" is dropped when there is no ".git", and the rest is lowercased.
   */
  lemma NormalizeRepoURLStripsSuffix(u: string)
    ensures IsTrimmed(u + ".git") ==> NormalizeRepoURL(u + ".git") == ToLower(TrimSuffix(u, "/"))
    ensures IsTrimmed(u + "/") && !HasSuffix(u + "/", ".git") ==> NormalizeRepoURL(u + "/") == ToLower(u)
  {
    var g := u + ".git";
    if IsTrimmed(g) {
      TrimmedIsFixpoint(g);
      assert HasSuffix(g, ".git");
      assert g[..|g| - 4] == u;
    }
    var t := u + "/";
    if IsTrimmed(t) && !HasSuffix(t, ".git") {
      TrimmedIsFixpoint(t);
      assert HasSuffix(t, "/");
      assert t[..|t| - 1] == u;
    }
  }

  /**
   * The ".git" suffix is removed before the slash, so "b.git/" keeps its ".git"
   * and normalising twice differs from normalising once.
   */
  lemma NormalizeRepoURLNotIdempotent()
    ensures NormalizeRepoURL("b.git/") == "b.git"
    ensures NormalizeRepoURL(NormalizeRepoURL("b.git/")) == "b"
  {
    TrimmedWord("b.git/");
    assert !HasSuffix("b.git/", ".git");
    assert "b.git/"[..5] == "b.git";
    TrimmedWord("b.git");
    assert "b.git"[..1] == "b";
  }

  /** The prefix a manifest URL must have: the raw file tree of the repository at the tag. */
  function RawBase(repo: string, tag: string): string {
    "https://raw.githubusercontent.com/" + repo + "/" + tag + "/"
  }

  /** validateOIDCRequest: the request must name the repository and tag the token was issued for. */
  function ValidateOIDCRequest(req: PublishRequest, claims: Oidc.Claims, tag: string): (r: Outcome<string>)
    ensures IsBlank(claims.repository) ==> r == Fail("oidc repository claim missing")
    ensures r == Pass <==>
      var repo := TrimSpace(claims.repository);
      && repo != ""
      && req.version == tag && req.releaseTag == tag
      && NormalizeRepoURL(req.repoUrl) != "" && NormalizeRepoURL(req.repoUrl) == NormalizeRepoURL("https://github.com/" + repo)
      && HasPrefix(req.manifestUrl, RawBase(repo, tag))
  {
    var repo := TrimSpace(claims.repository);
    if repo == "" then Fail("oidc repository claim missing")
    else if req.version != tag then Fail("version must match the tag")
    else if req.releaseTag != tag then Fail("release_tag must match the tag")
    else
      var repoURL := NormalizeRepoURL(req.repoUrl);
      if repoURL == "" || repoURL != NormalizeRepoURL("https://github.com/" + repo) then
        Fail("repo_url must match the GitHub repository")
      else if !HasPrefix(req.manifestUrl, RawBase(repo, tag)) then
        Fail("manifest_url must point to the tag in the GitHub repo")
      else Pass
  }

  /**
   * A request bound to its own repository and tag is accepted: version and release
   * tag equal the tag, the repository URL is the repository's GitHub URL, and the
   * manifest lies under the repository's raw tree at the tag.
   */
  lemma ValidateOIDCRequestAcceptsOwnRepository(req: PublishRequest, claims: Oidc.Claims, tag: string)
    requires claims.repository != "" && IsTrimmed(claims.repository)
    requires req.version == tag && req.releaseTag == tag
    requires req.repoUrl == "https://github.com/" + claims.repository
    requires HasPrefix(req.manifestUrl, RawBase(claims.repository, tag))
    ensures ValidateOIDCRequest(req, claims, tag) == Pass
  {
    var repo := claims.repository;
    TrimmedWord(repo);
    var url := "https://github.com/" + repo;
    assert url[|url| - 1] == repo[|repo| - 1];
    TrimmedWord(url);
    var cut := TrimSuffix(TrimSuffix(url, ".git"), "/");
    assert |cut| >= |url| - 5 > 0;
  }

  /**
   * The mismatch of the OIDC handler tests: a token for org/app with a request
   * naming the repository https://github.com/org/other is refused on the
   * repository URL.
   */
  lemma ValidateOIDCRequestRejectsOtherRepository(req: PublishRequest, claims: Oidc.Claims)
    requires claims.repository == "org/app"
    requires req.version == "v1.0.0" && req.releaseTag == "v1.0.0"
    requires req.repoUrl == "https://github.com/org/other"
    ensures ValidateOIDCRequest(req, claims, "v1.0.0") == Fail("repo_url must match the GitHub repository")
  {
    var repo := "org/app";
    TrimmedWord(repo);
    var good := "https://github.com/" + repo;
    TrimmedWord(good);
    assert !HasSuffix(good, ".git") && !HasSuffix(good, "/");
    var bad := "https://github.com/org/other";
    TrimmedWord(bad);
    assert !HasSuffix(bad, ".git") && !HasSuffix(bad, "/");
    assert |NormalizeRepoURL(bad)| != |NormalizeRepoURL(good)|;
  }

  // ---------------------------------------------------------------------
  // The handlers

  /**
   * The checks of PublishOIDC before the body is read, in order: a verifier is
   * configured (503), a bearer token (401), the token verifies (401, generic
   * message), the verification workflow passed (403), the tag (400). The verifier
   * appears as the results its two calls give.
   */
  function AuthorizePublish(hasVerifier: bool, authorization: string,
                            verify: string -> Result<Oidc.Claims, string>,
                            verifyWorkflow: Oidc.Claims -> Outcome<string>,
                            tagPrefix: string): Result<(Oidc.Claims, string), Response>
  {
    if !hasVerifier then Err(Failure(503, "oidc verifier not configured"))
    else
      match BearerToken(authorization)
      case Err(m) => Err(Failure(401, m))
      case Ok(token) =>
        match verify(token)
        case Err(_) => Err(Failure(401, "invalid oidc token"))
        case Ok(claims) =>
          match verifyWorkflow(claims)
          case Fail(m) => Err(Failure(403, m))
          case Pass =>
            match TagFromClaims(claims, tagPrefix)
            case Err(m) => Err(Failure(400, m))
            case Ok(tag) => Ok((claims, tag))
  }

  /**
   * Each check runs only when the ones before it passed: without a bearer token
   * the verifier is not consulted, and when the token does not verify the
   * workflow is not consulted.
   */
  lemma AuthorizeShortCircuits(authorization: string,
                               verify1: string -> Result<Oidc.Claims, string>,
                               verify2: string -> Result<Oidc.Claims, string>,
                               workflow1: Oidc.Claims -> Outcome<string>,
                               workflow2: Oidc.Claims -> Outcome<string>,
                               tagPrefix: string)
    ensures AuthorizePublish(false, authorization, verify1, workflow1, tagPrefix) ==
      Err(Failure(503, "oidc verifier not configured"))
    ensures BearerToken(authorization).Err? ==>
      AuthorizePublish(true, authorization, verify1, workflow1, tagPrefix) ==
      AuthorizePublish(true, authorization, verify2, workflow2, tagPrefix) ==
      Err(Failure(401, BearerToken(authorization).error))
    ensures BearerToken(authorization).Ok? && verify1(BearerToken(authorization).value).Err? ==>
      AuthorizePublish(true, authorization, verify1, workflow1, tagPrefix) ==
      AuthorizePublish(true, authorization, verify1, workflow2, tagPrefix) ==
      Err(Failure(401, "invalid oidc token"))
  {
  }

  /** A passed gate means a bearer token whose claims verified, a passed workflow and a tag from the claims. */
  lemma AuthorizedMeans(hasVerifier: bool, authorization: string,
                        verify: string -> Result<Oidc.Claims, string>,
                        verifyWorkflow: Oidc.Claims -> Outcome<string>,
                        tagPrefix: string)
    ensures var gate := AuthorizePublish(hasVerifier, authorization, verify, verifyWorkflow, tagPrefix);
      gate.Ok? ==>
        && hasVerifier && BearerToken(authorization).Ok?
        && verify(BearerToken(authorization).value) == Ok(gate.value.0)
        && verifyWorkflow(gate.value.0) == Pass
        && TagFromClaims(gate.value.0, tagPrefix) == Ok(gate.value.1)
    ensures var gate := AuthorizePublish(hasVerifier, authorization, verify, verifyWorkflow, tagPrefix);
      gate.Err? ==> gate.error.status in {503, 401, 403, 400}
  {
  }

  /** The response of a store publish. */
  function PublishResponse(r: Result<Integration, StoreError>): Response {
    match r
    case Ok(item) => Response(200, ItemBody(item))
    case Err(e) => StoreErrorResponse(e)
  }

  /**
   * PublishOIDC. `body` is the decoded request (None when it is not valid JSON),
   * `fetch` and `parse` the compose-file download and parser, `now` the time.
   * The store is written only when every check passed, and then with
   * verified = true.
   */
  method PublishOIDC(store: IntegrationStore, hasVerifier: bool, authorization: string,
                     verify: string -> Result<Oidc.Claims, string>,
                     verifyWorkflow: Oidc.Claims -> Outcome<string>,
                     tagPrefix: string, body: Option<PublishRequest>,
                     fetch: ComposeFetch, parse: ComposeParser, now: Time)
    returns (resp: Response)
    requires store.Valid()
    modifies store
    ensures store.Valid() && store.events == old(store.events)
    ensures var gate := AuthorizePublish(hasVerifier, authorization, verify, verifyWorkflow, tagPrefix);
      gate.Err? ==> resp == gate.error && store.rows == old(store.rows)
    ensures var gate := AuthorizePublish(hasVerifier, authorization, verify, verifyWorkflow, tagPrefix);
      gate.Ok? && body.None? ==> resp == Failure(400, "invalid json") && store.rows == old(store.rows)
    ensures var gate := AuthorizePublish(hasVerifier, authorization, verify, verifyWorkflow, tagPrefix);
      gate.Ok? && body.Some? && !ValidationOutcome(body.value, fetch, parse, Pass) ==>
        resp.status == 400 && resp.body.ErrorBody? &&
        ValidationOutcome(body.value, fetch, parse, Fail(resp.body.message)) && store.rows == old(store.rows)
    ensures var gate := AuthorizePublish(hasVerifier, authorization, verify, verifyWorkflow, tagPrefix);
      gate.Ok? && body.Some? && ValidationOutcome(body.value, fetch, parse, Pass) &&
      ValidateOIDCRequest(body.value, gate.value.0, gate.value.1).Fail? ==>
        resp == Failure(400, ValidateOIDCRequest(body.value, gate.value.0, gate.value.1).error) &&
        store.rows == old(store.rows)
    ensures var gate := AuthorizePublish(hasVerifier, authorization, verify, verifyWorkflow, tagPrefix);
      gate.Ok? && body.Some? && ValidationOutcome(body.value, fetch, parse, Pass) &&
      ValidateOIDCRequest(body.value, gate.value.0, gate.value.1) == Pass ==>
        resp == PublishResponse(PublishOutcome(old(store.rows), body.value, true, now)) &&
        store.rows == TableAfterPublish(old(store.rows), body.value, true, now)
  {
    var gate := AuthorizePublish(hasVerifier, authorization, verify, verifyWorkflow, tagPrefix);
    if gate.Err? {
      return gate.error;
    }
    var claims := gate.value.0;
    var tag := gate.value.1;
    if body.None? {
      return Failure(400, "invalid json");
    }
    var req := body.value;
    var valid := ValidatePublishRequest(req, fetch, parse);
    if valid.Fail? {
      ValidationPassIsDetermined(req, fetch, parse, valid);
      return Failure(400, valid.error);
    }
    var bound := ValidateOIDCRequest(req, claims, tag);
    if bound.Fail? {
      return Failure(400, bound.error);
    }
    var stored := store.PublishIntegration(req, true, now);
    resp := PublishResponse(stored);
  }

  /**
   * Publish, the handler without OIDC (not routed by the server): the JSON body,
   * the request rules, then the store with verified = true.
   */
  method Publish(store: IntegrationStore, body: Option<PublishRequest>,
                 fetch: ComposeFetch, parse: ComposeParser, now: Time)
    returns (resp: Response)
    requires store.Valid()
    modifies store
    ensures store.Valid() && store.events == old(store.events)
    ensures body.None? ==> resp == Failure(400, "invalid json") && store.rows == old(store.rows)
    ensures body.Some? && !ValidationOutcome(body.value, fetch, parse, Pass) ==>
      resp.status == 400 && resp.body.ErrorBody? &&
      ValidationOutcome(body.value, fetch, parse, Fail(resp.body.message)) && store.rows == old(store.rows)
    ensures body.Some? && ValidationOutcome(body.value, fetch, parse, Pass) ==>
      resp == PublishResponse(PublishOutcome(old(store.rows), body.value, true, now)) &&
      store.rows == TableAfterPublish(old(store.rows), body.value, true, now)
  {
    if body.None? {
      return Failure(400, "invalid json");
    }
    var req := body.value;
    var valid := ValidatePublishRequest(req, fetch, parse);
    if valid.Fail? {
      ValidationPassIsDetermined(req, fetch, parse, valid);
      return Failure(400, valid.error);
    }
    var stored := store.PublishIntegration(req, true, now);
    resp := PublishResponse(stored);
  }
}
