/**
 * Service configuration read from the process environment, which is passed in
 * as a map (an unset variable reads as "").
 */
module Config {
  import opened Strings
  import opened Sequences

  type Env = map<string, string>

  datatype Config = Config(
    bindAddress: string,
    databaseUrl: string,
    allowedOrigins: seq<string>,
    oidcIssuer: string,
    oidcAudience: string,
    oidcVerifyWorkflow: string,
    oidcTagPrefix: string,
    githubApiToken: string)

  const DefaultBindAddress := ":8098"
  const DefaultIssuer := "https://token.actions.githubusercontent.com"
  const DefaultAudience := "homenavi-marketplace"
  const DefaultVerifyWorkflow := "verify.yml"
  const DefaultTagPrefix := "v"

  /** os.Getenv: the variable's value, or "" when it is unset. */
  function Lookup(env: Env, key: string): string {
    if key in env then env[key] else ""
  }

  /** getEnv: the trimmed value when it is not blank, the fallback otherwise. */
  function GetEnv(env: Env, key: string, fallback: string): (r: string)
    ensures !IsBlank(Lookup(env, key)) ==> r == TrimSpace(Lookup(env, key)) && !IsBlank(r)
    ensures IsBlank(Lookup(env, key)) ==> r == fallback
  {
    var v := TrimSpace(Lookup(env, key));
    if v != "" then
      TrimIdempotent(Lookup(env, key), IsSpace);
      v
    else fallback
  }

  /** With a trimmed, non-blank fallback the setting is always trimmed and non-blank. */
  lemma GetEnvTrimmed(env: Env, key: string, fallback: string)
    requires !IsBlank(fallback) && TrimSpace(fallback) == fallback
    ensures var r := GetEnv(env, key, fallback); !IsBlank(r) && TrimSpace(r) == r
  {
    TrimIdempotent(Lookup(env, key), IsSpace);
  }

  /** The comma-separated pieces, trimmed, with the empty ones dropped, in order. */
  function TrimmedFields(parts: seq<string>): seq<string> {
    if parts == [] then []
    else
      var init := TrimmedFields(parts[..|parts| - 1]);
      var v := TrimSpace(parts[|parts| - 1]);
      if v != "" then init + [v] else init
  }

  /** One more piece adds its trim when that is not empty. */
  lemma TrimmedFieldsStep(parts: seq<string>, i: nat)
    requires i < |parts|
    ensures TrimmedFields(parts[..i + 1]) ==
      TrimmedFields(parts[..i]) + (if TrimSpace(parts[i]) != "" then [TrimSpace(parts[i])] else [])
  {
    var next := parts[..i + 1];
    assert next[..|next| - 1] == parts[..i];
  }

  /** x is what TrimSpace makes of one of the pieces. */
  ghost predicate TrimOfSome(parts: seq<string>, x: string) {
    exists i :: 0 <= i < |parts| && x == TrimSpace(parts[i])
  }

  lemma TrimOfSomeSnoc(init: seq<string>, last: string, x: string)
    ensures TrimOfSome(init + [last], x) <==> TrimOfSome(init, x) || x == TrimSpace(last)
  {
    var parts := init + [last];
    if TrimOfSome(init, x) {
      var i :| 0 <= i < |init| && x == TrimSpace(init[i]);
      assert parts[i] == init[i];
    }
    if x == TrimSpace(last) {
      assert parts[|init|] == last;
    }
    if TrimOfSome(parts, x) {
      var i :| 0 <= i < |parts| && x == TrimSpace(parts[i]);
      if i < |init| {
        assert parts[i] == init[i];
      }
    }
  }

  /** A field is kept exactly when it is the non-empty trim of some piece. */
  lemma {:induction false} TrimmedFieldsMembers(parts: seq<string>)
    ensures forall x :: x in TrimmedFields(parts) <==> x != "" && TrimOfSome(parts, x)
  {
    if parts != [] {
      var init := parts[..|parts| - 1];
      var last := parts[|parts| - 1];
      assert parts == init + [last];
      TrimmedFieldsMembers(init);
      forall x ensures TrimOfSome(parts, x) <==> TrimOfSome(init, x) || x == TrimSpace(last) {
        TrimOfSomeSnoc(init, last, x);
      }
    }
  }

  /** Every field is non-empty and trimmed. */
  lemma {:induction false} TrimmedFieldsShape(parts: seq<string>)
    ensures forall x :: x in TrimmedFields(parts) ==> x != "" && IsTrimmed(x)
  {
    if parts != [] {
      TrimmedFieldsShape(parts[..|parts| - 1]);
      TrimSpaceTrimmed(parts[|parts| - 1]);
    }
  }

  /** Trimmed non-empty pieces pass through unchanged. */
  lemma {:induction false} TrimmedFieldsOfTrimmed(parts: seq<string>)
    requires forall i :: 0 <= i < |parts| ==> parts[i] != "" && IsTrimmed(parts[i])
    ensures TrimmedFields(parts) == parts
  {
    if parts != [] {
      var init := parts[..|parts| - 1];
      var last := parts[|parts| - 1];
      TrimmedFieldsOfTrimmed(init);
      TrimmedIsFixpoint(last);
      assert parts == init + [last];
    }
  }

  /** The value of splitCSV, the specification of the method below. */
  function CsvFields(value: string): seq<string> {
    if IsBlank(value) then [] else TrimmedFields(Split(value, ','))
  }

  /**
   * splitCSV: blank input gives no fields; otherwise the comma-separated pieces are
   * trimmed and the empty ones dropped.
   */
  method SplitCSV(value: string) returns (out: seq<string>)
    ensures out == CsvFields(value)
  {
    if IsBlank(value) {
      return [];
    }
    out := KeepTrimmed(Split(value, ','));
  }

  /** The loop of splitCSV over the pieces. */
  method KeepTrimmed(parts: seq<string>) returns (out: seq<string>)
    ensures out == TrimmedFields(parts)
  {
    out := [];
    var i := 0;
    while i < |parts|
      invariant 0 <= i <= |parts|
      invariant out == TrimmedFields(parts[..i])
    {
      var v := TrimSpace(parts[i]);
      TrimmedFieldsStep(parts, i);
      if v != "" {
        out := out + [v];
      }
      i := i + 1;
    }
    assert parts[..i] == parts;
  }

  /** Blank or whitespace-only input yields no fields. */
  lemma CsvBlank(value: string)
    requires IsBlank(value)
    ensures CsvFields(value) == []
  {
  }

  /** A join whose first piece is not blank is not blank. */
  lemma JoinNotBlank(parts: seq<string>, sep: string)
    requires |parts| >= 1 && !IsBlank(parts[0])
    ensures !IsBlank(Join(parts, sep))
  {
    var s := Join(parts, sep);
    TrimEmpty(parts[0], IsSpace);
    TrimEmpty(s, IsSpace);
    var k :| 0 <= k < |parts[0]| && !IsSpace(parts[0][k]);
    JoinStartsWith(parts, sep);
    assert s[k] == parts[0][k];
    assert !AllIn(s, IsSpace);
  }

  /**
   * Round trip: an origin list of trimmed, non-empty entries without commas is
   * read back exactly from its comma-joined form.
   */
  lemma CsvRoundTrip(origins: seq<string>)
    requires forall i :: 0 <= i < |origins| ==> origins[i] != "" && IsTrimmed(origins[i]) && ',' !in origins[i]
    ensures CsvFields(Join(origins, ",")) == origins
  {
    if origins != [] {
      JoinNotBlank(origins, ",");
      JoinSplit(origins, ',');
      TrimmedFieldsOfTrimmed(origins);
    }
  }

  /** A setting read with getEnv: its default when the variable is unset or blank, else the trimmed value. */
  predicate FromEnv(env: Env, key: string, fallback: string, setting: string) {
    && (IsBlank(Lookup(env, key)) ==> setting == fallback)
    && (!IsBlank(Lookup(env, key)) ==> setting == TrimSpace(Lookup(env, key)))
  }

  /**
   * Load: the getEnv settings fall back to their defaults, the database URL and
   * API token are read raw, and the origins are split.
   */
  function Load(env: Env): (c: Config)
    ensures FromEnv(env, "BIND_ADDRESS", DefaultBindAddress, c.bindAddress)
    ensures FromEnv(env, "OIDC_ISSUER", DefaultIssuer, c.oidcIssuer)
    ensures FromEnv(env, "OIDC_AUDIENCE", DefaultAudience, c.oidcAudience)
    ensures FromEnv(env, "OIDC_VERIFY_WORKFLOW", DefaultVerifyWorkflow, c.oidcVerifyWorkflow)
    ensures FromEnv(env, "OIDC_TAG_PREFIX", DefaultTagPrefix, c.oidcTagPrefix)
    ensures c.databaseUrl == Lookup(env, "DATABASE_URL")
    ensures c.githubApiToken == Lookup(env, "GITHUB_API_TOKEN")
    ensures c.allowedOrigins == CsvFields(Lookup(env, "ALLOWED_ORIGINS"))
  {
    Config(
      GetEnv(env, "BIND_ADDRESS", DefaultBindAddress),
      Lookup(env, "DATABASE_URL"),
      CsvFields(Lookup(env, "ALLOWED_ORIGINS")),
      GetEnv(env, "OIDC_ISSUER", DefaultIssuer),
      GetEnv(env, "OIDC_AUDIENCE", DefaultAudience),
      GetEnv(env, "OIDC_VERIFY_WORKFLOW", DefaultVerifyWorkflow),
      GetEnv(env, "OIDC_TAG_PREFIX", DefaultTagPrefix),
      Lookup(env, "GITHUB_API_TOKEN"))
  }

  /** With nothing set, the defaults apply: no database URL, no origins, no token. */
  lemma LoadDefaults()
    ensures Load(map[]) == Config(":8098", "", [], "https://token.actions.githubusercontent.com",
      "homenavi-marketplace", "verify.yml", "v", "")
  {
    assert IsBlank("");
  }
}
