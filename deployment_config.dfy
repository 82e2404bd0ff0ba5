/** The agent's deployment configuration: the configuration object that
    reads its settings from the environment when it is created, the
    identifier derived from the deployment name, and the validated
    deployment settings built from both. */
module DeploymentConfig {
  import opened PyValues
  import opened PyStrings

  const ProjectMissing := "\U{274C} Missing GOOGLE_CLOUD_PROJECT environment variable!\nSet it in .env or run: gcloud config set project PROJECT_ID"
  const LocationMissing := "\U{274C} Missing GOOGLE_CLOUD_LOCATION environment variable!"
  const BucketMissing := "\U{274C} Missing GOOGLE_CLOUD_STAGING_BUCKET environment variable!"
  const ProjectInvalid := "\U{274C} Project ID validation failed"
  const NameMissing := "\U{274C} Missing agent name"
  const NoExtraPackages := "\U{274C} No extra packages specified"

  function RequirementsMissing(path: string): string
  {
    "\U{274C} Requirements file not found: " + path + "\nRun 'uv export > .requirements.txt' to generate it"
  }

  // ---------------------------------------------------------------------
  // The environment
  // ---------------------------------------------------------------------

  /** `os.environ.get(key)` */
  function EnvGet(env: map<string, string>, key: string): Option<string>
  {
    if key in env then Some(env[key]) else None
  }

  /** `os.environ.get(key, default)` */
  function EnvOr(env: map<string, string>, key: string, default: string): string
  {
    if key in env then env[key] else default
  }

  /** Truthiness of a `str | None`. */
  predicate Present(s: Option<string>)
  {
    s.Some? && s.value != ""
  }

  /** What `google.auth.default()` does: raise, or return credentials and a
      project id that may be None. */
  datatype AuthDefault = AuthRaises | AuthProject(project: Option<string>)

  /** The project id `__post_init__` settles on: GOOGLE_CLOUD_PROJECT when
      it is set and non-empty, otherwise the project of the default
      credentials when they can be loaded, otherwise the falsy value read
      from the environment. */
  function SelectedProject(env: map<string, string>, auth: AuthDefault): (p: Option<string>)
    ensures Present(EnvGet(env, "GOOGLE_CLOUD_PROJECT")) ==> p == EnvGet(env, "GOOGLE_CLOUD_PROJECT")
    ensures Present(p) <==>
      Present(EnvGet(env, "GOOGLE_CLOUD_PROJECT")) || (auth.AuthProject? && Present(auth.project))
    ensures Present(p) && !Present(EnvGet(env, "GOOGLE_CLOUD_PROJECT")) ==> p == auth.project
  {
    var fromEnv := EnvGet(env, "GOOGLE_CLOUD_PROJECT");
    if Present(fromEnv) then fromEnv
    else match auth
      case AuthRaises => fromEnv
      case AuthProject(project) => project
  }

  /** `os.environ.get("LOCATION") or os.environ.get("GOOGLE_CLOUD_LOCATION",
      "europe-west4")`: LOCATION when non-empty, else GOOGLE_CLOUD_LOCATION,
      else the default, which applies only when that variable is absent.
      The result is empty exactly when LOCATION is unset or empty and
      GOOGLE_CLOUD_LOCATION is set to "". */
  function LocationFrom(env: map<string, string>): (location: string)
    ensures Present(EnvGet(env, "LOCATION")) ==> location == env["LOCATION"]
    ensures !Present(EnvGet(env, "LOCATION")) && "GOOGLE_CLOUD_LOCATION" in env ==>
      location == env["GOOGLE_CLOUD_LOCATION"]
    ensures !Present(EnvGet(env, "LOCATION")) && "GOOGLE_CLOUD_LOCATION" !in env ==>
      location == "europe-west4"
    ensures location == "" <==>
      !Present(EnvGet(env, "LOCATION")) && EnvGet(env, "GOOGLE_CLOUD_LOCATION") == Some("")
  {
    var location := EnvGet(env, "LOCATION");
    if Present(location) then location.value else EnvOr(env, "GOOGLE_CLOUD_LOCATION", "europe-west4")
  }

  // ---------------------------------------------------------------------
  // The agent's name as a Python identifier
  // ---------------------------------------------------------------------

  /** `internal_agent_name`: every '-' becomes '_', and "agent_" goes in
      front exactly when the first character is then neither a letter nor
      '_'; so the result starts with a letter or '_'. The deployment name
      must not be empty, since its first character is read. */
  function InternalAgentName(deploymentName: string): (name: string)
    requires deploymentName != ""
    ensures '-' !in name
    ensures var replaced := ReplaceChar(deploymentName, '-', '_');
      && (name == replaced || name == "agent_" + replaced)
      && (name == "agent_" + replaced <==> !IsAlpha(replaced[0]) && replaced[0] != '_')
    ensures |name| > 0 && (IsAlpha(name[0]) || name[0] == '_')
  {
    var replaced := ReplaceChar(deploymentName, '-', '_');
    assert forall i :: 0 <= i < |replaced| ==> replaced[i] != '-';
    if !IsAlpha(replaced[0]) && replaced[0] != '_' then
      var name := "agent_" + replaced;
      assert forall i :: 6 <= i < |name| ==> name[i] == replaced[i - 6];
      name
    else replaced
  }

  /** The name is already an identifier of this form: converting it again
      changes nothing. */
  lemma InternalAgentNameIdempotent(deploymentName: string)
    requires deploymentName != ""
    ensures InternalAgentName(InternalAgentName(deploymentName)) == InternalAgentName(deploymentName)
  {
    var name := InternalAgentName(deploymentName);
    assert ReplaceChar(name, '-', '_') == name;
  }

  // ---------------------------------------------------------------------
  // Extra packages
  // ---------------------------------------------------------------------

  /** `[p.strip() for p in parts if p.strip()]` */
  function StrippedNonEmpty(parts: seq<string>): (r: seq<string>)
    ensures forall q :: q in r <==> q != "" && exists p :: p in parts && q == Strip(p)
    ensures r == [] <==> forall p :: p in parts ==> Strip(p) == ""
    ensures |r| <= |parts|
  {
    if |parts| == 0 then []
    else
      var rest := StrippedNonEmpty(parts[1..]);
      assert forall p :: p in parts <==> p == parts[0] || p in parts[1..];
      if Strip(parts[0]) != "" then [Strip(parts[0])] + rest else rest
  }

  /** The comprehension keeps the pieces' order: over two runs of pieces it
      is the result for the first run followed by the result for the
      second. */
  lemma {:induction false} StrippedNonEmptyAppend(a: seq<string>, b: seq<string>)
    ensures StrippedNonEmpty(a + b) == StrippedNonEmpty(a) + StrippedNonEmpty(b)
    decreases |a|
  {
    if |a| > 0 {
      assert (a + b)[1..] == a[1..] + b;
      StrippedNonEmptyAppend(a[1..], b);
    } else {
      assert a + b == b;
    }
  }

  /** One piece gives its stripped form when that is non-empty, and
      nothing otherwise. */
  lemma StrippedNonEmptyOne(p: string)
    ensures StrippedNonEmpty([p]) == if Strip(p) != "" then [Strip(p)] else []
  {
    assert [p][1..] == [];
  }

  /** Stripping a stripped string changes nothing. */
  lemma StripIdempotent(s: string)
    ensures Strip(Strip(s)) == Strip(s)
  {
    StripBounds(s);
    var t := Strip(s);
    if t != [] {
      assert TrimStart(t) == t;
      assert TrimEnd(t) == t;
    }
  }

  /** A stripped piece holds no character the piece did not hold. */
  lemma StripKeeps(s: string, c: char)
    requires c !in s
    ensures c !in Strip(s)
  {
    StripBounds(s);
    var i, j :| 0 <= i <= j <= |s| && Strip(s) == s[i..j] && Blank(s[..i]) && Blank(s[j..]);
    assert forall k :: 0 <= k < j - i ==> s[i..j][k] == s[i + k];
  }

  /** The extra packages of a comma-separated list: the pieces between
      commas, stripped, with the empty ones dropped. Every package is
      non-empty, holds no comma and has no whitespace at either end; the
      list is empty exactly when every character of the input is a comma
      or whitespace. */
  function ExtraPackages(s: string): (packages: seq<string>)
    ensures packages == StrippedNonEmpty(Split(s, ','))
    ensures forall p :: p in packages ==> p != "" && ',' !in p && Strip(p) == p
    ensures packages == [] <==> forall i :: 0 <= i < |s| ==> s[i] == ',' || IsSpace(s[i])
  {
    var parts := Split(s, ',');
    SplitPiecesFree(s, ',');
    SplitAllBlank(s, ',');
    forall p | p in parts ensures ',' !in Strip(p) && Strip(Strip(p)) == Strip(p) && (Strip(p) == "" <==> Blank(p)) {
      StripKeeps(p, ',');
      StripIdempotent(p);
      StripEmptyIffBlank(p);
    }
    StrippedNonEmpty(parts)
  }

  /** Joining two lists with a comma joins their packages, in order: the
      packages of `s + "," + t` are those of `s` followed by those of `t`. */
  lemma ExtraPackagesSeparated(s: string, t: string)
    ensures ExtraPackages(s + [','] + t) == ExtraPackages(s) + ExtraPackages(t)
  {
    SplitSeparated(s, t, ',');
    StrippedNonEmptyAppend(Split(s, ','), Split(t, ','));
  }

  /** A list with no comma and no whitespace at either end names one
      package. */
  lemma SinglePackage(s: string)
    requires s != "" && ',' !in s && Strip(s) == s
    ensures ExtraPackages(s) == [s]
  {
    SplitNoSeparator(s, ',');
    assert [s][1..] == [];
  }

  /** The default value of EXTRA_PACKAGES names one package. */
  lemma DefaultExtraPackages()
    ensures ExtraPackages("./backend/src") == ["./backend/src"]
  {
    var s := "./backend/src";
    assert ',' !in s by {
      assert forall i :: 0 <= i < |s| ==> s[i] != ',';
    }
    assert Strip(s) == s by {
      assert TrimStart(s) == s by {
        assert s[0] == '.';
      }
      assert TrimEnd(s) == s by {
        assert s[|s| - 1] == 'c';
      }
    }
    SinglePackage(s);
  }

  /** A string without the separator splits into itself alone. */
  lemma {:induction false} SplitNoSeparator(s: string, sep: char)
    requires sep !in s
    ensures Split(s, sep) == [s]
    decreases |s|
  {
    if |s| > 0 {
      assert sep !in s[1..] by {
        assert forall k :: 0 <= k < |s| - 1 ==> s[1..][k] == s[k + 1];
      }
      SplitNoSeparator(s[1..], sep);
      assert [s[0]] + s[1..] == s;
    }
  }

  // ---------------------------------------------------------------------
  // The configuration object
  // ---------------------------------------------------------------------

  /** `AgentConfiguration`: its defaults for the model and the deployment
      name are read from the environment when the class is defined, the
      rest is filled in by `__post_init__`. */
  class AgentConfiguration {
    var model: string
    var deploymentName: string
    var projectId: Option<string>
    var location: string
    var stagingBucket: Option<string>
    var corpusId: Option<string>

    /** The generated `__init__` before it calls `__post_init__`: the field
        defaults, two of them read from the environment as it was when the
        module was imported. */
    constructor (importEnv: map<string, string>)
      ensures model == EnvOr(importEnv, "MODEL", "gemini-2.5-flash")
      ensures deploymentName == EnvOr(importEnv, "AGENT_NAME", "customer-service-agent")
      ensures projectId == None && location == "us-central1"
      ensures stagingBucket == None && corpusId == None
    {
      model := EnvOr(importEnv, "MODEL", "gemini-2.5-flash");
      deploymentName := EnvOr(importEnv, "AGENT_NAME", "customer-service-agent");
      projectId := None;
      location := "us-central1";
      stagingBucket := None;
      corpusId := None;
    }

    /** Every setting `__post_init__` validates has a usable value. */
    predicate Initialised()
      reads this
    {
      Present(projectId) && location != "" && Present(stagingBucket)
    }

    /** `__post_init__`: sets the project id, the location, the staging
        bucket and the corpus id in turn, stopping at the first that is
        missing with the error that names it; the fields after that one
        keep their values. It succeeds exactly when the object ends up
        initialised. */
    method PostInit(env: map<string, string>, auth: AuthDefault) returns (error: Option<Exception>)
      modifies this
      ensures model == old(model) && deploymentName == old(deploymentName)
      ensures projectId == SelectedProject(env, auth)
      ensures !Present(projectId) ==>
        && error == Some(ValueError(ProjectMissing))
        && location == old(location) && stagingBucket == old(stagingBucket) && corpusId == old(corpusId)
      ensures Present(projectId) ==> location == LocationFrom(env)
      ensures Present(projectId) && location == "" ==>
        && error == Some(ValueError(LocationMissing))
        && stagingBucket == old(stagingBucket) && corpusId == old(corpusId)
      ensures Present(projectId) && location != "" ==>
        stagingBucket == EnvGet(env, "GOOGLE_CLOUD_STAGING_BUCKET")
      ensures Present(projectId) && location != "" && !Present(stagingBucket) ==>
        error == Some(ValueError(BucketMissing)) && corpusId == old(corpusId)
      ensures error.None? <==> Initialised()
      ensures error.None? ==> corpusId == EnvGet(env, "CORPUS_ID")
    {
      projectId := EnvGet(env, "GOOGLE_CLOUD_PROJECT");
      if !Present(projectId) && auth.AuthProject? {
        projectId := auth.project;
      }
      if !Present(projectId) {
        return Some(ValueError(ProjectMissing));
      }
      location := LocationFrom(env);
      if location == "" {
        return Some(ValueError(LocationMissing));
      }
      stagingBucket := EnvGet(env, "GOOGLE_CLOUD_STAGING_BUCKET");
      if !Present(stagingBucket) {
        return Some(ValueError(BucketMissing));
      }
      corpusId := EnvGet(env, "CORPUS_ID");
      return None;
    }
  }

  /** `config = AgentConfiguration()` when the module is imported. */
  method LoadConfig(importEnv: map<string, string>, env: map<string, string>, auth: AuthDefault)
    returns (config: AgentConfiguration, error: Option<Exception>)
    ensures fresh(config)
    ensures config.model == EnvOr(importEnv, "MODEL", "gemini-2.5-flash")
    ensures config.deploymentName == EnvOr(importEnv, "AGENT_NAME", "customer-service-agent")
    ensures config.projectId == SelectedProject(env, auth)
    ensures !Present(config.projectId) ==>
      && error == Some(ValueError(ProjectMissing))
      && config.location == "us-central1" && config.stagingBucket == None && config.corpusId == None
    ensures Present(config.projectId) ==> config.location == LocationFrom(env)
    ensures Present(config.projectId) && config.location == "" ==>
      error == Some(ValueError(LocationMissing)) && config.stagingBucket == None && config.corpusId == None
    ensures Present(config.projectId) && config.location != "" ==>
      config.stagingBucket == EnvGet(env, "GOOGLE_CLOUD_STAGING_BUCKET")
    ensures Present(config.projectId) && config.location != "" && !Present(config.stagingBucket) ==>
      error == Some(ValueError(BucketMissing)) && config.corpusId == None
    ensures error.None? <==> config.Initialised()
    ensures error.None? ==> config.corpusId == EnvGet(env, "CORPUS_ID")
  {
    config := new AgentConfiguration(importEnv);
    error := config.PostInit(env, auth);
  }

  // ---------------------------------------------------------------------
  // Deployment settings
  // ---------------------------------------------------------------------

  /** `DeploymentConfiguration` */
  datatype DeploymentConfiguration = DeploymentConfiguration(
    project: string,
    location: string,
    agentName: string,
    requirementsFile: string,
    extraPackages: seq<string>,
    stagingBucket: string,
    corpusId: Option<string>)

  /** The requirements file named by the environment. */
  function RequirementsFile(env: map<string, string>): string
  {
    EnvOr(env, "REQUIREMENTS_FILE", ".requirements.txt")
  }

  /** `get_deployment_config()`, given the paths that exist. It checks the
      project id, the staging bucket, the agent name, the requirements file
      and the extra packages in that order and raises the first failure;
      on success the project, location, staging bucket and corpus id are
      the configuration's own, and the packages are parsed from
      EXTRA_PACKAGES (default "./backend/src"). */
  function GetDeploymentConfig(config: AgentConfiguration, env: map<string, string>, files: set<string>)
    : (r: Outcome<DeploymentConfiguration>)
    reads config
    ensures !Present(config.projectId) ==> r == Raised(ValueError(ProjectInvalid))
    ensures Present(config.projectId) && !Present(config.stagingBucket) ==>
      r == Raised(ValueError(BucketMissing))
    ensures Present(config.projectId) && Present(config.stagingBucket) && config.deploymentName == "" ==>
      r == Raised(ValueError(NameMissing))
    ensures Present(config.projectId) && Present(config.stagingBucket) && config.deploymentName != ""
            && RequirementsFile(env) !in files ==>
      r == Raised(ValueError(RequirementsMissing(RequirementsFile(env))))
    ensures Present(config.projectId) && Present(config.stagingBucket) && config.deploymentName != ""
            && RequirementsFile(env) in files
            && ExtraPackages(EnvOr(env, "EXTRA_PACKAGES", "./backend/src")) == [] ==>
      r == Raised(ValueError(NoExtraPackages))
    ensures r.Returned? <==>
      && Present(config.projectId) && Present(config.stagingBucket) && config.deploymentName != ""
      && RequirementsFile(env) in files
      && ExtraPackages(EnvOr(env, "EXTRA_PACKAGES", "./backend/src")) != []
    ensures r.Returned? ==>
      && r.value.project == config.projectId.value
      && r.value.location == config.location
      && r.value.stagingBucket == config.stagingBucket.value
      && r.value.corpusId == config.corpusId
      && r.value.agentName == config.deploymentName != ""
      && r.value.requirementsFile == RequirementsFile(env) && r.value.requirementsFile in files
      && r.value.extraPackages == ExtraPackages(EnvOr(env, "EXTRA_PACKAGES", "./backend/src")) != []
  {
    if !Present(config.projectId) then Raised(ValueError(ProjectInvalid))
    else if !Present(config.stagingBucket) then Raised(ValueError(BucketMissing))
    else if config.deploymentName == "" then Raised(ValueError(NameMissing))
    else
      var requirements := RequirementsFile(env);
      if requirements !in files then Raised(ValueError(RequirementsMissing(requirements)))
      else
        var packages := ExtraPackages(EnvOr(env, "EXTRA_PACKAGES", "./backend/src"));
        if packages == [] then Raised(ValueError(NoExtraPackages))
        else Returned(DeploymentConfiguration(
          config.projectId.value, config.location, config.deploymentName, requirements,
          packages, config.stagingBucket.value, config.corpusId))
  }

  /** After a successful `__post_init__` the first two checks pass, and with
      the default settings, an existing ".requirements.txt" and a
      deployment name, the deployment settings are built. */
  lemma InitialisedConfigDeploys(config: AgentConfiguration, env: map<string, string>, files: set<string>)
    requires config.Initialised() && config.deploymentName != ""
    requires "REQUIREMENTS_FILE" !in env && "EXTRA_PACKAGES" !in env && ".requirements.txt" in files
    ensures GetDeploymentConfig(config, env, files).Returned?
    ensures GetDeploymentConfig(config, env, files).value.extraPackages == ["./backend/src"]
  {
    DefaultExtraPackages();
  }
}
