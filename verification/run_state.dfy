/**
 * The persistent run state: the configuration document that the
 * installation steps read their completion flags and captured secrets from,
 * and write them back to. Keys are the dotted names the steps use; a value is
 * either a boolean or a string. Setting a key and writing the document to disk
 * are treated as one map update.
 */
module RunState {
  import opened Wrappers

  /** A stored configuration value. */
  datatype Value = Bool(b: bool) | Str(s: string)

  /** The whole run state, keyed by dotted names. */
  type Config = map<string, Value>

  // Completion flags of the guarded steps.
  const BaseApplied: string := "create.terraformapplied.base"
  const GitlabApplied: string := "create.terraformapplied.gitlab"
  const SoftServeConfigured: string := "create.softserve.configure"
  const KeyUploaded: string := "gitlab.keyuploaded"

  // Captured secrets and identifiers.
  const KmsKeyId: string := "vault.kmskeyid"
  const GitlabToken: string := "gitlab.token"
  const RunnerToken: string := "gitlab.runnertoken"

  // Settings the steps only read.
  const TerraformDestroy: string := "terraform.destroy"
  const DomainName: string := "aws.domainname"
  const BotPublicKey: string := "botpublickey"

  /** The value stored under `key`, if any. */
  function Get(c: Config, key: string): Option<Value>
  {
    if key in c then Some(c[key]) else None
  }

  /** The spellings of `true` that a boolean read of a string accepts. */
  predicate ParsesTrue(s: string)
  {
    s == "1" || s == "t" || s == "T" || s == "TRUE" || s == "true" || s == "True"
  }

  /**
   * A boolean read: a missing key reads as false, a string reads as true
   * only when it is one of the accepted spellings of true.
   */
  function GetBool(c: Config, key: string): (b: bool)
    ensures b ==> key in c
    ensures Get(c, key) == Some(Bool(true)) ==> b
    ensures Get(c, key) == Some(Bool(false)) ==> !b
  {
    match Get(c, key)
    case None => false
    case Some(Bool(v)) => v
    case Some(Str(s)) => ParsesTrue(s)
  }

  /**
   * A string read: a missing key reads as the empty string, a boolean reads
   * as its spelling.
   */
  function GetString(c: Config, key: string): (s: string)
    ensures s != "" ==> key in c
    ensures key in c && c[key].Str? ==> s == c[key].s
  {
    match Get(c, key)
    case None => ""
    case Some(Bool(v)) => if v then "true" else "false"
    case Some(Str(t)) => t
  }

  /** Store `v` under `key`; every other key keeps its value. */
  function Set(c: Config, key: string, v: Value): (c': Config)
    ensures Get(c', key) == Some(v)
    ensures AgreeOutside(c, c', {key})
  {
    c[key := v]
  }

  /** `c` and `c'` hold the same value (or no value) under every key outside `keys`. */
  ghost predicate AgreeOutside(c: Config, c': Config, keys: set<string>)
  {
    forall k :: k !in keys ==> Get(c, k) == Get(c', k)
  }
}
