/**
 * The five provisioning steps of the installer, each a pure transition over
 * the run state. A step receives the dry-run flag and the results of the
 * external calls it makes (command success and output, HTTP transport
 * success, the UUID string, whether unseen callees return), and yields either
 * `Done` or `Abort` together with the external actions it issued, in order.
 */
module InstallationSteps {
  import opened Wrappers
  import opened RunState
  import Text
  import Base64

  /** An external call a step issues. */
  datatype Action =
    | Terraform(args: seq<string>)                  // the infrastructure-as-code binary
    | Detokenize(dir: string)                       // the templating pass over the gitops tree
    | StartPortForward                              // background port-forward to the internal git host
    | ConfigureSoftServe
    | PushGitops
    | StopPortForward                               // the termination signal to the port-forward
    | UploadKey(url: string, title: string, key: string)
    | GetToolboxPod                                 // cluster client: name of the toolbox pod
    | CreateToken(pod: string, token: string)       // cluster client: create and set the access token
    | GetRunnerSecret                               // cluster client: the encoded runner registration token

  /**
   * The result of a step. `Done` is a normal return; `Abort` is the process
   * ending (a panic or a fatal log). In both, `state` is the run state as
   * persisted when the step ended, and `actions` the calls issued before.
   */
  datatype Outcome = Done(state: Config, actions: seq<Action>) | Abort(state: Config, actions: seq<Action>)

  /** The result of running an external command: exit status and standard output. */
  datatype CmdResult = CmdResult(ok: bool, stdout: string)

  /**
   * How a call into code outside this model ends: it returns, it panics
   * (deferred calls of the caller still run), or it exits the process (they do not).
   */
  datatype CallResult = Returned | Panicked | Exited

  /** A guarded step neither skips nor stops for dry-run: its body runs. */
  predicate Runs(c: Config, flag: string, dryRun: bool)
  {
    !GetBool(c, flag) && !dryRun
  }

  // ---------------------------------------------------------------- base infrastructure

  datatype BaseInputs = BaseInputs(
    cliDestroy: bool,         // the command line's --destroy flag
    chdirOk: bool,            // changing into the terraform directory succeeded
    initOk: bool,             // `terraform init` exit status
    runOk: bool,              // `terraform apply|destroy` exit status
    keyOutput: CmdResult,     // `terraform output vault_unseal_kms_key`
    detokenize: CallResult)

  /** The terraform sub-command: destroy when either the stored setting or the command line asks for it. */
  function TerraformAction(c: Config, cliDestroy: bool): (a: string)
    ensures a == "destroy" <==> GetBool(c, TerraformDestroy) || cliDestroy
    ensures a == "apply" <==> !(GetBool(c, TerraformDestroy) || cliDestroy)
  {
    if GetBool(c, TerraformDestroy) || cliDestroy then "destroy" else "apply"
  }

  /** The commands the base step issues once it is inside its directory. */
  function BaseCommands(c: Config, cliDestroy: bool): seq<Action>
  {
    [Terraform(["init"]),
     Terraform([TerraformAction(c, cliDestroy), "-auto-approve"]),
     Terraform(["output", "vault_unseal_kms_key"])]
  }

  function GitopsDir(home: string): string
  {
    home + "/.kubefirst/gitops"
  }

  /**
   * Apply (or destroy) the base infrastructure, capture the KMS key id and
   * mark the step complete. A directory change failure or a failing
   * `terraform output` aborts before anything is written; failures of
   * `init` and of the apply/destroy itself are not looked at.
   */
  function ApplyBaseTerraform(c: Config, dryRun: bool, home: string, inp: BaseInputs): (r: Outcome)
    ensures GetBool(c, BaseApplied) || dryRun ==> r == Done(c, [])
    ensures Runs(c, BaseApplied, dryRun) && !inp.chdirOk ==> r == Abort(c, [])
    ensures Runs(c, BaseApplied, dryRun) && inp.chdirOk ==> BaseCommands(c, inp.cliDestroy) <= r.actions
    ensures Runs(c, BaseApplied, dryRun) && inp.chdirOk && !inp.keyOutput.ok ==>
      r.Abort? && r.state == c && r.actions == BaseCommands(c, inp.cliDestroy)
    ensures Runs(c, BaseApplied, dryRun) && inp.chdirOk && inp.keyOutput.ok ==>
      && GetBool(r.state, BaseApplied)
      && Get(r.state, KmsKeyId) == Some(Str(Text.TrimSpace(inp.keyOutput.stdout)))
      && r.actions == BaseCommands(c, inp.cliDestroy) + [Detokenize(GitopsDir(home))]
      && (r.Done? <==> inp.detokenize == Returned)
    ensures AgreeOutside(c, r.state, {BaseApplied, KmsKeyId})
  {
    if GetBool(c, BaseApplied) then Done(c, [])
    else if dryRun then Done(c, [])
    else if !inp.chdirOk then Abort(c, [])
    else
      var acts := BaseCommands(c, inp.cliDestroy);
      if !inp.keyOutput.ok then Abort(c, acts)
      else
        var keyId := Text.TrimSpace(inp.keyOutput.stdout);
        var c' := Set(Set(c, KmsKeyId, Str(keyId)), BaseApplied, Bool(true));
        // the state is written before the templating pass runs
        var acts' := acts + [Detokenize(GitopsDir(home))];
        if inp.detokenize == Returned then Done(c', acts') else Abort(c', acts')
  }

  // ---------------------------------------------------------------- gitlab infrastructure

  datatype GitlabInputs = GitlabInputs(chdirOk: bool, initOk: bool, applyOk: bool)

  /**
   * Apply the gitlab infrastructure and mark the step complete. A failed
   * directory change is only logged, and the terraform exit statuses are not
   * looked at, so the body always completes.
   */
  function ApplyGitlabTerraform(c: Config, dryRun: bool, inp: GitlabInputs): (r: Outcome)
    ensures GetBool(c, GitlabApplied) || dryRun ==> r == Done(c, [])
    ensures Runs(c, GitlabApplied, dryRun) ==>
      && r.Done?
      && GetBool(r.state, GitlabApplied)
      && r.actions == [Terraform(["init"]), Terraform(["apply", "-auto-approve"])]
    ensures AgreeOutside(c, r.state, {GitlabApplied})
  {
    if GetBool(c, GitlabApplied) then Done(c, [])
    else if dryRun then Done(c, [])
    else
      Done(Set(c, GitlabApplied, Bool(true)), [Terraform(["init"]), Terraform(["apply", "-auto-approve"])])
  }

  // ---------------------------------------------------------------- soft-serve configuration

  datatype SoftServeInputs = SoftServeInputs(
    portForwardStarted: bool,  // the background port-forward process started
    configure: CallResult,     // how configuring the internal git host ends
    push: CallResult)          // how pushing the gitops repository ends

  /**
   * The port-forward's termination signal, deferred right after the start
   * attempt and run on every exit of the step except a process exit. When the
   * start failed there is no process to signal, and the deferred call itself
   * panics instead of sending anything.
   */
  function DeferredStop(started: bool, exit: CallResult): seq<Action>
  {
    if started && exit != Exited then [StopPortForward] else []
  }

  /**
   * Configure the internal git host through a port-forward and push the
   * gitops repository to it, then mark the step complete.
   */
  function ConfigureSoftserveAndPush(c: Config, dryRun: bool, inp: SoftServeInputs): (r: Outcome)
    ensures GetBool(c, SoftServeConfigured) || dryRun ==> r == Done(c, [])
    ensures Runs(c, SoftServeConfigured, dryRun) ==> |r.actions| >= 2 && r.actions[..2] == [StartPortForward, ConfigureSoftServe]
    ensures Runs(c, SoftServeConfigured, dryRun) && inp.configure == Returned ==>
      |r.actions| >= 3 && r.actions[..3] == [StartPortForward, ConfigureSoftServe, PushGitops]
    ensures inp.configure != Returned ==> PushGitops !in r.actions
    ensures StopPortForward in r.actions ==> inp.portForwardStarted && r.actions[|r.actions| - 1] == StopPortForward
    ensures (Runs(c, SoftServeConfigured, dryRun) && inp.portForwardStarted && inp.configure != Exited
             && (inp.configure == Returned ==> inp.push != Exited)) ==> r.actions[|r.actions| - 1] == StopPortForward
    ensures r.Done? <==> (GetBool(c, SoftServeConfigured) || dryRun
                          || (inp.configure == Returned && inp.push == Returned && inp.portForwardStarted))
    ensures GetBool(r.state, SoftServeConfigured) <==> (GetBool(c, SoftServeConfigured)
      || (Runs(c, SoftServeConfigured, dryRun) && inp.configure == Returned && inp.push == Returned))
    ensures AgreeOutside(c, r.state, {SoftServeConfigured})
  {
    if GetBool(c, SoftServeConfigured) then Done(c, [])
    else if dryRun then Done(c, [])
    else if inp.configure != Returned then
      Abort(c, [StartPortForward, ConfigureSoftServe] + DeferredStop(inp.portForwardStarted, inp.configure))
    else if inp.push != Returned then
      Abort(c, [StartPortForward, ConfigureSoftServe, PushGitops] + DeferredStop(inp.portForwardStarted, inp.push))
    else
      var c' := Set(c, SoftServeConfigured, Bool(true));
      var acts := [StartPortForward, ConfigureSoftServe, PushGitops] + DeferredStop(inp.portForwardStarted, Returned);
      // signalling a port-forward that never started panics after the flag was written
      if inp.portForwardStarted then Done(c', acts) else Abort(c', acts)
  }

  /**
   * The step as evidently intended: the termination signal is only sent to a
   * port-forward that started, so a failed start is logged and the step
   * completes. Once the flag is committed the step never aborts.
   */
  function ConfigureSoftserveAndPushCorrected(c: Config, dryRun: bool, inp: SoftServeInputs): (r: Outcome)
    ensures GetBool(c, SoftServeConfigured) || dryRun ==> r == Done(c, [])
    ensures Runs(c, SoftServeConfigured, dryRun) && inp.configure == Returned ==>
      |r.actions| >= 3 && r.actions[..3] == [StartPortForward, ConfigureSoftServe, PushGitops]
    ensures inp.configure != Returned ==> PushGitops !in r.actions
    ensures r.Abort? ==> r.state == c
    ensures r.Done? <==> (GetBool(c, SoftServeConfigured) || dryRun
                          || (inp.configure == Returned && inp.push == Returned))
    ensures r.Done? && Runs(c, SoftServeConfigured, dryRun) ==> GetBool(r.state, SoftServeConfigured)
    ensures StopPortForward in r.actions ==> inp.portForwardStarted && r.actions[|r.actions| - 1] == StopPortForward
    ensures AgreeOutside(c, r.state, {SoftServeConfigured})
  {
    if GetBool(c, SoftServeConfigured) then Done(c, [])
    else if dryRun then Done(c, [])
    else if inp.configure != Returned then
      Abort(c, [StartPortForward, ConfigureSoftServe] + DeferredStop(inp.portForwardStarted, inp.configure))
    else if inp.push != Returned then
      Abort(c, [StartPortForward, ConfigureSoftServe, PushGitops] + DeferredStop(inp.portForwardStarted, inp.push))
    else
      Done(Set(c, SoftServeConfigured, Bool(true)),
           [StartPortForward, ConfigureSoftServe, PushGitops] + DeferredStop(inp.portForwardStarted, Returned))
  }

  // ---------------------------------------------------------------- public key upload

  /** The key-registration endpoint, authenticated by the stored access token in the query string. */
  function KeyUploadUrl(c: Config): string
  {
    "https://gitlab." + GetString(c, DomainName) + "/api/v4/user/keys?private_token=" + GetString(c, GitlabToken)
  }

  /**
   * Register the bot's public key with the external git host and mark it
   * uploaded. Only a transport failure aborts (`postOk` false); any HTTP
   * status counts as success.
   */
  function GitlabKeyUpload(c: Config, dryRun: bool, postOk: bool): (r: Outcome)
    ensures GetBool(c, KeyUploaded) || dryRun ==> r == Done(c, [])
    ensures Runs(c, KeyUploaded, dryRun) ==>
      r.actions == [UploadKey(KeyUploadUrl(c), "kubefirst", GetString(c, BotPublicKey))]
    ensures r.Abort? <==> Runs(c, KeyUploaded, dryRun) && !postOk
    ensures r.Abort? ==> r.state == c
    ensures r.Done? && Runs(c, KeyUploaded, dryRun) ==> GetBool(r.state, KeyUploaded)
    ensures AgreeOutside(c, r.state, {KeyUploaded})
  {
    if GetBool(c, KeyUploaded) then Done(c, [])
    else if dryRun then Done(c, [])
    else
      var acts := [UploadKey(KeyUploadUrl(c), "kubefirst", GetString(c, BotPublicKey))];
      if !postOk then Abort(c, acts) else Done(Set(c, KeyUploaded, Bool(true)), acts)
  }

  // ---------------------------------------------------------------- access tokens

  datatype TokenInputs = TokenInputs(
    podLookup: CmdResult,     // toolbox pod name lookup (its exit status is only logged)
    uuid: string,             // the freshly generated UUID, in its textual form
    createOk: bool,           // exit status of the token creation command (only logged)
    secretLookup: CmdResult)  // runner secret lookup (its exit status is only logged)

  /**
   * Ensure `gitlab.token` holds an access token. A stored non-empty token is
   * kept and nothing is issued. Otherwise the token is the first 20 characters
   * of the UUID string, pushed into the pod by a creation command, and stored
   * whether or not that command succeeded.
   */
  function EnsureGitlabToken(c: Config, pod: string, uuid: string, createOk: bool): (r: Outcome)
    ensures GetString(c, GitlabToken) != "" ==> r == Done(c, [])
    ensures GetString(c, GitlabToken) == "" && |uuid| < Text.TokenLength ==> r == Abort(c, [])
    ensures GetString(c, GitlabToken) == "" && |uuid| >= Text.TokenLength ==>
      && r.Done?
      && Get(r.state, GitlabToken) == Some(Str(uuid[..Text.TokenLength]))
      && r.actions == [CreateToken(pod, uuid[..Text.TokenLength])]
    ensures AgreeOutside(c, r.state, {GitlabToken})
  {
    if GetString(c, GitlabToken) != "" then Done(c, [])
    else
      match Text.TokenPrefix(uuid)
      case None => Abort(c, [])
      case Some(token) => Done(Set(c, GitlabToken, Str(token)), [CreateToken(pod, token)])
  }

  /** The runner registration token as read from the secret: quotes stripped, then base64-decoded. */
  function DecodeRunnerToken(stdout: string): (r: Option<string>)
    ensures r.Some? <==> Base64.Decode(Text.StripQuotes(stdout)).Some?
    ensures r.Some? <==> Base64.WellFormed(Text.RemoveAll(Text.StripQuotes(stdout), Base64.LineBreaks))
    ensures r.Some? ==> var t := Text.RemoveAll(Text.StripQuotes(stdout), Base64.LineBreaks);
      && |t| % 4 == 0
      && |r.value| == 3 * (|t| / 4) - Base64.PaddingCount(t)
      && forall i :: 0 <= i < |r.value| ==> r.value[i] as int < 256
    ensures forall i :: (0 <= i < |stdout| && !Base64.IsBase64Char(stdout[i]) && stdout[i] != Base64.Pad
                         && stdout[i] !in Base64.LineBreaks && stdout[i] != Text.Quote) ==> r.None?
  {
    var stripped := Text.StripQuotes(stdout);
    forall i | (0 <= i < |stdout| && !Base64.IsBase64Char(stdout[i]) && stdout[i] != Base64.Pad
                && stdout[i] !in Base64.LineBreaks && stdout[i] != Text.Quote)
      ensures Base64.Decode(stripped).None?
    {
      var ch := stdout[i];
      assert ch in multiset(stdout);
      assert ch in multiset(stripped);
      var j :| 0 <= j < |stripped| && stripped[j] == ch;
    }
    match Base64.Decode(stripped)
    case None => None
    case Some(bs) => Some(Base64.BytesToString(bs))
  }

  /**
   * Ensure `gitlab.runnertoken` holds the runner registration token. A stored
   * non-empty value is kept and nothing is issued. Otherwise the secret is read
   * and decoded; a decode error aborts before anything is written.
   */
  function EnsureRunnerToken(c: Config, lookup: CmdResult): (r: Outcome)
    ensures GetString(c, RunnerToken) != "" ==> r == Done(c, [])
    ensures GetString(c, RunnerToken) == "" ==> r.actions == [GetRunnerSecret]
    ensures GetString(c, RunnerToken) == "" ==> (r.Abort? <==> DecodeRunnerToken(lookup.stdout).None?)
    ensures r.Abort? ==> r.state == c
    ensures r.Done? && GetString(c, RunnerToken) == "" ==>
      Get(r.state, RunnerToken) == Some(Str(DecodeRunnerToken(lookup.stdout).value))
    ensures AgreeOutside(c, r.state, {RunnerToken})
  {
    if GetString(c, RunnerToken) != "" then Done(c, [])
    else
      match DecodeRunnerToken(lookup.stdout)
      case None => Abort(c, [GetRunnerSecret])
      case Some(token) => Done(Set(c, RunnerToken, Str(token)), [GetRunnerSecret])
  }

  /**
   * Discover the toolbox pod and ensure both tokens. There is no completion
   * flag: outside dry-run the pod lookup is always issued.
   */
  function ProduceGitlabTokens(c: Config, dryRun: bool, inp: TokenInputs): (r: Outcome)
    ensures dryRun ==> r == Done(c, [])
    ensures !dryRun ==> |r.actions| >= 1 && r.actions[0] == GetToolboxPod
    ensures GetString(c, GitlabToken) != "" ==>
      Get(r.state, GitlabToken) == Get(c, GitlabToken) && forall a :: a in r.actions ==> !a.CreateToken?
    ensures GetString(c, RunnerToken) != "" ==>
      Get(r.state, RunnerToken) == Get(c, RunnerToken) && GetRunnerSecret !in r.actions
    ensures AgreeOutside(c, r.state, {GitlabToken, RunnerToken})
  {
    if dryRun then Done(c, [])
    else
      var pod := Text.StripQuotes(inp.podLookup.stdout);
      var t := EnsureGitlabToken(c, pod, inp.uuid, inp.createOk);
      if t.Abort? then Abort(t.state, [GetToolboxPod] + t.actions)
      else
        var rt := EnsureRunnerToken(t.state, inp.secretLookup);
        var acts := [GetToolboxPod] + t.actions + rt.actions;
        if rt.Abort? then Abort(rt.state, acts) else Done(rt.state, acts)
  }
}
