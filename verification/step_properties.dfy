/**
 * Properties relating several runs of the provisioning steps: re-running a
 * completed step is a no-op, results the code never inspects do not matter,
 * stored secrets are never regenerated, and a failed decode writes nothing.
 */
module StepProperties {
  import opened Wrappers
  import opened RunState
  import Text
  import Base64
  import opened InstallationSteps

  // ---------------------------------------------------------------- re-running a completed step

  /** A second base run on the state a completed first run left behind does nothing. */
  lemma BaseIdempotent(c: Config, home: string, inp: BaseInputs, dryRun2: bool, inp2: BaseInputs)
    requires ApplyBaseTerraform(c, false, home, inp).Done?
    ensures var c1 := ApplyBaseTerraform(c, false, home, inp).state;
      ApplyBaseTerraform(c1, dryRun2, home, inp2) == Done(c1, [])
  {
  }

  /**
   * The base flag is only ever set by a run that got past the directory
   * change and the key output; when the templating pass then kills the
   * process, the flag is already persisted and the next run skips the step.
   */
  lemma BaseFlagOnlyAfterBody(c: Config, dryRun: bool, home: string, inp: BaseInputs, dryRun2: bool, inp2: BaseInputs)
    requires !GetBool(c, BaseApplied)
    ensures var r := ApplyBaseTerraform(c, dryRun, home, inp);
      GetBool(r.state, BaseApplied) <==> !dryRun && inp.chdirOk && inp.keyOutput.ok
    ensures var r := ApplyBaseTerraform(c, dryRun, home, inp);
      GetBool(r.state, BaseApplied) ==> ApplyBaseTerraform(r.state, dryRun2, home, inp2) == Done(r.state, [])
  {
  }

  /** The stored key id is the command output with the surrounding white space removed. */
  lemma BaseStoresTrimmedKey(c: Config, home: string, inp: BaseInputs, pre: string, key: string, post: string)
    requires !GetBool(c, BaseApplied) && inp.chdirOk && inp.keyOutput.ok
    requires inp.keyOutput.stdout == pre + key + post
    requires Text.AllSpace(pre) && Text.AllSpace(post) && Text.Trimmed(key)
    ensures Get(ApplyBaseTerraform(c, false, home, inp).state, KmsKeyId) == Some(Str(key))
  {
    Text.TrimSpaceOfPadded(pre, key, post);
  }

  /** The exit statuses of `terraform init` and of the apply/destroy do not influence the base step. */
  lemma BaseIgnoresCommandStatuses(c: Config, dryRun: bool, home: string, inp: BaseInputs, initOk: bool, runOk: bool)
    ensures ApplyBaseTerraform(c, dryRun, home, inp)
         == ApplyBaseTerraform(c, dryRun, home, inp.(initOk := initOk, runOk := runOk))
  {
  }

  lemma GitlabIdempotent(c: Config, inp: GitlabInputs, dryRun2: bool, inp2: GitlabInputs)
    ensures var c1 := ApplyGitlabTerraform(c, false, inp).state;
      ApplyGitlabTerraform(c1, dryRun2, inp2) == Done(c1, [])
  {
  }

  /**
   * Neither a failed directory change nor the terraform exit statuses
   * influence the gitlab step (where the base step aborts on the former).
   */
  lemma GitlabIgnoresFailures(c: Config, dryRun: bool, inp: GitlabInputs, inp2: GitlabInputs)
    ensures ApplyGitlabTerraform(c, dryRun, inp) == ApplyGitlabTerraform(c, dryRun, inp2)
  {
  }

  /**
   * Once the soft-serve flag is persisted, also by a run that ended in an
   * abort after committing it, the next run does nothing.
   */
  lemma SoftServeIdempotent(c: Config, inp: SoftServeInputs, dryRun2: bool, inp2: SoftServeInputs)
    requires GetBool(ConfigureSoftserveAndPush(c, false, inp).state, SoftServeConfigured)
    ensures var c1 := ConfigureSoftserveAndPush(c, false, inp).state;
      ConfigureSoftserveAndPush(c1, dryRun2, inp2) == Done(c1, [])
  {
  }

  /**
   * As written, a port-forward that fails to start is only logged, but the
   * termination signal deferred for it panics on return: the process ends
   * after the flag was committed.
   */
  lemma SoftServeStartFailureAbortsAfterCommit(c: Config)
    requires !GetBool(c, SoftServeConfigured)
    ensures var r := ConfigureSoftserveAndPush(c, false, SoftServeInputs(false, Returned, Returned));
      r.Abort? && GetBool(r.state, SoftServeConfigured)
    ensures ConfigureSoftserveAndPushCorrected(c, false, SoftServeInputs(false, Returned, Returned)).Done?
  {
  }

  /** The corrected step agrees with the code whenever the port-forward started. */
  lemma SoftServeCorrectedAgreesWhenStarted(c: Config, dryRun: bool, inp: SoftServeInputs)
    requires inp.portForwardStarted
    ensures ConfigureSoftserveAndPushCorrected(c, dryRun, inp) == ConfigureSoftserveAndPush(c, dryRun, inp)
  {
  }

  lemma KeyUploadIdempotent(c: Config, dryRun2: bool, postOk2: bool)
    requires GitlabKeyUpload(c, false, true).Done?
    ensures var c1 := GitlabKeyUpload(c, false, true).state;
      GitlabKeyUpload(c1, dryRun2, postOk2) == Done(c1, [])
  {
  }

  // ---------------------------------------------------------------- dry-run

  /** Under dry-run no step issues a call or changes the state, whatever the external results would be. */
  lemma DryRunIsInert(c: Config, home: string, b: BaseInputs, g: GitlabInputs, s: SoftServeInputs, postOk: bool, t: TokenInputs)
    ensures ApplyBaseTerraform(c, true, home, b) == Done(c, [])
    ensures ApplyGitlabTerraform(c, true, g) == Done(c, [])
    ensures ConfigureSoftserveAndPush(c, true, s) == Done(c, [])
    ensures GitlabKeyUpload(c, true, postOk) == Done(c, [])
    ensures ProduceGitlabTokens(c, true, t) == Done(c, [])
  {
  }

  // ---------------------------------------------------------------- tokens

  /** The statuses the token step only logs do not influence it. */
  lemma TokensIgnoreCommandStatuses(c: Config, dryRun: bool, inp: TokenInputs, podOk: bool, createOk: bool, secretOk: bool)
    ensures ProduceGitlabTokens(c, dryRun, inp)
         == ProduceGitlabTokens(c, dryRun, inp.(podLookup := inp.podLookup.(ok := podOk),
                                                createOk := createOk,
                                                secretLookup := inp.secretLookup.(ok := secretOk)))
  {
  }

  /** With both tokens stored, the step only looks up the pod. */
  lemma TokensStoredIsNoOp(c: Config, dryRun: bool, inp: TokenInputs)
    requires GetString(c, GitlabToken) != "" && GetString(c, RunnerToken) != ""
    ensures ProduceGitlabTokens(c, dryRun, inp) == Done(c, if dryRun then [] else [GetToolboxPod])
  {
  }

  /**
   * A generated access token is created at most once: after a completed
   * run, a second run issues no creation command and keeps the token.
   */
  lemma AccessTokenCreatedOnce(c: Config, inp: TokenInputs, dryRun2: bool, inp2: TokenInputs)
    requires ProduceGitlabTokens(c, false, inp).Done?
    ensures var r1 := ProduceGitlabTokens(c, false, inp);
      var r2 := ProduceGitlabTokens(r1.state, dryRun2, inp2);
      && GetString(r1.state, GitlabToken) != ""
      && Get(r2.state, GitlabToken) == Get(r1.state, GitlabToken)
      && forall a :: a in r2.actions ==> !a.CreateToken?
  {
    var r1 := ProduceGitlabTokens(c, false, inp);
    if GetString(c, GitlabToken) == "" {
      assert Get(r1.state, GitlabToken) == Some(Str(inp.uuid[..Text.TokenLength]));
    }
  }

  /** With a canonical UUID the token branch never panics, and the stored token holds no quote. */
  lemma CanonicalUuidGivesToken(c: Config, pod: string, uuid: string, createOk: bool)
    requires GetString(c, GitlabToken) == "" && Text.CanonicalUuid(uuid)
    ensures var r := EnsureGitlabToken(c, pod, uuid, createOk);
      && r.Done?
      && var t := GetString(r.state, GitlabToken);
      |t| == Text.TokenLength && forall i :: 0 <= i < |t| ==> t[i] != Text.Quote
  {
    Text.CanonicalUuidToken(uuid);
  }

  /** A secret printed as a quoted canonical encoding decodes to exactly the encoded bytes. */
  lemma RunnerTokenFromQuotedSecret(bs: seq<Base64.Byte>)
    ensures DecodeRunnerToken([Text.Quote] + Base64.Encode(bs) + [Text.Quote]) == Some(Base64.BytesToString(bs))
  {
    var e := Base64.Encode(bs);
    assert forall i :: 0 <= i < |e| ==> e[i] != Text.Quote;
    Text.StripQuotesUnwraps(e);
    Base64.DecodeEncode(bs);
  }

  /** ... and is what the token step stores when no runner token was there. */
  lemma RunnerTokenStored(c: Config, inp: TokenInputs, bs: seq<Base64.Byte>)
    requires GetString(c, GitlabToken) != "" && GetString(c, RunnerToken) == ""
    requires inp.secretLookup.stdout == [Text.Quote] + Base64.Encode(bs) + [Text.Quote]
    ensures var r := ProduceGitlabTokens(c, false, inp);
      r.Done? && Get(r.state, RunnerToken) == Some(Str(Base64.BytesToString(bs)))
  {
    RunnerTokenFromQuotedSecret(bs);
  }

  /**
   * A secret that does not decode aborts without writing the runner token;
   * an access token generated earlier in the same run is already persisted.
   */
  lemma DecodeFailureWritesNoRunnerToken(c: Config, inp: TokenInputs)
    requires GetString(c, RunnerToken) == ""
    requires |inp.uuid| >= Text.TokenLength
    requires DecodeRunnerToken(inp.secretLookup.stdout) == None
    ensures var r := ProduceGitlabTokens(c, false, inp);
      && r.Abort?
      && Get(r.state, RunnerToken) == Get(c, RunnerToken)
      && GetString(r.state, GitlabToken) != ""
      && r.actions[|r.actions| - 1] == GetRunnerSecret
  {
    var pod := Text.StripQuotes(inp.podLookup.stdout);
    var t := EnsureGitlabToken(c, pod, inp.uuid, inp.createOk);
    assert GetString(t.state, RunnerToken) == "";
  }

  /** A stray non-alphabet character in the secret output is such a decode failure. */
  lemma ForeignCharFailsDecode(stdout: string, i: int)
    requires 0 <= i < |stdout|
    requires !Base64.IsBase64Char(stdout[i]) && stdout[i] != Base64.Pad
    requires stdout[i] !in Base64.LineBreaks && stdout[i] != Text.Quote
    ensures DecodeRunnerToken(stdout) == None
  {
    var s := Text.StripQuotes(stdout);
    var ch := stdout[i];
    Text.RemoveAllKeepsOthers(stdout, {Text.Quote}, ch);
    assert ch in multiset(stdout);
    assert ch in multiset(s);
    var j :| 0 <= j < |s| && s[j] == ch;
    Base64.DecodeRejectsForeignChar(s, j);
  }

  /** With the access token stored and no runner token, a real token run reads the secret. */
  lemma MissingRunnerTokenReadsSecret(c: Config, inp: TokenInputs)
    requires GetString(c, GitlabToken) != "" && GetString(c, RunnerToken) == ""
    ensures GetRunnerSecret in ProduceGitlabTokens(c, false, inp).actions
  {
    var pod := Text.StripQuotes(inp.podLookup.stdout);
    var t := EnsureGitlabToken(c, pod, inp.uuid, inp.createOk);
    assert t == Done(c, []);
    var rt := EnsureRunnerToken(c, inp.secretLookup);
    assert rt.actions == [GetRunnerSecret];
    assert ProduceGitlabTokens(c, false, inp).actions == [GetToolboxPod] + [] + rt.actions;
  }

  /** The client's rendering of an empty secret, just the two quotes, decodes to the empty token. */
  lemma EmptySecretDecodes()
    ensures DecodeRunnerToken([Text.Quote, Text.Quote]) == Some("")
  {
    RunnerTokenFromQuotedSecret([]);
    assert Base64.Encode([]) == [];
    assert [Text.Quote] + [] + [Text.Quote] == [Text.Quote, Text.Quote];
  }

  /**
   * An empty secret (the client prints just the two quotes) decodes without
   * error to the empty token, which is stored; the next run fetches it again.
   */
  lemma EmptySecretStoredAndRefetched(c: Config, inp: TokenInputs, inp2: TokenInputs)
    requires GetString(c, GitlabToken) != "" && GetString(c, RunnerToken) == ""
    requires inp.secretLookup.stdout == [Text.Quote, Text.Quote]
    ensures var r := ProduceGitlabTokens(c, false, inp);
      && r.Done?
      && Get(r.state, RunnerToken) == Some(Str(""))
      && GetRunnerSecret in ProduceGitlabTokens(r.state, false, inp2).actions
  {
    EmptySecretDecodes();
    var pod := Text.StripQuotes(inp.podLookup.stdout);
    assert EnsureGitlabToken(c, pod, inp.uuid, inp.createOk) == Done(c, []);
    var rt := EnsureRunnerToken(c, inp.secretLookup);
    assert rt.Done? && Get(rt.state, RunnerToken) == Some(Str(""));
    var r := ProduceGitlabTokens(c, false, inp);
    assert r.state == rt.state;
    assert GetString(r.state, GitlabToken) != "";
    MissingRunnerTokenReadsSecret(r.state, inp2);
  }
}
