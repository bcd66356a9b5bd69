# Installation steps of the kubefirst installer, as a Dafny model

The installer provisions a platform in a fixed series of steps. Most steps are
guarded by a completion flag kept in the run state, a configuration document
of dotted keys. A guarded step first reads its flag and skips itself when the
flag is true. Otherwise it does nothing under dry-run. Otherwise it runs its
body and sets the flag. The run state also holds the secrets the steps
capture: the KMS key id, the access token and the runner registration token.
A non-empty access token or runner token is never generated or fetched again.
The KMS key id is read again whenever the base flag is unset.

This project models the five steps in `cmd/installationSteps.go` as pure
transitions over that state:

- `applyBaseTerraform`
- `applyGitlabTerraform`
- `configureSoftserveAndPush`
- `gitlabKeyUpload`
- `produceGitlabTokens`

Every external call becomes an input to the transition: a command's success
and output, HTTP transport success, the generated UUID string, and how a callee
outside this file ends. Each transition returns `Done` or `Abort`. `Abort`
stands for the process ending through `log.Panicf`, `panic`, `log.Fatal` or a
runtime panic. Both carry the state persisted at that point and the external
actions issued, in order.

Modules:

- `RunState` (run_state.dfy): values, keys, and the boolean and string reads
  and writes.
- `Text` (text.dfy): quote stripping, white-space trimming, the 20-character
  token prefix and the canonical UUID form.
- `Base64` (base64.dfy): the runner-token decoder, which is the standard
  alphabet with padding from section 4 of RFC 4648, decoded the way Go's
  `base64.StdEncoding` decodes. It also holds the canonical encoder that is
  the decoder's partner in the round trip.
- `InstallationSteps` (installation_steps.dfy): the five steps.
- `StepProperties` (step_properties.dfy): properties that relate several runs
  or several inputs.

Reading the run state:

- A boolean read treats a missing key as false. A string counts as true only
  when it is one of `1 t T TRUE true True`.
- A string read treats a missing key as the empty string. A boolean reads as
  `"true"` or `"false"`.

What the code does on failure, which the model follows:

- The token step persists a newly generated access token (lines 191-192)
  before it decodes the runner token. When that decode fails, the `panic` at
  lines 217-218 ends the run with the access token already stored.
- The exit statuses of `terraform init` and of the apply/destroy (lines 51-52)
  are discarded. So are the statuses of the cluster-client commands in the
  token step: each failure is only logged (lines 168-170, 186-189 and 206-209).
- The base step writes the key id and its flag (lines 59-61) before it calls
  `detokenize` (line 62), which may still end the process. The soft-serve step
  can end the process after its flag is written (see Findings).
- In the key upload only an HTTP transport error aborts (lines 139-142). The
  JSON decode error of the response is ignored (line 144), so any HTTP status
  counts as success.

## Model

| member | source | states |
|---|---|---|
| RunState.GetBool | cmd/installationSteps.go:25 | A completion flag reads as true only if the key is present; a stored `true` reads true and a stored `false` reads false |
| RunState.GetString | cmd/installationSteps.go:175-176 | A non-empty read means the key is stored; a stored string reads back as itself |
| RunState.Set | cmd/installationSteps.go:59-61 | After a set-and-write the key holds the new value and no other key changes |
| Text.RemoveAll | cmd/installationSteps.go:172 | The result holds none of the removed characters and is no longer than the input |
| Text.RemoveAllKeepsOthers | cmd/installationSteps.go:172 | Every character that is not removed keeps its exact number of occurrences |
| Text.RemoveAllAppend | cmd/installationSteps.go:212 | Removing characters commutes with concatenation, so the remaining characters keep their order |
| Text.RemoveAllNothingToDrop | cmd/installationSteps.go:212 | A string with none of the removed characters comes back unchanged |
| Text.StripQuotes | cmd/installationSteps.go:172 | The stripped pod name holds no `'`, and every other character keeps its count |
| Text.StripQuotesIdempotent | cmd/installationSteps.go:212 | Stripping quotes twice gives the same result as stripping once |
| Text.StripQuotesUnwraps | cmd/installationSteps.go:203-212 | Output wrapped in quotes by the client's `'{...}'` template yields exactly the quote-free payload |
| Text.TrimSpace | cmd/installationSteps.go:57 | The key id neither starts nor ends with white space, and the output is that key id with white space on either side |
| Text.TrimSpaceOfPadded | cmd/installationSteps.go:57 | Trimming removes exactly the surrounding white space and nothing from a trimmed core |
| Text.TrimSpaceIdempotent | cmd/installationSteps.go:57 | Trimming twice gives the same result as trimming once |
| Text.TokenPrefix | cmd/installationSteps.go:181 | A token exists iff the UUID string has at least 20 characters; it then has exactly 20 and is a prefix of the UUID string |
| Text.CanonicalUuidToken | cmd/installationSteps.go:180-183 | For a canonical UUID the token always exists and is non-empty, and it holds no `'`, so it fits inside the quoted `set_token('%s')` argument |
| Base64.CharToSextet | cmd/installationSteps.go:214 | Every alphabet character stands for a value below 64 |
| Base64.SextetToChar | cmd/installationSteps.go:214 | Every 6-bit value has an alphabet character that decodes back to it |
| Base64.SextetOfCharRoundTrip | cmd/installationSteps.go:214 | The alphabet is a bijection: character to value to character is the identity |
| Base64.DecodeGroups | cmd/installationSteps.go:214 | A successful decode had well-formed input: whole four-character groups of alphabet characters, except one or two padding characters that close the input. It yields exactly three bytes per group minus the number of padding characters |
| Base64.DecodeGroupsIff | cmd/installationSteps.go:214 | The group decoder succeeds exactly on well-formed input |
| Base64.Encode | cmd/installationSteps.go:214 | The partner encoding has four characters per started three bytes, all alphabet or padding |
| Base64.BytesFromSextets | cmd/installationSteps.go:214 | Splitting three bytes into four sextets and joining them back is the identity |
| Base64.EncodeGroup | cmd/installationSteps.go:214 | A full group of three bytes is four alphabet characters, none of them padding |
| Base64.DecodeFullGroup | cmd/installationSteps.go:214 | A full encoded group in front of decodable input decodes to its three bytes in front of the rest |
| Base64.DecodeLastPair | cmd/installationSteps.go:214 | Two bytes encode to a group with one padding character, and that group decodes back to them |
| Base64.DecodeLastSingle | cmd/installationSteps.go:214 | One byte encodes to a group with two padding characters, and that group decodes back to it |
| Base64.DecodeGroupsEncode | cmd/installationSteps.go:214 | Decoding any canonical encoding gives back exactly the encoded bytes |
| Base64.Decode | cmd/installationSteps.go:214 | Decoding succeeds exactly when the input, line breaks removed, is well formed, and then yields three bytes per group minus the padding. Any character outside the alphabet, padding and line breaks is a decode error |
| Base64.DecodeEncode | cmd/installationSteps.go:214 | Round trip through the full decoder, line-break skipping included |
| Base64.DecodeRejectsForeignChar | cmd/installationSteps.go:214-219 | One character outside the alphabet, padding and line breaks is a decode error |
| Base64.DecodeRejectsPartialGroup | cmd/installationSteps.go:214-219 | An input that is not whole four-character groups, line breaks aside, is a decode error |
| Base64.DecodeRejectsMisplacedPadding | cmd/installationSteps.go:214-219 | Padding that does not close the input is a decode error: `QQ=Q` and `Q===` both fail |
| Base64.DecodeSkipsLineBreaks | cmd/installationSteps.go:214 | A single carriage return or line feed anywhere in the input does not change the decode result |
| Base64.DecodeIgnoresPaddingBits | cmd/installationSteps.go:214 | Unused bits of a padded group are not checked: `QR==` and `QQ==` both decode to the byte 65 |
| Base64.DecodeEmpty | cmd/installationSteps.go:214 | The empty input decodes without error to no bytes |
| Base64.BytesToString | cmd/installationSteps.go:215 | The stored token has one character per decoded byte, with that byte's code |
| InstallationSteps.TerraformAction | cmd/installationSteps.go:32-48 | The action is `destroy` iff the stored destroy setting or the CLI `--destroy` flag is true, and `apply` otherwise |
| InstallationSteps.ApplyBaseTerraform | cmd/installationSteps.go:24-66 | Skip when flagged or under dry-run. A failed chdir aborts with no action. Init, apply/destroy and output are issued in that order. A failed output aborts with the state untouched and nothing issued after it. Otherwise the trimmed key and the flag are stored before detokenize, and only this flag and the key id change |
| InstallationSteps.ApplyGitlabTerraform | cmd/installationSteps.go:69-92 | Skip when flagged or under dry-run. Otherwise always completes with init then apply and sets only its own flag |
| InstallationSteps.ConfigureSoftserveAndPush | cmd/installationSteps.go:94-120 | Skip when flagged or under dry-run. The configure call is always issued, and the push is issued iff configure returned. A stop signal is only ever the last action and only for a started port-forward, and it is sent on every exit except a process exit. The flag is written iff both callees return. The step completes iff it skipped or everything returned with the port-forward started |
| InstallationSteps.ConfigureSoftserveAndPushCorrected | cmd/installationSteps.go:102-109 | The intended step: configure and push are issued as in the as-written step (push iff configure returned), an abort leaves the state untouched, and once both callees return it completes with its flag set |
| InstallationSteps.GitlabKeyUpload | cmd/installationSteps.go:122-153 | Skip when flagged or under dry-run. Otherwise it posts the bot key titled `kubefirst` to the token-authenticated endpoint. It aborts iff the transport fails, and then writes nothing. On success it sets only its own flag |
| InstallationSteps.EnsureGitlabToken | cmd/installationSteps.go:175-195 | A stored non-empty token is kept and nothing is issued. Otherwise the first 20 UUID characters are pushed to the pod and stored, whatever the command result |
| InstallationSteps.DecodeRunnerToken | cmd/installationSteps.go:210-219 | The secret yields a token exactly when its quote-free form, line breaks removed, is well-formed base64. The token then has three characters per group minus the padding, each a byte value below 256. A stray character outside the alphabet, padding, line breaks and quotes means no token |
| InstallationSteps.EnsureRunnerToken | cmd/installationSteps.go:197-223 | A stored non-empty token is kept and nothing is issued. Otherwise the secret is read. A decode error aborts with the state untouched. A successful decode stores the decoded token and only that |
| InstallationSteps.ProduceGitlabTokens | cmd/installationSteps.go:156-225 | Dry-run does nothing, not even pod discovery. Otherwise pod discovery comes first, stored non-empty tokens are never regenerated or re-read, and only the two token keys change |
| StepProperties.BaseIdempotent | cmd/installationSteps.go:25-26 | A base run on the state a completed base run left is a no-op with no actions |
| StepProperties.BaseFlagOnlyAfterBody | cmd/installationSteps.go:38-61 | The base flag becomes true iff the run was real and got past the chdir and the key output; once set, the next run skips |
| StepProperties.BaseStoresTrimmedKey | cmd/installationSteps.go:53-59 | Output that is a key padded with white space stores exactly that key |
| StepProperties.BaseIgnoresCommandStatuses | cmd/installationSteps.go:51-52 | Init and apply/destroy failures do not change the base step's outcome |
| StepProperties.GitlabIdempotent | cmd/installationSteps.go:70 | A second gitlab run after a real first run is a no-op with no actions |
| StepProperties.GitlabIgnoresFailures | cmd/installationSteps.go:81-86 | A failed chdir and the terraform statuses do not change the gitlab step's outcome |
| StepProperties.SoftServeIdempotent | cmd/installationSteps.go:95-96 | Once the soft-serve flag is persisted, the next run is a no-op |
| StepProperties.SoftServeStartFailureAbortsAfterCommit | cmd/installationSteps.go:105-114 | As written, a failed port-forward start ends the process after the flag is committed; the corrected step completes |
| StepProperties.SoftServeCorrectedAgreesWhenStarted | cmd/installationSteps.go:105-109 | The corrected and the as-written step agree whenever the port-forward started |
| StepProperties.KeyUploadIdempotent | cmd/installationSteps.go:124 | After a successful upload the next run posts nothing and changes nothing |
| StepProperties.DryRunIsInert | cmd/installationSteps.go:28-31 | Under dry-run none of the five steps issues an action or changes the state |
| StepProperties.TokensIgnoreCommandStatuses | cmd/installationSteps.go:167-209 | The exit statuses of pod lookup, token creation and secret lookup do not change the token step's outcome |
| StepProperties.TokensStoredIsNoOp | cmd/installationSteps.go:175-198 | With both tokens stored, the token step only looks up the pod and leaves the state unchanged |
| StepProperties.AccessTokenCreatedOnce | cmd/installationSteps.go:175-192 | After a completed token run, another run issues no creation command and keeps the stored token |
| StepProperties.CanonicalUuidGivesToken | cmd/installationSteps.go:180-191 | For a canonical UUID the token branch completes and stores a 20-character token with no quote |
| StepProperties.RunnerTokenFromQuotedSecret | cmd/installationSteps.go:210-215 | A secret printed as a quoted canonical encoding decodes to exactly the encoded bytes |
| StepProperties.RunnerTokenStored | cmd/installationSteps.go:197-221 | That decoded value is what the token step stores as the runner token |
| StepProperties.DecodeFailureWritesNoRunnerToken | cmd/installationSteps.go:214-219 | A decode failure aborts after the secret read without writing the runner token, while a just-generated access token is already persisted |
| StepProperties.MissingRunnerTokenReadsSecret | cmd/installationSteps.go:175-206 | With the access token stored and no runner token, a real token run issues the secret read |
| StepProperties.ForeignCharFailsDecode | cmd/installationSteps.go:212-219 | A stray character that is not in the alphabet and is not a quote, padding or line break makes the runner-token decode fail |
| StepProperties.EmptySecretDecodes | cmd/installationSteps.go:210-215 | The client's rendering of an empty secret, just two quotes, decodes without error to the empty token |
| StepProperties.EmptySecretStoredAndRefetched | cmd/installationSteps.go:197-221 | An empty secret decodes to the empty token, which is stored; the next run reads the secret again |

## Findings

| source | as written | input that shows it | evidently intended | confidence | as-written member | corrected member |
|---|---|---|---|---|---|---|
| cmd/installationSteps.go:105-109 | The SIGTERM to the port-forward is deferred before the start error is checked, so a failed start leaves a nil process to be signalled when the function returns | The port-forward fails to start (for example the cluster client cannot be found). The start error is logged, the body runs, the flag is written, and the deferred signal then panics on the nil process | Signal only a process that started: the failure is logged and the step completes | medium; not executed | StepProperties.SoftServeStartFailureAbortsAfterCommit | InstallationSteps.ConfigureSoftserveAndPushCorrected |

The as-written step is `InstallationSteps.ConfigureSoftserveAndPush`. Because
the flag is already persisted when the panic happens, a re-run skips the step
(`StepProperties.SoftServeIdempotent`). The panic still ends the installer run.

## Left out

- Environment variables set before the terraform runs (lines 34-36 and 77-78) are left out. They are process-global I/O with no effect on the run state.
- The working-directory change itself is left out. Only its success is an input. In the gitlab step the directory argument is overwritten (line 80), so it is not a parameter.
- Process execution, output buffers and the port-forward child process are left out. Each command is an `Action` plus its result as an input.
- The `time.Sleep` waits (lines 110 and 116) are left out. They have no logical effect.
- The HTTP request and the JSON decoding of its response (lines 139-145) are left out. Only transport success matters. The decode error is ignored in the code, and the response body is only logged.
- Persisting the configuration is left out. Its errors are ignored in the code, so a set followed by a write is one map update. The configuration library's case-insensitive keys, nested maps and other value types (numbers, lists) are not modelled. Keys are flat dotted strings, and values are booleans or strings.
- The bodies of `detokenize`, `configureSoftServe` and `pushGitopsToSoftServe` are defined outside `cmd/installationSteps.go` and are not part of this model. Only how each call ends (`CallResult`) is an input.
- UUID generation is left out because it is random. The UUID string is an input.
- Logging is left out. A guarded step checks its flag before dry-run, and the two orders differ only in the log lines. Both give `Done(state, [])`.
- The driver that calls the steps in order is outside `cmd/installationSteps.go` and is not part of this model.
- Strings are sequences of characters. Bytes from the base64 decoder become one character per byte (`Base64.BytesToString`). White space for trimming is the Unicode White_Space set on characters. The model does not decode UTF-8.
