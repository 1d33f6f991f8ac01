# truffle-source-verify, Blockscout verifier — a Dafny model

This project models the Blockscout plugin of truffle-source-verify
(`blockscout.js`) and the programmatic entry point that dispatches to the
explorer plugins (`lib.js`).

The Blockscout plugin is run by the Truffle host with its configuration.
Its behaviour, as modelled here:

- It checks the network id (1, 77 or 100) and that at least one contract
  token follows the subcommand. It then derives the run's options.
- It walks the tokens (`Name` or `Name@address`) in order. For each one it:
  - loads the contract's artifact;
  - applies the address override if the token has one;
  - builds the verify request: the flattened source with an optional SPDX
    license header, the fixed form fields, and up to five library slots;
  - POSTs the request and interprets the reply;
  - if needed, polls the status API until the source code shows up.
- Every failing token is collected. The run fails exactly when one failed.

The entry point maps a network name to the Etherscan or Blockscout plugin.
It then builds the `truffle run …` command that is handed to `npx`.

Modules:

| module | file | models |
|---|---|---|
| `Optional`, `Text` | `text.dfy` | `undefined` vs present values. The JS string operations used: `toLowerCase` (ASCII), `includes`, a global regex match count, `split` on one character, `join`. |
| `BlockscoutTypes` | `blockscout_types.dfy` | Configuration, options, artifacts, explorer replies, errors and statuses. JS truthiness. |
| `BlockscoutConfig` | `blockscout_config.dfy` | The URL tables and `parseConfig`. |
| `BlockscoutArtifacts` | `blockscout_artifacts.dfy` | Token parsing, `getArtifact`, the address override. |
| `BlockscoutRequest` | `blockscout_request.dfy` | `fetchMergedSource`, `extractCompilerVersion`, the form of `sendVerifyRequest`, library linking. |
| `BlockscoutResponse` | `blockscout_response.dfy` | `hasSourceCode`, the decision chain of `verifyContract`, `verificationStatus`. |
| `BlockscoutBatch` | `blockscout_batch.dfy` | `verifyContract`, the per-token step, the batch loop, the closing summary. |
| `Lib` | `lib.dfy` | `verify` of `lib.js`. |

## How the outside world enters the model

The model performs no I/O. Everything the plugin learns from outside is an
input:

- The artifact files of the build directory are a map from contract name to
  `Artifact`.
- For each token, an `Exchange` records what that token's verification
  meets:
  - whether the source file exists;
  - the text the flattener returns;
  - the reply to the verify POST;
  - the replies to the status polls, in order.
- The status loop of the source never gives up. In the model it runs over
  the finite sequence of poll replies it is given. When all of them come
  back without source code, the outcome is `StillPolling`. The batch then
  ends `Stalled`: the source would keep polling and never reach the later
  tokens.

The imperative parts of the source are methods, each proved equal to a
specification function:

- the library `forEach`: `LinkLibraries`, against `WithLibraries`;
- the `while (true)` poll: `VerificationStatus`, against `PollResult`;
- `verifyContract`: `VerifyContract`, against `Verification`;
- the batch `for … of` loop: `VerifyAll` / `Run`, against `TokenVerification`, `FailedTokens` and `ReportLines`.

The properties are proved about those functions.

Two behaviours of the code are easy to misread. The model follows the code
in both:

- **POST failures are not wrapped.** The `catch` at blockscout.js:199-204
  would rethrow "Failed to connect to Blockscout API at url …". It never
  sees a rejected POST: `sendVerifyRequest` is `async`, and it returns the
  `axios.post` promise without `await`, so the rejection settles after the
  `try` has been left. The HTTP client's own error propagates. The model
  raises `PostFailed(reason)` with the client's reason.
- **Array-shaped status results are never recognised.** The explorer's
  `getsourcecode` action answers with `result` as an array of records, one
  per contract. `hasSourceCode` reads `result.SourceCode` on the result
  itself, which an array does not have. A status reply whose result is an
  array is therefore never recognised as verified
  (`BlockscoutResponse.ArrayResultsKeepPolling`).

Two more behaviours of the code are modelled as they stand:

- Explorer links for network id 1 point at the sokol explorer.
- `verifyContract` never returns FAILED, so a token fails only by throwing
  (`BlockscoutBatch.NeverReturnsFailed`).

## Model

| member | source | states |
|---|---|---|
| BlockscoutConfig.ParseConfig | blockscout.js:95-121 | The options exist exactly when the id is 1, 77 or 100 and there are at least two arguments. An unknown id is reported first, naming network and id; then "no contract names". The API URL is the table entry for the id, and the id also has an explorer URL. `optimizationUsed` is the truthiness of the optimizer flag. Runs, EVM target, license and directories are copied through. |
| BlockscoutArtifacts.ParseTokenParts | blockscout.js:49-51 | `Name@address` split on `@`. The name is the '@'-free prefix before the first `@`, or the whole token when there is none. An address exists exactly when the token has an `@`. It is the '@'-free stretch after the first `@`, up to the next `@` or the end. |
| BlockscoutArtifacts.GetArtifact | blockscout.js:123-137 | The artifact is found exactly when the build directory holds it. Otherwise the error names the contract and `<buildDir>/<name>.json`. |
| BlockscoutArtifacts.OverrideAddress | blockscout.js:55-61 | After an override, the network entry for the run's id exists and holds the given address. An existing entry keeps its links and other fields; a missing one is created empty. The id joins the network keys. Other networks and the rest of the artifact are unchanged. |
| BlockscoutArtifacts.PrepareArtifact | blockscout.js:49-61 | A token's artifact is found exactly when its name part is in the store; otherwise the error names the contract and `<buildDir>/<name>.json`. Without a non-empty address part it is the stored artifact. With one, it is the stored artifact after `OverrideAddress`, so the run's network entry carries that address. |
| BlockscoutRequest.HeaderCount | blockscout.js:222-228 | The prepended `// SPDX-License-Identifier: <license>` header contributes exactly one marker match, and no match starts inside its fixed text. |
| BlockscoutRequest.MergedSourceMarkers | blockscout.js:207-233 | A missing source file is the first error, and a duplicate marker the only other one. An accepted source has at most one marker. Without a license, the flattened text is returned unchanged exactly when it has at most one marker. With a license, the result is header + text, accepted exactly when no marker follows the header's, and then it has exactly one. |
| BlockscoutRequest.LicensedSourceHasOneMarker | blockscout.js:215-230 | Suppose a license is given, it is not itself a marker, and the flattener stripped every marker. Then the source is accepted and holds exactly the header's marker. |
| BlockscoutRequest.LibrarySlots | blockscout.js:183-193 | More than five links is an error. Otherwise slot pair `i+1` holds the `i`-th link's name and address, no other slot key exists, and the fixed fields are unchanged. |
| BlockscoutRequest.LinkLibraries | blockscout.js:184-193 | The `forEach` over the links yields exactly `WithLibraries`: the slots above, or the error at the sixth link. |
| BlockscoutRequest.SendVerifyRequest | blockscout.js:166-193 | Building the request up to the POST yields exactly `RequestForm`. |
| BlockscoutRequest.RequestFormSpec | blockscout.js:166-193 | The request is built exactly when the source is accepted and there are at most five links, and source errors come first. The request holds: module `contract`, action `verify`, the entry's address (or undefined), the merged source, the contract name, `v` + compiler version, the optimizer flag and runs, autodetect = true, the EVM version or `default`, and one slot pair per link in order. |
| BlockscoutResponse.ContainsLowered | blockscout.js:151-155 | `msg.toLowerCase().includes(phrase.toLowerCase())` holds exactly when the phrase occurs in the message ignoring letter case. |
| BlockscoutResponse.AlreadyVerifiedLowered | blockscout.js:22-26 | The phrase searched for, the lower-cased ALREADY_VERIFIED label, is `already verified`; `InterpretOrder` uses it to state the search with that literal phrase. |
| BlockscoutResponse.InterpretOrder | blockscout.js:146-161 | The chain after the POST, in order. No data is an error naming the API. A message settles ALREADY_VERIFIED, whatever the status, exactly when its lower-cased text contains `already verified`, that is, when it mentions "Already verified" in any case. Otherwise a status other than "1" fails with the reply's result. Otherwise inline source code gives VERIFIED, and without it polling starts. FAILED is never the decision. |
| BlockscoutResponse.PollStopsAtFirstAnswer | blockscout.js:250-272 | Polling ends at the first reply that is a failed request or carries source code, with that reply's conclusion. It continues through any number of replies without source code. |
| BlockscoutResponse.PollOutcomes | blockscout.js:247-273 | Polling ends in VERIFIED, in the "failed to connect" error naming the API, or never. |
| BlockscoutResponse.HasSourceCode | blockscout.js:241-245 | A reply counts as carrying source code exactly when it has data, its result is a record, and that record's `SourceCode` is present and non-empty. |
| BlockscoutResponse.ArrayResultsKeepPolling | blockscout.js:241-245 | Status replies whose result is an array never end the polling. |
| BlockscoutResponse.VerificationStatus | blockscout.js:247-273 | The loop yields exactly `PollResult` of the replies. |
| BlockscoutBatch.VerifyContract | blockscout.js:139-164 | `verifyContract` yields exactly `Verification`: the request sent, if any, and the outcome. |
| BlockscoutBatch.NothingSentOnBuildErrors | blockscout.js:139-193 | These errors come before any request, in this order: no network entry for the run's id (`NoInstance`), a rejected source, more than five libraries. A request is sent exactly when none of them applies. |
| BlockscoutBatch.ReplyDecides | blockscout.js:145-164 | Once sent: a failed POST propagates the client's error, and an answered POST follows the decision chain. Inline source code gives VERIFIED whatever the poll replies are; only otherwise does the outcome come from polling. |
| BlockscoutBatch.NeverReturnsFailed | blockscout.js:139-164 | `verifyContract` never returns FAILED. |
| BlockscoutBatch.VerifyToken | blockscout.js:48-63 | One token's `try` body yields exactly `TokenVerification`: the prepared artifact and the outcome of verifying it. |
| BlockscoutBatch.ExplorerLinkPages | blockscout.js:68-72 | The link logged for a contract that did not fail is exactly `https://blockscout.com/poa/sokol/address/<address>/contracts` for ids 1 and 77, and exactly `https://blockscout.com/poa/xdai/address/<address>/contracts` for id 100. |
| BlockscoutBatch.FailedTokensExact | blockscout.js:65-77 | The failed list contains every token whose verification threw or returned FAILED, and only those. It is empty exactly when none failed. |
| BlockscoutBatch.VerifyAll | blockscout.js:42-80 | Each token is verified in order against its own exchange, whatever happened to the earlier ones. The loop stops only after a token that keeps polling. The failed list is `FailedTokens` of the attempted tokens, and the reports are `ReportLines` of the results. |
| BlockscoutBatch.Run | blockscout.js:33-80 | The run is refused exactly when `parseConfig` fails, with its error. Otherwise the tokens after the subcommand are verified in order, and the run stalls exactly when the last attempted token keeps polling. A stalled run carries the failed list of the tokens attempted so far. A completed run attempted every token and carries their failed list and reports. |
| BlockscoutBatch.RunFailsIffSomeTokenFails | blockscout.js:82-92 | The closing check fails exactly when some token's verification failed. |
| Lib.Explorer | lib.js:4-14 | mainnet, rinkeby, kovan, ropsten and goerli map to `etherscan`; xdai and sokol map to `blockscout`; any other network gets no explorer. Each direction is stated as an if-and-only-if. |
| Lib.Verify | lib.js:3-28 | Nothing is spawned for an unsupported network, and only then. Otherwise the command is `truffle run <explorer> <names> --network <network> --license <license>`, with license `UNLICENSED` when none is given, split at spaces. |
| Lib.CommandLineJoin | lib.js:19-21 | The command line is its pieces joined by single spaces. With no contract names, one piece is empty. |
| Lib.VerifyArguments | lib.js:19-22 | When no name, network or license contains a space, `npx` receives exactly these arguments: `truffle`, `run`, the explorer, the names (one empty argument when there are none), `--network`, the network, `--license`, the license. |

## Left out

- HTTP transport (`axios`), the one-second `delay` between polls and `querystring` encoding. Replies are inputs; the form is a record, not an encoded body.
- The flattener (`sol-merger`) and its SPDX-removal plugin. The flattened text is an input, and `LicensedSourceHasOneMarker` assumes the plugin removed every marker. A rejected `merge` (an unresolved import, say) is not modelled: the flattened text is always a string. In the code such a rejection fails the token through the batch's `catch` before anything is sent, so `NothingSentOnBuildErrors` lists the build errors only within this abstraction.
- File system and module loading (`fs.existsSync`, `require`, `path.resolve`):
  - artifacts come from a map keyed by contract name;
  - the artifact path is `<buildDir>/<name>.json` without normalisation;
  - source-file existence is an input.
- `JSON.parse` of the artifact metadata. The compiler version is a field of the artifact; a malformed metadata string is not modelled.
- Logging, the debug flag and the version banner. A `Report` (status and artifact) stands for each logged `status: url` line, and `ReportText` renders it. Other messages are not modelled.
- The error messages' wording. Errors are constructors carrying the values the messages interpolate. Only the closing summary message is built.
- The `enforce` helper's process exit, and the exported function's promise. A refused configuration is `ConfigRejected`.
- `spawn` and the child process's exit code. `Lib.Verify` returns the invocation it would start.
- `toLowerCase` beyond ASCII letters. `NaN` truthiness.
- Network ids are integers. The source uses their string forms as object keys; the two agree for the ids involved.
- Links are a sequence in entry order. The source's `Object.entries` would list integer-like library names first.
- An artifact without a `networks` field, and a reply `message` that is not a string.
- BlockscoutBatch.Run: a stalled run does not model the polling that never returns, only that it has not returned.
