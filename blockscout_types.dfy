/**
 * The values the Blockscout verifier works on: the host configuration, the
 * options derived from it, compiled-contract artifacts, explorer replies and
 * the failures the verifier raises.
 */
module BlockscoutTypes {
  import opened Optional

  /** A JavaScript value, as far as its truthiness and form encoding matter. */
  datatype JsValue = Undefined | Null | Bool(b: bool) | Number(n: int) | Str(s: string)

  /** JavaScript truthiness (NaN is not modelled). */
  predicate Truthy(v: JsValue)
  {
    match v
    case Undefined => false
    case Null => false
    case Bool(b) => b
    case Number(n) => n != 0
    case Str(s) => s != ""
  }

  /** An optional string option such as `--license` counts when it is a non-empty string. */
  predicate Given(o: Option<string>)
  {
    o.Some? && o.value != ""
  }

  /** The host build tool's configuration, as far as the verifier reads it. */
  datatype Config = Config(
    network: string,             // config.network
    networkId: int,              // config.network_id
    args: seq<string>,           // config._ : the subcommand, then the contract tokens
    workingDirectory: string,
    buildDirectory: string,      // config.contracts_build_directory
    optimizerEnabled: JsValue,   // compilers.solc.settings.optimizer.enabled
    optimizerRuns: int,          // compilers.solc.settings.optimizer.runs
    evmTarget: Option<string>,   // compilers.solc.settings.evmTarget
    license: Option<string>,     // --license
    debug: bool)

  /** The options `parseConfig` derives once per run. */
  datatype Options = Options(
    apiUrl: string,
    networkId: int,
    workingDir: string,
    buildDir: string,
    optimizationUsed: bool,
    runs: int,
    evmVersion: Option<string>,
    license: Option<string>)

  /** One entry of a network's `links` table: library name and its address. */
  datatype Link = Link(name: string, address: string)

  /**
   * An artifact's deployment record for one network id. `fields` stands for
   * the record's other JSON fields (transaction hash and the like).
   */
  datatype NetworkEntry = NetworkEntry(address: Option<string>, links: seq<Link>, fields: map<string, string>)

  /**
   * A compiled-contract artifact. `compilerVersion` is `compiler.version` of
   * the embedded metadata; `networks` is keyed by network id.
   */
  datatype Artifact = Artifact(
    contractName: string,
    sourcePath: string,
    compilerVersion: string,
    networks: map<int, NetworkEntry>)

  /** The `result` field of an explorer reply. */
  datatype ResultField =
    | Missing
    | Plain(text: string)                   // a string, such as an error diagnostic
    | Record(sourceCode: Option<string>)    // an object with an optional `SourceCode`
    | Items(items: seq<ResultField>)        // an array

  /** The JSON body of an explorer reply. */
  datatype ResponseBody = ResponseBody(status: string, message: string, result: ResultField)

  /** An HTTP reply; `data` is absent when the body is empty. */
  datatype Response = Response(data: Option<ResponseBody>)

  /** What one HTTP call produced: a reply, or a rejected promise with its message. */
  datatype Reply = Answered(response: Response) | Unreachable(reason: string)

  /**
   * Everything outside the process that one contract's verification meets:
   * whether its source file exists, the flattened source the merger returns,
   * the reply to the verify POST and the replies to the status polls in order.
   */
  datatype Exchange = Exchange(sourceExists: bool, flattened: string, post: Reply, polls: seq<Reply>)

  /** The failures the verifier raises. */
  datatype Error =
    | UnsupportedNetwork(network: string, networkId: int)
    | NoContractNames
    | ArtifactNotFound(contractName: string, artifactPath: string)
    | NoInstance(contractName: string, networkId: int)
    | SourceNotFound(contractName: string, sourcePath: string)
    | DuplicateLicense
    | TooManyLibraries
    | PostFailed(reason: string)            // the verify POST was rejected by the HTTP client
    | NoResponseData(apiUrl: string)
    | Rejected(result: ResultField)         // the explorer's status was not "1"
    | PollFailed(apiUrl: string)            // a status poll was rejected by the HTTP client

  datatype Result<T> = Ok(value: T) | Err(error: Error)

  /** The `VerificationStatus` values. */
  datatype Status = Failed | Verified | AlreadyVerified
  {
    function Label(): string
    {
      match this
      case Failed => "Fail - Unable to verify"
      case Verified => "Verified"
      case AlreadyVerified => "Already verified"
    }
  }

  /**
   * How one contract's verification ends: with a status, with a thrown
   * error, or not at all — `StillPolling` means every supplied poll reply
   * came back without source code, and the verifier goes on polling.
   */
  datatype Outcome = Finished(status: Status) | Threw(error: Error) | StillPolling

  /** The batch records a token as failed when its verification threw or returned FAILED. */
  predicate Fails(o: Outcome)
  {
    o.Threw? || (o.Finished? && o.status == Failed)
  }
}
