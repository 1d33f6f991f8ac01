/**
 * `verifyContract` and the exported batch function: every token is
 * verified in turn, failures are collected in order, and the run fails
 * exactly when some token failed.
 */
module BlockscoutBatch {
  import opened Optional
  import opened Text
  import opened BlockscoutTypes
  import opened BlockscoutConfig
  import opened BlockscoutArtifacts
  import opened BlockscoutRequest
  import opened BlockscoutResponse

  /** One contract's verification: the request POSTed, if one was, and how it ended. */
  datatype Trace = Trace(request: Option<Form>, outcome: Outcome)

  /** What follows the POST: its reply decides, or polling does. */
  function Respond(ex: Exchange, apiUrl: string): Outcome
  {
    match ex.post
    case Unreachable(reason) => Threw(PostFailed(reason))
    case Answered(res) =>
      match Interpret(res, apiUrl)
      case Raise(e) => Threw(e)
      case Settle(s) => Finished(s)
      case Poll => PollResult(ex.polls, apiUrl)
  }

  /**
   * `verifyContract`: the artifact must have an entry for the run's network
   * id; then the request is built and POSTed and the reply interpreted.
   */
  function Verification(a: Artifact, options: Options, ex: Exchange): Trace
  {
    if options.networkId !in a.networks then
      Trace(None, Threw(NoInstance(a.contractName, options.networkId)))
    else
      match RequestForm(a, options, ex)
      case Err(e) => Trace(None, Threw(e))
      case Ok(form) => Trace(Some(form), Respond(ex, options.apiUrl))
  }

  method VerifyContract(a: Artifact, options: Options, ex: Exchange) returns (t: Trace)
    ensures t == Verification(a, options, ex)
  {
    if options.networkId !in a.networks {
      return Trace(None, Threw(NoInstance(a.contractName, options.networkId)));
    }
    var form := SendVerifyRequest(a, options, ex);
    if form.Err? {
      return Trace(None, Threw(form.error));
    }
    var outcome: Outcome;
    match ex.post {
      case Unreachable(reason) =>
        outcome := Threw(PostFailed(reason));
      case Answered(res) =>
        var decision := Interpret(res, options.apiUrl);
        match decision {
          case Raise(e) =>
            outcome := Threw(e);
          case Settle(s) =>
            outcome := Finished(s);
          case Poll =>
            outcome := VerificationStatus(ex.polls, options.apiUrl);
        }
    }
    t := Trace(Some(form.value), outcome);
  }

  /**
   * Nothing is sent for an artifact without an entry for the run's network
   * id, for a rejected source, or for more than five linked libraries; a
   * request is sent exactly when none of these holds.
   */
  lemma NothingSentOnBuildErrors(a: Artifact, options: Options, ex: Exchange)
    ensures options.networkId !in a.networks ==>
      Verification(a, options, ex) == Trace(None, Threw(NoInstance(a.contractName, options.networkId)))
    ensures options.networkId in a.networks ==>
      var source := MergedSource(a, options.license, ex);
      var links := a.networks[options.networkId].links;
      && (source.Err? ==> Verification(a, options, ex) == Trace(None, Threw(source.error)))
      && (source.Ok? && |links| > MaxLibraries ==>
            Verification(a, options, ex) == Trace(None, Threw(TooManyLibraries)))
      && (Verification(a, options, ex).request.Some? <==> source.Ok? && |links| <= MaxLibraries)
  {
    if options.networkId in a.networks {
      RequestFormSpec(a, options, ex);
    }
  }

  /**
   * Once the request is sent: a failed POST propagates the client's error;
   * "already verified" in the reply's message wins over any status; a status
   * other than "1" fails with the reply's result; inline source code gives
   * VERIFIED without polling, so the poll replies play no part; and only
   * otherwise does the outcome come from polling.
   */
  lemma ReplyDecides(a: Artifact, options: Options, ex: Exchange)
    requires Verification(a, options, ex).request.Some?
    ensures var o := Verification(a, options, ex).outcome;
      && (ex.post.Unreachable? ==> o == Threw(PostFailed(ex.post.reason)))
      && (ex.post.Answered? ==>
            var res := ex.post.response;
            && (res.data.None? ==> o == Threw(NoResponseData(options.apiUrl)))
            && (res.data.Some? ==>
                  var body := res.data.value;
                  var already := MentionsIgnoringCase(body.message, AlreadyVerified.Label());
                  && (already ==> o == Finished(AlreadyVerified))
                  && (!already && body.status != "1" ==> o == Threw(Rejected(body.result)))
                  && (!already && body.status == "1" && HasSourceCode(res) ==>
                        o == Finished(Verified)
                        && forall polls :: Verification(a, options, ex.(polls := polls)).outcome == o)
                  && (!already && body.status == "1" && !HasSourceCode(res) ==>
                        o == PollResult(ex.polls, options.apiUrl))))
  {
    if ex.post.Answered? {
      InterpretOrder(ex.post.response, options.apiUrl);
    }
  }

  /** `verifyContract` never returns FAILED: it either settles otherwise, throws or keeps polling. */
  lemma NeverReturnsFailed(a: Artifact, options: Options, ex: Exchange)
    ensures Verification(a, options, ex).outcome != Finished(Failed)
  {
    if ex.post.Answered? {
      InterpretOrder(ex.post.response, options.apiUrl);
    }
    PollOutcomes(ex.polls, options.apiUrl);
  }

  /** One token's verification: the artifact prepared for it, if found, and the outcome. */
  datatype TokenResult = TokenResult(artifact: Option<Artifact>, outcome: Outcome)

  function TokenVerification(token: string, store: map<string, Artifact>, options: Options, ex: Exchange): TokenResult
  {
    match PrepareArtifact(token, store, options)
    case Err(e) => TokenResult(None, Threw(e))
    case Ok(a) => TokenResult(Some(a), Verification(a, options, ex).outcome)
  }

  /** The body of the batch loop's `try` for one token. */
  method VerifyToken(token: string, store: map<string, Artifact>, options: Options, ex: Exchange) returns (r: TokenResult)
    ensures r == TokenVerification(token, store, options, ex)
  {
    var t := ParseToken(token);
    var found := GetArtifact(store, t.name, options);
    if found.Err? {
      return TokenResult(None, Threw(found.error));
    }
    var artifact := found.value;
    if HasOverride(t) {
      artifact := OverrideAddress(artifact, options.networkId, t.address.value);
    }
    var trace := VerifyContract(artifact, options, ex);
    r := TokenResult(Some(artifact), trace.outcome);
  }

  /** The tokens whose verification failed, in input order. */
  function FailedTokens(tokens: seq<string>, results: seq<TokenResult>): seq<string>
    requires |tokens| == |results|
  {
    if tokens == [] then []
    else (if Fails(results[0].outcome) then [tokens[0]] else []) + FailedTokens(tokens[1..], results[1..])
  }

  /** The failures of two stretches of tokens are the failures of the first, then of the second. */
  lemma {:induction false} FailedTokensAppend(t1: seq<string>, r1: seq<TokenResult>, t2: seq<string>, r2: seq<TokenResult>)
    requires |t1| == |r1| && |t2| == |r2|
    ensures FailedTokens(t1 + t2, r1 + r2) == FailedTokens(t1, r1) + FailedTokens(t2, r2)
  {
    if t1 == [] {
      assert t1 + t2 == t2 && r1 + r2 == r2;
    } else {
      var t, r := t1 + t2, r1 + r2;
      var head := if Fails(r1[0].outcome) then [t1[0]] else [];
      assert t[0] == t1[0] && r[0] == r1[0];
      assert t[1..] == t1[1..] + t2 && r[1..] == r1[1..] + r2;
      FailedTokensAppend(t1[1..], r1[1..], t2, r2);
      assert FailedTokens(t, r) == head + (FailedTokens(t1[1..], r1[1..]) + FailedTokens(t2, r2));
      assert FailedTokens(t1, r1) == head + FailedTokens(t1[1..], r1[1..]);
    }
  }

  /** One more token: it is listed after the earlier failures exactly when it failed. */
  lemma FailedTokensSnoc(tokens: seq<string>, results: seq<TokenResult>, token: string, result: TokenResult)
    requires |tokens| == |results|
    ensures FailedTokens(tokens + [token], results + [result])
      == FailedTokens(tokens, results) + (if Fails(result.outcome) then [token] else [])
  {
    FailedTokensAppend(tokens, results, [token], [result]);
  }

  /**
   * Exactly the failing tokens are listed: each failing token appears, each
   * listed token failed, and the list is empty exactly when none failed.
   */
  lemma {:induction false} FailedTokensExact(tokens: seq<string>, results: seq<TokenResult>)
    requires |tokens| == |results|
    ensures forall i :: 0 <= i < |tokens| && Fails(results[i].outcome) ==> tokens[i] in FailedTokens(tokens, results)
    ensures forall t :: t in FailedTokens(tokens, results) ==>
      exists i :: 0 <= i < |tokens| && tokens[i] == t && Fails(results[i].outcome)
    ensures FailedTokens(tokens, results) == [] <==> forall i :: 0 <= i < |tokens| ==> !Fails(results[i].outcome)
  {
    if tokens != [] {
      FailedTokensExact(tokens[1..], results[1..]);
      forall t | t in FailedTokens(tokens, results)
        ensures exists i :: 0 <= i < |tokens| && tokens[i] == t && Fails(results[i].outcome)
      {
        if !(Fails(results[0].outcome) && t == tokens[0]) {
          var i :| 0 <= i < |tokens| - 1 && tokens[1..][i] == t && Fails(results[1..][i].outcome);
          assert tokens[i + 1] == t && Fails(results[i + 1].outcome);
        }
      }
      forall i | 0 <= i < |tokens| && Fails(results[i].outcome) ensures tokens[i] in FailedTokens(tokens, results) {
        if i > 0 {
          assert tokens[1..][i - 1] == tokens[i] && results[1..][i - 1] == results[i];
        }
      }
      if forall i :: 0 <= i < |tokens| ==> !Fails(results[i].outcome) {
        assert !Fails(results[0].outcome);
        assert forall i :: 0 <= i < |tokens| - 1 ==> results[1..][i] == results[i + 1];
      }
    }
  }

  /** The explorer page of a verified contract: `<explorer url>/<address>/contracts`. */
  function ExplorerLink(options: Options, a: Artifact): string
  {
    var base := if options.networkId in ExplorerUrls then ExplorerUrls[options.networkId] else "undefined";
    var address :=
      if options.networkId in a.networks && a.networks[options.networkId].address.Some?
      then a.networks[options.networkId].address.value else "undefined";
    base + "/" + address + "/contracts"
  }

  /**
   * The explorer page linked for a contract: ids 1 and 77 both link to the
   * sokol explorer, id 100 to the xdai one, followed by the contract's
   * address and `/contracts`.
   */
  lemma ExplorerLinkPages(options: Options, a: Artifact)
    requires options.networkId in {1, 77, 100}
    requires options.networkId in a.networks && a.networks[options.networkId].address.Some?
    ensures var link, address := ExplorerLink(options, a), a.networks[options.networkId].address.value;
      && (options.networkId in {1, 77} ==> link == "https://blockscout.com/poa/sokol/address/" + address + "/contracts")
      && (options.networkId == 100 ==> link == "https://blockscout.com/poa/xdai/address/" + address + "/contracts")
  {
  }

  /**
   * What is logged for a token that did not fail: its status and the
   * artifact whose explorer page is linked.
   */
  datatype Report = Report(status: Status, artifact: Artifact)

  /** The logged line `<status>: <explorer page>`. */
  function ReportText(report: Report, options: Options): string
  {
    report.status.Label() + ": " + ExplorerLink(options, report.artifact)
  }

  /** The report of one token: one when it settled without failing, none otherwise. */
  function ReportLine(r: TokenResult): seq<Report>
  {
    if !Fails(r.outcome) && r.outcome.Finished? && r.artifact.Some?
    then [Report(r.outcome.status, r.artifact.value)] else []
  }

  /** The lines reported for the tokens that did not fail, in order. */
  function ReportLines(results: seq<TokenResult>): seq<Report>
  {
    if results == [] then [] else ReportLine(results[0]) + ReportLines(results[1..])
  }

  lemma {:induction false} ReportLinesAppend(r1: seq<TokenResult>, r2: seq<TokenResult>)
    ensures ReportLines(r1 + r2) == ReportLines(r1) + ReportLines(r2)
  {
    if r1 == [] {
      assert r1 + r2 == r2;
    } else {
      assert (r1 + r2)[0] == r1[0];
      assert (r1 + r2)[1..] == r1[1..] + r2;
      ReportLinesAppend(r1[1..], r2);
    }
  }

  /** One more token: its report, if any, follows the earlier ones. */
  lemma ReportLinesSnoc(results: seq<TokenResult>, result: TokenResult)
    ensures ReportLines(results + [result]) == ReportLines(results) + ReportLine(result)
  {
    ReportLinesAppend(results, [result]);
    assert ReportLines([result]) == ReportLine(result) + ReportLines([]);
  }

  /**
   * How a run ends: the configuration is refused; a token's verification
   * keeps polling forever (the tokens after it are never reached); or every
   * token was attempted.
   */
  datatype BatchResult =
    | ConfigRejected(error: Error)
    | Stalled(results: seq<TokenResult>, failed: seq<string>)
    | Completed(results: seq<TokenResult>, failed: seq<string>, reports: seq<Report>)

  /** The contract tokens: `config._` without the subcommand. */
  function Tokens(config: Config): seq<string>
  {
    if |config.args| == 0 then [] else config.args[1..]
  }

  /** The `catch` and the FAILED check of the batch loop: a failing token joins the failed list. */
  method RecordFailure(failed: seq<string>, token: string, result: TokenResult) returns (f: seq<string>)
    ensures f == failed + (if Fails(result.outcome) then [token] else [])
  {
    f := failed;
    if Fails(result.outcome) {
      f := f + [token];
    }
  }

  /** A token that settled with VERIFIED or ALREADY_VERIFIED is reported with its explorer link. */
  method RecordReport(reports: seq<Report>, result: TokenResult) returns (r: seq<Report>)
    ensures r == reports + ReportLine(result)
  {
    r := reports;
    if !Fails(result.outcome) && result.outcome.Finished? && result.artifact.Some? {
      r := r + [Report(result.outcome.status, result.artifact.value)];
    }
  }

  /** The first `|results|` tokens were each verified against their own exchange. */
  ghost predicate Attempted(tokens: seq<string>, store: map<string, Artifact>, options: Options, exchanges: seq<Exchange>,
                            results: seq<TokenResult>)
  {
    && |results| <= |tokens| <= |exchanges|
    && forall j :: 0 <= j < |results| ==> results[j] == TokenVerification(tokens[j], store, options, exchanges[j])
  }

  /** Verifying the next token against its exchange extends what was attempted. */
  lemma AttemptedStep(tokens: seq<string>, store: map<string, Artifact>, options: Options, exchanges: seq<Exchange>,
                      results: seq<TokenResult>, result: TokenResult)
    requires Attempted(tokens, store, options, exchanges, results) && |results| < |tokens|
    requires result == TokenVerification(tokens[|results|], store, options, exchanges[|results|])
    ensures Attempted(tokens, store, options, exchanges, results + [result])
  {
  }

  /** The failed list and the reports are those of the results of the first `|results|` tokens. */
  ghost predicate Tallied(tokens: seq<string>, results: seq<TokenResult>, failed: seq<string>, reports: seq<Report>)
  {
    && |results| <= |tokens|
    && failed == FailedTokens(tokens[..|results|], results)
    && reports == ReportLines(results)
  }

  /** Recording the next token's result keeps the tally. */
  lemma TalliedStep(tokens: seq<string>, results: seq<TokenResult>, failed: seq<string>, reports: seq<Report>,
                    result: TokenResult)
    requires Tallied(tokens, results, failed, reports) && |results| < |tokens|
    ensures Tallied(tokens, results + [result],
      failed + (if Fails(result.outcome) then [tokens[|results|]] else []), reports + ReportLine(result))
  {
    var i := |results|;
    FailedTokensSnoc(tokens[..i], results, tokens[i], result);
    ReportLinesSnoc(results, result);
    assert tokens[..i + 1] == tokens[..i] + [tokens[i]];
  }

  /**
   * The batch loop over the tokens. `exchanges[i]` is what the outside
   * world answers while the `i`-th token is verified. Every token is
   * attempted in order whatever happened to the earlier ones, until one
   * keeps polling; the failed list is the failing tokens in input order.
   */
  method VerifyAll(tokens: seq<string>, store: map<string, Artifact>, options: Options, exchanges: seq<Exchange>)
    returns (results: seq<TokenResult>, failed: seq<string>, reports: seq<Report>)
    requires |tokens| <= |exchanges|
    ensures Attempted(tokens, store, options, exchanges, results)
    ensures Tallied(tokens, results, failed, reports)
    ensures forall i :: 0 <= i < |results| - 1 ==> !results[i].outcome.StillPolling?
    ensures |results| < |tokens| ==> |results| > 0 && results[|results| - 1].outcome.StillPolling?
  {
    results, failed, reports := [], [], [];
    for i := 0 to |tokens|
      invariant |results| == i
      invariant Attempted(tokens, store, options, exchanges, results)
      invariant Tallied(tokens, results, failed, reports)
      invariant forall j :: 0 <= j < i ==> !results[j].outcome.StillPolling?
    {
      var result := VerifyToken(tokens[i], store, options, exchanges[i]);
      AttemptedStep(tokens, store, options, exchanges, results, result);
      TalliedStep(tokens, results, failed, reports, result);
      failed := RecordFailure(failed, tokens[i], result);
      reports := RecordReport(reports, result);
      results := results + [result];
      if result.outcome.StillPolling? {
        return;
      }
    }
  }

  /**
   * The exported batch function: the configuration is parsed first, then
   * the tokens after the subcommand are verified.
   */
  method Run(config: Config, store: map<string, Artifact>, exchanges: seq<Exchange>) returns (r: BatchResult)
    requires |Tokens(config)| <= |exchanges|
    ensures r.ConfigRejected? <==> ParseConfig(config).Err?
    ensures r.ConfigRejected? ==> r.error == ParseConfig(config).error
    ensures !r.ConfigRejected? ==>
      var tokens, options := Tokens(config), ParseConfig(config).value;
      && 1 <= |r.results| <= |tokens|
      && Attempted(tokens, store, options, exchanges, r.results)
      && (forall i :: 0 <= i < |r.results| - 1 ==> !r.results[i].outcome.StillPolling?)
      && (r.Stalled? <==> r.results[|r.results| - 1].outcome.StillPolling?)
      && (r.Stalled? ==> r.failed == FailedTokens(tokens[..|r.results|], r.results))
      && (r.Completed? ==> |r.results| == |tokens|
                           && r.failed == FailedTokens(tokens, r.results)
                           && r.reports == ReportLines(r.results))
  {
    var parsed := ParseConfig(config);
    if parsed.Err? {
      return ConfigRejected(parsed.error);
    }
    var tokens := config.args[1..];
    assert tokens == Tokens(config);
    var results, failed, reports := VerifyAll(tokens, store, parsed.value, exchanges);
    if |results| == |tokens| && !results[|results| - 1].outcome.StillPolling? {
      assert tokens[..|results|] == tokens;
      r := Completed(results, failed, reports);
    } else {
      r := Stalled(results, failed);
    }
  }

  /** The closing `enforce` of a completed run: fail listing every failed token, or report success. */
  datatype Verdict = Succeeded(message: string) | FailedRun(message: string)

  function Summary(tokenCount: nat, failed: seq<string>): Verdict
  {
    if |failed| == 0 then
      Succeeded("Successfully verified " + NatToString(tokenCount) + " contract(s).")
    else
      FailedRun("Failed to verify " + NatToString(|failed|) + " contract(s): " + Join(failed, ", "))
  }

  /** A completed run is reported failed exactly when some token's verification failed. */
  lemma RunFailsIffSomeTokenFails(tokens: seq<string>, results: seq<TokenResult>)
    requires |tokens| == |results|
    ensures Summary(|tokens|, FailedTokens(tokens, results)).FailedRun? <==>
      exists i :: 0 <= i < |tokens| && Fails(results[i].outcome)
  {
    FailedTokensExact(tokens, results);
  }
}
