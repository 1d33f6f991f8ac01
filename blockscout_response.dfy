/**
 * Reading the explorer's replies: `hasSourceCode`, the decision chain of
 * `verifyContract` after the POST, and the `verificationStatus` polling loop.
 */
module BlockscoutResponse {
  import opened Optional
  import opened Text
  import opened BlockscoutTypes

  /**
   * `hasSourceCode`: the reply has data whose result carries a non-empty
   * `SourceCode`. A string result and an array result have no such field.
   */
  function HasSourceCode(res: Response): (r: bool)
    ensures r <==> res.data.Some? && res.data.value.result.Record?
                   && res.data.value.result.sourceCode.Some? && res.data.value.result.sourceCode.value != ""
  {
    res.data.Some? &&
    match res.data.value.result
    case Record(code) => code.Some? && |code.value| > 0
    case _ => false
  }

  /** The two strings agree letter by letter once lower-cased. */
  ghost predicate EqualIgnoringCase(a: string, b: string)
  {
    |a| == |b| && forall k :: 0 <= k < |a| ==> Lower(a[k]) == Lower(b[k])
  }

  /** `phrase` occurs in `msg` at index `i`, ignoring case. */
  ghost predicate MatchesAt(msg: string, phrase: string, i: nat)
  {
    i + |phrase| <= |msg| && EqualIgnoringCase(msg[i..i + |phrase|], phrase)
  }

  /** `phrase` occurs somewhere in `msg`, ignoring case. */
  ghost predicate MentionsIgnoringCase(msg: string, phrase: string)
  {
    exists i: nat :: MatchesAt(msg, phrase, i)
  }

  /** `msg.toLowerCase().includes(phrase.toLowerCase())` is a case-insensitive search. */
  lemma ContainsLowered(msg: string, phrase: string)
    ensures Contains(ToLower(msg), ToLower(phrase)) <==> MentionsIgnoringCase(msg, phrase)
  {
    var lm, lp := ToLower(msg), ToLower(phrase);
    ContainsAt(lm, lp);
    forall i: nat ensures OccursAt(lm, lp, i) <==> MatchesAt(msg, phrase, i) {
      if i + |phrase| <= |msg| {
        var a, b := lm[i..i + |lp|], msg[i..i + |phrase|];
        assert forall k | 0 <= k < |b| :: a[k] == Lower(b[k]) && lp[k] == Lower(phrase[k]);
        if EqualIgnoringCase(b, phrase) {
          assert a == lp;
        }
      }
    }
  }

  /** The phrase `verifyContract` searches for: the ALREADY_VERIFIED label, lower-cased. */
  lemma AlreadyVerifiedLowered()
    ensures ToLower(AlreadyVerified.Label()) == "already verified"
  {
    var r := ToLower("Already verified");
    assert r[0] == 'a';
    assert forall i | 1 <= i < |r| :: r[i] == "Already verified"[i];
    assert r == "already verified";
  }

  /** What `verifyContract` does with the reply to its POST. */
  datatype Decision = Settle(status: Status) | Raise(error: Error) | Poll

  function Interpret(res: Response, apiUrl: string): Decision
  {
    if res.data.None? then Raise(NoResponseData(apiUrl))
    else if Contains(ToLower(res.data.value.message), ToLower(AlreadyVerified.Label())) then Settle(AlreadyVerified)
    else if res.data.value.status != "1" then Raise(Rejected(res.data.value.result))
    else if HasSourceCode(res) then Settle(Verified)
    else Poll
  }

  /**
   * The decision chain, in order: a reply without data fails; a message
   * containing "Already verified" in any letter case settles as ALREADY_VERIFIED
   * whatever the status; otherwise a status other than "1" fails with the
   * reply's result; otherwise inline source code settles as VERIFIED, and
   * only without it does polling start. FAILED is never the decision.
   */
  lemma InterpretOrder(res: Response, apiUrl: string)
    ensures res.data.None? ==> Interpret(res, apiUrl) == Raise(NoResponseData(apiUrl))
    ensures res.data.Some? ==>
      var body := res.data.value;
      && (Interpret(res, apiUrl) == Settle(AlreadyVerified) <==> Contains(ToLower(body.message), "already verified"))
      && (Interpret(res, apiUrl) == Settle(AlreadyVerified) <==> MentionsIgnoringCase(body.message, AlreadyVerified.Label()))
      && (!MentionsIgnoringCase(body.message, AlreadyVerified.Label()) && body.status != "1" ==>
            Interpret(res, apiUrl) == Raise(Rejected(body.result)))
      && (!MentionsIgnoringCase(body.message, AlreadyVerified.Label()) && body.status == "1" ==>
            Interpret(res, apiUrl) == if HasSourceCode(res) then Settle(Verified) else Poll)
    ensures Interpret(res, apiUrl) != Settle(Failed)
  {
    if res.data.Some? {
      AlreadyVerifiedLowered();
      ContainsLowered(res.data.value.message, AlreadyVerified.Label());
    }
  }

  /** A poll reply that lets the loop go round again: answered, without source code. */
  predicate Quiet(reply: Reply)
  {
    reply.Answered? && !HasSourceCode(reply.response)
  }

  /** How a poll reply that ends the loop ends it. */
  function Conclusion(reply: Reply, apiUrl: string): Outcome
  {
    if reply.Unreachable? then Threw(PollFailed(apiUrl)) else Finished(Verified)
  }

  /**
   * Where `verificationStatus` ends on the given replies: at the first
   * reply with source code (VERIFIED) or the first failed request (an
   * error), or nowhere when all of them come back without source code.
   */
  function PollResult(polls: seq<Reply>, apiUrl: string): Outcome
  {
    if polls == [] then StillPolling
    else if Quiet(polls[0]) then PollResult(polls[1..], apiUrl)
    else Conclusion(polls[0], apiUrl)
  }

  /**
   * Polling has no bound of its own: it stops at the first reply that is
   * not quiet, with that reply's conclusion, and keeps going past any
   * number of quiet replies.
   */
  lemma {:induction false} PollStopsAtFirstAnswer(polls: seq<Reply>, apiUrl: string)
    ensures forall k :: 0 <= k < |polls| && !Quiet(polls[k]) && (forall j :: 0 <= j < k ==> Quiet(polls[j])) ==>
      PollResult(polls, apiUrl) == Conclusion(polls[k], apiUrl)
    ensures (forall j :: 0 <= j < |polls| ==> Quiet(polls[j])) ==> PollResult(polls, apiUrl) == StillPolling
  {
    if polls != [] {
      PollStopsAtFirstAnswer(polls[1..], apiUrl);
      if Quiet(polls[0]) {
        forall k | 0 < k < |polls| && !Quiet(polls[k]) && (forall j :: 0 <= j < k ==> Quiet(polls[j]))
          ensures PollResult(polls[1..], apiUrl) == Conclusion(polls[k], apiUrl)
        {
          assert polls[1..][k - 1] == polls[k];
          assert forall j :: 0 <= j < k - 1 ==> polls[1..][j] == polls[j + 1];
        }
      }
    }
  }

  /** Polling ends in VERIFIED, in an error naming the API, or not at all. */
  lemma {:induction false} PollOutcomes(polls: seq<Reply>, apiUrl: string)
    ensures PollResult(polls, apiUrl) in {Finished(Verified), Threw(PollFailed(apiUrl)), StillPolling}
  {
    if polls != [] && Quiet(polls[0]) {
      PollOutcomes(polls[1..], apiUrl);
    }
  }

  /**
   * `hasSourceCode` reads `SourceCode` on the result itself, so a status
   * reply whose result is an array of records never ends the polling, even
   * when its records carry source code.
   */
  lemma {:induction false} ArrayResultsKeepPolling(polls: seq<Reply>, apiUrl: string)
    requires forall j :: 0 <= j < |polls| ==>
      polls[j].Answered? && polls[j].response.data.Some? && polls[j].response.data.value.result.Items?
    ensures PollResult(polls, apiUrl) == StillPolling
  {
    if polls != [] {
      ArrayResultsKeepPolling(polls[1..], apiUrl);
    }
  }

  /**
   * `verificationStatus`: poll until a reply has source code; a failed
   * request ends the loop with an error. The loop runs over the replies the
   * explorer gives; the delay between polls is not modelled.
   */
  method VerificationStatus(polls: seq<Reply>, apiUrl: string) returns (o: Outcome)
    ensures o == PollResult(polls, apiUrl)
  {
    var i := 0;
    while i < |polls|
      invariant i <= |polls|
      invariant PollResult(polls[i..], apiUrl) == PollResult(polls, apiUrl)
    {
      match polls[i] {
        case Unreachable(_) =>
          return Threw(PollFailed(apiUrl));
        case Answered(res) =>
          if HasSourceCode(res) {
            return Finished(Verified);
          }
      }
      assert polls[i..][1..] == polls[i + 1..];
      i := i + 1;
    }
    o := StillPolling;
  }
}
