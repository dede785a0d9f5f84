/** Tool calls of a model response, and the checks a response passes before it is released. */
module ResponseValidation {
  import opened ByteStrings

  /** Tool indices are JSON strings or integers. */
  datatype Key = TextKey(text: string) | NumberKey(number: int)

  /** A call: name and argument fragments joined, in UTF-8. */
  datatype Call = Call(key: Key, name: Bytes, arguments: Bytes)

  /** How a tool name is classed: read, grep and glob retrieve, StructuredOutput reports the result. */
  datatype ToolKind = Retrieval | Result | Unknown

  /** `wellFormed` stands for the checks on the decoded arguments of one call. */
  datatype Policy = Policy(
    limit: nat, diffOnly: bool, budget: nat, kind: Bytes -> ToolKind, wellFormed: Call -> bool)

  datatype Refusal = ToolsDisabled | TooLarge | BadCall | RetrievalClosed | BudgetExceeded

  datatype Verdict = Refused(reason: Refusal) | Granted(requested: nat)

  function CallBytes(calls: seq<Call>): nat {
    if calls == [] then 0
    else CallBytes(calls[..|calls| - 1]) + |calls[|calls| - 1].name| + |calls[|calls| - 1].arguments|
  }

  function Requested(policy: Policy, calls: seq<Call>): nat {
    if calls == [] then 0
    else Requested(policy, calls[..|calls| - 1])
         + if policy.kind(calls[|calls| - 1].name) == Retrieval then 1 else 0
  }

  predicate Acceptable(policy: Policy, call: Call) {
    policy.kind(call.name) != Unknown && policy.wellFormed(call)
  }

  /** The verdict on a response with some text and some calls, given how much of the retrieval budget
      is used. */
  function Judge(policy: Policy, used: nat, text: nat, calls: seq<Call>, allowRetrieval: bool): Verdict {
    var requested := Requested(policy, calls);
    if policy.diffOnly && calls != [] then Refused(ToolsDisabled)
    else if text + CallBytes(calls) > policy.limit then Refused(TooLarge)
    else if exists i :: 0 <= i < |calls| && !Acceptable(policy, calls[i]) then Refused(BadCall)
    else if requested > 0 && !allowRetrieval then Refused(RetrievalClosed)
    else if policy.budget > 0 && requested > 0 && used + requested > policy.budget then Refused(BudgetExceeded)
    else Granted(requested)
  }

  /** What the verdict takes out of the budget. */
  function Charge(policy: Policy, verdict: Verdict): nat {
    if verdict.Granted? && policy.budget > 0 then verdict.requested else 0
  }

  lemma {:induction false} RequestedSome(policy: Policy, calls: seq<Call>)
    ensures Requested(policy, calls) > 0 <==> exists i :: 0 <= i < |calls| && policy.kind(calls[i].name) == Retrieval
  {
    if calls != [] {
      var front := calls[..|calls| - 1];
      RequestedSome(policy, front);
      if Requested(policy, front) > 0 {
        var i :| 0 <= i < |front| && policy.kind(front[i].name) == Retrieval;
        assert calls[i] == front[i];
      }
      if i :| 0 <= i < |calls| && policy.kind(calls[i].name) == Retrieval {
        assert i < |front| ==> front[i] == calls[i];
      }
    }
  }

  // --- The verdict, spelled out. ---

  function Names(calls: seq<Call>): (names: seq<Bytes>)
    ensures |names| == |calls|
  {
    seq(|calls|, i requires 0 <= i < |calls| => calls[i].name)
  }

  function Arguments(calls: seq<Call>): (arguments: seq<Bytes>)
    ensures |arguments| == |calls|
  {
    seq(|calls|, i requires 0 <= i < |calls| => calls[i].arguments)
  }

  lemma {:induction false} CallBytesAreNamesAndArguments(calls: seq<Call>)
    ensures CallBytes(calls) == |Flatten(Names(calls))| + |Flatten(Arguments(calls))|
  {
    if calls == [] {
      assert Names(calls) == [] && Arguments(calls) == [];
    } else {
      var front, last := calls[..|calls| - 1], calls[|calls| - 1];
      CallBytesAreNamesAndArguments(front);
      assert Names(calls) == Names(front) + [last.name] && Arguments(calls) == Arguments(front) + [last.arguments];
      FlattenSnoc(Names(front), last.name);
      FlattenSnoc(Arguments(front), last.arguments);
    }
  }

  /** Which calls retrieve. */
  function Retrievals(policy: Policy, calls: seq<Call>): set<nat> {
    set i: nat | i < |calls| && policy.kind(calls[i].name) == Retrieval
  }

  lemma {:induction false} RequestedCounts(policy: Policy, calls: seq<Call>)
    ensures Requested(policy, calls) == |Retrievals(policy, calls)|
  {
    if calls == [] {
      assert Retrievals(policy, calls) == {};
    } else {
      var front, n := calls[..|calls| - 1], |calls| - 1;
      RequestedCounts(policy, front);
      assert forall i: nat | i < n :: front[i] == calls[i];
      if policy.kind(calls[n].name) == Retrieval {
        assert Retrievals(policy, calls) == Retrievals(policy, front) + {n};
      } else {
        assert Retrievals(policy, calls) == Retrievals(policy, front);
      }
    }
  }

  /** Text, names and arguments together are within the limit. */
  predicate WithinLimit(policy: Policy, text: nat, calls: seq<Call>) {
    text + |Flatten(Names(calls))| + |Flatten(Arguments(calls))| <= policy.limit
  }

  predicate Sound(policy: Policy, calls: seq<Call>) {
    forall i :: 0 <= i < |calls| ==>
      (policy.kind(calls[i].name) == Retrieval || policy.kind(calls[i].name) == Result) && policy.wellFormed(calls[i])
  }

  predicate MayRetrieve(policy: Policy, used: nat, calls: seq<Call>) {
    policy.budget == 0 || used + |Retrievals(policy, calls)| <= policy.budget
  }

  /** When each verdict is given: a refusal names the first condition that fails, and a grant the number of
      retrieving calls. */
  lemma VerdictExactlyWhen(policy: Policy, used: nat, text: nat, calls: seq<Call>, allowRetrieval: bool)
    ensures var verdict := Judge(policy, used, text, calls, allowRetrieval);
            var disabled, retrieves := policy.diffOnly && calls != [], Retrievals(policy, calls) != {};
            var within, sound := WithinLimit(policy, text, calls), Sound(policy, calls);
            && (verdict == Refused(ToolsDisabled) <==> disabled)
            && (verdict == Refused(TooLarge) <==> !disabled && !within)
            && (verdict == Refused(BadCall) <==> !disabled && within && !sound)
            && (verdict == Refused(RetrievalClosed) <==>
                  !disabled && within && sound && retrieves && !allowRetrieval)
            && (verdict == Refused(BudgetExceeded) <==>
                  !disabled && within && sound && retrieves && allowRetrieval && !MayRetrieve(policy, used, calls))
            && (verdict == Granted(|Retrievals(policy, calls)|) <==>
                  !disabled && within && sound
                  && (retrieves ==> allowRetrieval && MayRetrieve(policy, used, calls)))
            && (verdict.Granted? ==> verdict.requested == |Retrievals(policy, calls)|)
            && Charge(policy, verdict)
               == if verdict.Granted? && policy.budget > 0 then |Retrievals(policy, calls)| else 0
  {
    CallBytesAreNamesAndArguments(calls);
    RequestedCounts(policy, calls);
    assert Retrievals(policy, calls) == {} <==> |Retrievals(policy, calls)| == 0;
    if Sound(policy, calls) {
      assert forall i :: 0 <= i < |calls| ==> Acceptable(policy, calls[i]);
    } else {
      var i :| 0 <= i < |calls|
        && !((policy.kind(calls[i].name) == Retrieval || policy.kind(calls[i].name) == Result)
             && policy.wellFormed(calls[i]));
      assert !Acceptable(policy, calls[i]);
    }
  }

  /** The validator of one session, sharing its retrieval budget between concurrent responses. */
  class Validator {
    const policy: Policy
    var retrievalUsed: nat

    constructor (policy: Policy)
      ensures this.policy == policy && retrievalUsed == 0
    {
      this.policy := policy;
      retrievalUsed := 0;
    }

    method ValidateResponse(text: nat, calls: seq<Call>, allowRetrieval: bool) returns (verdict: Verdict)
      modifies this`retrievalUsed
      ensures verdict == Judge(policy, old(retrievalUsed), text, calls, allowRetrieval)
      ensures retrievalUsed == old(retrievalUsed) + Charge(policy, verdict)
    {
      if policy.diffOnly && calls != [] {
        return Refused(ToolsDisabled);
      }
      var effective := text;
      for i := 0 to |calls|
        invariant effective == text + CallBytes(calls[..i])
      {
        assert calls[..i + 1][..i] == calls[..i];
        effective := effective + |calls[i].name| + |calls[i].arguments|;
      }
      assert calls[..|calls|] == calls;
      if effective > policy.limit {
        return Refused(TooLarge);
      }
      var requested := 0;
      for i := 0 to |calls|
        invariant forall j :: 0 <= j < i ==> Acceptable(policy, calls[j])
        invariant requested == Requested(policy, calls[..i])
      {
        assert calls[..i + 1][..i] == calls[..i];
        if policy.kind(calls[i].name) == Unknown || !policy.wellFormed(calls[i]) {
          assert !Acceptable(policy, calls[i]);
          return Refused(BadCall);
        }
        if policy.kind(calls[i].name) == Retrieval {
          requested := requested + 1;
        }
      }
      if requested > 0 && !allowRetrieval {
        return Refused(RetrievalClosed);
      }
      if policy.budget > 0 && requested > 0 {
        if retrievalUsed + requested > policy.budget {
          return Refused(BudgetExceeded);
        }
        retrievalUsed := retrievalUsed + requested;
      }
      return Granted(requested);
    }
  }
}
