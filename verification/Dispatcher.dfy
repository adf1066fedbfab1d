/**
 The loop of a dispatcher thread (SpdStorageUnitDispatcherThread in src/shared/stgunit.c): each
 transact call hands over the response to the previous request and fetches the next one.
 */
module Dispatcher {
  import opened Wrappers

  type Hint = nat

  // SPD_IOCTL_TRANSACT_KIND: 1 to 4 name an operation, anything else is invalid.
  type Kind = nat

  datatype Status = Status(scsiStatus: nat, senseKey: nat, asc: nat)

  datatype Response = Response(hint: Hint, kind: Kind, status: Status)

  // What the outside does in one round: the transact call fails, or it succeeds with a request
  // (hint zero: none) and the interface handler for its kind answers.
  datatype Round =
    | Failure(error: nat)
    | Fetched(hint: Hint, kind: Kind, handled: bool, complete: bool, status: Status)

  const IllegalCommand := Status(2, 5, 0x20)

  // Handlers may be missing; a kind without handler is answered with an illegal command error.
  predicate HasHandler(r: Round)
    requires r.Fetched?
  {
    1 <= r.kind <= 4 && r.handled
  }

  // The answer a round leaves for the next call.
  function Answer(r: Round): Option<Response>
    requires r.Fetched?
  {
    if r.hint == 0 then None
    else if !HasHandler(r) then Some(Response(r.hint, r.kind, IllegalCommand))
    else if r.complete then Some(Response(r.hint, r.kind, r.status))
    else None
  }

  // `rounds` is what happens until a transact call fails. `calls` is the response argument of
  // each transact call made.
  method Dispatch(rounds: seq<Round>) returns (calls: seq<Option<Response>>, error: nat)
    requires rounds != [] && rounds[|rounds| - 1].Failure?
    requires forall i :: 0 <= i < |rounds| - 1 ==> rounds[i].Fetched?
    ensures |calls| == |rounds| && calls[0] == None
    ensures forall i :: 0 <= i < |rounds| - 1 ==> calls[i + 1] == Answer(rounds[i])
    ensures error == rounds[|rounds| - 1].error
  {
    var response: Option<Response> := None;
    calls := [];
    while true
      invariant |calls| < |rounds|
      invariant response == if calls == [] then None else Answer(rounds[|calls| - 1])
      invariant calls != [] ==> calls[0] == None
      invariant forall i :: 0 <= i < |calls| - 1 ==> calls[i + 1] == Answer(rounds[i])
      decreases |rounds| - |calls|
    {
      calls := calls + [response];
      match rounds[|calls| - 1]
      case Failure(e) =>
        return calls, e;
      case Fetched(hint, kind, handled, complete, status) =>
        if hint == 0 {
          response := None;
        } else {
          var done := true;
          response := Some(Response(hint, kind, IllegalCommand));
          if 1 <= kind <= 4 && handled {
            response := Some(Response(hint, kind, status));
            done := complete;
          }
          if !done { response := None; }
        }
    }
  }

  // What a thread passed to its transact calls, as the method's contract fixes it.
  ghost predicate Handover(rounds: seq<Round>, calls: seq<Option<Response>>) {
    && rounds != [] && (forall i :: 0 <= i < |rounds| - 1 ==> rounds[i].Fetched?)
    && |calls| == |rounds| && calls[0] == None
    && forall i :: 0 <= i < |rounds| - 1 ==> calls[i + 1] == Answer(rounds[i])
  }

  function CallsWith(calls: seq<Option<Response>>, hint: Hint): set<nat> {
    set i | 0 <= i < |calls| && calls[i].Some? && calls[i].value.hint == hint :: i
  }

  // The calls after the rounds that fetched the hint and have an answer to give: the handler
  // completed, or there is none.
  function AnsweredCalls(rounds: seq<Round>, hint: Hint): set<nat>
    requires forall i :: 0 <= i < |rounds| - 1 ==> rounds[i].Fetched?
  {
    set i | 0 <= i < |rounds| - 1 && rounds[i].hint == hint && (HasHandler(rounds[i]) ==> rounds[i].complete) :: i + 1
  }

  // Each time a hint is fetched it is answered in exactly one call, the next one, with the kind
  // it was fetched with, or in none if its handler did not complete it. The same hint may come
  // any number of times, as the chunks of one SRB do.
  lemma AnsweredOnceInTheNextCall(rounds: seq<Round>, calls: seq<Option<Response>>, hint: Hint)
    requires Handover(rounds, calls) && hint != 0
    ensures CallsWith(calls, hint) == AnsweredCalls(rounds, hint)
    ensures forall k :: k in CallsWith(calls, hint) ==> 0 < k && calls[k].value.kind == rounds[k - 1].kind
  {
    forall k | k in CallsWith(calls, hint) ensures k in AnsweredCalls(rounds, hint) {
      assert k > 0 && calls[k - 1 + 1] == Answer(rounds[k - 1]);
      assert k == k - 1 + 1;
    }
    forall k | k in AnsweredCalls(rounds, hint) ensures k in CallsWith(calls, hint) {
      var i :| 0 <= i < |rounds| - 1 && rounds[i].hint == hint && (HasHandler(rounds[i]) ==> rounds[i].complete) && k == i + 1;
      assert calls[i + 1] == Answer(rounds[i]);
    }
  }

  // Nothing is ever answered that was not asked.
  lemma EveryAnswerWasAsked(rounds: seq<Round>, calls: seq<Option<Response>>, k: nat)
    requires Handover(rounds, calls) && k < |calls| && calls[k].Some?
    ensures k > 0 && rounds[k - 1].hint != 0
    ensures calls[k].value.hint == rounds[k - 1].hint && calls[k].value.kind == rounds[k - 1].kind
  {
    assert calls[k - 1 + 1] == Answer(rounds[k - 1]);
  }

  // Each answer has the status the handler gave for the request, or illegal request / illegal
  // command if there is no handler for its kind; what the unit serves succeeds and nothing else.
  lemma AnsweredWithItsStatus(rounds: seq<Round>, calls: seq<Option<Response>>, k: nat)
    requires Handover(rounds, calls) && k < |calls| && calls[k].Some?
    ensures k > 0 && rounds[k - 1].Fetched?
    ensures var r, status := rounds[k - 1], calls[k].value.status;
      if 1 <= r.kind <= 4 && r.handled then r.complete && status == r.status
      else status.scsiStatus == 2 && status.senseKey == 5 && status.asc == 0x20
  {
    assert calls[k - 1 + 1] == Answer(rounds[k - 1]);
  }

  // And a request is left without an answer in the next call exactly if its handler kept it.
  lemma UnansweredWhileKept(rounds: seq<Round>, calls: seq<Option<Response>>, i: nat)
    requires Handover(rounds, calls) && i + 1 < |rounds| && rounds[i].hint != 0
    ensures calls[i + 1].None? <==> 1 <= rounds[i].kind <= 4 && rounds[i].handled && !rounds[i].complete
  {
    assert calls[i + 1] == Answer(rounds[i]);
  }
}
