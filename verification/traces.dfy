/**
 Sequences of store actions. A `Step` is one synchronous state update; `submit`
 contributes two of them, `BeginStep` and `CompleteStep`, and nothing stops
 another submission from starting in between. An `Action` is what a caller does
 when every submission resolves before the next action: a `Run` of actions is
 the `Trace` of its expansion into steps.
 */
module Traces {
  import opened Wrappers
  import opened JsonValue
  import Registry
  import opened Submission

  datatype Step =
    | AddStep(endpoint: Registry.Endpoint)
    | RemoveStep(url: string)
    | BeginStep(tx: PfbTx, target: string)
    | CompleteStep(outcome: Outcome)
    | ResetStep

  datatype Action =
    | AddAction(endpoint: Registry.Endpoint)
    | RemoveAction(url: string)
    | SubmitAction(tx: PfbTx, target: string, outcome: Outcome)
    | ResetAction

  function Apply(s: State, step: Step, stringify: Json -> string): State
  {
    match step
    case AddStep(e) => AddEndpoint(s, e)
    case RemoveStep(u) => RemoveEndpoint(s, u)
    case BeginStep(_, _) => BeginSubmit(s)
    case CompleteStep(o) => CompleteSubmit(s, o, stringify)
    case ResetStep => Reset(s)
  }

  /** The state after the steps, applied in order. */
  function Trace(s: State, steps: seq<Step>, stringify: Json -> string): State
    decreases |steps|
  {
    if steps == [] then s else Trace(Apply(s, steps[0], stringify), steps[1..], stringify)
  }

  /** The steps of one action; a submission that resolves at once is two steps. */
  function StepsOf(a: Action): seq<Step>
  {
    match a
    case AddAction(e) => [AddStep(e)]
    case RemoveAction(u) => [RemoveStep(u)]
    case SubmitAction(tx, url, o) => [BeginStep(tx, url), CompleteStep(o)]
    case ResetAction => [ResetStep]
  }

  function Expand(actions: seq<Action>): seq<Step>
    decreases |actions|
  {
    if actions == [] then [] else StepsOf(actions[0]) + Expand(actions[1..])
  }

  /** The state after actions none of which overlaps another. */
  function Run(s: State, actions: seq<Action>, stringify: Json -> string): State
  {
    Trace(s, Expand(actions), stringify)
  }

  /** Running a trace in two pieces is running it whole. */
  lemma {:induction false} TraceConcat(s: State, a: seq<Step>, b: seq<Step>, stringify: Json -> string)
    ensures Trace(s, a + b, stringify) == Trace(Trace(s, a, stringify), b, stringify)
    decreases |a|
  {
    if a == [] {
      assert a + b == b;
    } else {
      assert (a + b)[0] == a[0];
      assert (a + b)[1..] == a[1..] + b;
      TraceConcat(Apply(s, a[0], stringify), a[1..], b, stringify);
    }
  }

  /** A run is one action followed by the run of the rest. */
  lemma RunCons(s: State, actions: seq<Action>, stringify: Json -> string)
    requires actions != []
    ensures Run(s, actions, stringify) == Run(ApplyAction(s, actions[0], stringify), actions[1..], stringify)
  {
    TraceConcat(s, StepsOf(actions[0]), Expand(actions[1..]), stringify);
    match actions[0]
    case SubmitAction(tx, url, o) =>
      assert Trace(s, StepsOf(actions[0]), stringify)
          == Trace(BeginSubmit(s), [CompleteStep(o)], stringify);
    case _ =>
  }

  /** The effect of one whole action. */
  function ApplyAction(s: State, a: Action, stringify: Json -> string): State
  {
    match a
    case AddAction(e) => AddEndpoint(s, e)
    case RemoveAction(u) => RemoveEndpoint(s, u)
    case SubmitAction(_, _, o) => Submit(s, o, stringify)
    case ResetAction => Reset(s)
  }

  /** What holds in every reachable state, however submissions overlap: Idle
      means no error text and no result, and a result is only ever kept in
      Success or in an Error reached after it. */
  ghost predicate Coherent(s: State)
  {
    && (s.viewStatus == Idle ==> s.errorMessage == "" && s.result == None)
    && (s.result.Some? ==> s.viewStatus == Success || s.viewStatus == Error)
  }

  /** What holds when no submission is in flight and none overlapped: the
      status is not Loading and a result is present exactly in Success. The
      error text is not covered: it may be stale in Success. */
  ghost predicate Settled(s: State)
  {
    && Coherent(s)
    && s.viewStatus != Loading
    && (s.result.Some? <==> s.viewStatus == Success)
  }

  lemma InitialSettled()
    ensures Settled(Initial())
  {
  }

  /** Whatever state the store held, `reset` leaves it settled. */
  lemma ResetSettles(s: State)
    ensures Settled(Reset(s))
  {
  }

  /** Every step keeps the store coherent. */
  lemma ApplyCoherent(s: State, step: Step, stringify: Json -> string)
    requires Coherent(s)
    ensures Coherent(Apply(s, step, stringify))
  {
  }

  lemma {:induction false} TraceCoherent(s: State, steps: seq<Step>, stringify: Json -> string)
    requires Coherent(s)
    ensures Coherent(Trace(s, steps, stringify))
    decreases |steps|
  {
    if steps != [] {
      ApplyCoherent(s, steps[0], stringify);
      TraceCoherent(Apply(s, steps[0], stringify), steps[1..], stringify);
    }
  }

  /** Every whole action keeps the store settled. */
  lemma ApplyActionSettled(s: State, a: Action, stringify: Json -> string)
    requires Settled(s)
    ensures Settled(ApplyAction(s, a, stringify))
  {
  }

  lemma {:induction false} RunSettled(s: State, actions: seq<Action>, stringify: Json -> string)
    requires Settled(s)
    ensures Settled(Run(s, actions, stringify))
    decreases |actions|
  {
    if actions == [] {
    } else {
      RunCons(s, actions, stringify);
      ApplyActionSettled(s, actions[0], stringify);
      RunSettled(ApplyAction(s, actions[0], stringify), actions[1..], stringify);
    }
  }

  /** The endpoint list as only the registry steps would leave it. */
  function RegistryTrace(es: seq<Registry.Endpoint>, steps: seq<Step>): seq<Registry.Endpoint>
    decreases |steps|
  {
    if steps == [] then es
    else
      var next := match steps[0]
        case AddStep(e) => Registry.Add(es, e)
        case RemoveStep(u) => Registry.Remove(es, u)
        case _ => es;
      RegistryTrace(next, steps[1..])
  }

  /** Submissions and resets never race with the registry: the endpoint list
      after any trace is what its add and remove steps alone produce. */
  lemma {:induction false} EndpointsOnlyFromRegistry(s: State, steps: seq<Step>, stringify: Json -> string)
    ensures Trace(s, steps, stringify).endpoints == RegistryTrace(s.endpoints, steps)
    decreases |steps|
  {
    if steps != [] {
      EndpointsOnlyFromRegistry(Apply(s, steps[0], stringify), steps[1..], stringify);
    }
  }

  /** A failed submission's text outlives a later successful one: without any
      overlap, Success can carry the serialised body of an earlier rejection. */
  lemma StaleErrorSurvivesSuccess(tx: PfbTx, url: string, rejected: Json, accepted: Json, stringify: Json -> string)
    ensures var s := Run(Initial(), [SubmitAction(tx, url, Response(400, rejected)),
                                     SubmitAction(tx, url, Response(200, accepted))], stringify);
      s.viewStatus == Success && s.result == Some(accepted) && s.errorMessage == stringify(rejected)
  {
    var actions := [SubmitAction(tx, url, Response(400, rejected)),
                    SubmitAction(tx, url, Response(200, accepted))];
    RunCons(Initial(), actions, stringify);
    RunCons(ApplyAction(Initial(), actions[0], stringify), actions[1..], stringify);
  }

  /** The stale text is non-empty whenever the serialiser says anything at all. */
  lemma StaleErrorNonEmpty(tx: PfbTx, url: string, rejected: Json, accepted: Json)
    ensures var s := Run(Initial(), [SubmitAction(tx, url, Response(400, rejected)),
                                     SubmitAction(tx, url, Response(200, accepted))],
                         (j: Json) => "rejected");
      s.viewStatus == Success && s.errorMessage != ""
  {
    StaleErrorSurvivesSuccess(tx, url, rejected, accepted, (j: Json) => "rejected");
  }

  /** The request a step sends: only the start of a submission sends one. */
  function SentBy(step: Step): seq<HttpRequest>
  {
    match step
    case BeginStep(tx, url) => [Request(tx, url)]
    case _ => []
  }

  /** Every request a trace sends, in the order it sends them. */
  function RequestsSent(steps: seq<Step>): seq<HttpRequest>
    decreases |steps|
  {
    if steps == [] then [] else SentBy(steps[0]) + RequestsSent(steps[1..])
  }

  /** The request of each submission action, in order. */
  function Submitted(actions: seq<Action>): seq<HttpRequest>
    decreases |actions|
  {
    if actions == [] then []
    else if actions[0].SubmitAction? then [Request(actions[0].tx, actions[0].target)] + Submitted(actions[1..])
    else Submitted(actions[1..])
  }

  lemma {:induction false} RequestsSentConcat(a: seq<Step>, b: seq<Step>)
    ensures RequestsSent(a + b) == RequestsSent(a) + RequestsSent(b)
    decreases |a|
  {
    if a == [] {
      assert a + b == b;
    } else {
      assert (a + b)[0] == a[0];
      assert (a + b)[1..] == a[1..] + b;
      RequestsSentConcat(a[1..], b);
    }
  }

  /** A run sends one request per submission, in order: the POST of that
      submission's transaction to that submission's url. */
  lemma {:induction false} RequestsOfRun(actions: seq<Action>)
    ensures RequestsSent(Expand(actions)) == Submitted(actions)
    decreases |actions|
  {
    if actions != [] {
      RequestsSentConcat(StepsOf(actions[0]), Expand(actions[1..]));
      RequestsOfRun(actions[1..]);
      SentByAction(actions[0]);
    }
  }

  /** The requests of one action's steps. */
  lemma SentByAction(a: Action)
    ensures RequestsSent(StepsOf(a)) == if a.SubmitAction? then [Request(a.tx, a.target)] else []
  {
    match a
    case SubmitAction(tx, url, o) =>
      RequestsSentCons(CompleteStep(o), []);
      RequestsSentCons(BeginStep(tx, url), [CompleteStep(o)]);
      assert [CompleteStep(o)] + [] == [CompleteStep(o)];
    case AddAction(e) =>
      RequestsSentCons(AddStep(e), []);
      assert [AddStep(e)] + [] == [AddStep(e)];
    case RemoveAction(u) =>
      RequestsSentCons(RemoveStep(u), []);
      assert [RemoveStep(u)] + [] == [RemoveStep(u)];
    case ResetAction =>
      RequestsSentCons(ResetStep, []);
      assert [ResetStep] + [] == [ResetStep];
  }

  /** One step of `RequestsSent`. */
  lemma RequestsSentCons(step: Step, rest: seq<Step>)
    ensures RequestsSent([step] + rest) == SentBy(step) + RequestsSent(rest)
  {
    assert ([step] + rest)[1..] == rest;
  }

  /** Two overlapping submissions, the first answered 200 and the second 400,
      end in Error while still holding the first result: `Settled` is not kept
      by traces, only by runs. */
  lemma OverlapKeepsStaleResult(tx: PfbTx, url: string, accepted: Json, rejected: Json, stringify: Json -> string)
    ensures var s := Trace(Initial(), [BeginStep(tx, url), BeginStep(tx, url),
                                       CompleteStep(Response(200, accepted)),
                                       CompleteStep(Response(400, rejected))], stringify);
      s.viewStatus == Error && s.result == Some(accepted) && !Settled(s)
  {
    var steps := [BeginStep(tx, url), BeginStep(tx, url),
                  CompleteStep(Response(200, accepted)), CompleteStep(Response(400, rejected))];
    var s1 := Apply(Initial(), steps[0], stringify);
    var s2 := Apply(s1, steps[1], stringify);
    var s3 := Apply(s2, steps[2], stringify);
    var s4 := Apply(s3, steps[3], stringify);
    assert Trace(s3, steps[3..], stringify) == s4 by {
      assert steps[3..][1..] == [];
    }
    assert Trace(s2, steps[2..], stringify) == Trace(s3, steps[3..], stringify) by {
      assert steps[2..][1..] == steps[3..];
    }
    assert Trace(s1, steps[1..], stringify) == Trace(s2, steps[2..], stringify) by {
      assert steps[1..][1..] == steps[2..];
    }
  }
}
