/** The per-Step invoker `realAction` and its retry-delay rule `least`, as pure
    specifications.  The store lookup, the parameter check and the HTTP call are the
    fields of an `Oracle`; the method `Controller.ActionController.RealAction` runs the
    same steps on a Step object and a timer queue and is proved equal to `Invoke`. */
module Invoker {

  import opened Wrappers
  import opened Resources

  const NanosPerSecond: int := 1_000_000_000

  /** The retry-delay rule in seconds: a zero retry count still waits one second; every
      other count, negative ones included, is used as it is. */
  function Least(i: int32): (r: int32)
    ensures i == 0 ==> r == 1
    ensures i != 0 ==> r == i
  {
    if i == 0 then 1 else i
  }

  function Max(a: int, b: int): int { if a < b then b else a }

  /** `Least` is the clamp `max(1, i)` exactly on the non-negative retry counts. */
  lemma LeastMatchesClampIff(i: int32)
    ensures Least(i) as int == Max(1, i as int) <==> i >= 0
  {
  }

  /** `time.Duration(least(i)) * time.Second`: the delay in nanoseconds.  The product
      always fits in a Go `int64`, and the delay is never zero. */
  function RetryDelay(i: int32): (d: int64)
    ensures d as int == Least(i) as int * NanosPerSecond
    ensures d != 0
    ensures i >= 0 ==> d as int >= NanosPerSecond
  {
    Least(i) as int64 * NanosPerSecond as int64
  }

  /** A Step's parameters with the four reserved keys written in. */
  function Enrich(r: StepRecord, a: Action): Params
  {
    r.actionParams[FlowIdKey := r.flowId][StepNameKey := r.name]
      [AckStateKey := Join(a.returnStates, ",")][UuidKey := r.uuid]
  }

  /** The enriched parameters hold the user's keys plus the four reserved ones; the
      reserved keys carry the Step's flow id, its name, the Action's return states joined
      with "," and the Step's uuid; every other key keeps its value. */
  lemma EnrichSpec(r: StepRecord, a: Action)
    ensures var p := Enrich(r, a);
      p.Keys == r.actionParams.Keys + ReservedKeys
      && p[FlowIdKey] == r.flowId && p[StepNameKey] == r.name
      && p[AckStateKey] == Join(a.returnStates, ",") && p[UuidKey] == r.uuid
      && forall k :: k in r.actionParams && k !in ReservedKeys ==> p[k] == r.actionParams[k]
  {
  }

  /** Enriching an already enriched Step changes nothing, so a retried Step carries the
      same reserved values as on its first attempt. */
  lemma EnrichIdempotent(r: StepRecord, a: Action)
    ensures Enrich(r.(actionParams := Enrich(r, a)), a) == Enrich(r, a)
  {
    var p := Enrich(r, a);
    var q := Enrich(r.(actionParams := p), a);
    EnrichSpec(r, a);
    EnrichSpec(r.(actionParams := p), a);
    assert q.Keys == p.Keys;
    forall k | k in q ensures q[k] == p[k] {
      if k !in ReservedKeys { assert k in r.actionParams; }
    }
  }

  /** The calls the invoker makes on its collaborators, in order. */
  datatype Call =
    | GetAction(name: string)
    | CheckParams(params: Params, declared: seq<string>)
    | PostHttp(params: Params, endpoint: string)

  /** The store lookup of an Action by name, the parameter check and the HTTP POST. */
  datatype Oracle = Oracle(
    getAction: string -> Result<Action, Error>,
    checkParams: (Params, seq<string>) -> Option<Error>,
    post: (Params, string) -> Option<Error>)

  /** What one invocation does: the Step's parameters afterwards, the calls made, the due
      time of the retry it schedules (if any) and the error it returns (None is nil). */
  datatype Outcome = Outcome(params: Params, calls: seq<Call>, retryDue: Option<int>,
                             err: Option<Error>)

  /** True when the invoker goes past its two guards: the Step is of the Step kind and is
      not done. */
  predicate Live(r: StepRecord)
  {
    r.kind == StepKind && !r.done
  }

  /** One `realAction` on Step value `r` whose retry, if any, is scheduled at clock
      reading `now` (nanoseconds). */
  function Invoke(r: StepRecord, o: Oracle, now: int): (out: Outcome)
  {
    if !Live(r) then Outcome(r.actionParams, [], None, None)
    else match o.getAction(r.actionName)
      case Err(e) => Outcome(r.actionParams, [GetAction(r.actionName)], None, Some(e))
      case Ok(a) =>
        var checked := [GetAction(r.actionName), CheckParams(r.actionParams, a.params)];
        match o.checkParams(r.actionParams, a.params)
        case Some(e) => Outcome(r.actionParams, checked, None, Some(e))
        case None =>
          var p := Enrich(r, a);
          if a.serveType.HTTP? then
            var sent := checked + [PostHttp(p, a.endpoint)];
            match o.post(p, a.endpoint)
            case Some(e) => Outcome(p, sent, Some(now + RetryDelay(r.retryCount) as int), Some(e))
            case None => Outcome(p, sent, None, None)
          else Outcome(p, checked, None, None)
  }

  /** A Step of another kind, or one already done, is left alone: no lookup, no change to
      its parameters, nothing scheduled, nil returned. */
  lemma SkippedStepIsNoOp(r: StepRecord, o: Oracle, now: int)
    requires r.kind != StepKind || r.done
    ensures Invoke(r, o, now) == Outcome(r.actionParams, [], None, None)
  {
  }

  /** A failed Action lookup or parameter check is returned as it is; the parameters are
      unchanged and nothing is scheduled. */
  lemma RejectedStepIsUntouched(r: StepRecord, o: Oracle, now: int)
    requires Live(r)
    requires o.getAction(r.actionName).Err?
             || o.checkParams(r.actionParams, o.getAction(r.actionName).value.params).Some?
    ensures var out := Invoke(r, o, now);
      out.params == r.actionParams && out.retryDue == None && out.calls[0] == GetAction(r.actionName)
      && out.err == (if o.getAction(r.actionName).Err? then Some(o.getAction(r.actionName).error)
                     else o.checkParams(r.actionParams, o.getAction(r.actionName).value.params))
  {
  }

  /** Once the lookup and the check pass, the parameters are enriched whatever the serve
      type, and the check saw the parameters as the Step carried them. */
  lemma ValidatedStepIsEnriched(r: StepRecord, o: Oracle, now: int)
    requires Live(r) && o.getAction(r.actionName).Ok?
    requires o.checkParams(r.actionParams, o.getAction(r.actionName).value.params).None?
    ensures var a := o.getAction(r.actionName).value;
      var out := Invoke(r, o, now);
      out.params == Enrich(r, a)
      && out.calls[..2] == [GetAction(r.actionName), CheckParams(r.actionParams, a.params)]
  {
  }

  /** The parameters change only when the lookup and the check both pass. */
  lemma ParamsChangeOnlyAfterValidation(r: StepRecord, o: Oracle, now: int)
    ensures Invoke(r, o, now).params != r.actionParams ==>
      Live(r) && o.getAction(r.actionName).Ok?
      && o.checkParams(r.actionParams, o.getAction(r.actionName).value.params).None?
  {
  }

  /** A retry is scheduled exactly when an HTTP POST of the enriched parameters fails; it
      is due `least(retryCount)` seconds after `now` and the POST's error is returned. */
  lemma RetryIffHttpFailure(r: StepRecord, o: Oracle, now: int)
    ensures var out := Invoke(r, o, now);
      out.retryDue.Some? <==>
        (Live(r) && o.getAction(r.actionName).Ok?
         && o.checkParams(r.actionParams, o.getAction(r.actionName).value.params).None?
         && o.getAction(r.actionName).value.serveType == HTTP
         && o.post(Enrich(r, o.getAction(r.actionName).value),
                   o.getAction(r.actionName).value.endpoint).Some?)
    ensures var out := Invoke(r, o, now);
      out.retryDue.Some? ==>
        out.retryDue.value == now + Least(r.retryCount) as int * NanosPerSecond
        && out.err == o.post(out.params, o.getAction(r.actionName).value.endpoint)
  {
  }

  /** nil is returned exactly when the Step is skipped, or passes the lookup and the check
      and is then either not served over HTTP or POSTed successfully. */
  lemma NilIffNoFailure(r: StepRecord, o: Oracle, now: int)
    ensures var out := Invoke(r, o, now);
      out.err.None? <==>
        (!Live(r)
         || (o.getAction(r.actionName).Ok?
             && o.checkParams(r.actionParams, o.getAction(r.actionName).value.params).None?
             && (o.getAction(r.actionName).value.serveType != HTTP
                 || o.post(Enrich(r, o.getAction(r.actionName).value),
                           o.getAction(r.actionName).value.endpoint).None?)))
  {
  }

  /** Re-invoking a Step after a failed POST (the Step object the retry entry holds, its
      parameters already enriched) at a later time `later`, against collaborators `o2`
      whose store returns the same Action and whose check accepts the enriched
      parameters: the identical request is POSTed again, and a retry is scheduled exactly
      when that POST fails, after the same delay as the first one. */
  lemma {:induction false} RetrySendsSameRequest(r: StepRecord, o: Oracle, now: int,
                                                 o2: Oracle, later: int)
    requires Invoke(r, o, now).retryDue.Some?
    requires o2.getAction(r.actionName) == o.getAction(r.actionName)
    requires o2.checkParams(Invoke(r, o, now).params,
                            o.getAction(r.actionName).value.params).None?
    ensures var first := Invoke(r, o, now);
      var again := Invoke(r.(actionParams := first.params), o2, later);
      again.params == first.params && again.calls[2] == first.calls[2]
      && (again.retryDue.Some? <==> o2.post(first.params, o.getAction(r.actionName).value.endpoint).Some?)
      && (again.retryDue.Some? ==> again.retryDue.value - later == first.retryDue.value - now)
  {
    EnrichIdempotent(r, o.getAction(r.actionName).value);
  }
}
