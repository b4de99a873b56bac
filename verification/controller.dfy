/** The action controller: a timer queue of Steps waiting to be retried, the per-Step
    invoker that may add to it, the drain loop that pops due entries from it, and the
    two loops of `recv` (snapshot replay, then the watch stream). */
module Controller {

  import opened Wrappers
  import opened Resources
  import opened TimerQueue
  import opened Invoker
  import opened Reconcile

  /** The error `recv` returns when no decoder is registered for the Step kind. */
  const CoderMissing: Error := Error("(" + StepKind + ") coder not exist")

  /** The queue after scheduling `obj` at `due`, if there is a due time. */
  function AfterSchedule(q: seq<Entry<Step>>, obj: Step, due: Option<int>): seq<Entry<Step>>
  {
    match due
    case None => q
    case Some(d) => Insert(q, Entry(obj, d))
  }

  class ActionController {
    const tq: Queue<Step>

    ghost predicate Valid()
      reads this, tq
    {
      tq.Valid()
    }

    /** A controller with an empty timer queue. */
    constructor ()
      ensures Valid() && fresh(tq) && tq.entries == []
    {
      tq := new Queue<Step>();
    }

    /** `realAction`: reconcile one Step object.  Its parameters, the calls made (recorded
        in the ghost trace `calls`), the error returned and the retry scheduled are those of
        `Invoke` on the object's value before the call, with the retry entry holding this
        very object. */
    method RealAction(obj: Step, o: Oracle, now: int)
      returns (err: Option<Error>, ghost calls: seq<Call>)
      requires Valid()
      modifies tq, obj
      ensures Valid()
      ensures obj.actionParams == Invoke(old(obj.Record()), o, now).params
      ensures calls == Invoke(old(obj.Record()), o, now).calls
      ensures err == Invoke(old(obj.Record()), o, now).err
      ensures tq.entries == AfterSchedule(old(tq.entries), obj, Invoke(old(obj.Record()), o, now).retryDue)
    {
      calls := [];
      if obj.kind != StepKind {
        return None, calls;
      }
      if obj.done {
        return None, calls;
      }
      var lookup := o.getAction(obj.actionName);
      calls := calls + [GetAction(obj.actionName)];
      if lookup.Err? {
        return Some(lookup.error), calls;
      }
      var action := lookup.value;
      var check := o.checkParams(obj.actionParams, action.params);
      calls := calls + [CheckParams(obj.actionParams, action.params)];
      if check.Some? {
        return check, calls;
      }
      obj.actionParams := obj.actionParams[FlowIdKey := obj.flowId];
      obj.actionParams := obj.actionParams[StepNameKey := obj.name];
      obj.actionParams := obj.actionParams[AckStateKey := Join(action.returnStates, ",")];
      obj.actionParams := obj.actionParams[UuidKey := obj.uuid];
      match action.serveType {
        case HTTP =>
          var res := o.post(obj.actionParams, action.endpoint);
          calls := calls + [PostHttp(obj.actionParams, action.endpoint)];
          if res.Some? {
            tq.Schedule(obj, now + RetryDelay(obj.retryCount) as int);
            return res, calls;
          }
        case GRPC =>
        case Unrecognized(_) =>
      }
      err := None;
    }

    /** One pass of the drain loop at clock reading `now`: the head entry is popped and
        handed on when `now` is strictly after its due time; otherwise nothing changes. */
    method DrainStep(now: int) returns (fired: Option<Entry<Step>>)
      requires Valid() && tq.entries != []
      modifies tq
      ensures Valid()
      ensures now > old(tq.entries)[0].due ==>
        fired == Some(old(tq.entries)[0]) && tq.entries == old(tq.entries)[1..]
      ensures now <= old(tq.entries)[0].due ==> fired == None && tq.entries == old(tq.entries)
    {
      var payload, due := tq.PeekFirst();
      fired := None;
      if now > due {
        var p, t := tq.PopFirst();
        fired := Some(Entry(p, t));
      }
    }

    /** The inner drain loop, run while the queue is non-empty and for as long as there
        are clock readings: the entries handed on are a prefix of the queue, of the length
        `Fired` gives, and the queue keeps the rest in order. */
    method Drain(clock: seq<int>) returns (fired: seq<Entry<Step>>)
      requires Valid()
      modifies tq
      ensures Valid()
      ensures fired == old(tq.entries)[..Fired(old(tq.entries), clock)]
      ensures tq.entries == old(tq.entries)[Fired(old(tq.entries), clock)..]
    {
      fired := [];
      var i := 0;
      var n := tq.Len();
      while n > 0 && i < |clock|
        invariant 0 <= i <= |clock|
        invariant Valid()
        invariant n == |tq.entries|
        invariant |fired| + Fired(tq.entries, clock[i..]) == Fired(old(tq.entries), clock)
        invariant fired == old(tq.entries)[..|fired|] && tq.entries == old(tq.entries)[|fired|..]
        decreases |clock| - i
      {
        FiredStep(tq.entries, clock, i);
        var f := DrainStep(clock[i]);
        if f.Some? {
          fired := fired + [f.value];
        }
        i := i + 1;
        n := tq.Len();
      }
    }

    /** The state a loop of `recv` has reached once it has handed the arrivals `done`, in
        order, to the invoker as the new Step objects `handled`, starting from the queue
        `q0`: each object holds its arrival's value as the invoker left it, and the queue
        holds `q0` plus the retries those invocations scheduled. */
    ghost predicate HandedOn(q0: seq<Entry<Step>>, done: seq<Arrival>, handled: seq<Step>, o: Oracle)
      reads this, tq, handled
    {
      |handled| == |done|
      && (forall k :: 0 <= k < |handled| ==> handled[k].Record() == ProcessedAll(done, o)[k])
      && tq.entries == ScheduleAll(q0, handled, Dues(done, o))
    }

    /** The loop state grows by one arrival once its Step object holds the arrival's
        processed value and the queue holds that invocation's retry, if any. */
    lemma ExtendHandedOn(q0: seq<Entry<Step>>, done: seq<Arrival>, handled: seq<Step>,
                         a: Arrival, o: Oracle, obj: Step)
      requires |handled| == |done|
      requires forall k :: 0 <= k < |handled| ==> handled[k].Record() == ProcessedAll(done, o)[k]
      requires obj.Record() == Processed(a, o)
      requires tq.entries == AfterSchedule(ScheduleAll(q0, handled, Dues(done, o)), obj,
                                           Invoke(a.item.fill, o, a.now).retryDue)
      ensures HandedOn(q0, done + [a], handled + [obj], o)
    {
      HandledSnoc(done, a, o);
      ScheduleAllSnoc(q0, handled, Dues(done, o), obj, Invoke(a.item.fill, o, a.now).retryDue);
    }

    /** Decode arrival `a` into a new Step object and hand it to `RealAction`: the new
        object extends the loop state by one arrival, and the invoker's error and calls are
        returned. */
    method Handle(a: Arrival, o: Oracle, ghost q0: seq<Entry<Step>>, ghost done: seq<Arrival>,
                  ghost handled: seq<Step>)
      returns (obj: Step, err: Option<Error>, ghost calls: seq<Call>)
      requires Valid() && HandedOn(q0, done, handled, o)
      modifies tq
      ensures Valid() && fresh(obj)
      ensures HandedOn(q0, done + [a], handled + [obj], o)
      ensures err == Invoke(a.item.fill, o, a.now).err
      ensures calls == Invoke(a.item.fill, o, a.now).calls
    {
      obj := new Step(a.item.fill);
      err, calls := RealAction(obj, o, a.now);
      ExtendHandedOn(q0, done, handled, a, o, obj);
    }

    /** The snapshot replay of `recv`: every snapshot item, in order and whether or not it
        decoded, is handed to the invoker, and the largest resource version seen (from 0)
        is returned as the watch's start version. */
    method Replay(snapshot: seq<Arrival>, o: Oracle)
      returns (version: int64, handled: seq<Step>, ghost trace: seq<Call>)
      requires Valid()
      modifies tq
      ensures Valid()
      ensures version == MaxVersion(snapshot)
      ensures HandedOn(old(tq.entries), snapshot, handled, o)
      ensures forall k :: 0 <= k < |handled| ==> fresh(handled[k])
      ensures trace == CallsAll(snapshot, o)
    {
      version := 0;
      handled, trace := [], [];
      var i := 0;
      while i < |snapshot|
        invariant 0 <= i <= |snapshot|
        invariant Valid()
        invariant version == MaxVersion(snapshot[..i])
        invariant HandedOn(old(tq.entries), snapshot[..i], handled, o)
        invariant forall k :: 0 <= k < |handled| ==> fresh(handled[k])
        invariant trace == CallsAll(snapshot[..i], o)
      {
        var a := snapshot[i];
        assert snapshot[..i + 1] == snapshot[..i] + [a];
        MaxVersionSnoc(snapshot[..i], a);
        if a.item.fill.resourceVersion > version {
          version := a.item.fill.resourceVersion;
        }
        // An error from the invoker is only logged.
        var obj, _, calls := Handle(a, o, old(tq.entries), snapshot[..i], handled);
        handled, trace := handled + [obj], trace + calls;
        i := i + 1;
      }
      assert snapshot[..i] == snapshot;
    }

    /** The watch loop of `recv`: items without a name and items that fail to decode are
        skipped; every other item reaches the invoker in arrival order, and an error from
        the invoker does not end the loop. */
    method Receive(stream: seq<Arrival>, o: Oracle) returns (handled: seq<Step>, ghost trace: seq<Call>)
      requires Valid()
      modifies tq
      ensures Valid()
      ensures HandedOn(old(tq.entries), Accepted(stream), handled, o)
      ensures forall k :: 0 <= k < |handled| ==> fresh(handled[k])
      ensures trace == CallsAll(Accepted(stream), o)
    {
      handled, trace := [], [];
      ghost var accepted := [];
      var i := 0;
      while i < |stream|
        invariant 0 <= i <= |stream|
        invariant Valid()
        invariant accepted == Accepted(stream[..i])
        invariant HandedOn(old(tq.entries), accepted, handled, o)
        invariant forall k :: 0 <= k < |handled| ==> fresh(handled[k])
        invariant trace == CallsAll(accepted, o)
      {
        var a := stream[i];
        assert stream[..i + 1] == stream[..i] + [a];
        AcceptedSnoc(stream[..i], a);
        if a.item.name == "" {
          i := i + 1;
          continue;
        }
        if a.item.decodeErr.Some? {
          i := i + 1;
          continue;
        }
        // An error from the invoker is only logged; the loop goes on.
        var obj, _, calls := Handle(a, o, old(tq.entries), accepted, handled);
        handled, trace := handled + [obj], trace + calls;
        accepted := accepted + [a];
        i := i + 1;
      }
      assert stream[..i] == stream;
    }

    /** `Run`, that is `recv`: a failed snapshot listing or a missing Step decoder is
        returned before anything is handled; otherwise the snapshot is replayed, the watch
        is opened at the snapshot's largest version, and its items are received until the
        stream ends, which returns nil. */
    method Run(list: Result<seq<Arrival>, Error>, coderExists: bool,
               watch: int64 -> seq<Arrival>, o: Oracle)
      returns (err: Option<Error>, replayed: seq<Step>, received: seq<Step>, ghost trace: seq<Call>)
      requires Valid()
      modifies tq
      ensures Valid()
      ensures list.Err? ==> err == Some(list.error) && replayed == received == [] && trace == []
                            && tq.entries == old(tq.entries)
      ensures list.Ok? && !coderExists ==> err == Some(CoderMissing) && replayed == received == []
                                           && trace == [] && tq.entries == old(tq.entries)
      ensures list.Ok? && coderExists ==>
        var snapshot := list.value;
        var stream := Accepted(watch(MaxVersion(snapshot)));
        err == None && |replayed| == |snapshot| && |received| == |stream|
        && trace == CallsAll(snapshot, o) + CallsAll(stream, o)
        && (forall k :: 0 <= k < |snapshot| ==> replayed[k].Record() == ProcessedAll(snapshot, o)[k])
        && (forall k :: 0 <= k < |stream| ==> received[k].Record() == ProcessedAll(stream, o)[k])
        && (forall k :: 0 <= k < |replayed| ==> fresh(replayed[k]))
        && (forall k :: 0 <= k < |received| ==> fresh(received[k]))
        && tq.entries == ScheduleAll(ScheduleAll(old(tq.entries), replayed, Dues(snapshot, o)),
                                     received, Dues(stream, o))
    {
      replayed, received, trace := [], [], [];
      if list.Err? {
        return Some(list.error), replayed, received, trace;
      }
      if !coderExists {
        return Some(CoderMissing), replayed, received, trace;
      }
      var version;
      ghost var replayCalls, receiveCalls;
      version, replayed, replayCalls := Replay(list.value, o);
      received, receiveCalls := Receive(watch(version), o);
      trace := replayCalls + receiveCalls;
      err := None;
    }
  }
}
