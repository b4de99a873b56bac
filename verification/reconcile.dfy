/** Specifications of the controller's loops: the start version folded over the
    snapshot, the filter the event loop applies to watch items, what each handled item
    leaves behind, and how many entries a run of the drain loop fires. */
module Reconcile {

  import opened Wrappers
  import opened Resources
  import opened TimerQueue
  import Invoker

  /** A raw object from the store: its name as the store reports it, the Step value the
      decoder fills in (possibly only partly, when decoding fails) and the decoder's
      error, if any. */
  datatype Item = Item(name: string, fill: StepRecord, decodeErr: Option<Error>)

  /** An item together with the clock reading (nanoseconds) at which it is handled. */
  datatype Arrival = Arrival(item: Item, now: int)

  /** The start version of the watch: the resource versions of the snapshot items, as
      the decoder left them, folded with `max`, starting from 0. */
  function MaxVersion(s: seq<Arrival>): int64
    decreases |s|
  {
    if s == [] then 0
    else
      var prev := MaxVersion(s[..|s| - 1]);
      var rv := s[|s| - 1].item.fill.resourceVersion;
      if rv > prev then rv else prev
  }

  /** The start version is never negative, bounds every snapshot version, and is one of
      them unless it is the initial 0. */
  lemma {:induction false} MaxVersionIsMax(s: seq<Arrival>)
    ensures 0 <= MaxVersion(s)
    ensures forall k :: 0 <= k < |s| ==> s[k].item.fill.resourceVersion <= MaxVersion(s)
    ensures MaxVersion(s) == 0
            || exists k :: 0 <= k < |s| && s[k].item.fill.resourceVersion == MaxVersion(s)
    decreases |s|
  {
    if s != [] {
      var n := |s| - 1;
      MaxVersionIsMax(s[..n]);
      assert forall k :: 0 <= k < n ==> s[..n][k] == s[k];
      if MaxVersion(s) != 0 && MaxVersion(s) != s[n].item.fill.resourceVersion {
        var k :| 0 <= k < n && s[..n][k].item.fill.resourceVersion == MaxVersion(s[..n]);
        assert s[k].item.fill.resourceVersion == MaxVersion(s);
      }
    }
  }

  /** The event loop hands an item on only when it has a name and decodes. */
  predicate Passes(it: Item)
  {
    it.name != "" && it.decodeErr.None?
  }

  /** The arrivals the event loop hands to the invoker, in arrival order. */
  function Accepted(s: seq<Arrival>): seq<Arrival>
    decreases |s|
  {
    if s == [] then []
    else Accepted(s[..|s| - 1]) + (if Passes(s[|s| - 1].item) then [s[|s| - 1]] else [])
  }

  /** Filtering a stream piece by piece gives the filter of the whole stream: the order of
      arrival is kept across any split point. */
  lemma {:induction false} AcceptedAppend(a: seq<Arrival>, b: seq<Arrival>)
    ensures Accepted(a + b) == Accepted(a) + Accepted(b)
    decreases |b|
  {
    if b == [] {
      assert a + b == a;
    } else {
      var n := |b| - 1;
      assert (a + b)[..|a + b| - 1] == a + b[..n];
      AcceptedAppend(a, b[..n]);
    }
  }

  /** An arrival is handed on exactly when it is in the stream and passes the filter. */
  lemma {:induction false} AcceptedMembers(s: seq<Arrival>, x: Arrival)
    ensures x in Accepted(s) <==> x in s && Passes(x.item)
    decreases |s|
  {
    if s != [] {
      var n := |s| - 1;
      AcceptedMembers(s[..n], x);
      assert s == s[..n] + [s[n]];
    }
  }

  /** The Step value after the invoker has handled arrival `a`. */
  function Processed(a: Arrival, o: Invoker.Oracle): StepRecord
  {
    a.item.fill.(actionParams := Invoker.Invoke(a.item.fill, o, a.now).params)
  }

  /** `Processed` of each arrival, in order. */
  function ProcessedAll(s: seq<Arrival>, o: Invoker.Oracle): (r: seq<StepRecord>)
    ensures |r| == |s|
    decreases |s|
  {
    if s == [] then [] else ProcessedAll(s[..|s| - 1], o) + [Processed(s[|s| - 1], o)]
  }

  /** The k-th handled value is the k-th arrival as the invoker left it. */
  lemma {:induction false} ProcessedAllAt(s: seq<Arrival>, o: Invoker.Oracle, k: nat)
    requires k < |s|
    ensures ProcessedAll(s, o)[k] == Processed(s[k], o)
    decreases |s|
  {
    if k < |s| - 1 {
      ProcessedAllAt(s[..|s| - 1], o, k);
    }
  }

  /** The due time of the retry, if any, that handling each arrival schedules. */
  function Dues(s: seq<Arrival>, o: Invoker.Oracle): (d: seq<Option<int>>)
    ensures |d| == |s|
    decreases |s|
  {
    if s == [] then []
    else Dues(s[..|s| - 1], o) + [Invoker.Invoke(s[|s| - 1].item.fill, o, s[|s| - 1].now).retryDue]
  }

  /** The calls the invoker makes for each arrival, concatenated in order of arrival. */
  function CallsAll(s: seq<Arrival>, o: Invoker.Oracle): seq<Invoker.Call>
    decreases |s|
  {
    if s == [] then []
    else CallsAll(s[..|s| - 1], o) + Invoker.Invoke(s[|s| - 1].item.fill, o, s[|s| - 1].now).calls
  }

  /** Handling one more arrival appends its processed value, its retry due time and the
      calls it makes. */
  lemma HandledSnoc(s: seq<Arrival>, a: Arrival, o: Invoker.Oracle)
    ensures ProcessedAll(s + [a], o) == ProcessedAll(s, o) + [Processed(a, o)]
    ensures Dues(s + [a], o) == Dues(s, o) + [Invoker.Invoke(a.item.fill, o, a.now).retryDue]
    ensures CallsAll(s + [a], o) == CallsAll(s, o) + Invoker.Invoke(a.item.fill, o, a.now).calls
  {
    assert (s + [a])[..|s|] == s;
  }

  /** The calls for a stream handled piece by piece are the calls for each piece, one
      piece after the other: every item's calls come after all calls of earlier items. */
  lemma {:induction false} CallsAllAppend(a: seq<Arrival>, b: seq<Arrival>, o: Invoker.Oracle)
    ensures CallsAll(a + b, o) == CallsAll(a, o) + CallsAll(b, o)
    decreases |b|
  {
    if b == [] {
      assert a + b == a;
    } else {
      var n := |b| - 1;
      var last := Invoker.Invoke(b[n].item.fill, o, b[n].now).calls;
      assert a + b == (a + b[..n]) + [b[n]];
      assert b == b[..n] + [b[n]];
      calc {
        CallsAll(a + b, o);
        { HandledSnoc(a + b[..n], b[n], o); }
        CallsAll(a + b[..n], o) + last;
        { CallsAllAppend(a, b[..n], o); }
        CallsAll(a, o) + CallsAll(b[..n], o) + last;
        { HandledSnoc(b[..n], b[n], o); }
        CallsAll(a, o) + CallsAll(b, o);
      }
    }
  }

  /** Steps of another kind and Steps already done add no call at all, so none of them
      triggers an Action lookup, whichever loop handles them. */
  lemma {:induction false} SkippedMakeNoCalls(s: seq<Arrival>, o: Invoker.Oracle)
    requires forall k :: 0 <= k < |s| ==> !Invoker.Live(s[k].item.fill)
    ensures CallsAll(s, o) == []
    decreases |s|
  {
    if s != [] {
      SkippedMakeNoCalls(s[..|s| - 1], o);
      Invoker.SkippedStepIsNoOp(s[|s| - 1].item.fill, o, s[|s| - 1].now);
    }
  }

  /** Filtering one more arrival appends it exactly when it passes. */
  lemma AcceptedSnoc(s: seq<Arrival>, a: Arrival)
    ensures Accepted(s + [a]) == Accepted(s) + (if Passes(a.item) then [a] else [])
  {
    assert (s + [a])[..|s|] == s;
  }

  /** Folding one more snapshot item keeps the larger of the two versions. */
  lemma MaxVersionSnoc(s: seq<Arrival>, a: Arrival)
    ensures MaxVersion(s + [a]) == if a.item.fill.resourceVersion > MaxVersion(s)
                                   then a.item.fill.resourceVersion else MaxVersion(s)
  {
    assert (s + [a])[..|s|] == s;
  }

  /** How many entries the drain loop fires when the successive clock readings are
      `clock`: each reading pops the head only if the reading is strictly after its due
      time, and the loop stops once the queue is empty. */
  function Fired<T>(q: seq<Entry<T>>, clock: seq<int>): (n: nat)
    ensures n <= |q| && n <= |clock|
    decreases |clock|
  {
    if q == [] || clock == [] then 0
    else if clock[0] > q[0].due then 1 + Fired(q[1..], clock[1..])
    else Fired(q, clock[1..])
  }

  /** One reading of the drain loop. */
  lemma FiredStep<T>(q: seq<Entry<T>>, clock: seq<int>, i: nat)
    requires q != [] && i < |clock|
    ensures Fired(q, clock[i..]) == if clock[i] > q[0].due then 1 + Fired(q[1..], clock[i + 1..])
                                    else Fired(q, clock[i + 1..])
  {
    assert clock[i..][1..] == clock[i + 1..];
  }

  /** Nothing fires while every reading is at or before the head's due time. */
  lemma {:induction false} NothingFiresEarly<T>(q: seq<Entry<T>>, clock: seq<int>)
    requires q != []
    requires forall j :: 0 <= j < |clock| ==> clock[j] <= q[0].due
    ensures Fired(q, clock) == 0
    decreases |clock|
  {
    if clock != [] {
      NothingFiresEarly(q, clock[1..]);
    }
  }

  /** The first `j + 1` readings, unfolded at the first one. */
  lemma FiredPrefix<T>(q: seq<Entry<T>>, clock: seq<int>, j: nat)
    requires q != [] && j < |clock|
    ensures Fired(q, clock[..j + 1]) == if clock[0] > q[0].due then 1 + Fired(q[1..], clock[1..][..j])
                                         else Fired(q, clock[1..][..j])
  {
    assert clock[..j + 1][1..] == clock[1..][..j];
  }

  /** Every fired entry fires at a reading strictly after its own due time: the k-th
      entry is the head once the readings before `j` have fired k entries, and reading
      `j` fires it. */
  lemma {:induction false} FiredWereDue<T>(q: seq<Entry<T>>, clock: seq<int>, k: nat)
    requires k < Fired(q, clock)
    ensures exists j :: 0 <= j < |clock| && Fired(q, clock[..j]) == k
                        && q[k].due < clock[j] && Fired(q, clock[..j + 1]) == k + 1
    decreases |clock|
  {
    if clock[0] > q[0].due && k == 0 {
      FiredPrefix(q, clock, 0);
      assert Fired(q, clock[..0]) == 0;
    } else if clock[0] > q[0].due {
      FiredWereDue(q[1..], clock[1..], k - 1);
      var j :| 0 <= j < |clock[1..]| && Fired(q[1..], clock[1..][..j]) == k - 1
               && q[1..][k - 1].due < clock[1..][j] && Fired(q[1..], clock[1..][..j + 1]) == k;
      FiredPrefix(q, clock, j);
      FiredPrefix(q, clock, j + 1);
      assert q[k].due < clock[j + 1];
    } else {
      FiredWereDue(q, clock[1..], k);
      var j :| 0 <= j < |clock[1..]| && Fired(q, clock[1..][..j]) == k
               && q[k].due < clock[1..][j] && Fired(q, clock[1..][..j + 1]) == k + 1;
      FiredPrefix(q, clock, j);
      FiredPrefix(q, clock, j + 1);
      assert q[k].due < clock[j + 1];
    }
  }

  /** Length of the longest prefix of `q` whose entries are all due before `t`. */
  function DuePrefix<T>(q: seq<Entry<T>>, t: int): nat
    decreases |q|
  {
    if q == [] || q[0].due >= t then 0 else 1 + DuePrefix(q[1..], t)
  }

  /** In a sorted queue the due prefix is exactly the set of entries due before `t`. */
  lemma {:induction false} SortedDuePrefix<T>(q: seq<Entry<T>>, t: int, k: nat)
    requires Sorted(q) && k < |q|
    ensures k < DuePrefix(q, t) <==> q[k].due < t
    decreases |q|
  {
    if q[0].due < t && k > 0 {
      assert q[1..][k - 1] == q[k];
      SortedDuePrefix(q[1..], t, k - 1);
    } else if q[0].due >= t {
      SortedOrdered(q, 0, k);
    }
  }

  /** When every reading is at or after `t` and there are enough readings, at least every
      entry of the due prefix fires: popping only the head loses nothing that is due. */
  lemma {:induction false} DueEntriesFire<T>(q: seq<Entry<T>>, clock: seq<int>, t: int)
    requires |clock| >= |q|
    requires forall j :: 0 <= j < |clock| ==> clock[j] >= t
    ensures Fired(q, clock) >= DuePrefix(q, t)
    decreases |q|
  {
    if q != [] && q[0].due < t {
      DueEntriesFire(q[1..], clock[1..], t);
    }
  }
}
