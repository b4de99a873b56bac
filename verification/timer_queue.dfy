/** The timer queue the controller schedules retries on: a queue of `(payload, due)`
    entries kept in ascending order of due time.  Only the interface the controller uses
    is modelled (Schedule, Len, PeekFirst, PopFirst); the library's heap is replaced by a
    due-ordered sequence. */
module TimerQueue {

  import opened Wrappers

  datatype Entry<T> = Entry(payload: T, due: int)

  /** Each entry is due no later than the next one. */
  predicate Sorted<T>(q: seq<Entry<T>>)
    decreases |q|
  {
    |q| <= 1 || (q[0].due <= q[1].due && Sorted(q[1..]))
  }

  /** In a sorted queue every entry is due no later than every entry after it. */
  lemma {:induction false} SortedOrdered<T>(q: seq<Entry<T>>, i: nat, j: nat)
    requires Sorted(q) && i <= j < |q|
    ensures q[i].due <= q[j].due
    decreases j
  {
    if i < j {
      if i == 0 {
        SortedOrdered(q[1..], 0, j - 1);
      } else {
        SortedOrdered(q[1..], i - 1, j - 1);
      }
    }
  }

  /** `q` with `e` placed after every entry due no later than `e`. */
  function Insert<T>(q: seq<Entry<T>>, e: Entry<T>): seq<Entry<T>>
  {
    if q == [] || e.due < q[0].due then [e] + q
    else [q[0]] + Insert(q[1..], e)
  }

  /** Inserting adds exactly the new entry and loses nothing. */
  lemma {:induction false} InsertContents<T>(q: seq<Entry<T>>, e: Entry<T>)
    ensures multiset(Insert(q, e)) == multiset(q) + multiset{e}
  {
    if q != [] && e.due >= q[0].due {
      InsertContents(q[1..], e);
      assert q == [q[0]] + q[1..];
    }
  }

  /** Inserting into a sorted queue keeps it sorted. */
  lemma {:induction false} InsertSorted<T>(q: seq<Entry<T>>, e: Entry<T>)
    requires Sorted(q)
    ensures Sorted(Insert(q, e))
    decreases |q|
  {
    if q != [] && e.due >= q[0].due {
      InsertSorted(q[1..], e);
      InsertContents(q[1..], e);
      var rest := Insert(q[1..], e);
      assert Insert(q, e) == [q[0]] + rest;
      assert rest[0] == (if q[1..] == [] || e.due < q[1].due then e else q[1]);
      assert ([q[0]] + rest)[1..] == rest;
    }
  }

  /** The entries `(payloads[k], due)` for each `dues[k] == Some(due)`, in order. */
  function Retries<T>(payloads: seq<T>, dues: seq<Option<int>>): (r: seq<Entry<T>>)
    requires |payloads| == |dues|
    decreases |dues|
  {
    if dues == [] then []
    else
      var n := |dues| - 1;
      Retries(payloads[..n], dues[..n])
        + (match dues[n] case None => [] case Some(d) => [Entry(payloads[n], d)])
  }

  /** The queue after Schedule(payloads[k], due) for each `dues[k] == Some(due)`, in
      order of `k`. */
  function ScheduleAll<T>(q: seq<Entry<T>>, payloads: seq<T>, dues: seq<Option<int>>)
    : seq<Entry<T>>
    requires |payloads| == |dues|
    decreases |dues|
  {
    if dues == [] then q
    else
      var n := |dues| - 1;
      var prev := ScheduleAll(q, payloads[..n], dues[..n]);
      match dues[n]
      case None => prev
      case Some(d) => Insert(prev, Entry(payloads[n], d))
  }

  /** Scheduling one more payload after a batch. */
  lemma ScheduleAllSnoc<T>(q: seq<Entry<T>>, payloads: seq<T>, dues: seq<Option<int>>,
                           p: T, d: Option<int>)
    requires |payloads| == |dues|
    ensures ScheduleAll(q, payloads + [p], dues + [d])
            == match d
               case None => ScheduleAll(q, payloads, dues)
               case Some(t) => Insert(ScheduleAll(q, payloads, dues), Entry(p, t))
  {
    assert (payloads + [p])[..|payloads|] == payloads;
    assert (dues + [d])[..|dues|] == dues;
  }

  /** Scheduling a batch keeps a sorted queue sorted. */
  lemma {:induction false} ScheduleAllSorted<T>(q: seq<Entry<T>>, payloads: seq<T>,
                                                    dues: seq<Option<int>>)
    requires |payloads| == |dues|
    requires Sorted(q)
    ensures Sorted(ScheduleAll(q, payloads, dues))
    decreases |dues|
  {
    if dues != [] {
      var n := |dues| - 1;
      ScheduleAllSorted(q, payloads[..n], dues[..n]);
      if dues[n].Some? {
        InsertSorted(ScheduleAll(q, payloads[..n], dues[..n]), Entry(payloads[n], dues[n].value));
      }
    }
  }

  /** Scheduling a batch adds exactly the batch's retry entries and loses nothing. */
  lemma {:induction false} ScheduleAllContents<T>(q: seq<Entry<T>>, payloads: seq<T>,
                                                      dues: seq<Option<int>>)
    requires |payloads| == |dues|
    ensures multiset(ScheduleAll(q, payloads, dues)) == multiset(q) + multiset(Retries(payloads, dues))
    decreases |dues|
  {
    if dues != [] {
      var n := |dues| - 1;
      ScheduleAllContents(q, payloads[..n], dues[..n]);
      if dues[n].Some? {
        InsertContents(ScheduleAll(q, payloads[..n], dues[..n]), Entry(payloads[n], dues[n].value));
      }
    }
  }

  /** The timer queue object shared by the controller's loops. */
  class Queue<T> {
    var entries: seq<Entry<T>>

    ghost predicate Valid()
      reads this
    {
      Sorted(entries)
    }

    constructor ()
      ensures Valid() && entries == []
    {
      entries := [];
    }

    method Schedule(payload: T, due: int)
      requires Valid()
      modifies this
      ensures Valid()
      ensures entries == Insert(old(entries), Entry(payload, due))
    {
      InsertSorted(entries, Entry(payload, due));
      entries := Insert(entries, Entry(payload, due));
    }

    method Len() returns (n: nat)
      ensures n == |entries|
    {
      n := |entries|;
    }

    /** The earliest entry, which is due no later than any other. */
    method PeekFirst() returns (payload: T, due: int)
      requires Valid() && entries != []
      ensures Entry(payload, due) == entries[0]
      ensures forall k :: 0 <= k < |entries| ==> due <= entries[k].due
    {
      payload, due := entries[0].payload, entries[0].due;
      forall k | 0 <= k < |entries| ensures due <= entries[k].due {
        SortedOrdered(entries, 0, k);
      }
    }

    /** Removes and returns the earliest entry. */
    method PopFirst() returns (payload: T, due: int)
      requires Valid() && entries != []
      modifies this
      ensures Valid()
      ensures Entry(payload, due) == old(entries)[0] && entries == old(entries)[1..]
    {
      payload, due := entries[0].payload, entries[0].due;
      entries := entries[1..];
    }
  }
}
