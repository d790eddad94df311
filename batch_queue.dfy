/** ElasticsearchBatchBackendQueue: the mass-indexing write path. While the
    client factory is active, works are buffered and flushed through a
    debug-mode backend queue when 100 are pending, when the queue is stopped,
    or once when its one-shot timer fires; otherwise they are handed to the
    superclass's own backend. The Monitor starts and stops the queue and sums
    the counts it is told about. */
module BatchQueue {
  import opened Wrappers
  import opened JavaModel
  import opened EsClient
  import opened BackendQueue

  /** The delay of the one-shot flush, in milliseconds. */
  const TIMER_DELAY: int := 3000
  /** The buffer length that triggers an inline flush. */
  const NUMBER_OF_WORKS_TO_QUEUE: int := 100
  /** The message of the backend queue's Validate check on its client. */
  const NULL_CLIENT_MESSAGE: string := "The elastic search client cannot be null."

  /** The timer: its delay, whether its one-shot task is still to run, and
      whether it has been cancelled. */
  datatype TimerState = TimerState(delayMs: int, taskPending: bool, cancelled: bool)

  /** The timer start schedules. */
  const SCHEDULED: TimerState := TimerState(TIMER_DELAY, true, false)

  /** The batches, concatenated in flush order. */
  function Flatten(batches: seq<seq<Work>>): seq<Work> {
    if |batches| == 0 then [] else Flatten(batches[..|batches| - 1]) + batches[|batches| - 1]
  }

  lemma FlattenSnoc(batches: seq<seq<Work>>, b: seq<Work>)
    ensures Flatten(batches + [b]) == Flatten(batches) + b
  {
    assert (batches + [b])[..|batches|] == batches;
  }

  /** The queue, standing for both the object and the class's static state
      (`instance` is this object and `timer` is its timer). */
  class ElasticsearchBatchBackendQueue {
    /** ElasticSearchClientFactory.isActive() at initialization. */
    const active: bool
    /** The factory's client, or null when the factory is not active. */
    const client: Client?
    /** The buffer of pending works. */
    var works: seq<Work>
    var timer: Option<TimerState>
    /** The works handed to the superclass's backend. */
    var delegated: seq<Work>
    /** The works buffered while active, in arrival order. */
    ghost var enqueued: seq<Work>
    /** The batches flushed so far, in flush order. */
    ghost var flushed: seq<seq<Work>>

    /** No work buffered while active is lost or duplicated: the flushed
        batches followed by the buffer are the works enqueued. */
    ghost predicate Valid()
      reads this
    {
      Flatten(flushed) + works == enqueued && (active <==> client != null)
    }

    /** initialize: the client is taken from the factory only when active. */
    constructor(isActive: bool, factoryClient: Client)
      ensures active == isActive && client == (if isActive then factoryClient else null)
      ensures works == [] && timer == None && delegated == []
      ensures enqueued == [] && flushed == []
      ensures Valid()
    {
      active := isActive;
      client := if isActive then factoryClient else null;
      works := [];
      timer := None;
      delegated := [];
      enqueued := [];
      flushed := [];
    }

    /** How a flush of the given buffer ends. */
    function FlushOutcome(ws: seq<Work>): Outcome<Error> {
      if client == null then Fail(IllegalArgument(NULL_CLIENT_MESSAGE)) else RunOutcome(ws, true)
    }

    /** BachTask.run: runs a debug-mode backend queue on a copy of the whole
        buffer, then clears the buffer; a failing run leaves it as it was. */
    method Flush() returns (r: Outcome<Error>)
      requires Valid()
      modifies this, client
      ensures Valid()
      ensures r == FlushOutcome(old(works))
      ensures client != null ==> client.log == old(client.log) + RunLog([], old(works), true)
      ensures client != null ==> client.indices == old(client.indices)
      ensures r.Pass? ==> works == [] && flushed == old(flushed) + [old(works)]
      ensures r.Fail? ==> works == old(works) && flushed == old(flushed)
      ensures enqueued == old(enqueued) && timer == old(timer) && delegated == old(delegated)
    {
      var theWorks := works;
      if client == null {
        return Fail(IllegalArgument(NULL_CLIENT_MESSAGE));
      }
      var queue := new ElasticSearchBackendQueue(theWorks, client, true);
      r := queue.Run();
      if r.Pass? {
        FlattenSnoc(flushed, theWorks);
        works := [];
        flushed := flushed + [theWorks];
      }
    }

    /** enqueueAsyncWork: while active, appends the work and flushes inline
        once 100 or more are pending; otherwise hands it to the superclass. */
    method EnqueueAsyncWork(w: Work) returns (r: Outcome<Error>)
      requires Valid()
      modifies this, client
      ensures Valid()
      ensures timer == old(timer)
      ensures !active ==> r == Pass && delegated == old(delegated) + [w]
      ensures !active ==> works == old(works) && enqueued == old(enqueued) && flushed == old(flushed)
      ensures active ==> delegated == old(delegated) && enqueued == old(enqueued) + [w]
      ensures active && |old(works)| + 1 < NUMBER_OF_WORKS_TO_QUEUE ==>
                r == Pass && works == old(works) + [w] && flushed == old(flushed) && client.log == old(client.log)
      ensures active && |old(works)| + 1 >= NUMBER_OF_WORKS_TO_QUEUE ==>
                r == RunOutcome(old(works) + [w], true) &&
                client.log == old(client.log) + RunLog([], old(works) + [w], true)
      ensures active && |old(works)| + 1 >= NUMBER_OF_WORKS_TO_QUEUE && r.Pass? ==>
                works == [] && flushed == old(flushed) + [old(works) + [w]]
      ensures r.Fail? ==> works == old(works) + [w] && flushed == old(flushed)
      ensures active && r.Pass? ==> |works| < NUMBER_OF_WORKS_TO_QUEUE
      ensures client != null ==> client.indices == old(client.indices)
    {
      if active {
        works := works + [w];
        enqueued := enqueued + [w];
        if |works| >= NUMBER_OF_WORKS_TO_QUEUE {
          r := Flush();
          return;
        }
        r := Pass;
      } else {
        delegated := delegated + [w];
        r := Pass;
      }
    }

    /** stop: flushes the buffer, then cancels the timer; without a timer the
        cancel dereferences null. */
    method Stop() returns (r: Outcome<Error>)
      requires Valid()
      modifies this, client
      ensures Valid()
      ensures enqueued == old(enqueued) && delegated == old(delegated)
      ensures client != null ==> client.log == old(client.log) + RunLog([], old(works), true)
      ensures client != null ==> client.indices == old(client.indices)
      ensures r == if FlushOutcome(old(works)).Fail? then FlushOutcome(old(works))
                   else if old(timer).None? then Fail(NullPointer("timer"))
                   else Pass
      ensures timer == if FlushOutcome(old(works)).Pass? && old(timer).Some?
                       then Some(old(timer).value.(taskPending := false, cancelled := true))
                       else old(timer)
      ensures FlushOutcome(old(works)).Pass? ==> works == [] && flushed == old(flushed) + [old(works)]
      ensures FlushOutcome(old(works)).Fail? ==> works == old(works) && flushed == old(flushed)
    {
      r := Flush();
      if r.Pass? {
        r := CancelTimer();
      }
    }

    /** timer.cancel(): discards the pending task; a missing timer is a null
        dereference. */
    method CancelTimer() returns (r: Outcome<Error>)
      modifies this
      ensures r == if old(timer).None? then Fail(NullPointer("timer")) else Pass
      ensures timer == if old(timer).None? then None
                       else Some(old(timer).value.(taskPending := false, cancelled := true))
      ensures works == old(works) && delegated == old(delegated)
      ensures enqueued == old(enqueued) && flushed == old(flushed)
    {
      if timer.None? {
        return Fail(NullPointer("timer"));
      }
      timer := Some(timer.value.(taskPending := false, cancelled := true));
      r := Pass;
    }

    /** start: stops an existing timer first, then schedules one one-shot
        flush after TIMER_DELAY; a failing stop leaves no new timer. */
    method Start() returns (r: Outcome<Error>)
      requires Valid()
      modifies this, client
      ensures Valid()
      ensures enqueued == old(enqueued) && delegated == old(delegated)
      ensures r == if old(timer).None? then Pass else FlushOutcome(old(works))
      ensures timer == if r.Pass? then Some(SCHEDULED) else old(timer)
      ensures client != null ==>
                client.log == old(client.log) + (if old(timer).None? then [] else RunLog([], old(works), true))
      ensures client != null ==> client.indices == old(client.indices)
      ensures old(timer).Some? && r.Pass? ==> works == [] && flushed == old(flushed) + [old(works)]
      ensures old(timer).None? || r.Fail? ==> works == old(works) && flushed == old(flushed)
    {
      if timer.Some? {
        r := Stop();
        if r.Fail? {
          return;
        }
      }
      timer := Some(SCHEDULED);
      r := Pass;
    }

    /** The timer thread runs the scheduled task once, unless the timer was
        cancelled before. */
    method TimerFires() returns (r: Outcome<Error>)
      requires Valid()
      modifies this, client
      ensures Valid()
      ensures enqueued == old(enqueued) && delegated == old(delegated)
      ensures (old(timer).None? || !old(timer).value.taskPending) ==>
                r == Pass && timer == old(timer) && works == old(works) && flushed == old(flushed)
      ensures (old(timer).None? || !old(timer).value.taskPending) && client != null ==> client.log == old(client.log)
      ensures old(timer).Some? && old(timer).value.taskPending ==>
                timer == Some(old(timer).value.(taskPending := false)) && r == FlushOutcome(old(works))
      ensures old(timer).Some? && old(timer).value.taskPending && client != null ==>
                client.log == old(client.log) + RunLog([], old(works), true)
      ensures r.Pass? && old(timer).Some? && old(timer).value.taskPending ==>
                works == [] && flushed == old(flushed) + [old(works)]
      ensures r.Fail? ==> works == old(works) && flushed == old(flushed)
      ensures client != null ==> client.indices == old(client.indices)
    {
      if timer.None? || !timer.value.taskPending {
        return Pass;
      }
      timer := Some(timer.value.(taskPending := false));
      r := Flush();
    }
  }

  /** The sum of the counts, as unbounded integers. */
  function Sum(xs: seq<int>): int {
    if |xs| == 0 then 0 else Sum(xs[..|xs| - 1]) + xs[|xs| - 1]
  }

  /** The mass indexer's progress monitor. */
  class Monitor {
    /** The number of indexed documents, a Java `long`. */
    var total: int
    /** Every argument addToTotalCount has received, in order. */
    ghost var counts: seq<int>

    /** `total` is the sum of the counts, wrapped to 64 bits as `long`
        addition does. */
    ghost predicate Valid()
      reads this
    {
      total == WrapLong(Sum(counts))
    }

    constructor()
      ensures total == 0 && counts == [] && Valid()
    {
      total := 0;
      counts := [];
    }

    /** addToTotalCount: `total += count` in `long` arithmetic. */
    method AddToTotalCount(count: int)
      requires LONG_MIN <= count <= LONG_MAX
      requires Valid()
      modifies this
      ensures Valid()
      ensures counts == old(counts) + [count]
      ensures total == WrapLong(old(total) + count)
      ensures LONG_MIN <= Sum(counts) <= LONG_MAX ==> total == Sum(counts)
    {
      WrapLongAdd(Sum(counts), count);
      assert (counts + [count])[..|counts|] == counts;
      total := WrapLong(total + count);
      counts := counts + [count];
    }

    /** indexingCompleted: stops the batch queue, with stop's whole effect
        on the buffer, the timer and the client. */
    method IndexingCompleted(queue: ElasticsearchBatchBackendQueue) returns (r: Outcome<Error>)
      requires queue.Valid()
      modifies queue, queue.client
      ensures queue.Valid()
      ensures queue.enqueued == old(queue.enqueued) && queue.delegated == old(queue.delegated)
      ensures queue.client != null ==> queue.client.log == old(queue.client.log) + RunLog([], old(queue.works), true)
      ensures queue.client != null ==> queue.client.indices == old(queue.client.indices)
      ensures r == if queue.FlushOutcome(old(queue.works)).Fail? then queue.FlushOutcome(old(queue.works))
                   else if old(queue.timer).None? then Fail(NullPointer("timer"))
                   else Pass
      ensures queue.timer == if queue.FlushOutcome(old(queue.works)).Pass? && old(queue.timer).Some?
                             then Some(old(queue.timer).value.(taskPending := false, cancelled := true))
                             else old(queue.timer)
      ensures queue.FlushOutcome(old(queue.works)).Pass? ==>
                queue.works == [] && queue.flushed == old(queue.flushed) + [old(queue.works)]
      ensures queue.FlushOutcome(old(queue.works)).Fail? ==>
                queue.works == old(queue.works) && queue.flushed == old(queue.flushed)
    {
      r := queue.Stop();
    }
  }

  /** createMonitor: the monitor's constructor starts the batch queue, with
      start's whole effect on the buffer, the timer and the client; a failing
      start leaves no monitor and raises its error. */
  method CreateMonitor(queue: ElasticsearchBatchBackendQueue) returns (r: Result<Monitor, Error>)
    requires queue.Valid()
    modifies queue, queue.client
    ensures queue.Valid()
    ensures queue.enqueued == old(queue.enqueued) && queue.delegated == old(queue.delegated)
    ensures old(queue.timer).None? ==> r.Ok?
    ensures old(queue.timer).Some? ==> (r.Ok? <==> queue.FlushOutcome(old(queue.works)).Pass?)
    ensures r.Err? ==> r.error == queue.FlushOutcome(old(queue.works)).error && queue.timer == old(queue.timer)
    ensures r.Ok? ==> fresh(r.value) && r.value.total == 0 && r.value.counts == [] && r.value.Valid()
    ensures r.Ok? ==> queue.timer == Some(SCHEDULED)
    ensures queue.client != null ==>
              queue.client.log == old(queue.client.log) +
                (if old(queue.timer).None? then [] else RunLog([], old(queue.works), true))
    ensures queue.client != null ==> queue.client.indices == old(queue.client.indices)
    ensures old(queue.timer).Some? && r.Ok? ==>
              queue.works == [] && queue.flushed == old(queue.flushed) + [old(queue.works)]
    ensures old(queue.timer).None? || r.Err? ==>
              queue.works == old(queue.works) && queue.flushed == old(queue.flushed)
  {
    var started := queue.Start();
    if started.Fail? {
      return Err(started.error);
    }
    var m := new Monitor();
    return Ok(m);
  }
}
