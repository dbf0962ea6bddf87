/** internal/agent/queue/queue.go: the task stream, its consumer group, and the two streams of outcomes. */
module TaskQueue {
  import opened Wrappers
  import opened Decimal

  /** The fields of a stream entry. */
  type Values = map<string, string>

  /** A polled task. */
  datatype Task = Task(id: nat, prompt: string, meta: Values)

  /** An entry of the results stream; the token counts travel as text. */
  datatype Result = Result(taskID: nat, result: string, inputTokens: string, outputTokens: string)

  /** An entry of the dead-letter stream. */
  datatype Dead = Dead(taskID: nat, prompt: string, error: string, attempt: string)

  /**
   * The streams: entry IDs are positions; `next` is the first entry the consumer group has not delivered, `pel` the
   * entries delivered and not acknowledged.
   */
  datatype QState = QState(stream: seq<Values>, next: nat, pel: set<nat>, results: seq<Result>, dead: seq<Dead>)

  const EMPTY_QUEUE := QState([], 0, {}, [], [])

  function Lookup(values: Values, key: string): string {
    if key in values then values[key] else ""
  }

  /** The task that a worker sees in an entry. */
  function TaskOf(id: nat, values: Values): Task {
    Task(id, Lookup(values, "prompt"), values - {"prompt"})
  }

  /** The attempt counter of a task; text that is not a number counts as zero. */
  function AttemptOf(meta: Values): int {
    if "attempt" in meta then Atoi(meta["attempt"]).GetOr(0) else 0
  }

  function Submitted(q: QState, prompt: string): QState {
    q.(stream := q.stream + [map["prompt" := prompt]])
  }

  function Polled(q: QState): QState {
    if q.next < |q.stream| then q.(next := q.next + 1, pel := q.pel + {q.next}) else q
  }

  function PolledTask(q: QState): Option<Task> {
    if q.next < |q.stream| then Some(TaskOf(q.next, q.stream[q.next])) else None
  }

  function Acked(q: QState, id: nat, result: string, inTok: int, outTok: int): QState {
    q.(pel := q.pel - {id}, results := q.results + [Result(id, result, Itoa(inTok), Itoa(outTok))])
  }

  /** The entry a failed task is requeued as. */
  function Requeued(task: Task): Values {
    map["prompt" := task.prompt, "attempt" := Itoa(AttemptOf(task.meta) + 1)] + (task.meta - {"attempt"})
  }

  function Nacked(q: QState, maxRetries: int, task: Task, reason: string): QState {
    if AttemptOf(task.meta) < maxRetries then
      q.(pel := q.pel - {task.id}, stream := q.stream + [Requeued(task)])
    else
      q.(pel := q.pel - {task.id},
         dead := q.dead + [Dead(task.id, task.prompt, reason, Itoa(AttemptOf(task.meta)))])
  }

  /** The entry holds everything that the task came with, and the given attempt number. */
  ghost predicate IsRetry(task: Task, attempt: int, entry: Values) {
    && entry.Keys == task.meta.Keys + {"prompt", "attempt"} && entry["attempt"] == Itoa(attempt)
    && (forall k :: k in task.meta && k != "attempt" ==> entry[k] == task.meta[k])
    && ("prompt" !in task.meta ==> entry["prompt"] == task.prompt)
  }

  class Queue {
    const maxRetries: int
    var stream: seq<Values>
    var next: nat
    var pel: set<nat>
    var results: seq<Result>
    var dead: seq<Dead>

    constructor (maxRetries: int)
      ensures this.maxRetries == maxRetries && State() == EMPTY_QUEUE
    {
      this.maxRetries := maxRetries;
      stream, next, pel, results, dead := [], 0, {}, [], [];
    }

    function State(): QState
      reads this
    {
      QState(stream, next, pel, results, dead)
    }

    /** Delivers the next entry of the stream, if there is one. The entry's fields are taken in no fixed order. */
    method Poll() returns (task: Option<Task>)
      modifies this`next, this`pel
      ensures task == PolledTask(old(State()))
      ensures State() == Polled(old(State()))
      ensures task.None? <==> old(next) >= |stream|
      ensures task.Some? ==>
        var entry := stream[old(next)];
        && task.value.id == old(next) && next == old(next) + 1 && pel == old(pel) + {task.value.id}
        && task.value.prompt == (if "prompt" in entry then entry["prompt"] else "")
        && (forall k :: k in task.value.meta <==> k in entry && k != "prompt")
        && (forall k :: k in task.value.meta ==> task.value.meta[k] == entry[k])
      ensures task.None? ==> next == old(next) && pel == old(pel)
    {
      if next >= |stream| {
        return None;
      }
      var id, values := next, stream[next];
      next, pel := next + 1, pel + {next};
      var prompt := if "prompt" in values then values["prompt"] else "";
      var meta: Values := map[];
      var left := values.Keys;
      while left != {}
        invariant left <= values.Keys
        invariant forall k :: k in meta <==> k in values && k !in left && k != "prompt"
        invariant forall k :: k in meta ==> meta[k] == values[k]
        decreases left
      {
        var k :| k in left;
        left := left - {k};
        if k != "prompt" {
          meta := meta[k := values[k]];
        }
      }
      assert meta == values - {"prompt"};
      task := Some(Task(id, prompt, meta));
    }

    method Submit(prompt: string) returns (id: nat)
      modifies this`stream
      ensures id == |old(stream)| && State() == Submitted(old(State()), prompt)
      ensures stream == old(stream) + [map["prompt" := prompt]]
    {
      id := |stream|;
      stream := stream + [map["prompt" := prompt]];
    }

    method Ack(id: nat, result: string, inTok: int, outTok: int)
      modifies this`pel, this`results
      ensures State() == Acked(old(State()), id, result, inTok, outTok)
      ensures pel == old(pel) - {id} && results == old(results) + [Result(id, result, Itoa(inTok), Itoa(outTok))]
    {
      pel := pel - {id};
      results := results + [Result(id, result, Itoa(inTok), Itoa(outTok))];
    }

    /** All metadata but the attempt counter, in no fixed order. */
    method CopyMeta(start: Values, meta: Values) returns (values: Values)
      ensures values == start + (meta - {"attempt"})
    {
      values := start;
      var left := meta.Keys;
      while left != {}
        invariant left <= meta.Keys
        invariant values == start + (meta - (left + {"attempt"}))
        decreases left
      {
        var k :| k in left;
        if k != "attempt" {
          values := values[k := meta[k]];
        }
        left := left - {k};
      }
    }

    method Nack(task: Task, reason: string)
      modifies this`pel, this`stream, this`dead
      ensures State() == Nacked(old(State()), maxRetries, task, reason)
      ensures pel == old(pel) - {task.id}
      ensures
        var read := if "attempt" in task.meta then Atoi(task.meta["attempt"]) else None;
        var attempt := if read.Some? then read.value else 0;
        if attempt >= maxRetries then
          stream == old(stream) && dead == old(dead) + [Dead(task.id, task.prompt, reason, Itoa(attempt))]
        else
          && dead == old(dead) && |stream| == |old(stream)| + 1 && stream[..|old(stream)|] == old(stream)
          && IsRetry(task, attempt + 1, stream[|old(stream)|])
    {
      var attempt := 0;
      if "attempt" in task.meta {
        var a := Atoi(task.meta["attempt"]);
        if a.Some? {
          attempt := a.value;
        }
      }
      pel := pel - {task.id};
      if attempt < maxRetries {
        var values := CopyMeta(map["prompt" := task.prompt, "attempt" := Itoa(attempt + 1)], task.meta);
        stream := stream + [values];
        return;
      }
      dead := dead + [Dead(task.id, task.prompt, reason, Itoa(attempt))];
    }
  }

  /**
   * A failed delivery changes nothing but the attempt counter: polling the requeued entry gives the same prompt and
   * the same metadata, one attempt later, whatever the entry held.
   */
  lemma RetryKeepsTask(id: nat, values: Values, retry: nat)
    requires AttemptOf(TaskOf(id, values).meta) < TWO_TO_THE_63 - 1
    ensures
      var task := TaskOf(id, values);
      var again := TaskOf(retry, Requeued(task));
      && again.prompt == task.prompt
      && again.meta - {"attempt"} == task.meta - {"attempt"}
      && AttemptOf(again.meta) == AttemptOf(task.meta) + 1
  {
    var task := TaskOf(id, values);
    if "attempt" in task.meta {
      AtoiInRange(task.meta["attempt"]);
    }
    RoundTrip(AttemptOf(task.meta) + 1);
    var again := TaskOf(retry, Requeued(task));
    assert again.meta["attempt"] == Itoa(AttemptOf(task.meta) + 1);
    assert again.meta - {"attempt"} == task.meta - {"attempt"};
  }

  lemma AtoiInRange(s: string)
    ensures Atoi(s).Some? ==> IsInt64(Atoi(s).value)
  {
  }
}
