/** The life of every task: a ledger kept beside the queue, and what it shows to be conserved. */
module Ledger {
  import opened Decimal
  import opened TaskQueue

  /** Who put an entry on the task stream: a step of a flow in one of its iterations, an agent, or a retry. */
  datatype Owner = ByStep(flow: nat, step: nat, iteration: nat) | ByAgent | ByRetry(earlier: nat)

  /** Where an entry is now: one of the three streams, or out with a worker. */
  datatype Fate = Waiting | InFlight | Answered(result: nat) | Retried(retry: nat) | Buried(grave: nat)

  /**
   * The queue with its history: for each entry of the task stream who put it there, the entry its lineage began with,
   * how many retries came before it, and its fate.
   */
  datatype Books = Books(q: QState, owner: seq<Owner>, root: seq<nat>, tries: seq<nat>, fate: seq<Fate>)

  datatype Event =
    | Submission(prompt: string, who: Owner)
    | Delivery
    | Success(id: nat, result: string, inTok: int, outTok: int)
    | Failure(id: nat, reason: string)

  const OPENING := Books(EMPTY_QUEUE, [], [], [], [])

  /** A worker acknowledges only what it holds; a result's token counts are 64-bit. */
  predicate Possible(b: Books, e: Event) {
    match e
    case Submission(_, who) => !who.ByRetry?
    case Delivery => true
    case Success(id, _, inTok, outTok) => id in b.q.pel && IsInt64(inTok) && IsInt64(outTok)
    case Failure(id, _) => id in b.q.pel
  }

  ghost predicate Sized(b: Books) {
    && |b.owner| == |b.root| == |b.tries| == |b.fate| == |b.q.stream|
    && b.q.next <= |b.q.stream|
    && (forall id :: id in b.q.pel ==> id < |b.q.stream|)
    && (forall id :: 0 <= id < |b.root| ==> b.root[id] <= id)
  }

  /** The task a worker holding entry id was given. */
  function Held(b: Books, id: nat): Task
    requires id < |b.q.stream|
  {
    TaskOf(id, b.q.stream[id])
  }

  function WithEntry(b: Books, who: Owner, root: nat, tries: nat): Books {
    b.(owner := b.owner + [who], root := b.root + [root], tries := b.tries + [tries], fate := b.fate + [Waiting])
  }

  function Record(b: Books, maxRetries: int, e: Event): Books
    requires |b.root| == |b.tries| == |b.fate| == |b.q.stream|
    requires Possible(b, e) && forall id :: id in b.q.pel ==> id < |b.q.stream|
  {
    match e
    case Submission(prompt, who) => WithEntry(b, who, |b.q.stream|, 0).(q := Submitted(b.q, prompt))
    case Delivery =>
      if b.q.next < |b.q.stream| then b.(q := Polled(b.q), fate := b.fate[b.q.next := InFlight]) else b
    case Success(id, result, inTok, outTok) =>
      b.(q := Acked(b.q, id, result, inTok, outTok), fate := b.fate[id := Answered(|b.q.results|)])
    case Failure(id, reason) =>
      var q := Nacked(b.q, maxRetries, Held(b, id), reason);
      if AttemptOf(Held(b, id).meta) < maxRetries
      then WithEntry(b.(fate := b.fate[id := Retried(|b.q.stream|)]), ByRetry(id), b.root[id], b.tries[id] + 1).(q := q)
      else b.(q := q, fate := b.fate[id := Buried(|b.q.dead|)])
  }

  // --------------------------------------------------------- the invariants

  /** How often a task may be retried. */
  function Limit(maxRetries: int): nat {
    if maxRetries < 0 then 0 else maxRetries
  }

  /** What the entry of a task's attempt number `tries` holds. */
  function Content(prompt: string, tries: nat): Values {
    if tries == 0 then map["prompt" := prompt] else map["prompt" := prompt, "attempt" := Itoa(tries)]
  }

  function PromptAt(b: Books, id: nat): string
    requires id < |b.q.stream|
  {
    Lookup(b.q.stream[id], "prompt")
  }

  /** Entries wait from `next` on, and are in flight exactly when they are pending acknowledgement. */
  ghost predicate Placed(b: Books, id: nat)
    requires Sized(b) && id < |b.fate|
  {
    (b.fate[id] == Waiting <==> b.q.next <= id) && (b.fate[id] == InFlight <==> id in b.q.pel)
  }

  /** The entry holds its lineage's prompt, and says how many retries came before it. */
  ghost predicate Written(b: Books, maxRetries: int, id: nat)
    requires Sized(b) && id < |b.fate|
  {
    && b.tries[id] <= Limit(maxRetries)
    && b.q.stream[id] == Content(PromptAt(b, b.root[id]), b.tries[id])
  }

  /** An answered task has its entry in the results stream. */
  ghost predicate HasResult(b: Books, id: nat)
    requires Sized(b) && id < |b.fate|
  {
    b.fate[id].Answered? ==> b.fate[id].result < |b.q.results| && b.q.results[b.fate[id].result].taskID == id
  }

  /** A buried task has its entry in the dead-letter stream, written at the last attempt. */
  ghost predicate HasGrave(b: Books, maxRetries: int, id: nat)
    requires Sized(b) && id < |b.fate|
  {
    b.fate[id].Buried? ==>
      && b.fate[id].grave < |b.q.dead| && b.tries[id] == Limit(maxRetries)
      && var d := b.q.dead[b.fate[id].grave];
         d.taskID == id && d.prompt == PromptAt(b, b.root[id]) && d.attempt == Itoa(Limit(maxRetries))
  }

  /** A retry leads from an entry to the next of its lineage, */
  ghost predicate LeadsOn(b: Books, id: nat)
    requires Sized(b) && id < |b.fate|
  {
    b.fate[id].Retried? ==>
      var n := b.fate[id].retry;
      id < n < |b.fate| && b.owner[n] == ByRetry(id) && b.root[n] == b.root[id] && b.tries[n] == b.tries[id] + 1
  }

  /** and back; an entry that is not a retry begins a lineage. */
  ghost predicate LeadsBack(b: Books, id: nat)
    requires Sized(b) && id < |b.fate|
  {
    match b.owner[id]
    case ByRetry(e) => e < id && b.fate[e] == Retried(id)
    case _ => b.root[id] == id && b.tries[id] == 0
  }

  ghost predicate Fine(b: Books, maxRetries: int, id: nat)
    requires Sized(b) && id < |b.fate|
  {
    Placed(b, id) && Written(b, maxRetries, id) && HasResult(b, id) && HasGrave(b, maxRetries, id)
    && LeadsOn(b, id) && LeadsBack(b, id)
  }

  /** A result belongs to the task that was answered with it. */
  ghost predicate ResultOwned(b: Books, k: nat)
    requires Sized(b) && k < |b.q.results|
  {
    b.q.results[k].taskID < |b.fate| && b.fate[b.q.results[k].taskID] == Answered(k)
  }

  ghost predicate GraveOwned(b: Books, k: nat)
    requires Sized(b) && k < |b.q.dead|
  {
    b.q.dead[k].taskID < |b.fate| && b.fate[b.q.dead[k].taskID] == Buried(k)
  }

  /** Within a lineage the attempts are in order, and all but the last were retried. */
  ghost predicate InOrder(b: Books, x: nat, y: nat)
    requires Sized(b) && x < |b.fate| && y < |b.fate|
  {
    b.root[x] == b.root[y] ==> (b.tries[x] == b.tries[y] ==> x == y) && (b.tries[x] < b.tries[y] ==> b.fate[x].Retried?)
  }

  ghost predicate Balanced(b: Books, maxRetries: int) {
    && Sized(b)
    && (forall id: nat :: id < |b.fate| ==> Fine(b, maxRetries, id))
    && (forall k: nat :: k < |b.q.results| ==> ResultOwned(b, k))
    && (forall k: nat :: k < |b.q.dead| ==> GraveOwned(b, k))
    && (forall x: nat, y: nat :: x < |b.fate| && y < |b.fate| ==> InOrder(b, x, y))
  }

  // ------------------------------------------------------- they are kept

  lemma ReadAttempt(id: nat, prompt: string, tries: nat)
    requires tries < TWO_TO_THE_63
    ensures
      var task := TaskOf(id, Content(prompt, tries));
      task.prompt == prompt && AttemptOf(task.meta) == tries
      && Requeued(task) == Content(prompt, tries + 1)
  {
    var task := TaskOf(id, Content(prompt, tries));
    if tries > 0 {
      RoundTrip(tries);
      assert task.meta["attempt"] == Itoa(tries);
    }
    assert Requeued(task) == Content(prompt, tries + 1);
  }

  lemma HeldAttempt(b: Books, maxRetries: int, id: nat)
    requires IsInt64(maxRetries) && Balanced(b, maxRetries) && id < |b.q.stream|
    ensures AttemptOf(Held(b, id).meta) == b.tries[id] && Held(b, id).prompt == PromptAt(b, b.root[id])
    ensures Requeued(Held(b, id)) == Content(PromptAt(b, b.root[id]), b.tries[id] + 1)
    ensures PromptAt(b, id) == PromptAt(b, b.root[id])
  {
    assert Fine(b, maxRetries, id);
    ReadAttempt(id, PromptAt(b, b.root[id]), b.tries[id]);
  }

  lemma KeepsSized(b: Books, maxRetries: int, e: Event)
    requires Sized(b) && Possible(b, e)
    ensures Sized(Record(b, maxRetries, e))
  {
  }

  lemma KeepsPlaced(b: Books, maxRetries: int, e: Event, id: nat)
    requires Balanced(b, maxRetries) && Possible(b, e) && Sized(Record(b, maxRetries, e))
    requires id < |Record(b, maxRetries, e).fate|
    ensures Placed(Record(b, maxRetries, e), id)
  {
    if id < |b.fate| {
      assert Fine(b, maxRetries, id);
    }
  }

  lemma KeepsWritten(b: Books, maxRetries: int, e: Event, id: nat)
    requires IsInt64(maxRetries)
    requires Balanced(b, maxRetries) && Possible(b, e) && Sized(Record(b, maxRetries, e))
    requires id < |Record(b, maxRetries, e).fate|
    ensures Written(Record(b, maxRetries, e), maxRetries, id)
  {
    if id < |b.fate| {
      assert Fine(b, maxRetries, id);
    }
    if e.Failure? {
      assert Fine(b, maxRetries, e.id);
      HeldAttempt(b, maxRetries, e.id);
    }
  }

  lemma KeepsResult(b: Books, maxRetries: int, e: Event, id: nat)
    requires Balanced(b, maxRetries) && Possible(b, e) && Sized(Record(b, maxRetries, e))
    requires id < |Record(b, maxRetries, e).fate|
    ensures HasResult(Record(b, maxRetries, e), id)
  {
    if id < |b.fate| {
      assert Fine(b, maxRetries, id);
    }
  }

  lemma KeepsGrave(b: Books, maxRetries: int, e: Event, id: nat)
    requires IsInt64(maxRetries)
    requires Balanced(b, maxRetries) && Possible(b, e) && Sized(Record(b, maxRetries, e))
    requires id < |Record(b, maxRetries, e).fate|
    ensures HasGrave(Record(b, maxRetries, e), maxRetries, id)
  {
    if id < |b.fate| {
      assert Fine(b, maxRetries, id);
    }
    if e.Failure? {
      HeldAttempt(b, maxRetries, e.id);
    }
  }

  /** An event changes only the fate of an entry that was not retried before. */
  lemma LeavesRetriesAlone(b: Books, maxRetries: int, e: Event)
    requires Balanced(b, maxRetries) && Possible(b, e)
    ensures (e.Success? || e.Failure?) ==> b.fate[e.id] == InFlight
    ensures e.Delivery? && b.q.next < |b.fate| ==> b.fate[b.q.next] == Waiting
  {
    if e.Success? || e.Failure? {
      assert Fine(b, maxRetries, e.id);
    } else if e.Delivery? && b.q.next < |b.fate| {
      assert Fine(b, maxRetries, b.q.next);
    }
  }

  lemma KeepsLeadsOn(b: Books, maxRetries: int, e: Event, id: nat)
    requires Balanced(b, maxRetries) && Possible(b, e) && Sized(Record(b, maxRetries, e))
    requires id < |Record(b, maxRetries, e).fate|
    ensures LeadsOn(Record(b, maxRetries, e), id)
  {
    LeavesRetriesAlone(b, maxRetries, e);
    if id < |b.fate| {
      assert LeadsOn(b, id) by {
        assert Fine(b, maxRetries, id);
      }
    }
  }

  lemma KeepsLeadsBack(b: Books, maxRetries: int, e: Event, id: nat)
    requires Balanced(b, maxRetries) && Possible(b, e) && Sized(Record(b, maxRetries, e))
    requires id < |Record(b, maxRetries, e).fate|
    ensures LeadsBack(Record(b, maxRetries, e), id)
  {
    LeavesRetriesAlone(b, maxRetries, e);
    if id < |b.fate| {
      assert LeadsBack(b, id) by {
        assert Fine(b, maxRetries, id);
      }
    }
  }

  lemma KeepsInOrder(b: Books, maxRetries: int, e: Event, x: nat, y: nat)
    requires Balanced(b, maxRetries) && Possible(b, e) && Sized(Record(b, maxRetries, e))
    requires x < |Record(b, maxRetries, e).fate| && y < |Record(b, maxRetries, e).fate|
    ensures InOrder(Record(b, maxRetries, e), x, y)
  {
    if x < |b.fate| && y < |b.fate| {
      assert InOrder(b, x, y);
    }
    if e.Failure? {
      assert Fine(b, maxRetries, e.id);
      if x < |b.fate| {
        assert InOrder(b, x, e.id) && InOrder(b, e.id, x);
      }
      if y < |b.fate| {
        assert InOrder(b, y, e.id) && InOrder(b, e.id, y);
      }
    } else {
      LeavesRetriesAlone(b, maxRetries, e);
    }
  }

  lemma KeepsResultOwned(b: Books, maxRetries: int, e: Event, k: nat)
    requires Balanced(b, maxRetries) && Possible(b, e) && Sized(Record(b, maxRetries, e))
    requires k < |Record(b, maxRetries, e).q.results|
    ensures ResultOwned(Record(b, maxRetries, e), k)
  {
    LeavesRetriesAlone(b, maxRetries, e);
    if k < |b.q.results| {
      assert ResultOwned(b, k);
    }
  }

  lemma KeepsGraveOwned(b: Books, maxRetries: int, e: Event, k: nat)
    requires Balanced(b, maxRetries) && Possible(b, e) && Sized(Record(b, maxRetries, e))
    requires k < |Record(b, maxRetries, e).q.dead|
    ensures GraveOwned(Record(b, maxRetries, e), k)
  {
    LeavesRetriesAlone(b, maxRetries, e);
    if k < |b.q.dead| {
      assert GraveOwned(b, k);
    }
  }

  /** Every event keeps the books balanced. */
  lemma KeepsBalanced(b: Books, maxRetries: int, e: Event)
    requires IsInt64(maxRetries) && Balanced(b, maxRetries) && Possible(b, e)
    ensures Balanced(Record(b, maxRetries, e), maxRetries)
  {
    var b' := Record(b, maxRetries, e);
    KeepsSized(b, maxRetries, e);
    forall id: nat | id < |b'.fate|
      ensures Fine(b', maxRetries, id)
    {
      KeepsPlaced(b, maxRetries, e, id);
      KeepsWritten(b, maxRetries, e, id);
      KeepsResult(b, maxRetries, e, id);
      KeepsGrave(b, maxRetries, e, id);
      KeepsLeadsOn(b, maxRetries, e, id);
      KeepsLeadsBack(b, maxRetries, e, id);
    }
    forall k: nat | k < |b'.q.results|
      ensures ResultOwned(b', k)
    {
      KeepsResultOwned(b, maxRetries, e, k);
    }
    forall k: nat | k < |b'.q.dead|
      ensures GraveOwned(b', k)
    {
      KeepsGraveOwned(b, maxRetries, e, k);
    }
    forall x: nat, y: nat | x < |b'.fate| && y < |b'.fate|
      ensures InOrder(b', x, y)
    {
      KeepsInOrder(b, maxRetries, e, x, y);
    }
  }

  // ----------------------------------------------------------- whole histories

  /** The books after a history of events. */
  ghost predicate Leads(maxRetries: int, es: seq<Event>, b: Books)
    decreases |es|
  {
    if es == [] then b == OPENING
    else exists a :: Leads(maxRetries, es[..|es| - 1], a) && Follows(maxRetries, a, es, b)
  }

  /** The last event leads from the one to the other. */
  ghost predicate Follows(maxRetries: int, a: Books, es: seq<Event>, b: Books)
    requires es != []
  {
    Sized(a) && Possible(a, es[|es| - 1]) && b == Record(a, maxRetries, es[|es| - 1])
  }

  function Submissions(es: seq<Event>): nat {
    if es == [] then 0 else Submissions(es[..|es| - 1]) + if es[|es| - 1].Submission? then 1 else 0
  }

  /** Tasks that are waiting, in flight, answered, or dead. */
  function TaskCount(b: Books): int {
    |b.q.stream| - b.q.next + |b.q.pel| + |b.q.results| + |b.q.dead|
  }

  lemma OneEventCounts(b: Books, maxRetries: int, e: Event)
    requires Balanced(b, maxRetries) && Possible(b, e)
    ensures TaskCount(Record(b, maxRetries, e)) == TaskCount(b) + if e.Submission? then 1 else 0
  {
    if e.Success? || e.Failure? {
      assert |b.q.pel - {e.id}| == |b.q.pel| - 1;
    } else if e.Delivery? && b.q.next < |b.fate| {
      assert Fine(b, maxRetries, b.q.next);
      assert |b.q.pel + {b.q.next}| == |b.q.pel| + 1;
    }
  }

  /**
   * Conservation: after any history every submitted task is in exactly one place: as many were submitted as are
   * waiting, in flight, answered and dead together.
   */
  lemma {:induction false} TasksConserved(maxRetries: int, es: seq<Event>, b: Books)
    requires IsInt64(maxRetries) && Leads(maxRetries, es, b)
    ensures Balanced(b, maxRetries) && TaskCount(b) == Submissions(es)
    decreases |es|
  {
    if es != [] {
      var a :| Leads(maxRetries, es[..|es| - 1], a) && Follows(maxRetries, a, es, b);
      TasksConserved(maxRetries, es[..|es| - 1], a);
      KeepsBalanced(a, maxRetries, es[|es| - 1]);
      OneEventCounts(a, maxRetries, es[|es| - 1]);
    }
  }

  // ------------------------------------------------------- what they show

  /** From every entry the retries lead to one that was not retried: the task as it is now. */
  lemma {:induction false} CurrentEntry(b: Books, maxRetries: int, id: nat) returns (now: nat)
    requires Balanced(b, maxRetries) && id < |b.fate|
    ensures id <= now < |b.fate| && b.root[now] == b.root[id] && !b.fate[now].Retried?
    decreases |b.fate| - id
  {
    now := id;
    if b.fate[id].Retried? {
      assert Fine(b, maxRetries, id);
      now := CurrentEntry(b, maxRetries, b.fate[id].retry);
    }
  }

  /** There is only one such entry: a task is never in two places. */
  lemma OnePlace(b: Books, maxRetries: int, x: nat, y: nat)
    requires Balanced(b, maxRetries) && x < |b.fate| && y < |b.fate| && b.root[x] == b.root[y]
    requires !b.fate[x].Retried? && !b.fate[y].Retried?
    ensures x == y
  {
    assert InOrder(b, x, y) && InOrder(b, y, x);
  }

  /** No task id has two results, and a task with a result is not dead. */
  lemma OneResult(b: Books, maxRetries: int, j: nat, k: nat)
    requires Balanced(b, maxRetries) && j < |b.q.results|
    ensures k < |b.q.results| && b.q.results[j].taskID == b.q.results[k].taskID ==> j == k
    ensures k < |b.q.dead| ==> b.q.results[j].taskID != b.q.dead[k].taskID
  {
    assert ResultOwned(b, j);
    if k < |b.q.results| {
      assert ResultOwned(b, k);
    }
    if k < |b.q.dead| {
      assert GraveOwned(b, k);
    }
  }

  /** A task whose attempts are used up is buried by its next failure, and no other failure buries it. */
  lemma BuriedAtLimit(b: Books, maxRetries: int, id: nat, reason: string)
    requires IsInt64(maxRetries) && Balanced(b, maxRetries) && id in b.q.pel
    ensures
      var after := Record(b, maxRetries, Failure(id, reason));
      if b.tries[id] == Limit(maxRetries) then
        after.q.dead == b.q.dead + [Dead(id, PromptAt(b, id), reason, Itoa(Limit(maxRetries)))]
            && after.q.stream == b.q.stream
      else
        after.q.dead == b.q.dead && after.q.stream == b.q.stream + [Content(PromptAt(b, id), b.tries[id] + 1)]
  {
    assert Fine(b, maxRetries, id);
    HeldAttempt(b, maxRetries, id);
  }

  lemma {:induction false} FewDistinct(s: set<nat>, t: seq<nat>, bound: nat)
    requires forall x :: x in s ==> x < |t| && t[x] < bound
    requires forall x, y :: x in s && y in s && t[x] == t[y] ==> x == y
    ensures |s| <= bound
    decreases bound
  {
    if bound == 0 {
      assert s == {};
    } else if x :| x in s && t[x] == bound - 1 {
      FewDistinct(s - {x}, t, bound - 1);
    } else {
      FewDistinct(s, t, bound - 1);
    }
  }

  /** The entries of a lineage that were delivered. */
  function Deliveries(b: Books, root: nat): set<nat>
    requires Sized(b)
  {
    set id | 0 <= id < b.q.next && b.root[id] == root
  }

  /** A task is delivered at most once more than it may be retried. */
  lemma DeliveriesBounded(b: Books, maxRetries: int, root: nat)
    requires Balanced(b, maxRetries)
    ensures |Deliveries(b, root)| <= Limit(maxRetries) + 1
  {
    forall x | x in Deliveries(b, root)
      ensures b.tries[x] < Limit(maxRetries) + 1
    {
      assert Fine(b, maxRetries, x);
    }
    forall x, y | x in Deliveries(b, root) && y in Deliveries(b, root) && b.tries[x] == b.tries[y]
      ensures x == y
    {
      assert InOrder(b, x, y);
    }
    FewDistinct(Deliveries(b, root), b.tries, Limit(maxRetries) + 1);
  }

  /** Every attempt of a task carries the prompt it was submitted with. */
  lemma PromptKept(b: Books, maxRetries: int, id: nat)
    requires IsInt64(maxRetries) && Balanced(b, maxRetries) && id < |b.fate|
    ensures PromptAt(b, id) == PromptAt(b, b.root[id]) && Held(b, id).prompt == PromptAt(b, b.root[id])
  {
    HeldAttempt(b, maxRetries, id);
  }
}
