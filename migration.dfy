/**
 * Migration of a team's legacy (unsharded) collection, as convertData plans it:
 * every legacy document is copied into its month shard and deleted from the
 * legacy collection, and every legacy category document is deleted. The work
 * is chained into at most ten queues, job by job in round-robin order.
 */
module Migration {
  import opened Wrappers
  import opened Events
  import opened EventCache

  /** A store call a queue will make. */
  datatype Step = CreateIn(collection: CollectionName, doc: Event) | DeleteFrom(collection: CollectionName, id: Id)

  const MaxQueues := 10

  /** The queue count as written: `oldData.length < 10 ? oldData.length : 10`. */
  function QueueCountAsWritten(n: nat): (k: nat)
    ensures k <= n && k <= MaxQueues
    ensures k == n || k == MaxQueues
  {
    if n < MaxQueues then n else MaxQueues
  }

  /** The corrected queue count: the same, but never zero. */
  function QueueCount(n: nat): (k: nat)
    ensures 1 <= k <= MaxQueues
    ensures n >= 1 ==> k == QueueCountAsWritten(n)
  {
    if n == 0 then 1 else QueueCountAsWritten(n)
  }

  /** Moving one legacy document: create it in its month shard, then delete it from the legacy collection. */
  function DocJob(team: string, doc: Event): seq<Step> {
    [CreateIn(StampCollection(team, doc.startDate), doc), DeleteFrom(team, KeyOf(doc))]
  }

  /** Dropping one legacy category document. */
  function CategoryJob(team: string, doc: Event): seq<Step> {
    [DeleteFrom(CategoriesCollection(team), KeyOf(doc))]
  }

  function DocJobs(team: string, docs: seq<Event>): (r: seq<seq<Step>>)
    ensures |r| == |docs|
    ensures forall i :: 0 <= i < |docs| ==> r[i] == DocJob(team, docs[i])
  {
    seq(|docs|, i requires 0 <= i < |docs| => DocJob(team, docs[i]))
  }

  function CategoryJobs(team: string, categoryDocs: seq<Event>): (r: seq<seq<Step>>)
    ensures |r| == |categoryDocs|
    ensures forall j :: 0 <= j < |categoryDocs| ==> r[j] == CategoryJob(team, categoryDocs[j])
  {
    seq(|categoryDocs|, j requires 0 <= j < |categoryDocs| => CategoryJob(team, categoryDocs[j]))
  }

  /** All jobs in the order they are handed out: the documents, then the category documents. */
  function Jobs(team: string, docs: seq<Event>, categoryDocs: seq<Event>): (r: seq<seq<Step>>)
    ensures |r| == |docs| + |categoryDocs|
    ensures forall i :: 0 <= i < |docs| ==> r[i] == DocJob(team, docs[i])
    ensures forall j :: 0 <= j < |categoryDocs| ==> r[|docs| + j] == CategoryJob(team, categoryDocs[j])
  {
    DocJobs(team, docs) + CategoryJobs(team, categoryDocs)
  }

  /**
   * The queue job `t` goes to: the running index starts at 0, moves on by one
   * per job and wraps back to 0 when it reaches `size`.
   */
  function Slot(t: nat, size: nat): (q: nat)
    requires size > 0
    ensures q < size
    ensures t < size ==> q == t
  {
    if t == 0 then 0
    else
      var p := Slot(t - 1, size);
      if p + 1 == size then 0 else p + 1
  }

  /** The assignment is round robin: job t + size goes to the same queue as job t. */
  lemma {:induction false} SlotPeriodic(t: nat, size: nat)
    requires size > 0
    ensures Slot(t + size, size) == Slot(t, size)
  {
    if t > 0 {
      SlotPeriodic(t - 1, size);
    }
  }

  /** The steps queue `q` of `size` chains, in order: those of every job assigned to it. */
  function Chain(jobs: seq<seq<Step>>, size: nat, q: nat): seq<Step>
    requires size > 0
  {
    if jobs == [] then []
    else
      var n := |jobs| - 1;
      Chain(jobs[..n], size, q) + (if Slot(n, size) == q then jobs[n] else [])
  }

  /** Appending a job extends exactly the queue it is assigned to. */
  lemma ChainStep(jobs: seq<seq<Step>>, size: nat, job: seq<Step>)
    requires size > 0
    ensures forall q :: (Chain(jobs + [job], size, q) ==
      Chain(jobs, size, q) + (if Slot(|jobs|, size) == q then job else []))
  {
    assert (jobs + [job])[..|jobs|] == jobs;
  }

  /** `queues` are the chains the jobs `jobs` make, round robin over |queues| queues. */
  ghost predicate Chained(queues: seq<seq<Step>>, jobs: seq<seq<Step>>) {
    |queues| > 0 && forall q :: 0 <= q < |queues| ==> queues[q] == Chain(jobs, |queues|, q)
  }

  /** The running index once the jobs `done` have been handed out (before any, it is the queue count). */
  function NextIndex(done: seq<seq<Step>>, size: nat): nat
    requires size > 0
  {
    if done == [] then size else Slot(|done| - 1, size) + 1
  }

  /**
   * One job of convertData's loops: wrap the running index back to 0 when it
   * has reached the queue count, append the job to that queue, move on.
   * `done` are the jobs handed out before.
   */
  method Enqueue(queue: array<seq<Step>>, index: nat, job: seq<Step>, ghost done: seq<seq<Step>>) returns (next: nat)
    requires Chained(queue[..], done) && index == NextIndex(done, queue.Length)
    modifies queue
    ensures Chained(queue[..], done + [job]) && next == NextIndex(done + [job], queue.Length)
  {
    var i := index;
    if i == queue.Length {
      i := 0;
    }
    queue[i] := queue[i] + job;
    next := i + 1;
    ChainStep(done, queue.Length, job);
  }

  /** Chains of all the jobs of a migration over the corrected number of queues are its plan. */
  lemma ChainedIsPlan(queues: seq<seq<Step>>, team: string, docs: seq<Event>, categoryDocs: seq<Event>)
    requires Chained(queues, Jobs(team, docs, categoryDocs)) && |queues| == QueueCount(|docs|)
    ensures queues == Plan(team, docs, categoryDocs)
  {
  }

  /** Every step of job `t` is in the queue it is assigned to. */
  lemma {:induction false} ChainHasJob(jobs: seq<seq<Step>>, size: nat, t: nat, s: Step)
    requires size > 0 && t < |jobs| && s in jobs[t]
    ensures s in Chain(jobs, size, Slot(t, size))
  {
    var n := |jobs| - 1;
    if t < n {
      assert jobs[..n][t] == jobs[t];
      ChainHasJob(jobs[..n], size, t, s);
    }
  }

  /** `job` is the run of `chain` that starts at position `k`. */
  predicate RunAt(chain: seq<Step>, k: nat, job: seq<Step>) {
    k + |job| <= |chain| && chain[k..k + |job|] == job
  }

  /** Job `t` sits in its queue as one unbroken run of steps, in its own order. */
  lemma {:induction false} ChainHoldsJob(jobs: seq<seq<Step>>, size: nat, t: nat)
    requires size > 0 && t < |jobs|
    ensures var chain := Chain(jobs, size, Slot(t, size));
            exists k: nat :: RunAt(chain, k, jobs[t])
  {
    var n := |jobs| - 1;
    var q := Slot(t, size);
    var before := Chain(jobs[..n], size, q);
    if t < n {
      assert jobs[..n][t] == jobs[t];
      ChainHoldsJob(jobs[..n], size, t);
      var k: nat :| RunAt(before, k, jobs[t]);
      var chain := Chain(jobs, size, q);
      assert chain[k..k + |jobs[t]|] == before[k..k + |jobs[t]|];
      assert RunAt(chain, k, jobs[t]);
      assert exists k': nat :: RunAt(Chain(jobs, size, Slot(t, size)), k', jobs[t]);
    } else {
      var chain := Chain(jobs, size, q);
      assert chain[|before|..|before| + |jobs[t]|] == jobs[t];
      assert RunAt(chain, |before|, jobs[t]);
      assert exists k': nat :: RunAt(Chain(jobs, size, Slot(t, size)), k', jobs[t]);
    }
  }

  /** A queue holds nothing but steps of the jobs assigned to it. */
  lemma {:induction false} ChainOnlyJobs(jobs: seq<seq<Step>>, size: nat, q: nat, s: Step)
    requires size > 0 && s in Chain(jobs, size, q)
    ensures exists t :: 0 <= t < |jobs| && Slot(t, size) == q && s in jobs[t]
  {
    var n := |jobs| - 1;
    if s in Chain(jobs[..n], size, q) {
      ChainOnlyJobs(jobs[..n], size, q, s);
      var t :| 0 <= t < n && Slot(t, size) == q && s in jobs[..n][t];
      assert jobs[..n][t] == jobs[t];
    } else {
      assert Slot(n, size) == q && s in jobs[n];
    }
  }

  /** The queues convertData builds (with the corrected queue count). */
  function Plan(team: string, docs: seq<Event>, categoryDocs: seq<Event>): (queues: seq<seq<Step>>)
    ensures |queues| == QueueCount(|docs|)
  {
    var size := QueueCount(|docs|);
    var jobs := Jobs(team, docs, categoryDocs);
    seq(size, q requires 0 <= q < size => Chain(jobs, size, q))
  }

  /**
   * The queues as written, or None when the plan throws: with no legacy
   * documents there are no queues, and the first category document indexes
   * the missing queue 0.
   */
  function PlanAsWritten(team: string, docs: seq<Event>, categoryDocs: seq<Event>): Option<seq<seq<Step>>> {
    var size := QueueCountAsWritten(|docs|);
    if size == 0 then (if categoryDocs == [] then Some([]) else None)
    else
      var jobs := Jobs(team, docs, categoryDocs);
      Some(seq(size, q requires 0 <= q < size => Chain(jobs, size, q)))
  }

  /**
   * Legacy document `i` is moved by the queue it is assigned to: its create,
   * and right after it in that queue, its delete.
   */
  lemma DocumentAssignedRoundRobin(team: string, docs: seq<Event>, categoryDocs: seq<Event>, i: nat)
    requires i < |docs|
    ensures var queues := Plan(team, docs, categoryDocs);
            var q := Slot(i, |queues|);
            && CreateIn(StampCollection(team, docs[i].startDate), docs[i]) in queues[q]
            && DeleteFrom(team, KeyOf(docs[i])) in queues[q]
            && exists k :: 0 <= k && k + 1 < |queues[q]|
                 && queues[q][k] == CreateIn(StampCollection(team, docs[i].startDate), docs[i])
                 && queues[q][k + 1] == DeleteFrom(team, KeyOf(docs[i]))
  {
    var size := QueueCount(|docs|);
    var jobs := Jobs(team, docs, categoryDocs);
    assert jobs[i] == DocJob(team, docs[i]);
    ChainHoldsJob(jobs, size, i);
    var chain := Chain(jobs, size, Slot(i, size));
    var k: nat :| RunAt(chain, k, jobs[i]);
    assert chain[k..k + 2][0] == jobs[i][0] && chain[k..k + 2][1] == jobs[i][1];
  }

  /** Every legacy category document gets its delete, continuing the round robin after the documents. */
  lemma CategoryDocumentDeleted(team: string, docs: seq<Event>, categoryDocs: seq<Event>, j: nat)
    requires j < |categoryDocs|
    ensures var queues := Plan(team, docs, categoryDocs);
            DeleteFrom(CategoriesCollection(team), KeyOf(categoryDocs[j])) in queues[Slot(|docs| + j, |queues|)]
  {
    var size := QueueCount(|docs|);
    var jobs := Jobs(team, docs, categoryDocs);
    assert jobs[|docs| + j] == CategoryJob(team, categoryDocs[j]);
    ChainHasJob(jobs, size, |docs| + j, jobs[|docs| + j][0]);
  }

  /** The steps of job `t`: a document's create and delete, or a category document's delete. */
  lemma JobSteps(team: string, docs: seq<Event>, categoryDocs: seq<Event>, t: nat, s: Step)
    requires t < |docs| + |categoryDocs| && s in Jobs(team, docs, categoryDocs)[t]
    ensures t < |docs| ==> s == CreateIn(StampCollection(team, docs[t].startDate), docs[t]) || s == DeleteFrom(team, KeyOf(docs[t]))
    ensures t >= |docs| ==> s == DeleteFrom(CategoriesCollection(team), KeyOf(categoryDocs[t - |docs|]))
  {
    if t < |docs| {
      assert Jobs(team, docs, categoryDocs)[t] == DocJob(team, docs[t]);
    } else {
      assert Jobs(team, docs, categoryDocs)[|docs| + (t - |docs|)] == CategoryJob(team, categoryDocs[t - |docs|]);
    }
  }

  /**
   * The queues create only in month shards, and delete only legacy documents
   * and legacy category documents.
   */
  lemma PlanOnlyMigrates(team: string, docs: seq<Event>, categoryDocs: seq<Event>, q: nat, s: Step)
    requires q < QueueCount(|docs|) && s in Plan(team, docs, categoryDocs)[q]
    ensures s.CreateIn? ==> s.doc in docs && s.collection == StampCollection(team, s.doc.startDate)
    ensures s.DeleteFrom? ==>
      || (s.collection == team && exists d :: d in docs && KeyOf(d) == s.id)
      || (s.collection == CategoriesCollection(team) && exists d :: d in categoryDocs && KeyOf(d) == s.id)
  {
    var size := QueueCount(|docs|);
    var jobs := Jobs(team, docs, categoryDocs);
    assert s in Chain(jobs, size, q);
    ChainOnlyJobs(jobs, size, q, s);
    var t :| 0 <= t < |jobs| && Slot(t, size) == q && s in jobs[t];
    JobSteps(team, docs, categoryDocs, t, s);
    if t < |docs| {
      var d := docs[t];
      assert d in docs;
    } else {
      var d := categoryDocs[t - |docs|];
      assert d in categoryDocs;
    }
  }

  /** With at least one legacy document the corrected plan is the plan as written. */
  lemma PlanAsWrittenAgrees(team: string, docs: seq<Event>, categoryDocs: seq<Event>)
    requires |docs| >= 1
    ensures PlanAsWritten(team, docs, categoryDocs) == Some(Plan(team, docs, categoryDocs))
  {
  }

  /**
   * Finding: as written, a legacy collection with no documents but a category
   * document throws, so that category document is never deleted; the corrected
   * plan deletes it from its single queue.
   */
  lemma EmptyLegacyStrandsCategoriesAsWritten(team: string, category: Event)
    ensures PlanAsWritten(team, [], [category]) == None
    ensures DeleteFrom(CategoriesCollection(team), KeyOf(category)) in Plan(team, [], [category])[0]
  {
    CategoryDocumentDeleted(team, [], [category], 0);
  }
}
