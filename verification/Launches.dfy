/** What the driver is told about launched tasks: the amounts that the queue asks for, within the offer. */
module Launches {
  import opened Workload
  import opened TaskIds
  import opened Packing
  import opened PackingTheorems
  import opened Tracking
  import opened Batches
  import opened System

  // ----- where queued and picked jobs come from

  /** J is what is left of some job of the queue. */
  ghost predicate Stems(queue: seq<Job>, j: Job) {
    exists i :: 0 <= i < |queue| && queue[i].spec == j.spec && j.n <= queue[i].n
  }

  ghost predicate AllStem(queue: seq<Job>, jobs: seq<Job>) {
    forall j :: j in jobs ==> Stems(queue, j)
  }

  lemma StemsRefl(queue: seq<Job>)
    ensures AllStem(queue, queue)
  {
  }

  lemma StemsTrans(load: seq<Job>, queue: seq<Job>, jobs: seq<Job>)
    requires AllStem(load, queue) && AllStem(queue, jobs)
    ensures AllStem(load, jobs)
  {
    forall j | j in jobs
      ensures Stems(load, j)
    {
      var i :| 0 <= i < |queue| && queue[i].spec == j.spec && j.n <= queue[i].n;
      assert Stems(load, queue[i]);
    }
  }

  lemma TakeStems(queue: seq<Job>, c: Ctx, o: Offer, f: Fill, i: nat)
    requires i < |f.queue| && AllStem(queue, f.queue) && AllStem(queue, f.picks)
    ensures AllStem(queue, Take(c, o, f, i).queue) && AllStem(queue, Take(c, o, f, i).picks)
  {
    var job := f.queue[i];
    assert Stems(queue, job);
    LaunchReplaces(f.queue, i);
    forall j | j in Launch(f.queue, i)
      ensures Stems(queue, j)
    {
      assert j in f.queue || j in Rest(job);
    }
  }

  lemma {:induction false} TakeAllStems(queue: seq<Job>, c: Ctx, o: Offer, f: Fill, taken: seq<nat>)
    requires Guarded(c, o, f, taken) && AllStem(queue, f.queue) && AllStem(queue, f.picks)
    ensures AllStem(queue, TakeAll(c, o, f, taken).queue) && AllStem(queue, TakeAll(c, o, f, taken).picks)
    decreases |taken|
  {
    if taken != [] {
      TakeStems(queue, c, o, f, taken[0]);
      TakeAllStems(queue, c, o, Take(c, o, f, taken[0]), taken[1..]);
    }
  }

  /** What is picked on an offer, and what stays queued, comes from the queue. */
  lemma ConsumeStems(p: Policy, c: Ctx, o: Offer, queue: seq<Job>, scheduled: int)
    ensures AllStem(queue, Consume(p, c, o, queue, scheduled).queue) && AllStem(queue, Consume(p, c, o, queue, scheduled).picks)
  {
    var taken := ConsumeTakes(p, c, o, queue, scheduled);
    TakeAllStems(queue, c, o, Fresh(queue, scheduled), taken);
  }

  lemma {:induction false} BatchStems(p: Policy, c: Ctx, reqs: map<string, Res>, b: Batch, offers: seq<Offer>)
    ensures AllStem(b.queue, ConsumeAll(p, c, reqs, b, offers).queue)
  {
    if offers == [] {
      StemsRefl(b.queue);
    } else {
      var m := ConsumeAll(p, c, reqs, b, offers[..|offers| - 1]);
      BatchStems(p, c, reqs, b, offers[..|offers| - 1]);
      StemsRefl(m.queue);
      if m.queue != [] {
        ConsumeStems(p, c, offers[|offers| - 1], m.queue, m.scheduled);
      }
      StemsTrans(b.queue, m.queue, ConsumeAll(p, c, reqs, b, offers).queue);
    }
  }

  lemma PreparedStems(p: Policy, n: nat, before: seq<Job>, after: seq<Job>)
    requires PreparedBy(p, n, before, after) && Positive(before)
    ensures AllStem(before, after)
  {
    PreparedKeeps(p, n, before, after);
    forall j | j in after
      ensures Stems(before, j)
    {
      assert j in multiset(before);
    }
  }

  // ----- the amounts

  /** The task is instance k of job i of the queue, placed on the offer's agent, with the amounts that job asks for; watts only if
      they are a resource, and then those that count on the offer. */
  ghost predicate AskedAt(wattsAsAResource: bool, classMapWatts: bool, o: Offer, queue: seq<Job>, t: TaskInfo, i: nat, k: nat) {
    && i < |queue| && 1 <= k <= queue[i].n
    && t.id == TaskId(queue[i].spec.name, k) && t.agent == o.agent
    && t.cpu == queue[i].spec.cpu && t.ram == queue[i].spec.ram
    && t.watts == if wattsAsAResource && !WattsToConsider(queue[i].spec, classMapWatts, o).failed
                  then Some(WattsToConsider(queue[i].spec, classMapWatts, o).value) else None
  }

  ghost predicate Asked(wattsAsAResource: bool, classMapWatts: bool, o: Offer, queue: seq<Job>, t: TaskInfo) {
    exists i: nat, k: nat :: AskedAt(wattsAsAResource, classMapWatts, o, queue, t, i, k)
  }

  function WattsOf(t: TaskInfo): real {
    if t.watts.Some? then t.watts.value else 0.0
  }

  /** The tasks themselves sum to at most the offer: CPU, memory and, when they are a resource, watts. */
  ghost predicate WithinOffer(wattsAsAResource: bool, o: Offer, tasks: seq<TaskInfo>) {
    && SumBy(tasks, (t: TaskInfo) => t.cpu) <= Amount(o.resources, "cpus")
    && SumBy(tasks, (t: TaskInfo) => t.ram) <= Amount(o.resources, "mem")
    && (wattsAsAResource ==> SumBy(tasks, (t: TaskInfo) => WattsOf(t)) <= Amount(o.resources, "watts"))
  }

  lemma {:induction false} InfosSums(c: Ctx, o: Offer, picks: seq<Job>)
    ensures SumBy(Infos(c, o, picks), (t: TaskInfo) => t.cpu) == PickNeeds(c, o, picks).cpu
    ensures SumBy(Infos(c, o, picks), (t: TaskInfo) => t.ram) == PickNeeds(c, o, picks).ram
    ensures c.wattsAsAResource ==> SumBy(Infos(c, o, picks), (t: TaskInfo) => WattsOf(t)) == PickNeeds(c, o, picks).watts
  {
    if picks != [] {
      var front, last := picks[..|picks| - 1], picks[|picks| - 1];
      InfosSums(c, o, front);
      assert Infos(c, o, picks) == Infos(c, o, front) + [Info(c, o, last)];
      SumByMore(Infos(c, o, front), Info(c, o, last), (t: TaskInfo) => t.cpu);
      SumByMore(Infos(c, o, front), Info(c, o, last), (t: TaskInfo) => t.ram);
      SumByMore(Infos(c, o, front), Info(c, o, last), (t: TaskInfo) => WattsOf(t));
    }
  }

  /** Every launched task is an instance of a queued job with the amounts it asks for, and together they stay within the offer. */
  lemma PicksAsked(p: Policy, c: Ctx, o: Offer, queue: seq<Job>, scheduled: int)
    requires Positive(queue) && Consume(p, c, o, queue, scheduled).picks != []
    ensures var tasks := Infos(c, o, Consume(p, c, o, queue, scheduled).picks);
            && WithinOffer(c.wattsAsAResource, o, tasks)
            && forall t :: t in tasks ==> Asked(c.wattsAsAResource, c.classMapWatts, o, queue, t)
  {
    var picks := Consume(p, c, o, queue, scheduled).picks;
    ConsumeProgress(p, c, o, queue, scheduled);
    ConsumeStems(p, c, o, queue, scheduled);
    InfosSums(c, o, picks);
    forall x: nat | x < |picks|
      ensures Asked(c.wattsAsAResource, c.classMapWatts, o, queue, Info(c, o, picks[x]))
    {
      assert picks[x] in picks;
      var i :| 0 <= i < |queue| && queue[i].spec == picks[x].spec && picks[x].n <= queue[i].n;
      assert AskedAt(c.wattsAsAResource, c.classMapWatts, o, queue, Info(c, o, picks[x]), i, picks[x].n);
    }
  }

  /** An instance of what is left of a job is an instance of the job. */
  lemma AskedBefore(waar: bool, cmw: bool, o: Offer, load: seq<Job>, queue: seq<Job>, t: TaskInfo)
    requires AllStem(load, queue) && Asked(waar, cmw, o, queue, t)
    ensures Asked(waar, cmw, o, load, t)
  {
    var i: nat, k: nat :| AskedAt(waar, cmw, o, queue, t, i, k);
    assert Stems(load, queue[i]);
    var m :| 0 <= m < |load| && load[m].spec == queue[i].spec && queue[i].n <= load[m].n;
    assert AskedAt(waar, cmw, o, load, t, m, k);
  }

  /** The tracker charges what the driver is told. */
  lemma ChargedAsTold(waar: bool, cmw: bool, reqs: map<string, Res>, o: Offer, load: seq<Job>, t: TaskInfo)
    requires ListsAll(reqs, load) && Asked(waar, cmw, o, load, t)
    ensures t.id in reqs && reqs[t.id].cpu == t.cpu && reqs[t.id].ram == t.ram
  {
    var i: nat, k: nat :| AskedAt(waar, cmw, o, load, t, i, k);
    assert load[i] in load;
    assert Lists(reqs, load[i]);
  }

  // ----- runs

  lemma NextStems(u: Setup, sys: Sys, e: Event)
    requires Legal(u, sys, e) && Positive(sys.queue)
    ensures AllStem(sys.queue, Next(u, sys, e).queue)
  {
    StemsRefl(sys.queue);
    if e.Offers? {
      var s := Switched(u, sys, e);
      PreparedStems(s.cur, if u.cfg.enabled then s.inWindow else |sys.queue|, sys.queue, e.sorted);
      BatchStems(s.cur, Context(u, s), u.reqs, Batch(e.sorted, s.counts[s.cur], Recorded(sys, e.offers), []), e.offers);
      StemsTrans(sys.queue, e.sorted, Next(u, sys, e).queue);
    }
  }

  /** Whatever is queued in a run is left of the workload. */
  lemma {:induction false} QueueStems(u: Setup, load: seq<Job>, states: seq<Sys>, events: seq<Event>, k: nat)
    requires Run(u, states, events) && Init(u, states[0], load) && k < |states|
    ensures AllStem(load, states[k].queue)
  {
    if k == 0 {
      StemsRefl(load);
    } else {
      QueueStems(u, load, states, events, k - 1);
      RunKeepsInv(u, load, states, events, k - 1);
      RunStep(u, states, events, k - 1);
      NextStems(u, states[k - 1], events[k - 1]);
      StemsTrans(load, states[k - 1].queue, states[k].queue);
    }
  }
}
