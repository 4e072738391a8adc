/** Consuming a batch of offers: the answer given to each offer and the effect on the queue and the tracker. */
module Batches {
  import opened Workload
  import opened TaskIds
  import opened Packing
  import opened PackingTheorems
  import opened Tracking

  /** What is sent to the driver for one task instance. */
  datatype TaskInfo = TaskInfo(id: string, agent: string, cpu: real, ram: real, watts: Option<real>)

  /** The two filters of a declined offer: refuse for a long time when nothing is pending, else briefly. */
  datatype Filter = Long | Default

  datatype Answer = Launched(offerId: string, tasks: seq<TaskInfo>) | Declined(offerId: string, filter: Filter)

  function Info(c: Ctx, o: Offer, job: Job): TaskInfo {
    TaskInfo(TaskId(job.spec.name, Number(job.n)), o.agent, job.spec.cpu, job.spec.ram,
             if c.wattsAsAResource && !WattsToConsider(job.spec, c.classMapWatts, o).failed
             then Some(WattsToConsider(job.spec, c.classMapWatts, o).value) else None)
  }

  function Infos(c: Ctx, o: Offer, picks: seq<Job>): seq<TaskInfo> {
    seq(|picks|, k requires 0 <= k < |picks| => Info(c, o, picks[k]))
  }

  ghost function ActivateAll(hosts: Hosts, reqs: map<string, Res>, tasks: seq<TaskInfo>): Hosts {
    if tasks == [] then hosts
    else
      var last := tasks[|tasks| - 1];
      Activate(ActivateAll(hosts, reqs, tasks[..|tasks| - 1]), reqs, last.id, last.agent)
  }

  datatype Batch = Batch(queue: seq<Job>, scheduled: int, hosts: Hosts, answers: seq<Answer>)

  /** One offer: declined for long if nothing is pending, launched on if something was picked, else declined. */
  ghost function Step(p: Policy, c: Ctx, reqs: map<string, Res>, b: Batch, o: Offer): Batch {
    if b.queue == [] then b.(answers := b.answers + [Declined(o.id, Long)])
    else
      var g := Consume(p, c, o, b.queue, b.scheduled);
      if g.picks != [] then
        Batch(g.queue, g.scheduled, ActivateAll(b.hosts, reqs, Infos(c, o, g.picks)),
              b.answers + [Launched(o.id, Infos(c, o, g.picks))])
      else
        Batch(g.queue, g.scheduled, b.hosts, b.answers + [Declined(o.id, Default)])
  }

  function AnswerFor(offerId: string, tasks: seq<TaskInfo>): Answer {
    if tasks != [] then Launched(offerId, tasks) else Declined(offerId, Default)
  }

  lemma FilledStep(p: Policy, c: Ctx, reqs: map<string, Res>, b: Batch, o: Offer, tasks: seq<TaskInfo>)
    requires b.queue != [] && tasks == Infos(c, o, Consume(p, c, o, b.queue, b.scheduled).picks)
    ensures Step(p, c, reqs, b, o)
            == var g := Consume(p, c, o, b.queue, b.scheduled);
               Batch(g.queue, g.scheduled, ActivateAll(b.hosts, reqs, tasks), b.answers + [AnswerFor(o.id, tasks)])
  {
  }

  ghost function ConsumeAll(p: Policy, c: Ctx, reqs: map<string, Res>, b: Batch, offers: seq<Offer>): Batch {
    if offers == [] then b
    else Step(p, c, reqs, ConsumeAll(p, c, reqs, b, offers[..|offers| - 1]), offers[|offers| - 1])
  }

  ghost function InfoIds(tasks: seq<TaskInfo>): multiset<string> {
    if tasks == [] then multiset{} else InfoIds(tasks[..|tasks| - 1]) + multiset{tasks[|tasks| - 1].id}
  }

  /** Every id the driver was asked to launch, with repetitions. */
  ghost function LoggedIds(log: seq<Answer>): multiset<string> {
    if log == [] then multiset{}
    else
      var last := log[|log| - 1];
      LoggedIds(log[..|log| - 1]) + match last case Launched(_, tasks) => InfoIds(tasks) case Declined(_, _) => multiset{}
  }

  lemma {:induction false} InfosIds(c: Ctx, o: Offer, picks: seq<Job>)
    ensures InfoIds(Infos(c, o, picks)) == PickIds(picks)
  {
    if picks != [] {
      var n := |picks| - 1;
      InfosIds(c, o, picks[..n]);
      assert Infos(c, o, picks)[..n] == Infos(c, o, picks[..n]);
    }
  }

  lemma {:induction false} LoggedIdsConcat(a: seq<Answer>, b: seq<Answer>)
    ensures LoggedIds(a + b) == LoggedIds(a) + LoggedIds(b)
  {
    if b == [] {
      assert a + b == a;
    } else {
      assert (a + b)[..|a + b| - 1] == a + b[..|b| - 1];
      LoggedIdsConcat(a, b[..|b| - 1]);
    }
  }

  /** What a batch keeps. */
  ghost predicate BatchProgress(c: Ctx, b: Batch, g: Batch) {
    && Positive(g.queue)
    && Subsequence(g.queue, b.queue)
    && b.answers <= g.answers
    && PendingIds(g.queue) + LoggedIds(g.answers) == PendingIds(b.queue) + LoggedIds(b.answers)
    && g.scheduled - b.scheduled == |LoggedIds(g.answers)| - |LoggedIds(b.answers)|
    && b.scheduled <= g.scheduled
    && (c.switching && b.scheduled <= c.window ==> g.scheduled <= c.window)
  }

  lemma {:induction false} PickIdsCount(picks: seq<Job>)
    ensures |PickIds(picks)| == |picks|
  {
    if picks != [] {
      PickIdsCount(picks[..|picks| - 1]);
    }
  }

  lemma AnswerLogged(answers: seq<Answer>, a: Answer)
    ensures LoggedIds(answers + [a]) == LoggedIds(answers) + if a.Launched? then InfoIds(a.tasks) else multiset{}
  {
    assert (answers + [a])[..|answers|] == answers;
  }

  /** Ids that leave the pending set and enter the log. */
  lemma IdsMove(pending: multiset<string>, picked: multiset<string>, before: multiset<string>, log: multiset<string>)
    requires pending + picked == before
    ensures pending + (log + picked) == before + log
    ensures |log + picked| == |log| + |picked|
  {
  }

  lemma StepIds(p: Policy, c: Ctx, reqs: map<string, Res>, b: Batch, o: Offer)
    requires Positive(b.queue) && b.queue != []
    ensures var g := Consume(p, c, o, b.queue, b.scheduled);
            && LoggedIds(Step(p, c, reqs, b, o).answers) == LoggedIds(b.answers) + PickIds(g.picks)
            && PendingIds(g.queue) + PickIds(g.picks) == PendingIds(b.queue)
            && |PickIds(g.picks)| == |g.picks| == g.scheduled - b.scheduled
  {
    var g := Consume(p, c, o, b.queue, b.scheduled);
    ConsumeProgress(p, c, o, b.queue, b.scheduled);
    PickIdsCount(g.picks);
    if g.picks == [] {
      AnswerLogged(b.answers, Declined(o.id, Default));
    } else {
      InfosIds(c, o, g.picks);
      AnswerLogged(b.answers, Launched(o.id, Infos(c, o, g.picks)));
    }
  }

  lemma StepProgress(p: Policy, c: Ctx, reqs: map<string, Res>, b: Batch, o: Offer)
    requires Positive(b.queue)
    ensures BatchProgress(c, b, Step(p, c, reqs, b, o))
  {
    if b.queue == [] {
      AnswerLogged(b.answers, Declined(o.id, Long));
      SubsequenceRefl(b.queue);
    } else {
      var g := Consume(p, c, o, b.queue, b.scheduled);
      StepIds(p, c, reqs, b, o);
      ConsumeProgress(p, c, o, b.queue, b.scheduled);
      IdsMove(PendingIds(g.queue), PickIds(g.picks), PendingIds(b.queue), LoggedIds(b.answers));
    }
  }

  lemma {:induction false} ConsumeAllProgress(p: Policy, c: Ctx, reqs: map<string, Res>, b: Batch, offers: seq<Offer>)
    requires Positive(b.queue)
    ensures BatchProgress(c, b, ConsumeAll(p, c, reqs, b, offers))
  {
    if offers == [] {
      SubsequenceRefl(b.queue);
    } else {
      var front := offers[..|offers| - 1];
      var m := ConsumeAll(p, c, reqs, b, front);
      ConsumeAllProgress(p, c, reqs, b, front);
      StepProgress(p, c, reqs, m, offers[|offers| - 1]);
      SubsequenceTrans(ConsumeAll(p, c, reqs, b, offers).queue, m.queue, b.queue);
    }
  }

  /** Each offer of a batch is answered exactly once, in order. */
  lemma {:induction false} AnsweredOnce(p: Policy, c: Ctx, reqs: map<string, Res>, b: Batch, offers: seq<Offer>, k: nat)
    requires k < |offers|
    ensures var answers := ConsumeAll(p, c, reqs, b, offers).answers;
            |answers| == |b.answers| + |offers| && answers[|b.answers| + k].offerId == offers[k].id
  {
    var front, last := offers[..|offers| - 1], offers[|offers| - 1];
    var m := ConsumeAll(p, c, reqs, b, front);
    AnswerCount(p, c, reqs, b, front);
    StepAnswers(p, c, reqs, m, last);
    assert ConsumeAll(p, c, reqs, b, offers) == Step(p, c, reqs, m, last);
    if k < |front| {
      AnsweredOnce(p, c, reqs, b, front, k);
      assert m.answers[|b.answers| + k] == Step(p, c, reqs, m, last).answers[|b.answers| + k];
    }
  }

  lemma StepAnswers(p: Policy, c: Ctx, reqs: map<string, Res>, b: Batch, o: Offer)
    ensures var answers := Step(p, c, reqs, b, o).answers;
            |answers| == |b.answers| + 1 && answers[..|b.answers|] == b.answers && answers[|b.answers|].offerId == o.id
  {
  }

  lemma {:induction false} AnswerCount(p: Policy, c: Ctx, reqs: map<string, Res>, b: Batch, offers: seq<Offer>)
    ensures |ConsumeAll(p, c, reqs, b, offers).answers| == |b.answers| + |offers|
  {
    if offers != [] {
      var front := offers[..|offers| - 1];
      AnswerCount(p, c, reqs, b, front);
      StepAnswers(p, c, reqs, ConsumeAll(p, c, reqs, b, front), offers[|offers| - 1]);
    }
  }
}
