/** Runs of the scheduler across switches: what one deployment launches, how round robin visits the policies, and what every
    answer in the log means. */
module Runs {
  import opened Workload
  import opened TaskIds
  import opened Packing
  import opened PackingTheorems
  import opened Batches
  import opened Switching
  import opened Window
  import opened System
  import opened Launches

  // ----- one deployment

  /** The batch consumed in the callback that switches is the first of the new deployment. */
  lemma SwitchingBatch(u: Setup, load: seq<Job>, sys: Sys, e: Event)
    requires Inv(u, load, sys) && Legal(u, sys, e) && Switches(u, sys, e)
    ensures var t := System.Next(u, sys, e);
            Counted(t.switch) && |LoggedIds(t.log)| - |LoggedIds(sys.log)| == t.switch.counts[t.switch.cur]
  {
    var w := NewWindow(sys, e.offers);
    SwitchKeepsInv(u.cfg, sys.switch, w, Cover(sys.queue, w, 0), e.nearest);
    BatchConserves(u, sys, e);
  }

  /** From a switch up to the next one, the batch of the switching callback included, no more than the window of that
      deployment is launched. */
  lemma LaunchesBetweenSwitches(u: Setup, load: seq<Job>, states: seq<Sys>, events: seq<Event>, s: nat, k: nat)
    requires Run(u, states, events) && Init(u, states[0], load) && s < k < |states| && u.cfg.enabled
    requires Switches(u, states[s], events[s])
    requires forall t :: s < t < k ==> !Switches(u, states[t], events[t])
    ensures |LoggedIds(states[k].log)| - |LoggedIds(states[s].log)| <= states[k].switch.window
    ensures states[k].switch.window == states[s + 1].switch.window && states[k].switch.cur == states[s + 1].switch.cur
  {
    RunKeepsInv(u, load, states, events, s);
    RunStep(u, states, events, s);
    SwitchingBatch(u, load, states[s], events[s]);
    LaunchesCounted(u, load, states, events, s + 1, k);
    WindowRespected(u, load, states, events, k, states[k].switch.cur);
  }

  // ----- round robin

  /** The number of switches in events i..k-1. */
  ghost function Switchings(u: Setup, states: seq<Sys>, events: seq<Event>, i: nat, k: nat): nat
    requires i <= k <= |events| && |states| == |events| + 1
    decreases k - i
  {
    if i == k then 0 else Switchings(u, states, events, i, k - 1) + if Switches(u, states[k - 1], events[k - 1]) then 1 else 0
  }

  lemma StepTurns(u: Setup, sys: Sys, e: Event, start: Policy, m: nat)
    requires Legal(u, sys, e) && u.cfg.enabled && sys.switch.received && !u.cfg.criteria.TaskDist?
    requires Listed(u.cfg.table, start) && sys.switch.cur == Turn(u.cfg.table, u.cfg.criteria.RevRoundRobin?, start, m)
    ensures var t := System.Next(u, sys, e);
            t.switch.received && t.switch.cur
            == Turn(u.cfg.table, u.cfg.criteria.RevRoundRobin?, start, if Switches(u, sys, e) then m + 1 else m)
  {
    if e.Offers? {
      var w := NewWindow(sys, e.offers);
      TurnStep(u.cfg, sys.switch, w, Cover(sys.queue, w, 0), e.nearest, start, m);
    }
  }

  /** After k events the deployed policy is as many places round the table as there were switches. */
  lemma {:induction false} RunTurns(u: Setup, states: seq<Sys>, events: seq<Event>, i: nat, k: nat)
    requires Run(u, states, events) && i <= k < |states|
    requires u.cfg.enabled && !u.cfg.criteria.TaskDist?
    requires states[i].switch.received && Listed(u.cfg.table, states[i].switch.cur)
    ensures states[k].switch.received
    ensures states[k].switch.cur
            == Turn(u.cfg.table, u.cfg.criteria.RevRoundRobin?, states[i].switch.cur, Switchings(u, states, events, i, k))
    decreases k - i
  {
    if i < k {
      RunTurns(u, states, events, i, k - 1);
      assert StepTo(u, states, events, k);
      StepTurns(u, states[k - 1], events[k - 1], states[i].switch.cur, Switchings(u, states, events, i, k - 1));
    }
  }

  lemma DeployedAt(u: Setup, states: seq<Sys>, events: seq<Event>, i: nat, k: nat, m: nat)
    requires Run(u, states, events) && i <= k < |states| && m == Switchings(u, states, events, i, k)
    requires u.cfg.enabled && !u.cfg.criteria.TaskDist?
    requires states[i].switch.received && Listed(u.cfg.table, states[i].switch.cur)
    ensures states[k].switch.cur == Turn(u.cfg.table, u.cfg.criteria.RevRoundRobin?, states[i].switch.cur, m)
  {
    RunTurns(u, states, events, i, k);
  }

  /** The event of the m-th switch. */
  lemma {:induction false} SwitchNumber(u: Setup, states: seq<Sys>, events: seq<Event>, i: nat, k: nat, m: nat) returns (t: nat)
    requires i <= k <= |events| && |states| == |events| + 1
    requires 1 <= m <= Switchings(u, states, events, i, k)
    ensures i <= t < k && Switches(u, states[t], events[t]) && Switchings(u, states, events, i, t + 1) == m
    decreases k - i
  {
    if Switchings(u, states, events, i, k - 1) >= m {
      t := SwitchNumber(u, states, events, i, k - 1, m);
    } else {
      t := k - 1;
    }
  }

  lemma {:induction false} SwitchingsGrow(u: Setup, states: seq<Sys>, events: seq<Event>, i: nat, t: nat, k: nat)
    requires i <= t <= k <= |events| && |states| == |events| + 1
    ensures Switchings(u, states, events, i, t) <= Switchings(u, states, events, i, k)
    decreases k - t
  {
    if t < k {
      SwitchingsGrow(u, states, events, i, t, k - 1);
    }
  }

  /** Round robin in either direction: any |table| consecutive switches of a run, starting from a listed policy,
      deploy every listed policy. */
  lemma RoundRobinVisitsAll(u: Setup, states: seq<Sys>, events: seq<Event>, i: nat, k: nat, q: Policy)
    returns (t: nat)
    requires Run(u, states, events) && i <= k < |states|
    requires u.cfg.enabled && !u.cfg.criteria.TaskDist? && Distinct(u.cfg.table)
    requires states[i].switch.received && Listed(u.cfg.table, states[i].switch.cur) && Listed(u.cfg.table, q)
    requires Switchings(u, states, events, i, k) == |u.cfg.table|
    ensures i <= t < k && Switches(u, states[t], events[t]) && states[t + 1].switch.cur == q
  {
    var m := EachTurn(u.cfg.table, u.cfg.criteria.RevRoundRobin?, states[i].switch.cur, q);
    t := SwitchNumber(u, states, events, i, k, m);
    RunTurns(u, states, events, i, t + 1);
  }

  lemma SwitchingsApart(u: Setup, states: seq<Sys>, events: seq<Event>, i: nat, t: nat, v: nat, k: nat)
    requires i <= t < v < k <= |events| && |states| == |events| + 1
    requires Switches(u, states[t], events[t]) && Switches(u, states[v], events[v])
    ensures 1 <= Switchings(u, states, events, i, t + 1) < Switchings(u, states, events, i, v + 1)
    ensures Switchings(u, states, events, i, v + 1) <= Switchings(u, states, events, i, k)
  {
    SwitchingsGrow(u, states, events, i, t + 1, v);
    SwitchingsGrow(u, states, events, i, v + 1, k);
  }

  /** And none of them twice. */
  lemma RoundRobinVisitsOnce(u: Setup, states: seq<Sys>, events: seq<Event>, i: nat, k: nat, t: nat, v: nat)
    requires Run(u, states, events) && i <= t < v < k < |states|
    requires u.cfg.enabled && !u.cfg.criteria.TaskDist? && Distinct(u.cfg.table)
    requires states[i].switch.received && Listed(u.cfg.table, states[i].switch.cur)
    requires Switchings(u, states, events, i, k) <= |u.cfg.table|
    requires Switches(u, states[t], events[t]) && Switches(u, states[v], events[v])
    ensures states[t + 1].switch.cur != states[v + 1].switch.cur
  {
    var m, n := Switchings(u, states, events, i, t + 1), Switchings(u, states, events, i, v + 1);
    SwitchingsApart(u, states, events, i, t, v, k);
    DeployedAt(u, states, events, i, t + 1, m);
    DeployedAt(u, states, events, i, v + 1, n);
    NoTurnTwice(u.cfg.table, u.cfg.criteria.RevRoundRobin?, states[i].switch.cur, m, n);
  }

  // ----- every answer

  /** What an answer to offer o means, given the queue and the count it found: launched tasks match the host, carry what their jobs
      ask for, and sum to at most the offer; a long decline means that nothing is pending; a short one that nothing fits, unless the window
      is closed or max-min's cursor was stopped. */
  ghost predicate Sound(p: Policy, c: Ctx, o: Offer, queue: seq<Job>, scheduled: int, a: Answer) {
    && a.offerId == o.id
    && match a
       case Launched(_, tasks) =>
         && WithinOffer(c.wattsAsAResource, o, tasks)
         && (forall t :: t in tasks ==> Asked(c.wattsAsAResource, c.classMapWatts, o, queue, t))
         && exists picks :: picks != [] && tasks == Infos(c, o, picks) && Within(c, o, PickNeeds(c, o, picks))
                            && forall j :: j in picks ==> Matches(o, j.spec) && j.n >= 1
       case Declined(_, filter) =>
         if filter.Long? then queue == []
         else queue != [] && (Open(c, scheduled) ==> forall k: nat :: Candidate(c, o, queue, k) ==> p == MaxMin && ShutOut(c, o, queue, k))
  }

  lemma StepSound(p: Policy, c: Ctx, reqs: map<string, Res>, b: Batch, o: Offer)
    requires Positive(b.queue)
    ensures var answers := Step(p, c, reqs, b, o).answers;
            |answers| == |b.answers| + 1 && Sound(p, c, o, b.queue, b.scheduled, answers[|b.answers|])
  {
    if b.queue != [] {
      var g := Consume(p, c, o, b.queue, b.scheduled);
      if g.picks != [] {
        ConsumeProgress(p, c, o, b.queue, b.scheduled);
        PicksAsked(p, c, o, b.queue, b.scheduled);
        assert forall j :: j in g.picks ==> Matches(o, j.spec) && j.n >= 1;
      } else if Open(c, b.scheduled) {
        if p == MaxMin {
          MaxMinDeclinesIff(c, o, b.queue, b.scheduled);
        } else {
          DeclinesIffNoCandidate(p, c, o, b.queue, b.scheduled);
        }
      }
    }
  }

  /** The batch when offer j is up. */
  ghost function UpTo(u: Setup, sys: Sys, e: Event, j: nat): Batch
    requires Legal(u, sys, e) && e.Offers? && Counted(Switched(u, sys, e)) && j <= |e.offers|
  {
    var s := Switched(u, sys, e);
    ConsumeAll(s.cur, Context(u, s), u.reqs, Batch(e.sorted, s.counts[s.cur], Recorded(sys, e.offers), []), e.offers[..j])
  }

  /** Answer j of a batch stays where it was given. */
  lemma {:induction false} AnswerStays(p: Policy, c: Ctx, reqs: map<string, Res>, b: Batch, offers: seq<Offer>, j: nat)
    requires j < |offers|
    ensures var m, g := ConsumeAll(p, c, reqs, b, offers[..j]), ConsumeAll(p, c, reqs, b, offers);
            && |m.answers| == |b.answers| + j && |g.answers| == |b.answers| + |offers|
            && Step(p, c, reqs, m, offers[j]).answers <= g.answers
    decreases |offers|
  {
    var front, last := offers[..|offers| - 1], offers[|offers| - 1];
    AnswerCount(p, c, reqs, b, offers);
    AnswerCount(p, c, reqs, b, offers[..j]);
    if j < |front| {
      AnswerStays(p, c, reqs, b, front, j);
      assert front[..j] == offers[..j];
      StepAnswers(p, c, reqs, ConsumeAll(p, c, reqs, b, front), last);
    } else {
      assert offers[..j] == front;
    }
  }

  /** The answers a batch adds to the log. */
  lemma BatchSound(u: Setup, load: seq<Job>, sys: Sys, e: Event, j: nat)
    requires Inv(u, load, sys) && Legal(u, sys, e) && e.Offers? && j < |e.offers|
    ensures Counted(Switched(u, sys, e))
    ensures var s, b, log := Switched(u, sys, e), UpTo(u, sys, e, j), System.Next(u, sys, e).log;
            && |log| == |sys.log| + |e.offers|
            && Sound(s.cur, Context(u, s), e.offers[j], b.queue, b.scheduled, log[|sys.log| + j])
  {
    var w := NewWindow(sys, e.offers);
    SwitchKeepsInv(u.cfg, sys.switch, w, Cover(sys.queue, w, 0), e.nearest);
    var s := Switched(u, sys, e);
    var start := Batch(e.sorted, s.counts[s.cur], Recorded(sys, e.offers), []);
    PreparedKeeps(s.cur, if u.cfg.enabled then s.inWindow else |sys.queue|, sys.queue, e.sorted);
    var b, g := UpTo(u, sys, e, j), Consumed(u, sys, e);
    ConsumeAllProgress(s.cur, Context(u, s), u.reqs, start, e.offers[..j]);
    AnswerStays(s.cur, Context(u, s), u.reqs, start, e.offers, j);
    StepSound(s.cur, Context(u, s), u.reqs, b, e.offers[j]);
    var step := Step(s.cur, Context(u, s), u.reqs, b, e.offers[j]).answers;
    assert g.answers[j] == step[j] && |b.answers| == j;
    assert System.Next(u, sys, e).log[|sys.log| + j] == g.answers[j];
  }

  lemma LogGrows(u: Setup, load: seq<Job>, sys: Sys, e: Event)
    requires Inv(u, load, sys) && Legal(u, sys, e)
    ensures sys.log <= System.Next(u, sys, e).log
    ensures |System.Next(u, sys, e).log| == |sys.log| + if e.Offers? then |e.offers| else 0
  {
    if e.Offers? {
      var w := NewWindow(sys, e.offers);
      SwitchKeepsInv(u.cfg, sys.switch, w, Cover(sys.queue, w, 0), e.nearest);
      var s := Switched(u, sys, e);
      AnswerCount(s.cur, Context(u, s), u.reqs, Batch(e.sorted, s.counts[s.cur], Recorded(sys, e.offers), []), e.offers);
    }
  }

  /** Answer a was given to offer j of the batch and is sound for what the deployed policy found then. */
  ghost predicate SoundAt(u: Setup, sys: Sys, e: Event, j: nat, a: Answer) {
    && Legal(u, sys, e) && e.Offers? && j < |e.offers| && Counted(Switched(u, sys, e))
    && var s, b := Switched(u, sys, e), UpTo(u, sys, e, j);
       Sound(s.cur, Context(u, s), e.offers[j], b.queue, b.scheduled, a)
  }

  /** The log after an event: what was there, then an answer to each offer. */
  lemma LogAfter(u: Setup, load: seq<Job>, states: seq<Sys>, events: seq<Event>, k: nat, q: nat)
    requires Run(u, states, events) && Init(u, states[0], load) && k < |events| && q < |states[k + 1].log|
    ensures if q < |states[k].log| then states[k + 1].log[q] == states[k].log[q]
            else SoundAt(u, states[k], events[k], q - |states[k].log|, states[k + 1].log[q])
  {
    RunKeepsInv(u, load, states, events, k);
    RunStep(u, states, events, k);
    LogGrows(u, load, states[k], events[k]);
    if q >= |states[k].log| {
      BatchSound(u, load, states[k], events[k], q - |states[k].log|);
    }
  }

  /** Every answer in the log of every run was given to an offer of some batch, and is sound for what the deployed policy
      found then. */
  lemma {:induction false} EveryAnswerSound(u: Setup, load: seq<Job>, states: seq<Sys>, events: seq<Event>, n: nat, q: nat)
    returns (k: nat, j: nat)
    requires Run(u, states, events) && Init(u, states[0], load) && n < |states| && q < |states[n].log|
    ensures k < n && q == |states[k].log| + j && SoundAt(u, states[k], events[k], j, states[n].log[q])
  {
    LogAfter(u, load, states, events, n - 1, q);
    if q < |states[n - 1].log| {
      k, j := EveryAnswerSound(u, load, states, events, n - 1, q);
    } else {
      k, j := n - 1, q - |states[n - 1].log|;
    }
  }

  /** The driver is told about instances of the workload only, each with the amounts its job asks for and the tracker charges, and
      never about more on one offer than the offer holds. */
  lemma LaunchesAsAsked(u: Setup, load: seq<Job>, states: seq<Sys>, events: seq<Event>, n: nat, q: nat) returns (o: Offer)
    requires Run(u, states, events) && Init(u, states[0], load) && n < |states| && q < |states[n].log|
    requires states[n].log[q].Launched?
    ensures exists k :: 0 <= k < n && events[k].Offers? && o in events[k].offers
    ensures o.id == states[n].log[q].offerId && WithinOffer(u.wattsAsAResource, o, states[n].log[q].tasks)
    ensures forall t :: t in states[n].log[q].tasks ==>
              && Asked(u.wattsAsAResource, u.classMapWatts, o, load, t)
              && t.id in u.reqs && u.reqs[t.id].cpu == t.cpu && u.reqs[t.id].ram == t.ram
  {
    var k, j := EveryAnswerSound(u, load, states, events, n, q);
    o := events[k].offers[j];
    var queue := UpTo(u, states[k], events[k], j).queue;
    UpToStems(u, load, states, events, k, j);
    forall t | t in states[n].log[q].tasks
      ensures Asked(u.wattsAsAResource, u.classMapWatts, o, load, t)
      ensures t.id in u.reqs && u.reqs[t.id].cpu == t.cpu && u.reqs[t.id].ram == t.ram
    {
      AskedBefore(u.wattsAsAResource, u.classMapWatts, o, load, queue, t);
      ChargedAsTold(u.wattsAsAResource, u.classMapWatts, u.reqs, o, load, t);
    }
  }

  lemma UpToStems(u: Setup, load: seq<Job>, states: seq<Sys>, events: seq<Event>, k: nat, j: nat)
    requires Run(u, states, events) && Init(u, states[0], load) && k < |events| && events[k].Offers? && j <= |events[k].offers|
    requires Legal(u, states[k], events[k]) && Counted(Switched(u, states[k], events[k]))
    ensures AllStem(load, UpTo(u, states[k], events[k], j).queue)
  {
    var sys, e := states[k], events[k];
    var s := Switched(u, sys, e);
    RunKeepsInv(u, load, states, events, k);
    QueueStems(u, load, states, events, k);
    PreparedStems(s.cur, if u.cfg.enabled then s.inWindow else |sys.queue|, sys.queue, e.sorted);
    BatchStems(s.cur, Context(u, s), u.reqs, Batch(e.sorted, s.counts[s.cur], Recorded(sys, e.offers), []), e.offers[..j]);
    StemsTrans(load, sys.queue, e.sorted);
    StemsTrans(load, e.sorted, UpTo(u, sys, e, j).queue);
  }
}
