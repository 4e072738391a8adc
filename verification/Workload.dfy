/** Tasks, resource offers and the arithmetic that decides whether a task fits an offer.
    Models def/task.go and utilities/offerUtils/offerUtils.go. */
module Workload {

  datatype Option<+T> = None | Some(value: T)

  /** An amount of each resource the scheduler accounts for. */
  datatype Res = Res(cpu: real, ram: real, watts: real) {
    function Plus(other: Res): Res {
      Res(cpu + other.cpu, ram + other.ram, watts + other.watts)
    }

    function Minus(other: Res): Res {
      Res(cpu - other.cpu, ram - other.ram, watts - other.watts)
    }
  }

  const ZERO := Res(0.0, 0.0, 0.0)

  datatype Resource = Resource(name: string, amount: real)

  datatype Attribute = Attribute(name: string, text: string)

  datatype Offer = Offer(id: string, hostname: string, agent: string,
                         resources: seq<Resource>, attributes: seq<Attribute>)

  /** The immutable part of a task. `classWatts` is None when the workload has no
      class_to_watts entry for the task. */
  datatype Spec = Spec(name: string, cpu: real, ram: real, watts: real, host: string,
                       classWatts: Option<map<string, real>>)

  /** The target of a task's Instances pointer. */
  class Counter {
    var n: int

    constructor (n: int)
      ensures this.n == n
    {
      this.n := n;
    }
  }

  /** A queued task as the scheduler holds it: a struct copied by value that shares its counter. */
  datatype Task = Task(spec: Spec, instances: Counter)

  /** What a queued task denotes in one state: its spec and the instances left to launch. */
  datatype Job = Job(spec: Spec, n: int)

  ghost function Jobs(tasks: seq<Task>): (queue: seq<Job>)
    reads set t | t in tasks :: t.instances
    ensures |queue| == |tasks|
    ensures forall i :: 0 <= i < |tasks| ==> queue[i] == Job(tasks[i].spec, tasks[i].instances.n)
  {
    if tasks == [] then []
    else
      var last := tasks[|tasks| - 1];
      Jobs(tasks[..|tasks| - 1]) + [Job(last.spec, last.instances.n)]
  }

  /** A figure summed up over a sequence. */
  ghost function SumBy<T>(xs: seq<T>, f: T -> real): real {
    if xs == [] then 0.0 else SumBy(xs[..|xs| - 1], f) + f(xs[|xs| - 1])
  }

  lemma SumByMore<T>(xs: seq<T>, x: T, f: T -> real)
    ensures SumBy(xs + [x], f) == SumBy(xs, f) + f(x)
    ensures SumBy([], f) == 0.0
  {
    assert (xs + [x])[..|xs|] == xs;
  }

  lemma {:induction false} SumByConcat<T>(a: seq<T>, b: seq<T>, f: T -> real)
    ensures SumBy(a + b, f) == SumBy(a, f) + SumBy(b, f)
  {
    if b == [] {
      assert a + b == a;
    } else {
      assert (a + b)[..|a + b| - 1] == a + b[..|b| - 1];
      SumByConcat(a, b[..|b| - 1], f);
    }
  }

  /** Total amount offered under one resource name. */
  ghost function Amount(rs: seq<Resource>, name: string): real {
    if rs == [] then 0.0
    else
      var last := rs[|rs| - 1];
      Amount(rs[..|rs| - 1], name) + if last.name == name then last.amount else 0.0
  }

  /** Entries of the same name add up. */
  lemma {:induction false} AmountConcat(a: seq<Resource>, b: seq<Resource>, name: string)
    ensures Amount(a + b, name) == Amount(a, name) + Amount(b, name)
  {
    if b == [] {
      assert a + b == a;
    } else {
      assert (a + b)[..|a + b| - 1] == a + b[..|b| - 1];
      AmountConcat(a, b[..|b| - 1], name);
    }
  }

  lemma AmountOne(r: Resource, name: string)
    ensures Amount([r], name) == if r.name == name then r.amount else 0.0
  {
    assert [r][..0] == [];
  }

  ghost function Agg(offer: Offer): Res {
    Res(Amount(offer.resources, "cpus"), Amount(offer.resources, "mem"), Amount(offer.resources, "watts"))
  }

  /** An offer of so much CPU, memory and watts, with other resources anywhere between. */
  lemma AggOfThree(offer: Offer, cpus: real, mem: real, watts: real, a: seq<Resource>, b: seq<Resource>, d: seq<Resource>)
    requires offer.resources == a + [Resource("cpus", cpus)] + b + [Resource("mem", mem)] + d + [Resource("watts", watts)]
    requires forall r :: r in a + b + d ==> r.name !in {"cpus", "mem", "watts"}
    ensures Agg(offer) == Res(cpus, mem, watts)
  {
    forall name | name in {"cpus", "mem", "watts"}
      ensures Amount(offer.resources, name)
              == Amount([Resource("cpus", cpus)], name) + Amount([Resource("mem", mem)], name) + Amount([Resource("watts", watts)], name)
    {
      AmountOfOthers(a, name);
      AmountOfOthers(b, name);
      AmountOfOthers(d, name);
      AmountConcat(a, [Resource("cpus", cpus)], name);
      AmountConcat(a + [Resource("cpus", cpus)], b, name);
      AmountConcat(a + [Resource("cpus", cpus)] + b, [Resource("mem", mem)], name);
      AmountConcat(a + [Resource("cpus", cpus)] + b + [Resource("mem", mem)], d, name);
      AmountConcat(a + [Resource("cpus", cpus)] + b + [Resource("mem", mem)] + d, [Resource("watts", watts)], name);
    }
    forall name
      ensures Amount([Resource("cpus", cpus)], name) == if "cpus" == name then cpus else 0.0
      ensures Amount([Resource("mem", mem)], name) == if "mem" == name then mem else 0.0
      ensures Amount([Resource("watts", watts)], name) == if "watts" == name then watts else 0.0
    {
      AmountOne(Resource("cpus", cpus), name);
      AmountOne(Resource("mem", mem), name);
      AmountOne(Resource("watts", watts), name);
    }
  }

  lemma {:induction false} AmountOfOthers(rs: seq<Resource>, name: string)
    requires forall r :: r in rs ==> r.name != name
    ensures Amount(rs, name) == 0.0
  {
    if rs != [] {
      assert rs[|rs| - 1] in rs;
      AmountOfOthers(rs[..|rs| - 1], name);
    }
  }

  method OfferAgg(offer: Offer) returns (cpus: real, mem: real, watts: real)
    ensures Res(cpus, mem, watts) == Agg(offer)
  {
    cpus, mem, watts := 0.0, 0.0, 0.0;
    for k := 0 to |offer.resources|
      invariant cpus == Amount(offer.resources[..k], "cpus")
      invariant mem == Amount(offer.resources[..k], "mem")
      invariant watts == Amount(offer.resources[..k], "watts")
    {
      var resource := offer.resources[k];
      assert offer.resources[..k + 1][..k] == offer.resources[..k];
      match resource.name {
        case "cpus" => cpus := cpus + resource.amount;
        case "mem" => mem := mem + resource.amount;
        case "watts" => watts := watts + resource.amount;
        case _ =>
      }
    }
    assert offer.resources[..|offer.resources|] == offer.resources;
  }

  /** The text of the last attribute named "class", or "" when there is none. */
  function PowerClass(attributes: seq<Attribute>): string {
    if attributes == [] then ""
    else
      var last := attributes[|attributes| - 1];
      if last.name == "class" then last.text else PowerClass(attributes[..|attributes| - 1])
  }

  /** Attribute k is the last one named "class". */
  ghost predicate LastClass(attributes: seq<Attribute>, k: nat) {
    k < |attributes| && attributes[k].name == "class" && forall j :: k < j < |attributes| ==> attributes[j].name != "class"
  }

  lemma {:induction false} PowerClassIsLast(attributes: seq<Attribute>)
    ensures forall k: nat :: LastClass(attributes, k) ==> PowerClass(attributes) == attributes[k].text
    ensures (forall k: nat :: k < |attributes| ==> attributes[k].name != "class") ==> PowerClass(attributes) == ""
  {
    if attributes != [] && attributes[|attributes| - 1].name != "class" {
      var front := attributes[..|attributes| - 1];
      PowerClassIsLast(front);
      forall k: nat | LastClass(attributes, k)
        ensures PowerClass(attributes) == attributes[k].text
      {
        assert LastClass(front, k);
      }
    }
  }

  method FindPowerClass(offer: Offer) returns (powerClass: string)
    ensures powerClass == PowerClass(offer.attributes)
  {
    powerClass := "";
    for k := 0 to |offer.attributes|
      invariant powerClass == PowerClass(offer.attributes[..k])
    {
      var upTo := offer.attributes[..k + 1];
      assert upTo[..k] == offer.attributes[..k] && upTo[k] == offer.attributes[k];
      if offer.attributes[k].name == "class" {
        powerClass := offer.attributes[k].text;
      }
    }
    assert offer.attributes[..|offer.attributes|] == offer.attributes;
  }

  /** A mismatch: the task names a host and the offer's hostname does not start with it. */
  predicate HostMismatch(offerHost: string, taskHost: string) {
    taskHost != "" && !(taskHost <= offerHost)
  }

  /** A task that names a host goes only where that name is the beginning of the offer's host name, any other anywhere. */
  lemma HostMatches(offerHost: string, taskHost: string)
    ensures !HostMismatch(offerHost, taskHost) <==> exists rest :: offerHost == taskHost + rest
  {
    if taskHost <= offerHost {
      assert offerHost == taskHost + offerHost[|taskHost|..];
    }
  }

  /** The value of a watts lookup; `failed` is the source's configuration error. */
  datatype Watts = Watts(value: real, failed: bool)

  function WattsToConsider(spec: Spec, classMapWatts: bool, offer: Offer): Watts {
    if classMapWatts && spec.classWatts.Some? then
      var byClass := spec.classWatts.value;
      var powerClass := PowerClass(offer.attributes);
      Watts(if powerClass in byClass then byClass[powerClass] else 0.0, false)
    else
      Watts(spec.watts, spec.watts == 0.0)
  }

  /** With class watts mapped and given, the task counts what it takes on the host's power class, nothing on an unknown one;
      otherwise its watts attribute, which must not be zero. */
  lemma WattsMeans(spec: Spec, classMapWatts: bool, offer: Offer, k: nat)
    requires LastClass(offer.attributes, k)
    ensures var w, own := WattsToConsider(spec, classMapWatts, offer), offer.attributes[k].text;
            if !classMapWatts || spec.classWatts.None? then w.value == spec.watts && (w.failed <==> spec.watts == 0.0)
            else !w.failed && (own in spec.classWatts.value ==> w.value == spec.classWatts.value[own])
                 && (own !in spec.classWatts.value ==> w.value == 0.0)
  {
    PowerClassIsLast(offer.attributes);
  }

  /** A task whose watts lookup can never fail, whatever the offer. */
  predicate WattsConfigured(spec: Spec, classMapWatts: bool) {
    (classMapWatts && spec.classWatts.Some?) || spec.watts != 0.0
  }

  /** CPU, RAM and every watts figure of the task are at least zero. */
  ghost predicate NonNegative(spec: Spec) {
    && spec.cpu >= 0.0 && spec.ram >= 0.0 && spec.watts >= 0.0
    && (spec.classWatts.Some? ==> forall c :: c in spec.classWatts.value ==> spec.classWatts.value[c] >= 0.0)
  }
}
