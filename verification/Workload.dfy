/** pkg/disruptors/workload.go on top of pkg/kubernetes/helpers/workloads.go: scaling workloads and putting them back.
    The goroutines of one call interleave freely and any API call may fail; nobody else scales the workloads. */
module Workload {
  import opened Replica
  import opened Common

  datatype Ref = Ref(kind: string, namespace: string, name: string)

  predicate Supported(ref: Ref) { ref.kind in {"Deployment", "StatefulSet"} }

  /** An unset count means one replica. */
  function Count(replicas: map<Ref, Option<int32>>, ref: Ref): int32
    requires ref in replicas
  {
    match replicas[ref]
    case None => 1
    case Some(n) => n
  }

  lemma SupportedKinds(ref: Ref)
    ensures ref.kind == "Deployment" || ref.kind == "StatefulSet" <==> Supported(ref)
  {
  }

  lemma CountIs(replicas: map<Ref, Option<int32>>, ref: Ref, n: int32)
    requires ref in replicas
    ensures replicas[ref] == None ==> Count(replicas, ref) == 1
    ensures replicas[ref] == Some(n) ==> Count(replicas, ref) == n
  {
  }

  /** A call of GetReplicas or Scale, and whether it returned nil. */
  datatype Request = ReadTry(ref: Ref, ok: bool) | ScaleTry(ref: Ref, count: int32, ok: bool)

  /** The workloads of the cluster with their spec.replicas, which may be unset. */
  class Cluster {
    var replicas: map<Ref, Option<int32>>
    ghost var tries: seq<Request>

    constructor (replicas: map<Ref, Option<int32>>)
      ensures this.replicas == replicas && tries == []
    {
      this.replicas := replicas;
      tries := [];
    }

    method GetReplicas(ref: Ref) returns (count: Option<int32>)
      modifies this`tries
      ensures tries == old(tries) + [ReadTry(ref, count.Some?)]
      ensures count.Some? ==> Supported(ref) && ref in replicas && count.value == Count(replicas, ref)
    {
      var answered: bool := *;
      if !Supported(ref) || ref !in replicas || !answered {
        tries := tries + [ReadTry(ref, false)];
        return None;
      }
      tries := tries + [ReadTry(ref, true)];
      return Some(Count(replicas, ref));
    }

    /** Reads the object, sets the count and writes it back: the write is the step that counts. A write reported
        as failed may have been applied all the same. */
    method Scale(ref: Ref, count: int32) returns (ok: bool)
      modifies this
      ensures tries == old(tries) + [ScaleTry(ref, count, ok)]
      ensures ok ==> Supported(ref) && ref in old(replicas)
      ensures ok ==> replicas == old(replicas)[ref := Some(if count < 0 then 0 else count)]
      ensures !ok ==> replicas == old(replicas)
                      || (&& ref in old(replicas)
                          && replicas == old(replicas)[ref := Some(if count < 0 then 0 else count)])
    {
      var found: bool := *;
      if !Supported(ref) || ref !in replicas || !found {
        tries := tries + [ScaleTry(ref, count, false)];
        return false;
      }
      var applied: bool := *;
      if applied {
        replicas := replicas[ref := Some(if count < 0 then 0 else count)];
      }
      ok := *;
      ok := ok && applied;
      tries := tries + [ScaleTry(ref, count, ok)];
    }
  }

  /** Where the goroutine of one target stands. */
  datatype Goroutine = Reading | Recording(current: int32) | Scaling(current: int32) | Finished(ok: bool) {
    function Left(): nat {
      match this
      case Reading => 3
      case Recording(_) => 2
      case Scaling(_) => 1
      case Finished(_) => 0
    }
  }

  function StepsLeft(gs: seq<Goroutine>): nat {
    if gs == [] then 0 else gs[0].Left() + StepsLeft(gs[1..])
  }

  lemma {:induction false} StepTaken(gs: seq<Goroutine>, i: nat, g: Goroutine)
    requires i < |gs| && g.Left() < gs[i].Left()
    ensures StepsLeft(gs[i := g]) < StepsLeft(gs)
  {
    if i > 0 {
      assert gs[i := g][1..] == gs[1..][i - 1 := g];
      StepTaken(gs[1..], i - 1, g);
    } else {
      assert gs[0 := g][1..] == gs[1..];
    }
  }

  lemma Shorter(pending: map<Ref, int32>, ref: Ref)
    requires ref in pending
    ensures |pending - {ref}| < |pending|
  {
    assert pending.Keys == (pending - {ref}).Keys + {ref};
  }

  /** The tries to restore these workloads to their recorded counts. */
  function Restores(originals: map<Ref, int32>, order: seq<Ref>, oks: seq<bool>): seq<Request>
    requires |oks| == |order| && forall ref :: ref in order ==> ref in originals
  {
    seq(|order|, i requires 0 <= i < |order| => ScaleTry(order[i], originals[order[i]], oks[i]))
  }

  lemma RestoresNext(originals: map<Ref, int32>, order: seq<Ref>, oks: seq<bool>, ref: Ref, ok: bool)
    requires |oks| == |order| && (forall r :: r in order ==> r in originals) && ref in originals
    ensures forall r :: r in order + [ref] ==> r in originals
    ensures Restores(originals, order + [ref], oks + [ok])
            == Restores(originals, order, oks) + [ScaleTry(ref, originals[ref], ok)]
  {
  }

  /** The requests of one step of a target's goroutine. */
  function Requests(ref: Ref, fault: Fault, g: Goroutine, g': Goroutine): seq<Request> {
    match g
    case Reading => [ReadTry(ref, g'.Recording?)]
    case Scaling(current) =>
      if Resolve(fault, current) == current then []
      else [ScaleTry(ref, Resolve(fault, current), g' == Finished(true))]
    case _ => []
  }

  /** What a step shows of itself. */
  predicate StepShown(ref: Ref, fault: Fault, g: Goroutine, g': Goroutine) {
    match g
    case Reading => (g'.Recording? && Supported(ref)) || g' == Finished(false)
    case Recording(current) => g' == Scaling(current)
    case Scaling(current) => g'.Finished? && (Resolve(fault, current) == current ==> g'.ok)
    case Finished(_) => false
  }

  predicate HasFailure(log: seq<Request>, ref: Ref) {
    exists r :: r in log && r.ref == ref && !r.ok
  }

  /** The scaling that the fault asks for, if the target is another count than `was`. */
  predicate Scaled(log: seq<Request>, ref: Ref, fault: Fault, was: int32) {
    Resolve(fault, was) != was ==> ScaleTry(ref, Resolve(fault, was), true) in log
  }

  /** What the requests show of a target's goroutine; `once` says that no other goroutine has the same target. */
  predicate Shown(ref: Ref, fault: Fault, g: Goroutine, before: map<Ref, int32>, log: seq<Request>, once: bool) {
    match g
    case Reading => true
    case Finished(false) => HasFailure(log, ref)
    case _ => Supported(ref) && ref in before && (g.Finished? && once ==> Scaled(log, ref, fault, before[ref]))
  }

  predicate AllShown(refs: seq<Ref>, fault: Fault, gs: seq<Goroutine>, before: map<Ref, int32>, log: seq<Request>,
      once: bool)
    requires |gs| == |refs|
  {
    forall i :: 0 <= i < |gs| ==> Shown(refs[i], fault, gs[i], before, log, once)
  }

  predicate FailedAt(refs: seq<Ref>, gs: seq<Goroutine>, ref: Ref)
    requires |gs| == |refs|
  {
    exists i :: 0 <= i < |gs| && refs[i] == ref && gs[i] == Finished(false)
  }

  /** A request has a goroutine behind it: a failed one a goroutine that failed. */
  predicate Justified(refs: seq<Ref>, fault: Fault, gs: seq<Goroutine>, before: map<Ref, int32>, r: Request, once: bool)
    requires |gs| == |refs|
  {
    && r.ref in refs && (!r.ok ==> FailedAt(refs, gs, r.ref))
    && (once && r.ScaleTry? ==> Asked(r, fault, before))
  }

  predicate Asked(r: Request, fault: Fault, before: map<Ref, int32>)
    requires r.ScaleTry?
  {
    r.ref in before && r.count == Resolve(fault, before[r.ref]) != before[r.ref]
  }

  predicate AllJustified(
      refs: seq<Ref>, fault: Fault, gs: seq<Goroutine>, before: map<Ref, int32>, log: seq<Request>, once: bool)
    requires |gs| == |refs|
  {
    forall r :: r in log ==> Justified(refs, fault, gs, before, r, once)
  }

  lemma ShownOn(ref: Ref, fault: Fault, g: Goroutine, before: map<Ref, int32>, log: seq<Request>, more: seq<Request>,
      once: bool)
    requires Shown(ref, fault, g, before, log, once)
    ensures Shown(ref, fault, g, before, log + more, once)
  {
    if HasFailure(log, ref) {
      var r :| r in log && r.ref == ref && !r.ok;
      assert r in log + more;
    }
  }

  lemma ShownStep(ref: Ref, fault: Fault, g: Goroutine, g': Goroutine, before: map<Ref, int32>, log: seq<Request>,
      once: bool)
    requires Shown(ref, fault, g, before, log, once) && StepShown(ref, fault, g, g')
    requires g'.Recording? ==> ref in before
    requires once && g.Scaling? ==> ref in before && g.current == before[ref]
    ensures Shown(ref, fault, g', before, log + Requests(ref, fault, g, g'), once)
  {
    var more := Requests(ref, fault, g, g');
    if g' == Finished(false) {
      assert more[0] in log + more;
    }
  }

  lemma FailedStays(refs: seq<Ref>, gs: seq<Goroutine>, i: nat, g: Goroutine, ref: Ref)
    requires |gs| == |refs| && i < |gs| && !gs[i].Finished?
    ensures FailedAt(refs, gs, ref) ==> FailedAt(refs, gs[i := g], ref)
    ensures g == Finished(false) ==> FailedAt(refs, gs[i := g], refs[i])
  {
    if FailedAt(refs, gs, ref) {
      var j :| 0 <= j < |gs| && refs[j] == ref && gs[j] == Finished(false);
      assert gs[i := g][j] == Finished(false);
    }
    if g == Finished(false) {
      assert gs[i := g][i] == Finished(false);
    }
  }

  lemma AllShownStep(refs: seq<Ref>, fault: Fault, gs: seq<Goroutine>, i: nat, g: Goroutine, before: map<Ref, int32>,
                     log: seq<Request>, once: bool)
    requires |gs| == |refs| && i < |gs| && AllShown(refs, fault, gs, before, log, once)
    requires StepShown(refs[i], fault, gs[i], g)
    requires g.Recording? ==> refs[i] in before
    requires once && gs[i].Scaling? ==> refs[i] in before && gs[i].current == before[refs[i]]
    ensures AllShown(refs, fault, gs[i := g], before, log + Requests(refs[i], fault, gs[i], g), once)
  {
    var more := Requests(refs[i], fault, gs[i], g);
    ShownStep(refs[i], fault, gs[i], g, before, log, once);
    forall j | 0 <= j < |gs| ensures Shown(refs[j], fault, gs[i := g][j], before, log + more, once) {
      if j != i {
        ShownOn(refs[j], fault, gs[j], before, log, more, once);
      }
    }
  }

  lemma AllJustifiedStep(refs: seq<Ref>, fault: Fault, gs: seq<Goroutine>, i: nat, g: Goroutine, before: map<Ref,
      int32>,
                         log: seq<Request>, once: bool)
    requires |gs| == |refs| && i < |gs| && AllJustified(refs, fault, gs, before, log, once)
    requires StepShown(refs[i], fault, gs[i], g)
    requires once && gs[i].Scaling? ==> refs[i] in before && gs[i].current == before[refs[i]]
    ensures AllJustified(refs, fault, gs[i := g], before, log + Requests(refs[i], fault, gs[i], g), once)
  {
    var more := Requests(refs[i], fault, gs[i], g);
    forall r | r in log + more ensures Justified(refs, fault, gs[i := g], before, r, once) {
      FailedStays(refs, gs, i, g, r.ref);
      if r in log {
        assert Justified(refs, fault, gs, before, r, once);
      }
    }
  }

  predicate Distinct(refs: seq<Ref>) {
    forall i, j :: 0 <= i < j < |refs| ==> refs[i] != refs[j]
  }

  datatype Outcome = Done | InvalidFault | NoTargets | ScaleFailed(failed: seq<Ref>) | RestoreFailed

  /** Where a RevertAll began. */
  datatype Begun = Begun(originals: map<Ref, int32>, replicas: map<Ref, Option<int32>>, tries: seq<Request>)

  /** What a call that reaches the scaling did: the requests of the scaling, then those of the restoring. */
  datatype Trace = Trace(scaling: seq<Request>, recorded: map<Ref, int32>, order: seq<Ref>, oks: seq<bool>) {
    predicate Possible() {
      |oks| == |order| && forall ref :: ref in order ==> ref in recorded
    }

    function Restoring(): seq<Request>
      requires Possible()
    {
      Restores(recorded, order, oks)
    }
  }

  /** The scaling of the targets, seen from its requests: a target failed exactly if one of its requests did; the others
      exist, are supported and, if their count had to change, were scaled to the resolved one. */
  ghost predicate Carried(refs: seq<Ref>, fault: Fault, failed: seq<Ref>, before: map<Ref, int32>, log: seq<Request>) {
    && (forall ref :: ref in failed <==> HasFailure(log, ref))
    && (forall r :: r in log ==> r.ref in refs)
    && (forall ref :: ref in refs && ref !in failed ==> Supported(ref) && ref in before)
    && (Distinct(refs) ==>
        && (forall ref :: ref in refs && ref !in failed ==> Scaled(log, ref, fault, before[ref]))
        && (forall r :: r in log && r.ScaleTry? ==> Asked(r, fault, before)))
  }

  ghost predicate AreFailed(refs: seq<Ref>, gs: seq<Goroutine>, failed: seq<Ref>)
    requires |gs| == |refs|
  {
    forall ref :: ref in failed <==> FailedAt(refs, gs, ref)
  }

  lemma FailedHasFailure(refs: seq<Ref>, fault: Fault, gs: seq<Goroutine>, before: map<Ref, int32>, log: seq<Request>,
                         once: bool, ref: Ref)
    requires |gs| == |refs| && AllShown(refs, fault, gs, before, log, once)
    requires AllJustified(refs, fault, gs, before, log, once)
    ensures FailedAt(refs, gs, ref) <==> HasFailure(log, ref)
  {
    if FailedAt(refs, gs, ref) {
      var i :| 0 <= i < |gs| && refs[i] == ref && gs[i] == Finished(false);
      assert Shown(refs[i], fault, gs[i], before, log, once);
    }
    if HasFailure(log, ref) {
      var r :| r in log && r.ref == ref && !r.ok;
      assert Justified(refs, fault, gs, before, r, once);
    }
  }

  lemma CarriedOut(refs: seq<Ref>, fault: Fault, gs: seq<Goroutine>, failed: seq<Ref>, before: map<Ref, int32>,
                   log: seq<Request>)
    requires |gs| == |refs| && (forall i :: 0 <= i < |gs| ==> gs[i].Finished?) && AreFailed(refs, gs, failed)
    requires AllShown(refs, fault, gs, before, log, Distinct(refs))
    requires AllJustified(refs, fault, gs, before, log, Distinct(refs))
    ensures Carried(refs, fault, failed, before, log)
  {
    var once := Distinct(refs);
    forall ref ensures ref in failed <==> HasFailure(log, ref) {
      FailedHasFailure(refs, fault, gs, before, log, once, ref);
    }
    forall r | r in log ensures r.ref in refs && (once && r.ScaleTry? ==> Asked(r, fault, before)) {
      assert Justified(refs, fault, gs, before, r, once);
    }
    forall ref | ref in refs && ref !in failed
      ensures Supported(ref) && ref in before && (once ==> Scaled(log, ref, fault, before[ref]))
    {
      var i :| 0 <= i < |refs| && refs[i] == ref;
      assert Shown(refs[i], fault, gs[i], before, log, once);
    }
  }

  predicate AllTrue(oks: seq<bool>) { forall i :: 0 <= i < |oks| ==> oks[i] }

  lemma AllTrueNext(oks: seq<bool>, ok: bool)
    ensures AllTrue(oks + [ok]) <==> AllTrue(oks) && ok
  {
    assert (oks + [ok])[|oks|] == ok;
    assert forall i :: 0 <= i < |oks| ==> (oks + [ok])[i] == oks[i];
  }

  class WorkloadDisruptor {
    const cluster: Cluster
    var originals: map<Ref, int32>
    ghost const start: map<Ref, int32>   // the counts when the disruptor was made

    /** Every workload whose count is not its starting count is recorded, with that count. */
    ghost predicate Valid()
      reads this, cluster
    {
      && cluster.replicas.Keys == start.Keys
      && (forall ref :: ref in start ==> start[ref] >= 0)
      && (forall ref :: ref in start && Count(cluster.replicas, ref) != start[ref] ==> ref in originals)
      && (forall ref :: ref in originals ==> ref in start && originals[ref] == start[ref])
    }

    ghost predicate Restored()
      reads this, cluster
      requires Valid()
    {
      originals == map[] && forall ref :: ref in start ==> Count(cluster.replicas, ref) == start[ref]
    }

    constructor (cluster: Cluster)
      requires forall ref :: ref in cluster.replicas ==> Count(cluster.replicas, ref) >= 0
      ensures this.cluster == cluster && Valid() && Restored()
    {
      this.cluster := cluster;
      originals := map[];
      start := map ref | ref in cluster.replicas :: Count(cluster.replicas, ref);
    }

    /** What goroutine i of the call knows: an unrecorded workload was read with its starting count. */
    ghost predicate Knows(ref: Ref, g: Goroutine)
      reads this
    {
      match g
      case Recording(current) => ref in start && (ref !in originals ==> current == start[ref])
      case Scaling(_) => ref in originals
      case _ => true
    }

    /** One atomic step of a goroutine running applyScale. */
    method Step(ref: Ref, fault: Fault, g: Goroutine) returns (g': Goroutine)
      requires Valid() && Knows(ref, g) && !g.Finished?
      modifies this, cluster
      ensures Valid() && Knows(ref, g') && g'.Left() < g.Left()
      ensures StepShown(ref, fault, g, g')
      ensures cluster.tries == old(cluster.tries) + Requests(ref, fault, g, g')
      ensures originals.Keys == old(originals.Keys) + if g.Recording? then {ref} else {}
      ensures g.Scaling? || cluster.replicas == old(cluster.replicas)
      ensures g.Scaling? ==> forall r :: r in start && r != ref ==>
              Count(cluster.replicas, r) == Count(old(cluster.replicas), r)
      ensures g.Reading? && g'.Recording? ==> ref in start && g'.current == Count(cluster.replicas, ref)
      ensures g.Scaling? ==> (g'.ok ==>
                if Resolve(fault, g.current) == g.current then cluster.replicas == old(cluster.replicas)
                else ref in start && Count(cluster.replicas, ref) == Resolve(fault, g.current))
    {
      match g
      case Reading =>
        var count := cluster.GetReplicas(ref);
        g' := if count.Some? then Recording(count.value) else Finished(false);
      case Recording(current) =>
        if ref !in originals {
          originals := originals[ref := current];
        }
        g' := Scaling(current);
      case Scaling(current) =>
        var target := Resolve(fault, current);
        if target == current {
          return Finished(true);
        }
        var ok := cluster.Scale(ref, target);
        g' := Finished(ok);
    }

    /** What a distinct target's goroutine has done to its workload so far. */
    predicate Progress(fault: Fault, g: Goroutine, was: int32, count: int32) {
      match g
      case Reading => count == was
      case Recording(current) => current == count == was
      case Scaling(current) => current == count == was
      case Finished(ok) => ok ==> count == Resolve(fault, was)
    }

    /** Where the goroutine of one target stands; `once` says that no other goroutine has the same target. */
    ghost predicate Standing(ref: Ref, fault: Fault, g: Goroutine, before: map<Ref, int32>, once: bool)
      requires Valid() && before.Keys == start.Keys
      reads this, cluster
    {
      && Knows(ref, g)
      && (g == Finished(true) ==> ref in originals)
      && (once && ref in start ==> Progress(fault, g, before[ref], Count(cluster.replicas, ref)))
    }

    /** The goroutines of one call, `before` being the counts when it began. */
    ghost predicate Running(refs: seq<Ref>, fault: Fault, gs: seq<Goroutine>, before: map<Ref, int32>)
      requires Valid()
      reads this, cluster
    {
      && |gs| == |refs| && before.Keys == start.Keys
      && (forall i :: 0 <= i < |gs| ==> Standing(refs[i], fault, gs[i], before, Distinct(refs)))
      && (forall ref :: ref in start && ref !in refs ==> Count(cluster.replicas, ref) == before[ref])
    }

    lemma ScalesWhatItRead(refs: seq<Ref>, fault: Fault, gs: seq<Goroutine>, i: nat, before: map<Ref, int32>)
      requires Valid() && Running(refs, fault, gs, before) && i < |gs|
      ensures Distinct(refs) && gs[i].Scaling? ==> refs[i] in before && gs[i].current == before[refs[i]]
    {
      assert Standing(refs[i], fault, gs[i], before, Distinct(refs));
    }

    method StepOne(refs: seq<Ref>, fault: Fault, gs: seq<Goroutine>, i: nat, ghost before: map<Ref, int32>)
        returns (g: Goroutine)
      requires Valid() && Running(refs, fault, gs, before) && i < |gs| && !gs[i].Finished?
      modifies this, cluster
      ensures Valid() && Running(refs, fault, gs[i := g], before) && StepsLeft(gs[i := g]) < StepsLeft(gs)
      ensures StepShown(refs[i], fault, gs[i], g)
      ensures cluster.tries == old(cluster.tries) + Requests(refs[i], fault, gs[i], g)
      ensures g.Recording? ==> refs[i] in start
      ensures old(originals.Keys) <= originals.Keys <= old(originals.Keys) + {refs[i]}
    {
      assert Standing(refs[i], fault, gs[i], before, Distinct(refs));
      g := Step(refs[i], fault, gs[i]);
      StepTaken(gs, i, g);
      forall j | 0 <= j < |gs| ensures Standing(refs[j], fault, gs[i := g][j], before, Distinct(refs)) {
        if j != i {
          assert old(Standing(refs[j], fault, gs[j], before, Distinct(refs)));
        }
      }
    }

    /** The goroutines of all targets, in any interleaving. A target is reported failed exactly if one of its requests
        failed. */
    method ScaleAll(refs: seq<Ref>, fault: Fault) returns (failed: seq<Ref>, ghost log: seq<Request>)
      requires Valid()
      modifies this, cluster
      ensures Valid()
      ensures cluster.tries == old(cluster.tries) + log
      ensures Carried(refs, fault, failed, map ref | ref in start :: Count(old(cluster.replicas), ref), log)
      ensures old(originals.Keys) <= originals.Keys <= old(originals.Keys) + (set ref | ref in refs)
      ensures forall ref :: ref in refs && ref !in failed ==> ref in originals
      ensures forall ref :: ref in start && ref !in refs ==>
              Count(cluster.replicas, ref) == Count(old(cluster.replicas), ref)
      ensures Distinct(refs) ==> forall ref :: ref in refs && ref !in failed ==>
                && ref in start && ref in originals
                && Count(cluster.replicas, ref) == Resolve(fault, Count(old(cluster.replicas), ref))
    {
      ghost var before := map ref | ref in start :: Count(cluster.replicas, ref);
      var gs: seq<Goroutine>;
      gs, log := RunAll(refs, fault, before);
      failed := FailedOf(refs, gs);
      CarriedOut(refs, fault, gs, failed, before, log);
      forall ref | ref in refs && ref !in failed
        ensures ref in originals
        ensures Distinct(refs) ==> Count(cluster.replicas, ref) == Resolve(fault, before[ref])
      {
        var i :| 0 <= i < |refs| && refs[i] == ref;
        assert Standing(refs[i], fault, gs[i], before, Distinct(refs));
      }
    }

    method RunAll(refs: seq<Ref>, fault: Fault, ghost before: map<Ref, int32>)
        returns (gs: seq<Goroutine>, ghost log: seq<Request>)
      requires Valid() && before == map ref | ref in start :: Count(cluster.replicas, ref)
      modifies this, cluster
      ensures Valid() && Running(refs, fault, gs, before) && forall i :: 0 <= i < |gs| ==> gs[i].Finished?
      ensures AllShown(refs, fault, gs, before, log, Distinct(refs))
      ensures AllJustified(refs, fault, gs, before, log, Distinct(refs))
      ensures cluster.tries == old(cluster.tries) + log
      ensures old(originals.Keys) <= originals.Keys <= old(originals.Keys) + (set ref | ref in refs)
    {
      ghost var once := Distinct(refs);
      gs, log := seq(|refs|, _ => Reading), [];
      while exists i :: 0 <= i < |gs| && !gs[i].Finished?
        invariant Valid() && Running(refs, fault, gs, before)
        invariant AllShown(refs, fault, gs, before, log, once)
        invariant AllJustified(refs, fault, gs, before, log, once)
        invariant cluster.tries == old(cluster.tries) + log
        invariant old(originals.Keys) <= originals.Keys <= old(originals.Keys) + (set ref | ref in refs)
        decreases StepsLeft(gs)
      {
        var i :| 0 <= i < |gs| && !gs[i].Finished?;
        ScalesWhatItRead(refs, fault, gs, i, before);
        var g := StepOne(refs, fault, gs, i, before);
        AllShownStep(refs, fault, gs, i, g, before, log, once);
        AllJustifiedStep(refs, fault, gs, i, g, before, log, once);
        log := log + Requests(refs[i], fault, gs[i], g);
        gs := gs[i := g];
      }
    }

    method FailedOf(refs: seq<Ref>, gs: seq<Goroutine>) returns (failed: seq<Ref>)
      requires |gs| == |refs| && forall i :: 0 <= i < |gs| ==> gs[i].Finished?
      ensures AreFailed(refs, gs, failed)
    {
      failed := [];
      for i := 0 to |refs|
        invariant forall ref :: ref in failed ==> FailedAt(refs, gs, ref)
        invariant forall j :: 0 <= j < i && gs[j] == Finished(false) ==> refs[j] in failed
      {
        if gs[i] != Finished(true) {
          assert gs[i] == Finished(false);
          failed := failed + [refs[i]];
        }
      }
    }

    /** When the fault and the targets are there, every target is scaled, autoRevert or not; then, if none failed and
        autoRevert is set, every recorded workload is restored. */
    method ScaleReplicas(targets: Option<seq<Ref>>, fault: Fault, duration: int)
        returns (outcome: Outcome, ghost trace: Trace)
      requires Valid()
      modifies this, cluster
      ensures Valid()
      ensures outcome == InvalidFault <==> !Validate(fault, duration)
      ensures outcome == NoTargets <==> Validate(fault, duration) && targets.None?
      ensures outcome in {InvalidFault, NoTargets} ==>
                originals == old(originals) && cluster.replicas == old(cluster.replicas)
                    && cluster.tries == old(cluster.tries)
      ensures outcome !in {InvalidFault, NoTargets} ==>
                && trace.Possible()
                && cluster.tries == old(cluster.tries) + trace.scaling + trace.Restoring()
                && Carried(targets.value, fault, if outcome.ScaleFailed? then outcome.failed else [],
                           map ref | ref in start :: Count(old(cluster.replicas), ref), trace.scaling)
                && (trace.order != [] ==> fault.autoRevert && !outcome.ScaleFailed?)
      ensures outcome in {Done, RestoreFailed} && fault.autoRevert ==>
                && (forall ref :: ref in trace.order <==> ref in old(originals) || ref in targets.value)
                && (forall ref :: ref in trace.order ==> ref in start && trace.recorded[ref] == start[ref])
                && (outcome == Done <==> AllTrue(trace.oks))
      ensures outcome.RestoreFailed? ==> fault.autoRevert && originals != map[]
      ensures outcome.ScaleFailed? ==> outcome.failed != []
      ensures outcome.ScaleFailed? && Distinct(targets.value) ==>
                (forall ref :: ref in targets.value && ref !in outcome.failed ==>
                   && ref in start && ref in originals
                   && Count(cluster.replicas, ref) == Resolve(fault, Count(old(cluster.replicas), ref)))
                && (forall ref :: ref in start && ref !in targets.value ==>
                    Count(cluster.replicas, ref) == Count(old(cluster.replicas), ref))
      ensures outcome == Done && fault.autoRevert ==> Restored()
      ensures outcome == Done && !fault.autoRevert && Distinct(targets.value) ==>
                (forall ref :: ref in targets.value ==>
                   && ref in start && ref in originals
                   && Count(cluster.replicas, ref) == Resolve(fault, Count(old(cluster.replicas), ref)))
                && (forall ref :: ref in start && ref !in targets.value ==>
                    Count(cluster.replicas, ref) == Count(old(cluster.replicas), ref))
    {
      trace := Trace([], map[], [], []);
      if !Validate(fault, duration) {
        return InvalidFault, trace;
      }
      if targets.None? {
        return NoTargets, trace;
      }
      var failed, log := ScaleAll(targets.value, fault);
      trace := Trace(log, map[], [], []);
      if failed != [] {
        return ScaleFailed(failed), trace;
      }
      if !fault.autoRevert {
        return Done, trace;
      }
      ghost var recorded := originals;
      var ok, order, oks := RevertAll();
      trace := Trace(log, recorded, order, oks);
      return if ok then Done else RestoreFailed, trace;
    }

    /** Restores the recorded workloads in some order: each is tried once, with its recorded count, whatever happens to
        the others, and exactly those that could not be restored stay recorded for the next try. */
    method RevertAll() returns (ok: bool, ghost order: seq<Ref>, ghost oks: seq<bool>)
      requires Valid()
      modifies this, cluster
      ensures Valid()
      ensures Distinct(order) && |oks| == |order| && forall ref :: ref in order <==> ref in old(originals)
      ensures cluster.tries == old(cluster.tries) + Restores(old(originals), order, oks)
      ensures forall ref :: ref in originals ==> ref in old(originals)
      ensures forall i :: 0 <= i < |order| ==> (order[i] in originals <==> !oks[i])
      ensures (ok <==> originals == map[]) && (ok <==> AllTrue(oks))
      ensures ok ==> Restored()
      ensures forall ref :: ref in start && ref !in old(originals) ==>
              Count(cluster.replicas, ref) == Count(old(cluster.replicas), ref)
    {
      ghost var was, begin := originals, Begun(originals, cluster.replicas, cluster.tries);
      var pending := originals;
      ok, order, oks := true, [], [];
      assert Restores(was, [], []) == [];
      while pending != map[]
        invariant Valid() && Reverting(pending, begin, order, oks)
        invariant ok <==> AllTrue(oks)
        decreases |pending|
      {
        var ref :| ref in pending;
        Shorter(pending, ref);
        var restored := RestoreNext(ref, pending, begin, order, oks);
        if !restored {
          ok := false;
        }
        AllTrueNext(oks, restored);
        pending, order, oks := pending - {ref}, order + [ref], oks + [restored];
      }
      NothingPending(begin, order, oks);
    }

    /** The loop of RevertAll, begun with the given records, counts and tries, after trying `order`. */
    ghost predicate Reverting(pending: map<Ref, int32>, begin: Begun, order: seq<Ref>, oks: seq<bool>)
      requires Valid()
      reads this, cluster
    {
      && begin.replicas.Keys == start.Keys
      && (forall ref :: ref in pending ==> ref in originals && ref in begin.originals && pending[ref] == start[ref])
      && (forall ref :: ref in originals ==> ref in begin.originals)
      && (forall ref :: ref in begin.originals ==> ref in start && begin.originals[ref] == start[ref])
      && Distinct(order) && |oks| == |order|
      && (forall ref :: ref in order <==> ref in begin.originals && ref !in pending)
      && (forall i :: 0 <= i < |order| ==> (order[i] in originals <==> !oks[i]))
      && (forall ref :: ref in start && ref !in begin.originals ==>
          Count(cluster.replicas, ref) == Count(begin.replicas, ref))
      && cluster.tries == begin.tries + Restores(begin.originals, order, oks)
    }

    lemma NothingPending(begin: Begun, order: seq<Ref>, oks: seq<bool>)
      requires Valid() && Reverting(map[], begin, order, oks)
      ensures originals == map[] <==> AllTrue(oks)
    {
      if AllTrue(oks) {
        forall ref ensures ref !in originals {
          if ref in order {
            var i :| 0 <= i < |order| && order[i] == ref;
          }
        }
      } else {
        var i :| 0 <= i < |oks| && !oks[i];
        assert order[i] in originals;
      }
    }

    method RestoreNext(
        ref: Ref, pending: map<Ref, int32>, ghost begin: Begun, ghost order: seq<Ref>, ghost oks: seq<bool>)
      returns (ok: bool)
      requires Valid() && Reverting(pending, begin, order, oks) && ref in pending
      modifies this, cluster
      ensures Valid() && Reverting(pending - {ref}, begin, order + [ref], oks + [ok])
    {
      ok := cluster.Scale(ref, pending[ref]);
      if ok {
        originals := originals - {ref};
      }
      assert ref !in order;
      RestoresNext(begin.originals, order, oks, ref, ok);
    }

    /** Cleanup is one RevertAll: it tries every recorded workload once. */
    method Cleanup() returns (ok: bool, ghost order: seq<Ref>, ghost oks: seq<bool>)
      requires Valid()
      modifies this, cluster
      ensures Valid()
      ensures Distinct(order) && |oks| == |order| && forall ref :: ref in order <==> ref in old(originals)
      ensures cluster.tries == old(cluster.tries) + Restores(old(originals), order, oks)
      ensures forall ref :: ref in originals ==> ref in old(originals)
      ensures forall i :: 0 <= i < |order| ==> (order[i] in originals <==> !oks[i])
      ensures (ok <==> originals == map[]) && (ok <==> AllTrue(oks))
      ensures ok ==> Restored()
    {
      ok, order, oks := RevertAll();
    }
  }

  datatype Call = ScaleCall(targets: Option<seq<Ref>>, fault: Fault, duration: int) | CleanupCall

  /** Any sequence of calls, whatever fails: the books stay right, and one final Cleanup that returns nil puts every
      workload back to the count it had before the first call. */
  method Session(cluster: Cluster, calls: seq<Call>) returns (d: WorkloadDisruptor, ok: bool)
    requires forall ref :: ref in cluster.replicas ==> Count(cluster.replicas, ref) >= 0
    modifies cluster
    ensures fresh(d) && d.cluster == cluster && d.Valid()
    ensures ok <==> d.originals == map[]
    ensures cluster.replicas.Keys == old(cluster.replicas.Keys)
    ensures ok ==> forall ref :: ref in cluster.replicas ==>
            Count(cluster.replicas, ref) == Count(old(cluster.replicas), ref)
  {
    d := new WorkloadDisruptor(cluster);
    assert forall ref :: ref in cluster.replicas ==> d.start[ref] == Count(old(cluster.replicas), ref);
    for i := 0 to |calls|
      invariant d.Valid() && fresh(d) && d.cluster == cluster
    {
      match calls[i]
      case ScaleCall(targets, fault, duration) =>
        var _, _ := d.ScaleReplicas(targets, fault, duration);
      case CleanupCall =>
        var _, _, _ := d.Cleanup();
    }
    var cleaned, _, _ := d.Cleanup();
    ok := cleaned;
  }
}
