/** pkg/agent/stressors/resource.go CPUStressor.Apply: keeping a CPU busy for a given share of the time, in exact
    reals. */
module CpuStress {
  /** What the clocks show of one turn of the loop: CPU time and wall time of the busy part, and the wall time of
      the sleep, if there is one. In nanoseconds. */
  datatype Cycle = Cycle(busy: real, elapsed: real, slept: real)

  /** The loop's variable and the wall and CPU time since the start. */
  datatype Totals = Totals(scheduleTime: real, wall: real, busy: real)

  /** The idle time that makes the busy time the load's share of both. */
  function Share(load: nat, busy: real): real
    requires load > 0
  {
    (100.0 - load as real) * busy / (load as real)
  }

  function Idle(load: nat, c: Cycle, scheduleTime: real): real
    requires load > 0
  {
    Share(load, c.busy) + (c.busy - c.elapsed) - scheduleTime
  }

  function After(load: nat, t: Totals, c: Cycle): Totals
    requires load > 0
  {
    var idle := Idle(load, c, t.scheduleTime);
    if idle < 0.0 then Totals(0.0, t.wall + c.elapsed, t.busy + c.busy)
    else Totals(c.slept - idle, t.wall + c.elapsed + c.slept, t.busy + c.busy)
  }

  function Run(load: nat, cycles: seq<Cycle>): Totals
    requires load > 0
  {
    if cycles == [] then Totals(0.0, 0.0, 0.0)
    else After(load, Run(load, cycles[..|cycles| - 1]), cycles[|cycles| - 1])
  }

  /** The turns that skipped the sleep because too much time had passed already. */
  function Overruns(load: nat, cycles: seq<Cycle>): nat
    requires load > 0
  {
    if cycles == [] then 0
    else
      var front := cycles[..|cycles| - 1];
      Overruns(load, front) + if Idle(load, cycles[|cycles| - 1], Run(load, front).scheduleTime) < 0.0 then 1 else 0
  }

  /** The loop, until the context is done after the given cycles. */
  method Apply(load: nat, cycles: seq<Cycle>) returns (scheduleTime: real, wall: real, busy: real)
    requires load > 0
    ensures Totals(scheduleTime, wall, busy) == Run(load, cycles)
  {
    scheduleTime, wall, busy := 0.0, 0.0, 0.0;
    for i := 0 to |cycles|
      invariant Totals(scheduleTime, wall, busy) == Run(load, cycles[..i])
    {
      assert cycles[..i + 1][..i] == cycles[..i];
      var c := cycles[i];
      busy := busy + c.busy;
      wall := wall + c.elapsed;
      var idle := (100.0 - load as real) * c.busy / (load as real) + (c.busy - c.elapsed) - scheduleTime;
      assert idle == Idle(load, c, scheduleTime);
      if idle < 0.0 {
        scheduleTime := 0.0;
        continue;
      }
      wall := wall + c.slept;
      scheduleTime := c.slept - idle;
    }
    assert cycles[..|cycles|] == cycles;
  }

  lemma ShareTimesLoad(load: nat, busy: real, share: real)
    requires load > 0 && share == Share(load, busy)
    ensures load as real * share == 100.0 * busy - load as real * busy
  {
  }

  lemma Distribute(l: real, a: real, b: real, c: real, d: real)
    ensures l * (a + b + c - d) == l * a + l * b + l * c - l * d
  {
  }

  /** How much further the wall clock is than the load asks for, times the load. */
  function Slack(load: nat, t: Totals): real {
    load as real * (t.wall - t.scheduleTime) - 100.0 * t.busy
  }

  /** A turn leaves the slack as it is if it sleeps, and enlarges it by what the sleep fell short of otherwise. */
  lemma SlackStep(load: nat, t: Totals, c: Cycle)
    requires load > 0
    ensures var idle := Idle(load, c, t.scheduleTime);
            Slack(load, After(load, t, c)) == Slack(load, t) + if idle < 0.0 then load as real * -idle else 0.0
  {
    var share, idle := Share(load, c.busy), Idle(load, c, t.scheduleTime);
    var u := After(load, t, c);
    var short := if idle < 0.0 then idle else 0.0;
    assert u.wall - u.scheduleTime == (t.wall - t.scheduleTime) + share + c.busy - short;
    Distribute(load as real, t.wall - t.scheduleTime, share, c.busy, short);
    ShareTimesLoad(load, c.busy, share);
  }

  lemma Positive(x: real, y: real)
    requires x > 0.0 && y > 0.0
    ensures x * y > 0.0
  {
  }

  lemma {:induction false} SlackOfRun(load: nat, cycles: seq<Cycle>, slack: real)
    requires load > 0 && slack == Slack(load, Run(load, cycles))
    ensures slack >= 0.0 && (slack == 0.0 <==> Overruns(load, cycles) == 0)
  {
    if cycles != [] {
      var front, c := cycles[..|cycles| - 1], cycles[|cycles| - 1];
      var t := Run(load, front);
      SlackOfRun(load, front, Slack(load, t));
      SlackStep(load, t, c);
      var idle := Idle(load, c, t.scheduleTime);
      if idle < 0.0 {
        Positive(load as real, -idle);
      }
    }
  }

  /** Over any run, the load times the wall time, less the oversleep still to be made up for, is at least a hundred
      times the CPU time used, with equality exactly when no turn overran. */
  lemma Accounting(load: nat, cycles: seq<Cycle>)
    requires load > 0
    ensures var t := Run(load, cycles);
            && load as real * (t.wall - t.scheduleTime) >= 100.0 * t.busy
            && (load as real * (t.wall - t.scheduleTime) == 100.0 * t.busy <==> Overruns(load, cycles) == 0)
  {
    SlackOfRun(load, cycles, Slack(load, Run(load, cycles)));
  }

  /** A sleep lasts at least the idle time cut down to whole nanoseconds. */
  predicate SleepsEnough(load: nat, cycles: seq<Cycle>)
    requires load > 0
  {
    cycles == [] ||
    (&& SleepsEnough(load, cycles[..|cycles| - 1])
     && (var c := cycles[|cycles| - 1];
         c.slept >= Idle(load, c, Run(load, cycles[..|cycles| - 1]).scheduleTime).Floor as real))
  }

  /** So the achieved load exceeds the target by less than what one nanosecond of wall time makes up for. */
  lemma LoadNotExceeded(load: nat, cycles: seq<Cycle>)
    requires load > 0 && SleepsEnough(load, cycles)
    ensures var t := Run(load, cycles);
            100.0 * t.busy < load as real * (t.wall + 1.0)
  {
    var t := Run(load, cycles);
    Accounting(load, cycles);
    assert t.scheduleTime > -1.0;
    assert load as real * (t.wall - t.scheduleTime) < load as real * (t.wall + 1.0);
  }

  // ---- MemoryStressor.Apply

  /** Touches the first byte of every page, and no other. */
  method TouchPages(mem: array<bv8>, pageSize: nat)
    requires pageSize > 0 && forall i :: 0 <= i < mem.Length ==> mem[i] == 0
    modifies mem
    ensures forall i :: 0 <= i < mem.Length ==> mem[i] == if i % pageSize == 0 then 1 else 0
  {
    var i, page := 0, 0;
    while i < mem.Length
      invariant i == page * pageSize
      invariant forall j :: 0 <= j < mem.Length ==> mem[j] == if j < i && j % pageSize == 0 then 1 else 0
      decreases mem.Length - i
    {
      NextPage(page, pageSize);
      mem[i] := 1;
      i := i + pageSize;
      page := page + 1;
    }
  }

  /** The only multiple of the page size from one page's start to the next is the start. */
  lemma NextPage(page: nat, pageSize: nat)
    requires pageSize > 0
    ensures (page + 1) * pageSize == page * pageSize + pageSize
    ensures forall j :: page * pageSize <= j < page * pageSize + pageSize ==>
            (j % pageSize == 0 <==> j == page * pageSize)
  {
    forall j | page * pageSize <= j < page * pageSize + pageSize
      ensures j % pageSize == 0 <==> j == page * pageSize
    {
      Remainder(page, pageSize, j - page * pageSize);
    }
  }

  lemma Times(d: nat, a: int, b: int)
    ensures a <= b ==> d * a <= d * b
  {
  }

  lemma Remainder(q: nat, d: nat, r: nat)
    requires r < d
    ensures (q * d + r) % d == r
  {
    var n := q * d + r;
    var m := n / d;
    assert n == d * m + n % d;
    Times(d, q + 1, m);
    Times(d, m + 1, q);
    assert d * (q + 1) == d * q + d && d * (m + 1) == d * m + d;
  }
}
