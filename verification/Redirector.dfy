/** pkg/agent/protocol/redirector.go: the four rules that put the proxy in front of the application,
    how they come and go, and what they do to packets and connections. */
module Redirector {
  import opened Netfilter
  import opened Iptables
  import opened Common

  function RedirectLocalRule(d: nat, r: nat): Rule {
    Rule(NatTable, Output, Match(d, None, Some(LOOPBACK_NET), Some(LOCALHOST), false, None), Redirect(r))
  }

  function RedirectExternalRule(d: nat, r: nat): Rule {
    Rule(NatTable, Prerouting, Match(d, Some(false), None, None, false, None), Redirect(r))
  }

  function ResetLocalRule(d: nat): Rule {
    Rule(FilterTable, Input, Match(d, Some(true), Some(LOOPBACK_NET), Some(LOCALHOST), true, None), RejectReset)
  }

  function ResetExternalRule(d: nat): Rule {
    Rule(FilterTable, Input, Match(d, Some(false), None, None, true, None), RejectReset)
  }

  function Rules(d: nat, r: nat): seq<Rule> {
    [RedirectLocalRule(d, r), RedirectExternalRule(d, r), ResetLocalRule(d), ResetExternalRule(d)]
  }

  function ResetProxyRule(r: nat): Rule {
    Rule(FilterTable, Input, Match(r, None, None, None, false, None), RejectReset)
  }

  /** The commands of a `Start` whose first `added` appends worked; a failing append ends it. */
  function StartCommands(d: nat, r: nat, resetRemoved: bool, added: nat): seq<Command>
    requires added <= 4
  {
    [Command(Delete, ResetProxyRule(r), resetRemoved)]
    + Commands(Append, Rules(d, r)[..added], seq(added, _ => true))
    + if added < 4 then [Command(Append, Rules(d, r)[added], false)] else []
  }

  /** The commands of a `Stop`: all five are issued whatever their outcomes. */
  function StopCommands(d: nat, r: nat, oks: seq<bool>): seq<Command>
    requires |oks| == 5
  {
    Commands(Delete, Rules(d, r), oks[..4]) + [Command(Append, ResetProxyRule(r), oks[4])]
  }

  class Redirector {
    const kernel: Kernel
    const destinationPort: nat
    const redirectPort: nat

    constructor (kernel: Kernel, destinationPort: nat, redirectPort: nat)
      ensures this.kernel == kernel
      ensures this.destinationPort == destinationPort && this.redirectPort == redirectPort
    {
      this.kernel := kernel;
      this.destinationPort := destinationPort;
      this.redirectPort := redirectPort;
    }

    method Start() returns (ok: bool, ghost resetRemoved: bool, ghost added: nat)
      modifies kernel
      ensures added <= 4 && (ok <==> added == 4)
      ensures kernel.log == old(kernel.log) + StartCommands(destinationPort, redirectPort, resetRemoved, added)
      ensures kernel.rules == Replay(old(kernel.rules),
              StartCommands(destinationPort, redirectPort, resetRemoved, added))
      ensures Legal(old(kernel.rules), StartCommands(destinationPort, redirectPort, resetRemoved, added))
    {
      var removed := kernel.Exec(Delete, ResetProxyRule(redirectPort));
      resetRemoved := removed;
      added := 0;
      var rules := Rules(destinationPort, redirectPort);
      ghost var issued := [Command(Delete, ResetProxyRule(redirectPort), resetRemoved)];
      for i := 0 to |rules|
        invariant added == i
        invariant issued == [Command(Delete, ResetProxyRule(redirectPort), resetRemoved)]
                            + Commands(Append, rules[..i], seq(i, _ => true))
        invariant kernel.log == old(kernel.log) + issued
        invariant kernel.rules == Replay(old(kernel.rules), issued)
        invariant Legal(old(kernel.rules), issued)
      {
        var appended := kernel.Exec(Append, rules[i]);
        ReplayAppend(old(kernel.rules), issued, [Command(Append, rules[i], appended)]);
        issued := issued + [Command(Append, rules[i], appended)];
        if !appended {
          return false, resetRemoved, added;
        }
        added := added + 1;
        assert Commands(Append, rules[..i+1], seq(i + 1, _ => true))
            == Commands(Append, rules[..i], seq(i, _ => true)) + [Command(Append, rules[i], true)];
      }
      assert issued == StartCommands(destinationPort, redirectPort, resetRemoved, added);
      return true, resetRemoved, added;
    }

    method Stop() returns (ok: bool, ghost oks: seq<bool>)
      modifies kernel
      ensures |oks| == 5 && (ok <==> All(oks))
      ensures kernel.log == old(kernel.log) + StopCommands(destinationPort, redirectPort, oks)
      ensures kernel.rules == Replay(old(kernel.rules), StopCommands(destinationPort, redirectPort, oks))
      ensures Legal(old(kernel.rules), StopCommands(destinationPort, redirectPort, oks))
    {
      ok := true;
      oks := [];
      var rules := Rules(destinationPort, redirectPort);
      for i := 0 to |rules|
        invariant |oks| == i && (ok <==> All(oks))
        invariant kernel.log == old(kernel.log) + Commands(Delete, rules[..i], oks)
        invariant kernel.rules == Replay(old(kernel.rules), Commands(Delete, rules[..i], oks))
        invariant Legal(old(kernel.rules), Commands(Delete, rules[..i], oks))
      {
        var deleted := kernel.Exec(Delete, rules[i]);
        ghost var issued := Commands(Delete, rules[..i], oks);
        ReplayAppend(old(kernel.rules), issued, [Command(Delete, rules[i], deleted)]);
        AllAppend(oks, deleted);
        oks := oks + [deleted];
        assert Commands(Delete, rules[..i+1], oks) == issued + [Command(Delete, rules[i], deleted)];
        ok := ok && deleted;
      }
      ghost var issued := Commands(Delete, rules, oks);
      assert rules[..|rules|] == rules;
      var appended := kernel.Exec(Append, ResetProxyRule(redirectPort));
      ReplayAppend(old(kernel.rules), issued, [Command(Append, ResetProxyRule(redirectPort), appended)]);
      AllAppend(oks, appended);
      oks := oks + [appended];
      assert oks[..4] == oks[..|oks| - 1];
      ok := ok && appended;
    }
  }

  /** NewTrafficRedirector: zero or equal ports are refused. */
  method NewTrafficRedirector(destinationPort: nat, redirectPort: nat, kernel: Kernel) returns (tr: Option<Redirector>)
    ensures tr.Some? <==> destinationPort != 0 && redirectPort != 0 && destinationPort != redirectPort
    ensures tr.Some? ==> fresh(tr.value) && tr.value.kernel == kernel
                         && tr.value.destinationPort == destinationPort && tr.value.redirectPort == redirectPort
  {
    if destinationPort == 0 || redirectPort == 0 {
      return None;
    }
    if destinationPort == redirectPort {
      return None;
    }
    var r := new Redirector(kernel, destinationPort, redirectPort);
    return Some(r);
  }

  // ---- Start/Stop cycles

  function DeleteAll(k: seq<Rule>, rules: seq<Rule>): seq<Rule>
    decreases |rules|
  {
    if rules == [] then k else DeleteAll(DeleteFirst(k, rules[0]), rules[1..])
  }

  function Started(k: seq<Rule>, d: nat, r: nat): seq<Rule> {
    DeleteFirst(k, ResetProxyRule(r)) + Rules(d, r)
  }

  function Stopped(k: seq<Rule>, d: nat, r: nat): seq<Rule> {
    DeleteAll(k, Rules(d, r)) + [ResetProxyRule(r)]
  }

  lemma FailureFreeStart(k: seq<Rule>, d: nat, r: nat, resetRemoved: bool, added: nat)
    requires added <= 4 && FailureFree(k, StartCommands(d, r, resetRemoved, added))
    ensures added == 4
    ensures Replay(k, StartCommands(d, r, resetRemoved, added)) == Started(k, d, r)
  {
    var first := Command(Delete, ResetProxyRule(r), resetRemoved);
    var cs := StartCommands(d, r, resetRemoved, added);
    DeleteFirstMultiset(k, ResetProxyRule(r));
    var k1 := Effect(k, first);
    assert cs == [first] + cs[1..];
    if added < 4 {
      var last := Command(Append, Rules(d, r)[added], false);
      assert cs == cs[..|cs| - 1] + [last];
      ReplayAppend(k, cs[..|cs| - 1], [last]);
      assert false;
    }
    AppendsReplay(k1, Rules(d, r));
    assert cs[1..] == Commands(Append, Rules(d, r), seq(4, _ => true));
  }

  lemma {:induction false} AppendsReplay(k: seq<Rule>, rules: seq<Rule>)
    ensures Replay(k, Commands(Append, rules, seq(|rules|, _ => true))) == k + rules
    decreases |rules|
  {
    if rules == [] {
      assert k + rules == k;
    } else {
      assert Commands(Append, rules, seq(|rules|, _ => true))[1..]
          == Commands(Append, rules[1..], seq(|rules[1..]|, _ => true));
      AppendsReplay(k + [rules[0]], rules[1..]);
      assert k + [rules[0]] + rules[1..] == k + rules;
    }
  }

  lemma {:induction false} FailureFreeDeletes(k: seq<Rule>, rules: seq<Rule>, oks: seq<bool>)
    requires |rules| == |oks| && FailureFree(k, Commands(Delete, rules, oks))
    ensures Replay(k, Commands(Delete, rules, oks)) == DeleteAll(k, rules)
    decreases |rules|
  {
    if rules != [] {
      var cs := Commands(Delete, rules, oks);
      assert cs[1..] == Commands(Delete, rules[1..], oks[1..]);
      DeleteFirstMultiset(k, rules[0]);
      FailureFreeDeletes(Effect(k, cs[0]), rules[1..], oks[1..]);
    }
  }

  lemma FailureFreeStop(k: seq<Rule>, d: nat, r: nat, oks: seq<bool>)
    requires |oks| == 5 && FailureFree(k, StopCommands(d, r, oks))
    ensures Replay(k, StopCommands(d, r, oks)) == Stopped(k, d, r)
  {
    ReplayAppend(k, Commands(Delete, Rules(d, r), oks[..4]), [Command(Append, ResetProxyRule(r), oks[4])]);
    FailureFreeDeletes(k, Rules(d, r), oks[..4]);
  }

  /** The rules after `n` failure-free Start/Stop cycles. */
  function Cycles(k: seq<Rule>, d: nat, r: nat, n: nat): seq<Rule> {
    if n == 0 then k else Stopped(Started(Cycles(k, d, r, n - 1), d, r), d, r)
  }

  lemma {:induction false} DeleteAllMultiset(k: seq<Rule>, rules: seq<Rule>)
    ensures multiset(DeleteAll(k, rules)) == multiset(k) - multiset(rules)
    decreases |rules|
  {
    if rules != [] {
      DeleteFirstMultiset(k, rules[0]);
      DeleteAllMultiset(DeleteFirst(k, rules[0]), rules[1..]);
      assert rules == [rules[0]] + rules[1..];
    }
  }

  lemma OneCycle(k: seq<Rule>, d: nat, r: nat)
    ensures multiset(Stopped(Started(k, d, r), d, r))
            == multiset(k) - multiset{ResetProxyRule(r)} + multiset{ResetProxyRule(r)}
  {
    var reset := ResetProxyRule(r);
    DeleteFirstMultiset(k, reset);
    DeleteAllMultiset(Started(k, d, r), Rules(d, r));
    assert multiset(Started(k, d, r)) == multiset(DeleteFirst(k, reset)) + multiset(Rules(d, r));
    assert multiset(DeleteAll(Started(k, d, r), Rules(d, r))) == multiset(DeleteFirst(k, reset));
  }

  /** Any positive number of cycles leaves every other rule alone and exactly one proxy-reset rule if there was
      at most one before; extra copies from elsewhere are neither collected nor added to. */
  lemma {:induction false} CyclesMultiset(k: seq<Rule>, d: nat, r: nat, n: nat)
    requires n > 0
    ensures var reset := ResetProxyRule(r);
            && multiset(Cycles(k, d, r, n)) == multiset(k) - multiset{reset} + multiset{reset}
            && (multiset(Cycles(k, d, r, n))[reset] == 1 <==> multiset(k)[reset] <= 1)
  {
    OneCycle(Cycles(k, d, r, n - 1), d, r);
    TakenAndPut(multiset(k), ResetProxyRule(r));
    if n > 1 {
      CyclesMultiset(k, d, r, n - 1);
    }
  }

  lemma TakenAndPut<T>(m: multiset<T>, x: T)
    ensures var m' := m - multiset{x} + multiset{x};
            m' - multiset{x} + multiset{x} == m' && (m'[x] == 1 <==> m[x] <= 1)
  {
  }

  lemma {:induction false} DeleteAllAppended(k: seq<Rule>, rules: seq<Rule>)
    requires forall x :: x in rules ==> x !in k
    ensures DeleteAll(k + rules, rules) == k
    decreases |rules|
  {
    if rules == [] {
      assert k + rules == k;
    } else {
      DeleteFirstAppend(k, rules, rules[0]);
      DeleteAllAppended(k, rules[1..]);
    }
  }

  /** When none of the four rules was there before, the cycles also keep the order of all other rules. */
  lemma {:induction false} CyclesKeepOrder(k: seq<Rule>, d: nat, r: nat, n: nat)
    requires n > 0 && forall x :: x in Rules(d, r) ==> x !in k
    requires multiset(k)[ResetProxyRule(r)] <= 1
    ensures Cycles(k, d, r, n) == DeleteFirst(k, ResetProxyRule(r)) + [ResetProxyRule(r)]
  {
    var reset := ResetProxyRule(r);
    var k' := DeleteFirst(k, reset);
    DeleteFirstMultiset(k, reset);
    assert multiset(k')[reset] == 0;
    forall x | x in Rules(d, r) ensures x !in k' {
      assert multiset(k')[x] == multiset(k)[x] == 0;
    }
    if n > 1 {
      CyclesKeepOrder(k, d, r, n - 1);
      DeleteFirstAppend(k', [reset], reset);
      assert DeleteFirst([reset], reset) == [];
      assert DeleteFirst(k' + [reset], reset) == k';
    }
    DeleteAllAppended(k', Rules(d, r));
  }

  /** Between a Start and its Stop all four rules are installed once more than in the base, and the
      proxy-reset rule is absent exactly when at most one copy of it was there. */
  lemma BetweenStartAndStop(k: seq<Rule>, d: nat, r: nat, n: nat)
    ensures var s := Started(Cycles(k, d, r, n), d, r);
            && (forall x :: x in Rules(d, r) ==> multiset(s)[x] == multiset(k)[x] + 1)
            && (ResetProxyRule(r) !in s <==> multiset(k)[ResetProxyRule(r)] <= 1)
  {
    var c, reset := Cycles(k, d, r, n), ResetProxyRule(r);
    if n > 0 {
      CyclesMultiset(k, d, r, n);
    }
    DeleteFirstMultiset(c, reset);
    var s := Started(c, d, r);
    assert multiset(s) == multiset(c) - multiset{reset} + multiset(Rules(d, r));
    assert multiset(Rules(d, r))[reset] == 0;
    forall x | x in Rules(d, r) ensures multiset(s)[x] == multiset(k)[x] + 1 {
      assert multiset(Rules(d, r))[x] == 1;
    }
    assert reset in s <==> multiset(s)[reset] > 0;
  }

  // ---- With failures

  lemma {:induction false} ChangesOfCommands(op: Op, rules: seq<Rule>, oks: seq<bool>, x: Rule)
    requires |rules| == |oks| && forall i, j :: 0 <= i < j < |rules| ==> rules[i] != rules[j]
    ensures x !in rules ==> Changes(Commands(op, rules, oks), x) == 0
    ensures forall i :: 0 <= i < |rules| && rules[i] == x ==>
              Changes(Commands(op, rules, oks), x) == if !oks[i] then 0 else if op == Append then 1 else -1
  {
    if rules != [] {
      assert Commands(op, rules, oks)[1..] == Commands(op, rules[1..], oks[1..]);
      ChangesOfCommands(op, rules[1..], oks[1..], x);
      assert forall i :: 1 <= i < |rules| ==> rules[i] == rules[1..][i - 1] && oks[i] == oks[1..][i - 1];
    }
  }

  /** What Start does to the copies of a rule, whatever fails. */
  lemma StartChanges(d: nat, r: nat, resetRemoved: bool, added: nat, x: Rule)
    requires added <= 4
    ensures var change := Changes(StartCommands(d, r, resetRemoved, added), x);
            && (x == ResetProxyRule(r) ==> change == if resetRemoved then -1 else 0)
            && (forall i :: 0 <= i < 4 && Rules(d, r)[i] == x ==> change == if i < added then 1 else 0)
            && (x != ResetProxyRule(r) && x !in Rules(d, r) ==> change == 0)
  {
    var first := [Command(Delete, ResetProxyRule(r), resetRemoved)];
    var mine := Rules(d, r)[..added];
    var appends := Commands(Append, mine, seq(added, _ => true));
    var last := if added < 4 then [Command(Append, Rules(d, r)[added], false)] else [];
    ChangesAppend(first + appends, last, x);
    ChangesAppend(first, appends, x);
    ChangesOfCommands(Append, mine, seq(added, _ => true), x);
    assert Changes(last, x) == 0;
    assert Changes(first, x) == Change(first[0], x) + Changes(first[1..], x);
    forall i | 0 <= i < 4 && Rules(d, r)[i] == x
      ensures i < added ==> mine[i] == x
      ensures i >= added ==> x !in mine
    {
    }
  }

  lemma StopChanges(d: nat, r: nat, oks: seq<bool>, x: Rule)
    requires |oks| == 5
    ensures var change := Changes(StopCommands(d, r, oks), x);
            && (x == ResetProxyRule(r) ==> change == if oks[4] then 1 else 0)
            && (forall i :: 0 <= i < 4 && Rules(d, r)[i] == x ==> change == if oks[i] then -1 else 0)
            && (x != ResetProxyRule(r) && x !in Rules(d, r) ==> change == 0)
  {
    var last := [Command(Append, ResetProxyRule(r), oks[4])];
    ChangesAppend(Commands(Delete, Rules(d, r), oks[..4]), last, x);
    ChangesOfCommands(Delete, Rules(d, r), oks[..4], x);
    assert Changes(last, x) == Change(last[0], x) + Changes(last[1..], x);
  }

  /** A Start and a Stop with any failures: of each of the four rules there is one more than before exactly if it was
      added and not deleted, one less exactly if it was deleted and not added; likewise for the proxy-reset rule; no
      other rule comes or goes. */
  lemma StartStopConserves(k: seq<Rule>, d: nat, r: nat, resetRemoved: bool, added: nat, oks: seq<bool>, x: Rule)
    requires added <= 4 && |oks| == 5
    requires Legal(k, StartCommands(d, r, resetRemoved, added) + StopCommands(d, r, oks))
    ensures var after := multiset(Replay(k, StartCommands(d, r, resetRemoved, added) + StopCommands(d, r, oks)))[x];
            && (forall i :: 0 <= i < 4 && Rules(d, r)[i] == x ==>
                  after + (if oks[i] then 1 else 0) == multiset(k)[x] + if i < added then 1 else 0)
            && (x == ResetProxyRule(r) ==>
                  after + (if resetRemoved then 1 else 0) == multiset(k)[x] + if oks[4] then 1 else 0)
            && (x != ResetProxyRule(r) && x !in Rules(d, r) ==> after == multiset(k)[x])
  {
    ReplayConserves(k, StartCommands(d, r, resetRemoved, added) + StopCommands(d, r, oks), x);
    ChangesAppend(StartCommands(d, r, resetRemoved, added), StopCommands(d, r, oks), x);
    StartChanges(d, r, resetRemoved, added, x);
    StopChanges(d, r, oks, x);
  }

  // ---- What the rules do to packets

  datatype Verdict = Delivered(port: nat) | Reset

  /** The nat table is asked for the first packet of a connection only; connection tracking repeats
      its answer for the others. */
  function Translated(rules: seq<Rule>, p: Packet): Packet {
    if p.mapped.Some? then p.(dport := p.mapped.value)
    else
      match FirstMatch(rules, NatTable, if p.external then Prerouting else Output, p)
      case Some(Redirect(port)) => p.(dport := port, mapped := Some(port))
      case _ => p.(mapped := Some(p.dport))
  }

  /** Delivery to a local socket: nat first, then the INPUT chain of the filter table. */
  function Deliver(rules: seq<Rule>, p: Packet): Verdict {
    var q := Translated(rules, p);
    if FirstMatch(rules, FilterTable, Input, q) == Some(RejectReset) then Reset else Delivered(q.dport)
  }

  /** Traffic from outside the pod, or from a loopback address to 127.0.0.1. */
  predicate ForApplication(p: Packet) {
    p.external || (LOOPBACK_NET.Contains(p.src) && LOCALHOST.Contains(p.dst))
  }

  predicate NewConnection(p: Packet) { p.mapped.None? && !p.established }

  lemma FirstMatchOfRules(d: nat, r: nat, table: Table, chain: Chain, p: Packet)
    ensures FirstMatch(Rules(d, r), table, chain, p) ==
            if !p.tcp || p.dport != d then None
            else match (table, chain)
              case (NatTable, Output) =>
                if LOOPBACK_NET.Contains(p.src) && LOCALHOST.Contains(p.dst) then Some(Redirect(r)) else None
              case (NatTable, Prerouting) => if p.external then Some(Redirect(r)) else None
              case (FilterTable, Input) => if p.established && ForApplication(p) then Some(RejectReset) else None
              case _ => None
  {
    var rules := Rules(d, r);
    assert rules == [rules[0]] + ([rules[1]] + ([rules[2]] + ([rules[3]] + [])));
    FirstMatchUnfold([], rules[3], table, chain, p);
    FirstMatchUnfold([rules[3]] + [], rules[2], table, chain, p);
    FirstMatchUnfold([rules[2]] + ([rules[3]] + []), rules[1], table, chain, p);
    FirstMatchUnfold([rules[1]] + ([rules[2]] + ([rules[3]] + [])), rules[0], table, chain, p);
  }

  /** A new connection ends at the proxy's port instead of its own exactly when it is TCP to the application's
      port from outside or from a loopback address to 127.0.0.1; no new connection is reset. */
  lemma NewConnectionVerdict(d: nat, r: nat, p: Packet)
    requires d != r && NewConnection(p)
    ensures Deliver(Rules(d, r), p) == Delivered(if p.tcp && p.dport == d && ForApplication(p) then r else p.dport)
  {
    FirstMatchOfRules(d, r, NatTable, if p.external then Prerouting else Output, p);
    FirstMatchOfRules(d, r, FilterTable, Input, Translated(Rules(d, r), p));
  }

  /** A packet of a tracked connection is reset exactly when the connection still ends at the application's port. */
  lemma TrackedConnectionVerdict(d: nat, r: nat, p: Packet)
    requires d != r && p.mapped.Some?
    ensures Deliver(Rules(d, r), p) ==
            if p.tcp && p.established && p.mapped.value == d && ForApplication(p) then Reset
            else Delivered(p.mapped.value)
  {
    FirstMatchOfRules(d, r, FilterTable, Input, Translated(Rules(d, r), p));
  }

  /** The proxy's own connection to the application goes through lo to the pod's IP address: no packet of it is
      redirected or reset, whatever the state of the connection. */
  lemma ProxyConnectionUntouched(d: nat, r: nat, p: Packet)
    requires d != r && !p.external && !LOCALHOST.Contains(p.dst)
    requires p.mapped.Some? ==> p.mapped.value == p.dport
    ensures Deliver(Rules(d, r), p) == Delivered(p.dport)
  {
    FirstMatchOfRules(d, r, NatTable, Output, p);
    FirstMatchOfRules(d, r, FilterTable, Input, Translated(Rules(d, r), p));
  }

  /** No redirect loop: what the nat rules made of a packet, taken as a new packet, they leave alone. */
  lemma NoRedirectLoop(d: nat, r: nat, p: Packet)
    requires d != r && p.mapped.None?
    ensures var q := Translated(Rules(d, r), p).(mapped := None);
            && Translated(Rules(d, r), q).dport == q.dport
            && (q.dport == r && p.dport == d ==> Deliver(Rules(d, r), q) == Delivered(r))
  {
    var chain := if p.external then Prerouting else Output;
    FirstMatchOfRules(d, r, NatTable, chain, p);
    var q := Translated(Rules(d, r), p).(mapped := None);
    FirstMatchOfRules(d, r, NatTable, chain, q);
    FirstMatchOfRules(d, r, FilterTable, Input, Translated(Rules(d, r), q));
  }

  /** With equal ports, which NewTrafficRedirector refuses, the redirected packet matches again and the
      connection's later packets are reset. */
  lemma EqualPortsReset(d: nat, p: Packet)
    requires p.mapped.None? && p.tcp && p.dport == d && ForApplication(p)
    ensures var q := Translated(Rules(d, d), p);
            Deliver(Rules(d, d), q.(established := true)) == Reset
  {
    FirstMatchOfRules(d, d, NatTable, if p.external then Prerouting else Output, p);
    var q := Translated(Rules(d, d), p);
    FirstMatchOfRules(d, d, FilterTable, Input, Translated(Rules(d, d), q.(established := true)));
  }

  /** After Stop, every packet to the proxy's port is reset, of whatever connection, and nothing else is. */
  lemma StoppedVerdict(r: nat, p: Packet)
    ensures var port := if p.mapped.Some? then p.mapped.value else p.dport;
            Deliver([ResetProxyRule(r)], p) == if p.tcp && port == r then Reset else Delivered(port)
  {
    assert [ResetProxyRule(r)] + [] == [ResetProxyRule(r)];
    FirstMatchUnfold([], ResetProxyRule(r), NatTable, if p.external then Prerouting else Output, p);
    FirstMatchUnfold([], ResetProxyRule(r), FilterTable, Input, Translated([ResetProxyRule(r)], p));
  }

  datatype Phase = BeforeStart | Redirecting | AfterStop

  function PhaseRules(phase: Phase, d: nat, r: nat): seq<Rule> {
    match phase
    case BeforeStart => []
    case Redirecting => Started([], d, r)
    case AfterStop => Stopped(Started([], d, r), d, r)
  }

  lemma PhaseRulesAre(d: nat, r: nat)
    ensures PhaseRules(Redirecting, d, r) == Rules(d, r)
    ensures PhaseRules(AfterStop, d, r) == [ResetProxyRule(r)]
  {
    DeleteAllAppended([], Rules(d, r));
    assert [] + Rules(d, r) == Rules(d, r);
  }

  /** The first packet of an application connection fixes where the connection ends for good. */
  lemma FirstPacket(d: nat, r: nat, first: Packet, born: Phase)
    requires NewConnection(first) && first.tcp && first.dport == d && ForApplication(first)
    ensures Translated(PhaseRules(born, d, r), first).mapped == Some(if born == Redirecting then r else d)
  {
    PhaseRulesAre(d, r);
    var chain := if first.external then Prerouting else Output;
    FirstMatchOfRules(d, r, NatTable, chain, first);
    FirstMatchUnfold([], ResetProxyRule(r), NatTable, chain, first);
    assert [ResetProxyRule(r)] + [] == [ResetProxyRule(r)];
  }

  lemma LaterPacket(d: nat, r: nat, q: Packet, later: Phase)
    requires d != r && q.tcp && q.established && ForApplication(q) && q.mapped in {Some(d), Some(r)}
    ensures Deliver(PhaseRules(later, d, r), q) ==
            if (later, q.mapped) in {(Redirecting, Some(d)), (AfterStop, Some(r))} then Reset
            else Delivered(q.mapped.value)
  {
    PhaseRulesAre(d, r);
    if later == Redirecting {
      TrackedConnectionVerdict(d, r, q);
    }
    FirstMatchUnfold([], ResetProxyRule(r), FilterTable, Input, Translated(PhaseRules(later, d, r), q));
    assert [ResetProxyRule(r)] + [] == [ResetProxyRule(r)];
  }

  /** The life of an application connection whose first packet is seen in one phase and an established packet in
      another: it is served by the proxy exactly while redirection lasts, and a connection that
      outlives the change of phase is reset instead of going on with the wrong peer. */
  lemma ConnectionLife(d: nat, r: nat, first: Packet, born: Phase, later: Phase)
    requires d != r && NewConnection(first) && first.tcp && first.dport == d && ForApplication(first)
    ensures var q := Translated(PhaseRules(born, d, r), first).(dport := d, established := true);
            Deliver(PhaseRules(later, d, r), q) ==
              match (born == Redirecting, later)
              case (true, AfterStop) => Reset
              case (true, _) => Delivered(r)
              case (false, Redirecting) => Reset
              case (false, _) => Delivered(d)
  {
    FirstPacket(d, r, first, born);
    LaterPacket(d, r, Translated(PhaseRules(born, d, r), first).(dport := d, established := true), later);
  }
}
