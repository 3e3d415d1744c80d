/** The part of netfilter the agent relies on: rules held in chains, the append and
    delete-first-match commands of the `iptables` binary, and which rule a packet meets first. */
module Netfilter {
  import opened Common

  datatype Table = NatTable | FilterTable
  datatype Chain = Prerouting | Output | Input

  /** A block of IPv4 addresses: `size` addresses from `base` on. */
  datatype Net = Net(base: nat, size: nat) {
    predicate Contains(ip: nat) { base <= ip < base + size }
  }

  const LOOPBACK_NET := Net(127 * 0x100_0000, 0x100_0000)  // 127.0.0.0/8
  const LOCALHOST := Net(127 * 0x100_0000 + 1, 1)          // 127.0.0.1/32

  /** The matchers used by the agent; `None` stands for a matcher that is not given.
      Every rule of the agent also carries `-p tcp --dport`. */
  datatype Match = Match(
    dport: nat,
    lo: Option<bool>,          // Some(true) is `-i lo`, Some(false) is `! -i lo`
    src: Option<Net>,
    dst: Option<Net>,
    established: bool,         // `-m state --state ESTABLISHED`
    mark: Option<bv32>)

  /** `Queue` is `-j NFQUEUE --queue-num num --queue-bypass`. */
  datatype Target = Redirect(port: nat) | RejectReset | Queue(num: bv16)

  datatype Rule = Rule(table: Table, chain: Chain, match_: Match, target: Target)

  /** A packet at a hook. `mapped` is the port connection tracking recorded for the packet's
      connection when its first packet went through the nat table. */
  datatype Packet = Packet(
    tcp: bool,
    external: bool,            // arrives on an interface other than lo
    src: nat, sport: nat, dst: nat, dport: nat,
    established: bool,
    mapped: Option<nat>,
    mark: bv32)

  predicate Matches(m: Match, p: Packet) {
    && p.tcp && p.dport == m.dport
    && (m.lo.Some? ==> m.lo.value == !p.external)
    && (m.src.Some? ==> m.src.value.Contains(p.src))
    && (m.dst.Some? ==> m.dst.value.Contains(p.dst))
    && (m.established ==> p.established)
    && (m.mark.Some? ==> p.mark == m.mark.value)
  }

  /** The target of the first rule of the chain that the packet matches. */
  function FirstMatch(rules: seq<Rule>, table: Table, chain: Chain, p: Packet): Option<Target> {
    if rules == [] then None
    else if rules[0].table == table && rules[0].chain == chain && Matches(rules[0].match_, p) then
      Some(rules[0].target)
    else FirstMatch(rules[1..], table, chain, p)
  }

  lemma FirstMatchUnfold(rules: seq<Rule>, rule: Rule, table: Table, chain: Chain, p: Packet)
    ensures FirstMatch([rule] + rules, table, chain, p) ==
            if rule.table == table && rule.chain == chain && Matches(rule.match_, p) then Some(rule.target)
            else FirstMatch(rules, table, chain, p)
  {
    assert ([rule] + rules)[1..] == rules;
  }

  datatype Op = Append | Delete

  /** One execution of `iptables`: the operation, its rule and whether it exited cleanly. */
  datatype Command = Command(op: Op, rule: Rule, ok: bool)

  /** The same operation on each of the rules, and how it turned out. */
  function Commands(op: Op, rules: seq<Rule>, oks: seq<bool>): (cs: seq<Command>)
    requires |rules| == |oks|
  {
    seq(|rules|, i requires 0 <= i < |rules| => Command(op, rules[i], oks[i]))
  }

  /** Removes the first rule equal to `r`, which is what `iptables -D` does with a rule given by value. */
  function DeleteFirst(rules: seq<Rule>, r: Rule): seq<Rule> {
    if rules == [] then []
    else if rules[0] == r then rules[1..]
    else [rules[0]] + DeleteFirst(rules[1..], r)
  }

  function Effect(rules: seq<Rule>, c: Command): seq<Rule> {
    if !c.ok then rules
    else match c.op
      case Append => rules + [c.rule]
      case Delete => DeleteFirst(rules, c.rule)
  }

  function Replay(rules: seq<Rule>, commands: seq<Command>): seq<Rule>
    decreases |commands|
  {
    if commands == [] then rules else Replay(Effect(rules, commands[0]), commands[1..])
  }

  /** A delete of an absent rule always fails. */
  predicate Legal(rules: seq<Rule>, commands: seq<Command>)
    decreases |commands|
  {
    commands == [] ||
    (&& (commands[0].ok && commands[0].op == Delete ==> commands[0].rule in rules)
     && Legal(Effect(rules, commands[0]), commands[1..]))
  }

  /** No command fails except a delete of an absent rule. */
  predicate FailureFree(rules: seq<Rule>, commands: seq<Command>)
    decreases |commands|
  {
    commands == [] ||
    (&& (commands[0].ok <==> (commands[0].op == Delete ==> commands[0].rule in rules))
     && FailureFree(Effect(rules, commands[0]), commands[1..]))
  }

  lemma {:induction false} DeleteFirstMultiset(rules: seq<Rule>, r: Rule)
    ensures multiset(DeleteFirst(rules, r)) == multiset(rules) - multiset{r}
    ensures r !in rules ==> DeleteFirst(rules, r) == rules
  {
    if rules != [] {
      assert rules == [rules[0]] + rules[1..];
      DeleteFirstMultiset(rules[1..], r);
    }
  }

  lemma {:induction false} DeleteFirstAppend(k: seq<Rule>, t: seq<Rule>, r: Rule)
    ensures r in k ==> DeleteFirst(k + t, r) == DeleteFirst(k, r) + t
    ensures r !in k ==> DeleteFirst(k + t, r) == k + DeleteFirst(t, r)
  {
    if k == [] {
      assert k + t == t;
    } else {
      assert (k + t)[1..] == k[1..] + t;
      assert k == [k[0]] + k[1..];
      DeleteFirstAppend(k[1..], t, r);
    }
  }

  lemma {:induction false} ReplayAppend(rules: seq<Rule>, a: seq<Command>, b: seq<Command>)
    ensures Replay(rules, a + b) == Replay(Replay(rules, a), b)
    ensures Legal(rules, a + b) <==> Legal(rules, a) && Legal(Replay(rules, a), b)
    ensures FailureFree(rules, a + b) <==> FailureFree(rules, a) && FailureFree(Replay(rules, a), b)
    decreases |a|
  {
    if a == [] {
      assert a + b == b;
    } else {
      assert (a + b)[1..] == a[1..] + b;
      ReplayAppend(Effect(rules, a[0]), a[1..], b);
    }
  }

  /** By how many copies of the rule the command changes the kernel. */
  function Change(c: Command, r: Rule): int {
    if !c.ok || c.rule != r then 0 else if c.op == Append then 1 else -1
  }

  function Changes(cs: seq<Command>, r: Rule): int {
    if cs == [] then 0 else Change(cs[0], r) + Changes(cs[1..], r)
  }

  lemma EffectConserves(rules: seq<Rule>, c: Command, r: Rule)
    requires c.ok && c.op == Delete ==> c.rule in rules
    ensures multiset(Effect(rules, c))[r] == multiset(rules)[r] + Change(c, r)
  {
    DeleteFirstMultiset(rules, c.rule);
    assert c.ok && c.op == Delete ==> multiset(rules)[c.rule] > 0;
  }

  /** Whatever fails: of each rule there are as many as before, plus the appends and less the deletes that worked. */
  lemma {:induction false} ReplayConserves(rules: seq<Rule>, cs: seq<Command>, r: Rule)
    requires Legal(rules, cs)
    ensures multiset(Replay(rules, cs))[r] == multiset(rules)[r] + Changes(cs, r)
    decreases |cs|
  {
    if cs != [] {
      EffectConserves(rules, cs[0], r);
      ReplayConserves(Effect(rules, cs[0]), cs[1..], r);
    }
  }

  lemma {:induction false} ChangesAppend(a: seq<Command>, b: seq<Command>, r: Rule)
    ensures Changes(a + b, r) == Changes(a, r) + Changes(b, r)
  {
    if a == [] {
      assert a + b == b;
    } else {
      assert (a + b)[1..] == a[1..] + b;
      ChangesAppend(a[1..], b, r);
    }
  }

  /** The kernel as seen through the `iptables` binary: any command may fail, and then has no effect. */
  class Kernel {
    var rules: seq<Rule>
    ghost var log: seq<Command>

    constructor (base: seq<Rule>)
      ensures rules == base && log == []
    {
      rules := base;
      log := [];
    }

    method Exec(op: Op, r: Rule) returns (ok: bool)
      modifies this
      ensures log == old(log) + [Command(op, r, ok)]
      ensures rules == Effect(old(rules), Command(op, r, ok))
      ensures Legal(old(rules), [Command(op, r, ok)])
    {
      ok := *;
      if op == Delete && r !in rules {
        ok := false;
      }
      log := log + [Command(op, r, ok)];
      if ok {
        if op == Append {
          rules := rules + [r];
        } else {
          rules := DeleteFirst(rules, r);
        }
      }
    }
  }
}
