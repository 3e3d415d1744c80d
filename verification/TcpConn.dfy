/** pkg/agent/tcpconn: dropping TCP connections by sending their packets through an NFQUEUE, where a
    dropper marks the packets to reject and puts them back at the start of the chain. */
module TcpConn {
  import opened Netfilter
  import opened Iptables
  import opened Common

  datatype NfqConfig = NfqConfig(queueID: bv16, rejectMark: bv32)

  function RejectRule(port: nat, c: NfqConfig): Rule {
    Rule(FilterTable, Input, Match(port, None, None, None, false, Some(c.rejectMark)), RejectReset)
  }

  function QueueRule(port: nat, c: NfqConfig): Rule {
    Rule(FilterTable, Input, Match(port, None, None, None, false, None), Queue(c.queueID))
  }

  function Rules(port: nat, c: NfqConfig): seq<Rule> {
    [RejectRule(port, c), QueueRule(port, c)]
  }

  /** Both numbers are made odd, so neither is the special value 0, whatever the two random 31-bit numbers are; the
      mark stays below 2^31. */
  method RandomNfqConfig() returns (c: NfqConfig)
    ensures c.queueID & 1 == 1 && c.queueID != 0
    ensures c.rejectMark & 1 == 1 && c.rejectMark != 0 && c.rejectMark < 0x8000_0000
  {
    var queue: bv16 := *;
    var mark: bv32 := *;
    mark := mark & 0x7fff_ffff;
    c := NfqConfig(queue | 1, mark | 1);
  }

  // ---- The dropper

  datatype FourTuple = FourTuple(src: nat, sport: nat, dst: nat, dport: nat)

  function Connection(p: Packet): FourTuple { FourTuple(p.src, p.sport, p.dst, p.dport) }

  /** Which hundredths of the hash space are dropped. */
  function Threshold(rate: real): (t: nat)
    requires 0.0 <= rate
    ensures t as real <= 100.0 * rate < t as real + 1.0
  {
    (100.0 * rate).Floor
  }

  /** TCPConnectionDropper.Drop on a decoded packet; `hash` stands for the CRC-32 of the printed 4-tuple. */
  predicate Drop(hash: FourTuple -> nat, rate: real, p: Packet)
    requires 0.0 <= rate
  {
    p.tcp && hash(Connection(p)) % 100 < Threshold(rate)
  }

  /** One decision per connection; the dropped connections only grow with the rate, from none at 0 to all at 1. */
  lemma DropDecision(hash: FourTuple -> nat, rate: real, higher: real, p: Packet, q: Packet)
    requires 0.0 <= rate <= higher
    ensures Connection(p) == Connection(q) && p.tcp == q.tcp ==> Drop(hash, rate, p) == Drop(hash, rate, q)
    ensures Drop(hash, rate, p) ==> Drop(hash, higher, p)
    ensures rate < 0.01 ==> !Drop(hash, rate, p)
    ensures higher >= 1.0 ==> Drop(hash, higher, p) == p.tcp
  {
    assert Threshold(rate) as real <= 100.0 * higher;
    assert Threshold(rate) <= Threshold(higher);
  }

  /** A connection is its two addresses and its two ports. */
  lemma ConnectionIs(p: Packet, q: Packet)
    ensures Connection(p) == Connection(q) <==>
              p.src == q.src && p.sport == q.sport && p.dst == q.dst && p.dport == q.dport
  {
  }

  /** A TCP packet is dropped exactly if its checksum's remainder is among the first of a hundred, as many as the rate
      has whole hundredths. */
  lemma DropIff(hash: FourTuple -> nat, rate: real, p: Packet)
    requires 0.0 <= rate
    ensures Drop(hash, rate, p) <==> p.tcp && (hash(Connection(p)) % 100 + 1) as real <= 100.0 * rate
  {
    var class_ := hash(Connection(p)) % 100;
    assert class_ + 1 <= Threshold(rate) <==> (class_ + 1) as real <= Threshold(rate) as real;
  }

  /** For how many of the checksums below n the packet is dropped. */
  function Dropped(n: nat, rate: real, p: Packet): nat
    requires 0.0 <= rate
  {
    if n == 0 then 0 else Dropped(n - 1, rate, p) + if Drop(_ => n - 1, rate, p) then 1 else 0
  }

  lemma {:induction false} DroppedAre(n: nat, rate: real, p: Packet)
    requires 0.0 <= rate <= 1.0 && p.tcp
    ensures var t, rest := Threshold(rate), n % 100;
            t <= 100 && Dropped(n, rate, p) == n / 100 * t + if rest < t then rest else t
  {
    if n > 0 {
      DroppedAre(n - 1, rate, p);
      NextHundredth(n - 1, Threshold(rate));
    }
  }

  lemma NextHundredth(n: nat, t: nat)
    requires t <= 100
    ensures var rest, next := n % 100, (n + 1) % 100;
            (n + 1) / 100 * t + (if next < t then next else t)
            == n / 100 * t + (if rest < t then rest else t) + if rest < t then 1 else 0
  {
    if n % 100 == 99 {
      Quotient(n + 1, n / 100 + 1, 0);
      assert (n / 100 + 1) * t == n / 100 * t + t;
    } else {
      Quotient(n + 1, n / 100, n % 100 + 1);
    }
  }

  lemma Quotient(n: nat, q: nat, r: nat)
    requires n == 100 * q + r && r < 100
    ensures n / 100 == q && n % 100 == r
  {
  }

  /** Of the checksums below any n, all 2^32 of them included, a TCP packet is dropped for at least the whole
      percentage of the rate and at most 25 more than that: the share of connections dropped is the rate rounded down
      to a percentage. */
  lemma DroppedShare(n: nat, rate: real, p: Packet)
    requires 0.0 <= rate <= 1.0 && p.tcp
    ensures var percent := (100.0 * rate).Floor; 0 <= 100 * Dropped(n, rate, p) - n * percent <= 25 * 100
  {
    DroppedAre(n, rate, p);
    Excess(n / 100, n % 100, Threshold(rate));
  }

  lemma Excess(hundreds: nat, rest: nat, t: nat)
    requires rest < 100 && t <= 100
    ensures 0 <= 100 * (hundreds * t + if rest < t then rest else t) - (100 * hundreds + rest) * t <= 25 * 100
  {
    var whole := hundreds * t;
    assert (100 * hundreds + rest) * t == 100 * whole + rest * t;
    if rest < t {
      Products(rest, t, 100 - t);
    } else {
      Products(100 - rest, 100 - t, t);
    }
    Square(50 - t);
  }

  lemma Products(a: nat, b: nat, c: nat)
    requires a <= b
    ensures 0 <= a * c <= b * c
  {
  }

  lemma Square(x: int)
    ensures x * x >= 0 && (50 - x) * (50 + x) == 2500 - x * x
  {
  }

  // ---- The way of a packet through the INPUT chain

  datatype Verdict = Accepted | Rejected | StillLooping

  datatype Traversal = Traversal(verdict: Verdict, queued: nat)

  /** NF_REPEAT starts the chain again, with the reject mark on the packet, at most `repeats` times here. A queue
      nobody listens on is bypassed. */
  function Traverse(
      rules: seq<Rule>, c: NfqConfig, listening: bool, drop: Packet -> bool, p: Packet, repeats: nat): Traversal
    decreases repeats
  {
    match FirstMatch(rules, FilterTable, Input, p)
    case Some(RejectReset) => Traversal(Rejected, 0)
    case Some(Queue(n)) =>
      if !listening || n != c.queueID then Traversal(Accepted, 0)
      else if !drop(p) then Traversal(Accepted, 1)
      else if repeats == 0 then Traversal(StillLooping, 1)
      else
        var again := Traverse(rules, c, listening, drop, p.(mark := c.rejectMark), repeats - 1);
        again.(queued := again.queued + 1)
    case _ => Traversal(Accepted, 0)
  }

  lemma FirstMatchOfPair(a: Rule, b: Rule, p: Packet)
    requires a.table == b.table == FilterTable && a.chain == b.chain == Input
    ensures FirstMatch([a, b], FilterTable, Input, p) ==
            if Matches(a.match_, p) then Some(a.target) else if Matches(b.match_, p) then Some(b.target) else None
  {
    assert [a, b] == [a] + ([b] + []);
    FirstMatchUnfold([], b, FilterTable, Input, p);
    FirstMatchUnfold([b] + [], a, FilterTable, Input, p);
  }

  /** With a listener and any number of repeats allowed: a packet that arrives without the reject mark visits the
      queue once if it is TCP to the filtered port, else never, and is rejected iff the dropper says so. */
  lemma QueueVerdict(port: nat, c: NfqConfig, drop: Packet -> bool, p: Packet, repeats: nat)
    requires p.mark != c.rejectMark && repeats > 0
    ensures Traverse(Rules(port, c), c, true, drop, p, repeats) ==
            if p.tcp && p.dport == port then Traversal(if drop(p) then Rejected else Accepted, 1)
            else Traversal(Accepted, 0)
  {
    FirstMatchOfPair(RejectRule(port, c), QueueRule(port, c), p);
    FirstMatchOfPair(RejectRule(port, c), QueueRule(port, c), p.(mark := c.rejectMark));
  }

  /** Rules left behind by a dead agent, with nobody on the queue, reject nothing but packets that some other
      rule already gave the reject mark. */
  lemma LeftoverRules(port: nat, c: NfqConfig, drop: Packet -> bool, p: Packet, repeats: nat)
    ensures Traverse(Rules(port, c), c, false, drop, p, repeats) ==
            Traversal(if p.mark == c.rejectMark && p.tcp && p.dport == port then Rejected else Accepted, 0)
  {
    FirstMatchOfPair(RejectRule(port, c), QueueRule(port, c), p);
  }

  /** The order of the two rules matters: the other way round a dropped packet is queued again for ever. */
  lemma {:induction false} SwappedRulesLoop(port: nat, c: NfqConfig, drop: Packet -> bool, p: Packet, repeats: nat)
    requires p.tcp && p.dport == port
    requires drop(p) && drop(p.(mark := c.rejectMark))
    ensures Traverse([QueueRule(port, c), RejectRule(port, c)], c, true, drop, p, repeats)
            == Traversal(StillLooping, repeats + 1)
    decreases repeats
  {
    FirstMatchOfPair(QueueRule(port, c), RejectRule(port, c), p);
    if repeats > 0 {
      var again := p.(mark := c.rejectMark);
      assert again.(mark := c.rejectMark) == again;
      SwappedRulesLoop(port, c, drop, again, repeats - 1);
    }
  }

  /** All packets of a connection share its fate while the disruption runs. */
  lemma ConnectionVerdict(
      port: nat, c: NfqConfig, hash: FourTuple -> nat, rate: real, p: Packet, q: Packet, repeats: nat)
    requires 0.0 <= rate && repeats > 0
    requires p.mark != c.rejectMark && q.mark != c.rejectMark && p.tcp && q.tcp && Connection(p) == Connection(q)
    ensures var drop := (x: Packet) => Drop(hash, rate, x);
            && Traverse(Rules(port, c), c, true, drop, p, repeats)
               == Traverse(Rules(port, c), c, true, drop, q, repeats)
            && (Traverse(Rules(port, c), c, true, drop, p, repeats).verdict == Rejected <==>
                p.dport == port && Drop(hash, rate, p))
  {
    var drop := (x: Packet) => Drop(hash, rate, x);
    QueueVerdict(port, c, drop, p, repeats);
    QueueVerdict(port, c, drop, q, repeats);
  }

  // ---- Apply

  datatype Ending = TooShort | RuleFailed | QueueFailed | HandlerFailed | TimedOut | ReadFailed

  const SECOND := 1_000_000_000

  function Appends(rules: seq<Rule>, added: nat): seq<Command>
    requires added <= |rules|
  {
    seq(added, i requires 0 <= i < added => Command(Append, rules[i], true))
    + if added < |rules| then [Command(Append, rules[added], false)] else []
  }

  /** Adds the rules up to the first failure. */
  method Install(ruleset: RuleSet, rules: seq<Rule>) returns (added: nat)
    requires ruleset.rules == []
    modifies ruleset, ruleset.kernel
    ensures added <= |rules| && ruleset.rules == rules[..added]
    ensures ruleset.kernel.rules == old(ruleset.kernel.rules) + rules[..added]
    ensures ruleset.kernel.log == old(ruleset.kernel.log) + Appends(rules, added)
  {
    added := 0;
    while added < |rules|
      invariant added <= |rules| && ruleset.rules == rules[..added]
      invariant ruleset.kernel.rules == old(ruleset.kernel.rules) + rules[..added]
      invariant ruleset.kernel.log
                == old(ruleset.kernel.log) + seq(added, i requires 0 <= i < added => Command(Append, rules[i], true))
    {
      var ok := ruleset.Add(rules[added]);
      if !ok {
        return;
      }
      added := added + 1;
    }
  }

  /** What the deferred Remove leaves when it follows an Install on a kernel with rules `base`. */
  lemma InstalledAndRemoved(base: seq<Rule>, mine: seq<Rule>, oks: seq<bool>)
    requires |oks| == |mine|
    ensures multiset(Replay(base + mine, Commands(Delete, mine, oks))) == multiset(base) + multiset(Kept(mine, oks))
    ensures Kept(mine, oks) == [] <==> All(oks)
    ensures All(oks) && (forall r :: r in mine ==> r !in base) ==>
            Replay(base + mine, Commands(Delete, mine, oks)) == base
  {
    DeletesConserve(multiset(base), base + mine, mine, oks, multiset{});
    KeptNothing(mine, oks);
    if All(oks) && forall r :: r in mine ==> r !in base {
      var t := DeletesKeepBase(base, mine, mine, oks);
      NothingBehind(base, t);
    }
  }

  /** Whatever makes Apply end, every rule it had installed has been asked to be deleted by then, and when all
      deletes worked the kernel holds its old rules, in their old order if none equals one of Apply's. */
  method Apply(kernel: Kernel, port: nat, duration: int, opens: bool, registers: bool, readFails: bool)
    returns (ending: Ending, ghost config: NfqConfig, ghost added: nat, ghost oks: seq<bool>)
    modifies kernel
    ensures ending == TooShort <==> duration < SECOND
    ensures ending == TooShort ==> kernel.log == old(kernel.log) && kernel.rules == old(kernel.rules)
    ensures ending == QueueFailed <==> duration >= SECOND && added == 2 && !opens
    ensures ending == HandlerFailed <==> duration >= SECOND && added == 2 && opens && !registers
    ensures ending == ReadFailed <==> duration >= SECOND && added == 2 && opens && registers && readFails
    ensures added <= 2 && |oks| == added && (ending == RuleFailed <==> ending != TooShort && added < 2)
    ensures ending != TooShort ==>
              kernel.log == old(kernel.log)
                            + Appends(Rules(port, config), added)
                            + Commands(Delete, Rules(port, config)[..added], oks)
    ensures ending != TooShort ==>
            multiset(kernel.rules) == multiset(old(kernel.rules)) + multiset(Kept(Rules(port, config)[..added], oks))
    ensures All(oks) && (forall r :: r in Rules(port, config) ==> r !in old(kernel.rules)) ==>
            kernel.rules == old(kernel.rules)
  {
    config, added, oks := NfqConfig(1, 1), 0, [];
    if duration < SECOND {
      return TooShort, config, added, oks;
    }
    var ruleset := new RuleSet(kernel);
    var c := RandomNfqConfig();
    config := c;
    var rules := Rules(port, c);
    var installed := Install(ruleset, rules);
    added := installed;
    if installed < |rules| {
      ending := RuleFailed;
    } else {
      ending := if !opens then QueueFailed
                else if !registers then HandlerFailed
                else if readFails then ReadFailed
                else TimedOut;
    }
    // deferred
    var _, results := ruleset.Remove();
    oks := results;
    InstalledAndRemoved(old(kernel.rules), rules[..added], oks);
  }
}
