/** pkg/iptables/iptables.go: adding and removing rules one command at a time, and the set that
    remembers which rules it has to take back. */
module Iptables {
  import opened Netfilter

  /** The rules whose delete command failed, in order. */
  function Kept(rules: seq<Rule>, oks: seq<bool>): seq<Rule>
    requires |rules| == |oks|
  {
    if rules == [] then []
    else (if oks[0] then [] else [rules[0]]) + Kept(rules[1..], oks[1..])
  }

  predicate All(oks: seq<bool>) { forall i :: 0 <= i < |oks| ==> oks[i] }

  /** A call on a rule set together with how its commands turned out. */
  datatype Call = AddCall(rule: Rule, ok: bool) | RemoveCall(oks: seq<bool>)

  datatype State = State(kernel: seq<Rule>, added: seq<Rule>)

  predicate Possible(s: State, c: Call) {
    match c
    case AddCall(_, _) => true
    case RemoveCall(oks) => |oks| == |s.added| && Legal(s.kernel, Commands(Delete, s.added, oks))
  }

  function After(s: State, c: Call): State
    requires Possible(s, c)
  {
    match c
    case AddCall(r, ok) => if ok then State(s.kernel + [r], s.added + [r]) else s
    case RemoveCall(oks) => State(Replay(s.kernel, Commands(Delete, s.added, oks)), Kept(s.added, oks))
  }

  lemma AllAppend(oks: seq<bool>, ok: bool)
    ensures All(oks + [ok]) <==> All(oks) && ok
  {
    if All(oks + [ok]) {
      assert forall i :: 0 <= i < |oks| ==> (oks + [ok])[i] == oks[i];
      assert (oks + [ok])[|oks|];
    }
  }

  class RuleSet {
    const kernel: Kernel
    var rules: seq<Rule>

    constructor (kernel: Kernel)
      ensures this.kernel == kernel && rules == []
    {
      this.kernel := kernel;
      rules := [];
    }

    method Add(r: Rule) returns (ok: bool)
      modifies this, kernel
      ensures kernel.log == old(kernel.log) + [Command(Append, r, ok)]
      ensures State(kernel.rules, rules) == After(State(old(kernel.rules), old(rules)), AddCall(r, ok))
    {
      ok := kernel.Exec(Append, r);
      if !ok {
        return;
      }
      rules := rules + [r];
    }

    /** Tries to delete every remembered rule, whatever fails on the way, and keeps the failed ones. */
    method Remove() returns (ok: bool, ghost oks: seq<bool>)
      modifies this, kernel
      ensures Possible(State(old(kernel.rules), old(rules)), RemoveCall(oks))
      ensures kernel.log == old(kernel.log) + Commands(Delete, old(rules), oks)
      ensures State(kernel.rules, rules) == After(State(old(kernel.rules), old(rules)), RemoveCall(oks))
      ensures ok <==> All(oks)
    {
      var remaining: seq<Rule> := [];
      oks := [];
      ok := true;
      for i := 0 to |rules|
        invariant rules == old(rules) && |oks| == i
        invariant kernel.log == old(kernel.log) + Commands(Delete, rules[..i], oks)
        invariant kernel.rules == Replay(old(kernel.rules), Commands(Delete, rules[..i], oks))
        invariant Legal(old(kernel.rules), Commands(Delete, rules[..i], oks))
        invariant remaining == Kept(rules[..i], oks)
        invariant ok <==> All(oks)
      {
        ghost var done := Commands(Delete, rules[..i], oks);
        var deleted := kernel.Exec(Delete, rules[i]);
        ReplayAppend(old(kernel.rules), done, [Command(Delete, rules[i], deleted)]);
        KeptAppend(rules[..i], oks, rules[i], deleted);
        AllAppend(oks, deleted);
        oks := oks + [deleted];
        assert rules[..i+1] == rules[..i] + [rules[i]];
        assert Commands(Delete, rules[..i+1], oks) == done + [Command(Delete, rules[i], deleted)];
        if !deleted {
          ok := false;
          remaining := remaining + [rules[i]];
        }
      }
      assert rules[..|rules|] == rules;
      rules := remaining;
    }
  }

  lemma {:induction false} KeptAppend(rules: seq<Rule>, oks: seq<bool>, r: Rule, ok: bool)
    requires |rules| == |oks|
    ensures Kept(rules + [r], oks + [ok]) == Kept(rules, oks) + if ok then [] else [r]
  {
    if rules == [] {
      assert Kept([r][1..], [ok][1..]) == [];
    } else {
      assert (rules + [r])[1..] == rules[1..] + [r] && (oks + [ok])[1..] == oks[1..] + [ok];
      KeptAppend(rules[1..], oks[1..], r, ok);
    }
  }

  // ---- Conservation over any use of a RuleSet

  ghost predicate PossibleRun(s: State, calls: seq<Call>)
    decreases |calls|
  {
    calls == [] || (Possible(s, calls[0]) && PossibleRun(After(s, calls[0]), calls[1..]))
  }

  ghost function Run(s: State, calls: seq<Call>): State
    requires PossibleRun(s, calls)
    decreases |calls|
  {
    if calls == [] then s else Run(After(s, calls[0]), calls[1..])
  }

  lemma HeadCount(rules: seq<Rule>, x: Rule)
    requires rules != []
    ensures multiset(rules)[x] == multiset(rules[1..])[x] + if rules[0] == x then 1 else 0
  {
    assert rules == [rules[0]] + rules[1..];
  }

  /** Of each rule: if the kernel holds some number more than are to be deleted, it ends with that number and the kept
      ones. */
  lemma {:induction false} DeletesConserveRule(kernel: seq<Rule>, rules: seq<Rule>, oks: seq<bool>, x: Rule, more: nat)
    requires |rules| == |oks| && multiset(kernel)[x] == more + multiset(rules)[x]
    ensures multiset(Replay(kernel, Commands(Delete, rules, oks)))[x] == more + multiset(Kept(rules, oks))[x]
    decreases |rules|
  {
    if rules != [] {
      var cs := Commands(Delete, rules, oks);
      assert cs[1..] == Commands(Delete, rules[1..], oks[1..]);
      HeadCount(rules, x);
      DeleteFirstMultiset(kernel, rules[0]);
      var kept := if !oks[0] && rules[0] == x then 1 else 0;
      DeletesConserveRule(Effect(kernel, cs[0]), rules[1..], oks[1..], x, more + kept);
      if !oks[0] {
        assert Kept(rules, oks)[1..] == Kept(rules[1..], oks[1..]);
        HeadCount(Kept(rules, oks), x);
      }
    }
  }

  /** Half way through a `Remove`, the kernel holds the base, the rules kept so far and the rules still to be tried. */
  lemma DeletesConserve(
      base: multiset<Rule>, kernel: seq<Rule>, rules: seq<Rule>, oks: seq<bool>, rest: multiset<Rule>)
    requires |rules| == |oks|
    requires multiset(kernel) == base + multiset(rules) + rest
    ensures multiset(Replay(kernel, Commands(Delete, rules, oks))) == base + multiset(Kept(rules, oks)) + rest
  {
    forall x: Rule
      ensures multiset(Replay(kernel, Commands(Delete, rules, oks)))[x]
              == base[x] + rest[x] + multiset(Kept(rules, oks))[x]
    {
      DeletesConserveRule(kernel, rules, oks, x, base[x] + rest[x]);
    }
  }

  /** Whatever commands fail, the kernel always holds its original rules plus exactly the remembered ones. */
  lemma {:induction false} RunConserves(base: seq<Rule>, s: State, calls: seq<Call>)
    requires PossibleRun(s, calls)
    requires multiset(s.kernel) == multiset(base) + multiset(s.added)
    ensures multiset(Run(s, calls).kernel) == multiset(base) + multiset(Run(s, calls).added)
    decreases |calls|
  {
    if calls != [] {
      if calls[0].RemoveCall? {
        DeletesConserve(multiset(base), s.kernel, s.added, calls[0].oks, multiset{});
      }
      RunConserves(base, After(s, calls[0]), calls[1..]);
    }
  }

  lemma {:induction false} KeptNothing(rules: seq<Rule>, oks: seq<bool>)
    requires |rules| == |oks|
    ensures Kept(rules, oks) == [] <==> All(oks)
  {
    if rules != [] {
      assert All(oks) <==> oks[0] && All(oks[1..]) by {
        if oks[0] && All(oks[1..]) {
          forall i | 0 <= i < |oks| ensures oks[i] {
            if i > 0 { assert oks[1..][i-1]; }
          }
        }
      }
      KeptNothing(rules[1..], oks[1..]);
    }
  }

  /** Once a final `Remove` returns nil, no rule of the set is left and none of the original rules is lost. */
  lemma RemovedAll(base: seq<Rule>, calls: seq<Call>, oks: seq<bool>)
    requires PossibleRun(State(base, []), calls)
    requires Possible(Run(State(base, []), calls), RemoveCall(oks)) && All(oks)
    ensures var s := After(Run(State(base, []), calls), RemoveCall(oks));
            s.added == [] && multiset(s.kernel) == multiset(base)
  {
    var s := Run(State(base, []), calls);
    RunConserves(base, State(base, []), calls);
    DeletesConserve(multiset(base), s.kernel, s.added, oks, multiset{});
    KeptNothing(s.added, oks);
  }

  /** Deletes of rules that are not in the base leave the base in front, in its order. */
  lemma {:induction false} DeletesKeepBase(base: seq<Rule>, t: seq<Rule>, rules: seq<Rule>, oks: seq<bool>)
      returns (t': seq<Rule>)
    requires |rules| == |oks|
    requires forall r :: r in t + rules ==> r !in base
    ensures Replay(base + t, Commands(Delete, rules, oks)) == base + t'
    ensures forall r :: r in t' ==> r !in base
    decreases |rules|
  {
    if rules == [] {
      t' := t;
    } else {
      var cs := Commands(Delete, rules, oks);
      assert cs[1..] == Commands(Delete, rules[1..], oks[1..]);
      assert rules[0] in t + rules;
      DeleteFirstAppend(base, t, rules[0]);
      DeleteFirstMultiset(t, rules[0]);
      var u := if oks[0] then DeleteFirst(t, rules[0]) else t;
      forall r | r in u + rules[1..] ensures r !in base {
        assert r in u ==> multiset(u)[r] > 0;
        assert r in t + rules;
      }
      t' := DeletesKeepBase(base, u, rules[1..], oks[1..]);
    }
  }

  lemma {:induction false} KeptAmong(rules: seq<Rule>, oks: seq<bool>)
    requires |rules| == |oks|
    ensures forall r :: r in Kept(rules, oks) ==> r in rules
  {
    if rules != [] {
      KeptAmong(rules[1..], oks[1..]);
    }
  }

  predicate NewTo(base: seq<Rule>, calls: seq<Call>) {
    forall c :: c in calls && c.AddCall? ==> c.rule !in base
  }

  /** A rule set that only ever adds new rules keeps the base in front, in its order, whatever fails. */
  lemma {:induction false} RunKeepsBase(base: seq<Rule>, t: seq<Rule>, added: seq<Rule>, calls: seq<Call>)
      returns (t': seq<Rule>)
    requires PossibleRun(State(base + t, added), calls) && NewTo(base, calls)
    requires forall r :: r in t + added ==> r !in base
    ensures Run(State(base + t, added), calls).kernel == base + t'
    ensures forall r :: r in t' + Run(State(base + t, added), calls).added ==> r !in base
    decreases |calls|
  {
    var s := State(base + t, added);
    if calls == [] {
      t' := t;
    } else {
      var u, next := t, After(s, calls[0]);
      match calls[0] {
        case AddCall(r, ok) =>
          assert calls[0] in calls;
          u := if ok then t + [r] else t;
          assert base + t + [r] == base + (t + [r]);
        case RemoveCall(oks) =>
          u := DeletesKeepBase(base, t, added, oks);
          KeptAmong(added, oks);
      }
      assert next == State(base + u, next.added);
      t' := RunKeepsBase(base, u, next.added, calls[1..]);
    }
  }

  lemma NothingBehind(base: seq<Rule>, t: seq<Rule>)
    requires multiset(base + t) == multiset(base)
    ensures base + t == base
  {
    assert |multiset(base + t)| == |base| + |t|;
    assert |multiset(base)| == |base|;
  }

  /** If no rule that was added was present before, then once a final `Remove` returns nil, after any calls and any
      failures, the chain is the original one, in its order. */
  lemma RemoveRestoresOrder(base: seq<Rule>, calls: seq<Call>, oks: seq<bool>)
    requires PossibleRun(State(base, []), calls) && NewTo(base, calls)
    requires Possible(Run(State(base, []), calls), RemoveCall(oks)) && All(oks)
    ensures After(Run(State(base, []), calls), RemoveCall(oks)).kernel == base
  {
    assert base + [] == base;
    var s := Run(State(base, []), calls);
    var t := RunKeepsBase(base, [], [], calls);
    var t' := DeletesKeepBase(base, t, s.added, oks);
    RemovedAll(base, calls, oks);
    NothingBehind(base, t');
  }

  /** Every rule from the first copy of `r` on is a copy of `r`. */
  predicate OnlyCopiesAfterFirst(rules: seq<Rule>, r: Rule) {
    rules == [] ||
    if rules[0] == r then forall i :: 0 <= i < |rules| ==> rules[i] == r else OnlyCopiesAfterFirst(rules[1..], r)
  }

  /** Add-then-remove of one rule restores the order exactly when nothing but copies of it follows its first
      copy: the delete takes the first match, which then is an original rule. */
  lemma {:induction false} AddRemoveOrder(base: seq<Rule>, r: Rule)
    ensures DeleteFirst(base + [r], r) == base <==> OnlyCopiesAfterFirst(base, r)
  {
    if base != [] {
      assert (base + [r])[1..] == base[1..] + [r];
      if base[0] == r {
        if forall i :: 0 <= i < |base| ==> base[i] == r {
          assert base[1..] + [r] == base;
        } else if base[1..] + [r] == base {
          CopiesBackwards(base, r, |base|);
          assert false;
        }
      } else {
        AddRemoveOrder(base[1..], r);
        assert base == [base[0]] + base[1..];
      }
    }
  }

  lemma {:induction false} CopiesBackwards(base: seq<Rule>, r: Rule, n: nat)
    requires base != [] && base[1..] + [r] == base && n <= |base|
    ensures forall i :: |base| - n <= i < |base| ==> base[i] == r
  {
    if n > 0 {
      CopiesBackwards(base, r, n - 1);
      var i := |base| - n;
      assert base[i] == (base[1..] + [r])[i];
    }
  }
}
