/** pkg/kubernetes/helpers/nodes.go AddTaint and RemoveTaint, and pkg/disruptors/node.go TaintNode on one node. */
module Taints {
  datatype Taint = Taint(key: string, value: string, effect: string)

  /** The taints with another key, in order. */
  function WithoutKey(taints: seq<Taint>, key: string): seq<Taint> {
    if taints == [] then []
    else
      var front, last := taints[..|taints| - 1], taints[|taints| - 1];
      WithoutKey(front, key) + if last.key != key then [last] else []
  }

  predicate Absent(taints: seq<Taint>, key: string) {
    forall i :: 0 <= i < |taints| ==> taints[i].key != key
  }

  predicate Present(taints: seq<Taint>, taint: Taint) {
    exists i :: 0 <= i < |taints| && taints[i].key == taint.key && taints[i].effect == taint.effect
  }

  function WithTaint(taints: seq<Taint>, taint: Taint): seq<Taint> {
    if Present(taints, taint) then taints else taints + [taint]
  }

  lemma {:induction false} WithoutKeyAppend(a: seq<Taint>, b: seq<Taint>, key: string)
    ensures WithoutKey(a + b, key) == WithoutKey(a, key) + WithoutKey(b, key)
  {
    if b == [] {
      assert a + b == a;
    } else {
      assert (a + b)[..|a + b| - 1] == a + b[..|b| - 1];
      WithoutKeyAppend(a, b[..|b| - 1], key);
    }
  }

  lemma WithoutKeyOne(t: Taint, key: string)
    ensures WithoutKey([t], key) == if t.key != key then [t] else []
  {
    assert [t][..0] == [];
  }

  lemma WithoutKeyNext(taints: seq<Taint>, i: nat, key: string)
    requires i < |taints|
    ensures WithoutKey(taints[..i + 1], key)
            == WithoutKey(taints[..i], key) + if taints[i].key != key then [taints[i]] else []
  {
    assert taints[..i + 1][..i] == taints[..i];
  }

  /** The filter of RemoveTaint: the result grows in the very array that is being read. */
  method FilterInPlace(taints: array<Taint>, key: string) returns (n: nat)
    modifies taints
    ensures n <= taints.Length && taints[..n] == WithoutKey(old(taints[..]), key)
  {
    ghost var was := taints[..];
    n := 0;
    for i := 0 to taints.Length
      invariant n <= i
      invariant taints[..n] == WithoutKey(was[..i], key)
      invariant forall j :: i <= j < taints.Length ==> taints[j] == was[j]
    {
      var t := taints[i];
      WithoutKeyNext(was, i, key);
      if t.key != key {
        taints[n] := t;
        n := n + 1;
      }
    }
    assert was[..taints.Length] == was;
  }

  /** Exactly the taints with the key go, each of the others keeps its multiplicity. */
  lemma {:induction false} WithoutKeyContents(taints: seq<Taint>, key: string, t: Taint)
    ensures multiset(WithoutKey(taints, key))[t] == if t.key == key then 0 else multiset(taints)[t]
  {
    if taints != [] {
      var front, last := taints[..|taints| - 1], taints[|taints| - 1];
      WithoutKeyContents(front, key, t);
      assert taints == front + [last];
      assert multiset(taints)[t] == multiset(front)[t] + if last == t then 1 else 0;
    }
  }

  lemma {:induction false} NothingRemoved(taints: seq<Taint>, key: string)
    ensures |WithoutKey(taints, key)| <= |taints|
    ensures WithoutKey(taints, key) == taints <==> Absent(taints, key)
  {
    if taints != [] {
      var front, last := taints[..|taints| - 1], taints[|taints| - 1];
      NothingRemoved(front, key);
      assert taints == front + [last];
      if WithoutKey(taints, key) == taints {
        assert |WithoutKey(front, key)| == |front|;
        assert WithoutKey(front, key) == taints[..|front|];
      }
    }
  }

  /** Tainting a node and taking the taint off again restores its taints exactly when none of them had the key: the
      removal goes by key alone and also takes a taint that was there before, with whatever effect. */
  lemma AddRemoveRestores(taints: seq<Taint>, taint: Taint)
    ensures WithoutKey(WithTaint(taints, taint), taint.key) == taints
            <==> Absent(taints, taint.key)
    ensures WithoutKey(WithTaint(taints, taint), taint.key) == WithoutKey(taints, taint.key)
  {
    WithoutKeyAppend(taints, [taint], taint.key);
    WithoutKeyOne(taint, taint.key);
    NothingRemoved(taints, taint.key);
  }

  function Tainted(nodes: map<string, seq<Taint>>, name: string, taint: Taint): map<string, seq<Taint>>
    requires name in nodes
  {
    nodes[name := WithTaint(nodes[name], taint)]
  }

  /** The nodes as they were found, with the key's taints gone from one of them. */
  predicate Freed(nodes: map<string, seq<Taint>>, found: map<string, seq<Taint>>, name: string, key: string) {
    name in found && nodes == found[name := WithoutKey(found[name], key)]
  }

  /** The net effect of other clients: nodes with new taints, and nodes deleted. */
  datatype Changes = Changes(written: map<string, seq<Taint>>, deleted: set<string>) {
    function Of(nodes: map<string, seq<Taint>>): map<string, seq<Taint>> { nodes + written - deleted }
  }

  /** The nodes' taints in the cluster; any request may fail, and a failed update has no effect. */
  class Nodes {
    var taints: map<string, seq<Taint>>

    constructor (taints: map<string, seq<Taint>>)
      ensures this.taints == taints
    {
      this.taints := taints;
    }

    method Get(name: string) returns (node: array?<Taint>)
      ensures node != null ==> fresh(node) && name in taints && node[..] == taints[name]
    {
      var answered: bool := *;
      if name !in taints || !answered {
        return null;
      }
      var list := taints[name];
      node := new Taint[|list|](i requires 0 <= i < |list| => list[i]);
      assert node[..] == list;
    }

    method Update(name: string, list: seq<Taint>) returns (ok: bool)
      requires name in taints
      modifies this
      ensures taints == if ok then old(taints)[name := list] else old(taints)
    {
      ok := *;
      if ok {
        taints := taints[name := list];
      }
    }

    method AddTaint(name: string, taint: Taint) returns (ok: bool)
      modifies this
      ensures ok ==> name in old(taints) && taints == Tainted(old(taints), name, taint)
      ensures ok ==> taints == old(taints)[name := taints[name]] && old(taints)[name] <= taints[name]
      ensures ok ==> exists i :: 0 <= i < |taints[name]| && taints[name][i].key == taint.key
                                 && taints[name][i].effect == taint.effect
      ensures ok ==> if exists i :: 0 <= i < |old(taints)[name]| && old(taints)[name][i].key == taint.key
                                    && old(taints)[name][i].effect == taint.effect
                     then taints[name] == old(taints)[name] else taints[name] == old(taints)[name] + [taint]
      ensures !ok ==> taints == old(taints)
    {
      var node := Get(name);
      if node == null {
        return false;
      }
      for i := 0 to node.Length
        invariant forall j :: 0 <= j < i ==> !(node[j].key == taint.key && node[j].effect == taint.effect)
        invariant node[..] == taints[name]
      {
        if node[i].key == taint.key && node[i].effect == taint.effect {
          assert taints[name][i] == node[i];
          return true;
        }
      }
      assert !Present(node[..], taint);
      ok := Update(name, node[..] + [taint]);
      if ok {
        assert taints[name][|taints[name]| - 1] == taint;
      }
    }

    method RemoveTaint(name: string, key: string) returns (ok: bool)
      modifies this
      ensures ok ==> Freed(taints, old(taints), name, key)
      ensures !ok ==> taints == old(taints)
    {
      var node := Get(name);
      if node == null {
        return false;
      }
      var n := FilterInPlace(node, key);
      ok := Update(name, node[..n]);
    }

    /** What other clients do to the nodes while TaintNode waits. */
    method Others(others: Changes)
      modifies this
      ensures taints == others.Of(old(taints))
    {
      taints := taints + others.written - others.deleted;
    }

    /** TaintNode on one node: the taint is there when the wait begins; nil means that the node has exactly the taints
        that were there after the wait, whoever wrote them, save those with the fault's key. */
    method TaintNode(name: string, taint: Taint, others: Changes)
      returns (ok: bool, ghost waiting: map<string, seq<Taint>>)
      modifies this
      ensures ok ==> name in old(taints) && name in waiting && waiting == old(taints)[name := waiting[name]]
      ensures ok ==> old(taints)[name] <= waiting[name]
      ensures ok ==> exists i :: 0 <= i < |waiting[name]| && waiting[name][i].key == taint.key
                                 && waiting[name][i].effect == taint.effect
      ensures ok ==> Freed(taints, others.Of(waiting), name, taint.key)
      ensures ok ==> name in old(taints) && Freed(taints, others.Of(Tainted(old(taints), name, taint)), name, taint.key)
      ensures !ok ==> taints == old(taints)
                      || (name in old(taints) && taints == others.Of(Tainted(old(taints), name, taint)))
    {
      var added := AddTaint(name, taint);
      waiting := taints;
      if !added {
        return false, waiting;
      }
      Others(others);
      ok := RemoveTaint(name, taint.key);
    }
  }

  /** If nobody else wrote to the node, nil means that it has the taints it had at the start, save those with the key;
      all of them, if none had it. */
  lemma UndisturbedTaint(
      nodes: map<string, seq<Taint>>, after: map<string, seq<Taint>>, name: string, taint: Taint, others: Changes)
    requires name in nodes && Freed(after, others.Of(Tainted(nodes, name, taint)), name, taint.key)
    requires name !in others.written
    ensures name in after && after[name] == WithoutKey(nodes[name], taint.key)
    ensures Absent(nodes[name], taint.key) <==> after[name] == nodes[name]
    ensures others == Changes(map[], {}) ==> after == nodes[name := WithoutKey(nodes[name], taint.key)]
  {
    AddRemoveRestores(nodes[name], taint);
    if others == Changes(map[], {}) {
      assert others.Of(Tainted(nodes, name, taint)) == Tainted(nodes, name, taint);
    }
  }
}
