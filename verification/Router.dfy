/** The router: registering paths and matching requests. */
module Router {
  import opened Bytes
  import opened RouteMatch
  import opened RouteTrie

  datatype State = State(captures: Captures, depth: nat)

  class Routes {
    var nodes: Trie

    constructor ()
      ensures nodes == ROOT && Valid(nodes)
    {
      nodes := ROOT;
      RootValid();
    }

    /** Binary search for the first static child that is not below `name`. */
    method LowerBound(n: nat, name: string) returns (i: nat)
      requires Valid(nodes) && n < |nodes|
      ensures NodeClosed(nodes[n], n, |nodes|) && IsLowerBound(nodes, nodes[n].statics, name, i)
    {
      assert NodeClosed(nodes[n], n, |nodes|) && Siblings(nodes, n);
      var statics := nodes[n].statics;
      i := 0;
      var end := |statics|;
      while i < end
        invariant i <= end <= |statics|
        invariant forall j :: 0 <= j < i ==> Less(nodes[statics[j]].name, name)
        invariant forall j :: end <= j < |statics| ==> !Less(nodes[statics[j]].name, name)
      {
        var mid := (i + end) / 2;
        if Less(nodes[statics[mid]].name, name) {
          forall j | 0 <= j < mid ensures Less(nodes[statics[j]].name, name) {
            LessTransitive(nodes[statics[j]].name, nodes[statics[mid]].name, name);
          }
          i := mid + 1;
        } else {
          forall j | mid < j < |statics| ensures !Less(nodes[statics[j]].name, name) {
            if Less(nodes[statics[j]].name, name) {
              LessTransitive(nodes[statics[mid]].name, nodes[statics[j]].name, name);
            }
          }
          end := mid;
        }
      }
    }

    /** Binary search finds what a linear search would. */
    method FindStaticChild(n: nat, name: string) returns (r: Option<nat>)
      requires Valid(nodes) && n < |nodes|
      ensures r == StepTo(nodes, n, Lit(name))
    {
      var i := LowerBound(n, name);
      assert Siblings(nodes, n);
      r := None;
      if i < |nodes[n].statics| && nodes[nodes[n].statics[i]].name == name { r := Some(nodes[n].statics[i]); }
      SearchAgrees(nodes, nodes[n].statics, name, i);
    }

    method FindOrCreateStaticChild(n: nat, name: string) returns (c: nat)
      requires Valid(nodes) && n < |nodes|
      modifies this
      ensures Valid(nodes) && Added(old(nodes), nodes, n, Lit(name), c)
    {
      var i := LowerBound(n, name);
      var statics := nodes[n].statics;
      assert Siblings(nodes, n);
      SearchAgrees(nodes, statics, name, i);
      if i < |statics| && nodes[statics[i]].name == name { return statics[i]; }
      c := |nodes|;
      StaticAdded(nodes, n, name, i);
      nodes := nodes[n := nodes[n].(statics := statics[..i] + [c] + statics[i..])] + [Leaf(Lit(name))];
    }

    method FindOrCreateParamChild(n: nat, name: string) returns (c: nat)
      requires Valid(nodes) && n < |nodes|
      modifies this
      ensures Valid(nodes) && Added(old(nodes), nodes, n, Par(name), c)
    {
      assert NodeClosed(nodes[n], n, |nodes|);
      var params := nodes[n].params;
      var i := 0;
      while i < |params|
        invariant i <= |params| && nodes == old(nodes)
        invariant forall j :: 0 <= j < i ==> nodes[params[j]].name != name
      {
        if nodes[params[i]].name == name { return params[i]; }
        i := i + 1;
      }
      c := |nodes|;
      ParamAdded(nodes, n, name);
      nodes := nodes[n := nodes[n].(params := params + [c])] + [Leaf(Par(name))];
    }

    method FindOrCreateWildcardChild(n: nat) returns (c: nat)
      requires Valid(nodes) && n < |nodes|
      modifies this
      ensures Valid(nodes) && Added(old(nodes), nodes, n, Wild, c)
    {
      if nodes[n].wildcard.None? {
        WildcardAdded(nodes, n);
        nodes := nodes[n := nodes[n].(wildcard := Some(|nodes|))] + [Leaf(Wild)];
      }
      c := nodes[n].wildcard.value;
    }

    /** Registers a path below `n`: it leads to the returned node, exactly its prefixes become
        reachable, and registering it again changes nothing. */
    method Child(n: nat, path: string) returns (c: nat)
      requires Valid(nodes) && n < |nodes|
      modifies this
      ensures Registered(old(nodes), nodes, n, Parts(path)) && Reach(nodes, n, Parts(path)) == Some(c)
    {
      c := n;
      var left := Strip(path);
      ghost var done: seq<Part> := [];
      RegisteredNothing(nodes, n);
      while left != ""
        invariant done + PartsOf(left) == Parts(path)
        invariant Valid(nodes) && c < |nodes| && RegisteredAt(old(nodes), nodes, n, done, c)
        decreases |left|
      {
        ghost var before, at := nodes, c;
        var segment := Segment(left);
        PartsStep(done, left);
        if segment == "" || segment == "*" {
          c := FindOrCreateWildcardChild(c);
          RegisteredOneMore(old(nodes), before, nodes, n, done, at, Wild, c);
          return;
        }
        if segment[0] == ':' { c := FindOrCreateParamChild(c, segment); }
        else { c := FindOrCreateStaticChild(c, segment); }
        RegisteredOneMore(old(nodes), before, nodes, n, done, at, PartOf(segment), c);
        done := done + [PartOf(segment)];
        left := Rest(left);
      }
    }

    /** Sets the predicate of the node for `name`; every step stays where it is. */
    method SetPredicate(n: nat, name: string, accepts: string -> bool)
      requires Valid(nodes) && n < |nodes|
      modifies this
      ensures Valid(nodes) && StepsKept(old(nodes), nodes)
      ensures Reach(nodes, n, Parts(name)).Some? && nodes[Reach(nodes, n, Parts(name)).value].accepts == accepts
    {
      var c := Child(n, name);
      ghost var t := nodes;
      nodes := nodes[c := nodes[c].(accepts := accepts)];
      PredicateKeepsShape(t, c, accepts);
      ReachKept(t, nodes, n, Parts(name));
    }

    /** Sets a capture, overwriting an earlier one of the same name in place. */
    static method SetCapture(items: Captures, key: string, value: string) returns (items': Captures)
      ensures items' == Put(items, key, value)
    {
      var i := 0;
      while i < |items|
        invariant i <= |items|
        invariant forall j :: 0 <= j < i ==> items[j].0 != key
      {
        if items[i].0 == key {
          PutFound(items, i, key, value);
          return items[i := (key, value)];
        }
        i := i + 1;
      }
      PutNew(items, key, value);
      items' := items + [(key, value)];
    }

    /** Follows the branch that is picked; on failure only the depth is one more than before. */
    method Match(n: nat, path: string, state: State) returns (r: Option<nat>, after: State)
      requires Valid(nodes) && n < |nodes|
      ensures var b := Pick(nodes, n, path);
              && (b.None? ==> r == None && after == state.(depth := state.depth + 1))
              && (b.Some? ==> r.Some? && r == Reach(nodes, n, b.value)
                              && after == State(Captured(path, b.value, state.captures), state.depth + |b.value|))
      decreases |path|, 0
    {
      var p := Strip(path);
      if p == "" { return Some(n), state; }
      var segment, rest := Segment(p), Rest(p);
      var deeper := state.(depth := state.depth + 1);
      var staticChild := FindStaticChild(n, segment);
      if staticChild.Some? {
        r, after := Match(staticChild.value, rest, deeper);
        if r.Some? {
          ReachCons(nodes, n, Lit(segment), Pick(nodes, staticChild.value, rest).value);
          return;
        }
      }
      r, after := MatchParams(n, segment, rest, deeper);
      if r.Some? { return; }
      after := deeper;
      if nodes[n].wildcard.Some? {
        var captures := SetCapture(deeper.captures, "*", p);
        after := after.(captures := captures);
        r := nodes[n].wildcard;
        ReachCons(nodes, n, Wild, []);
      }
    }

    /** Tries the parameter children in registration order, each on its own copy of the state. */
    method MatchParams(n: nat, segment: string, rest: string, state: State)
      returns (best: Option<nat>, bestState: State)
      requires Valid(nodes) && n < |nodes|
      ensures Followed(nodes, n, PickParam(nodes, n, |nodes[n].params|, segment, rest), segment, rest, state, best,
                       bestState)
      decreases |rest|, 1
    {
      assert NodeClosed(nodes[n], n, |nodes|);
      var params := nodes[n].params;
      best, bestState := None, State([], 0);
      for k := 0 to |params|
        invariant Followed(nodes, n, PickParam(nodes, n, k, segment, rest), segment, rest, state, best, bestState)
      {
        var c := params[k];
        if nodes[c].accepts(segment) {
          var captures := SetCapture(state.captures, nodes[c].name, segment);
          var r, trial := Match(c, rest, state.(captures := captures));
          if r.Some? {
            ParamStep(nodes, n, k);
            ReachCons(nodes, n, Par(nodes[c].name), Pick(nodes, c, rest).value);
            if best.None? || trial.depth > bestState.depth { best, bestState := r, trial; }
          }
        }
      }
    }
  }

  /** The state after following a parameter branch. */
  ghost predicate Followed(t: Trie, n: nat, b: Option<Branch>, segment: string, rest: string, state: State,
                           best: Option<nat>, bestState: State)
    requires Closed(t) && n < |t|
  {
    && (best.Some? <==> b.Some?)
    && (b.Some? ==> b.value != [] && b.value[0].Par? && best == Reach(t, n, b.value)
                    && bestState == State(Captured(rest, b.value[1..], Put(state.captures, b.value[0].name, segment)),
                                          state.depth + |b.value| - 1))
  }

  // ---------------------------------------------------------------- searching and inserting

  ghost predicate IsLowerBound(t: Trie, children: seq<nat>, name: string, i: nat)
    requires Within(children, |t|)
  {
    && i <= |children|
    && (forall j :: 0 <= j < i ==> Less(t[children[j]].name, name))
    && (forall j :: i <= j < |children| ==> !Less(t[children[j]].name, name))
  }

  lemma SearchAgrees(t: Trie, children: seq<nat>, name: string, i: nat)
    requires Within(children, |t|) && Sorted(t, children) && IsLowerBound(t, children, name, i)
    ensures Find(t, children, name) == if i < |children| && t[children[i]].name == name then Some(children[i]) else None
  {
    LessIrreflexive(name);
    forall j | i < j < |children| ensures t[children[j]].name != name {
      assert Less(t[children[i]].name, t[children[j]].name);
    }
  }

  lemma FindUnique(t: Trie, children: seq<nat>, k: nat)
    requires Within(children, |t|) && Distinct(t, children) && k < |children|
    ensures Find(t, children, t[children[k]].name) == Some(children[k])
  {
  }

  predicate SameNames(t: Trie, t': Trie) {
    |t| <= |t'| && forall m :: 0 <= m < |t| ==> t'[m].name == t[m].name
  }

  lemma {:induction false} FindFrame(t: Trie, t': Trie, children: seq<nat>, name: string)
    requires Within(children, |t|) && SameNames(t, t')
    ensures Position(t', children, name) == Position(t, children, name)
    ensures Find(t', children, name) == Find(t, children, name)
  {
    if children == [] {
    } else {
      FindFrame(t, t', children[1..], name);
    }
  }

  lemma SortedIsDistinct(t: Trie, children: seq<nat>)
    requires Within(children, |t|) && Sorted(t, children)
    ensures Distinct(t, children)
  {
    forall i, j | 0 <= i < j < |children| ensures t[children[i]].name != t[children[j]].name {
      LessIrreflexive(t[children[i]].name);
    }
  }

  /** Inserting a new name into distinct siblings adds one result and keeps the others. */
  lemma FindInserted(t: Trie, children: seq<nat>, i: nat, c: nat, name: string)
    requires Within(children, |t|) && i <= |children| && c < |t| && Distinct(t, children[..i] + [c] + children[i..])
    requires Distinct(t, children)
    ensures Find(t, children[..i] + [c] + children[i..], name) ==
            if name == t[c].name then Some(c) else Find(t, children, name)
  {
    var all := children[..i] + [c] + children[i..];
    FindUnique(t, all, i);
    var k := Position(t, children, name);
    if k < |children| {
      var k' := if k < i then k else k + 1;
      assert all[k'] == children[k];
      FindUnique(t, all, k');
    } else if name != t[c].name {
      forall j | 0 <= j < |all| ensures t[all[j]].name != name {
        assert all[j] == if j < i then children[j] else if j == i then c else children[j - 1];
      }
    }
  }

  lemma SortedInserted(t: Trie, children: seq<nat>, i: nat, c: nat)
    requires Within(children, |t|) && c < |t| && Sorted(t, children) && IsLowerBound(t, children, t[c].name, i)
    requires Find(t, children, t[c].name).None?
    ensures Within(children[..i] + [c] + children[i..], |t|) && Sorted(t, children[..i] + [c] + children[i..])
  {
    forall j | i <= j < |children| ensures Less(t[c].name, t[children[j]].name) {
      LessTotal(t[c].name, t[children[j]].name);
    }
  }

  lemma NewNodeClosed(t: Trie, n: nat, node: Node, part: Part)
    requires Closed(t) && n < |t| && NodeClosed(node, n, |t| + 1)
    ensures Closed(t[n := node] + [Leaf(part)])
  {
    var t' := t[n := node] + [Leaf(part)];
    forall m | 0 <= m < |t'| ensures NodeClosed(t'[m], m, |t'|) {
      if m < |t| && m != n { assert NodeClosed(t[m], m, |t|); }
    }
  }

  ghost predicate SameSteps(t: Trie, t': Trie, m: nat)
    requires Closed(t) && Closed(t') && m < |t| <= |t'|
  {
    forall p :: StepTo(t', m, p) == StepTo(t, m, p)
  }

  /** A node with the same children, all of the same names. */
  lemma UnchangedNode(t: Trie, t': Trie, m: nat)
    requires Valid(t) && Closed(t') && SameNames(t, t') && m < |t|
    requires t'[m].statics == t[m].statics && t'[m].params == t[m].params && t'[m].wildcard == t[m].wildcard
    ensures Siblings(t', m) && SameSteps(t, t', m)
  {
    assert Siblings(t, m) && NodeClosed(t[m], m, |t|);
    forall p ensures StepTo(t', m, p) == StepTo(t, m, p) {
      if p.Lit? { FindFrame(t, t', t[m].statics, p.name); }
      if p.Par? { FindFrame(t, t', t[m].params, p.name); }
    }
  }

  lemma OtherNodesKept(t: Trie, n: nat, node: Node, part: Part)
    requires Valid(t) && n < |t| && node.name == t[n].name && Closed(t[n := node] + [Leaf(part)])
    ensures var t' := t[n := node] + [Leaf(part)];
            forall m: nat :: m < |t| && m != n ==> Siblings(t', m) && SameSteps(t, t', m)
  {
    var t' := t[n := node] + [Leaf(part)];
    forall m: nat | m < |t| && m != n ensures Siblings(t', m) && SameSteps(t, t', m) { UnchangedNode(t, t', m); }
  }

  /** What remains to be shown about the changed node is enough. */
  lemma ChildAdded(t: Trie, n: nat, node: Node, part: Part)
    requires Valid(t) && n < |t| && node.name == t[n].name && node.accepts == t[n].accepts
    requires StepTo(t, n, part).None? && Closed(t[n := node] + [Leaf(part)])
    requires var t' := t[n := node] + [Leaf(part)];
             Siblings(t', n) && forall p :: StepTo(t', n, p) == if p == part then Some(|t|) else StepTo(t, n, p)
    ensures var t' := t[n := node] + [Leaf(part)];
            Valid(t') && Grown(t, t', n, part, |t|)
  {
    var t' := t[n := node] + [Leaf(part)];
    OtherNodesKept(t, n, node, part);
    assert Grown(t, t', n, part, |t|) by {
      forall m, p | 0 <= m < |t| && (m != n || p != part) ensures StepTo(t', m, p) == StepTo(t, m, p) {
        if m != n { assert SameSteps(t, t', m); }
      }
    }
    GrownKeepsOneParent(t, t', n, part, |t|);
  }

  lemma StaticAdded(t: Trie, n: nat, name: string, i: nat)
    requires Valid(t) && n < |t| && StepTo(t, n, Lit(name)).None? && NodeClosed(t[n], n, |t|)
    requires IsLowerBound(t, t[n].statics, name, i)
    ensures var t' := t[n := t[n].(statics := t[n].statics[..i] + [|t|] + t[n].statics[i..])] + [Leaf(Lit(name))];
            Valid(t') && Grown(t, t', n, Lit(name), |t|)
  {
    var node := t[n].(statics := t[n].statics[..i] + [|t|] + t[n].statics[i..]);
    var t' := t[n := node] + [Leaf(Lit(name))];
    StaticSiblings(t, n, name, i, node, t');
    forall p ensures StepTo(t', n, p) == if p == Lit(name) then Some(|t|) else StepTo(t, n, p) {
      StaticStep(t, n, name, i, t', p);
    }
    ChildAdded(t, n, node, Lit(name));
  }

  lemma StaticSiblings(t: Trie, n: nat, name: string, i: nat, node: Node, t': Trie)
    requires Closed(t) && n < |t| && Siblings(t, n) && StepTo(t, n, Lit(name)).None? && NodeClosed(t[n], n, |t|)
    requires IsLowerBound(t, t[n].statics, name, i) && t' == t[n := node] + [Leaf(Lit(name))]
    requires node == t[n].(statics := t[n].statics[..i] + [|t|] + t[n].statics[i..])
    ensures Closed(t') && Siblings(t', n) && SameNames(t, t')
    ensures Distinct(t', t[n].statics) && Distinct(t', node.statics)
  {
    var statics := t[n].statics;
    NewNodeClosed(t, n, node, Lit(name));
    assert SameNames(t, t');
    FindFrame(t, t', statics, name);
    SortedInserted(t', statics, i, |t|);
    SortedIsDistinct(t', statics);
    SortedIsDistinct(t', node.statics);
  }

  /** The steps from the parent of the new child. */
  lemma StaticStep(t: Trie, n: nat, name: string, i: nat, t': Trie, p: Part)
    requires Closed(t) && n < |t| && NodeClosed(t[n], n, |t|) && i <= |t[n].statics|
    requires t' == t[n := t[n].(statics := t[n].statics[..i] + [|t|] + t[n].statics[i..])] + [Leaf(Lit(name))]
    requires Closed(t') && SameNames(t, t') && Distinct(t', t[n].statics) && Distinct(t', t'[n].statics)
    ensures StepTo(t', n, p) == if p == Lit(name) then Some(|t|) else StepTo(t, n, p)
  {
    if p.Lit? {
      FindInserted(t', t[n].statics, i, |t|, p.name);
      FindFrame(t, t', t[n].statics, p.name);
    } else if p.Par? {
      FindFrame(t, t', t[n].params, p.name);
    }
  }

  lemma ParamAdded(t: Trie, n: nat, name: string)
    requires Valid(t) && n < |t| && StepTo(t, n, Par(name)).None?
    ensures var t' := t[n := t[n].(params := t[n].params + [|t|])] + [Leaf(Par(name))];
            Valid(t') && Grown(t, t', n, Par(name), |t|)
  {
    var params := t[n].params;
    var node := t[n].(params := params + [|t|]);
    var t' := t[n := node] + [Leaf(Par(name))];
    assert Siblings(t, n) && NodeClosed(t[n], n, |t|);
    NewNodeClosed(t, n, node, Par(name));
    assert SameNames(t, t');
    assert params[..|params|] + [|t|] + params[|params|..] == node.params;
    forall p ensures StepTo(t', n, p) == if p == Par(name) then Some(|t|) else StepTo(t, n, p) {
      if p.Par? { FindInserted(t', params, |params|, |t|, p.name); FindFrame(t, t', params, p.name); }
      if p.Lit? { FindFrame(t, t', t[n].statics, p.name); }
    }
    ChildAdded(t, n, node, Par(name));
  }

  lemma WildcardAdded(t: Trie, n: nat)
    requires Valid(t) && n < |t| && t[n].wildcard.None?
    ensures var t' := t[n := t[n].(wildcard := Some(|t|))] + [Leaf(Wild)];
            Valid(t') && Grown(t, t', n, Wild, |t|)
  {
    var node := t[n].(wildcard := Some(|t|));
    var t' := t[n := node] + [Leaf(Wild)];
    assert Siblings(t, n) && NodeClosed(t[n], n, |t|);
    NewNodeClosed(t, n, node, Wild);
    assert SameNames(t, t');
    forall p ensures StepTo(t', n, p) == if p == Wild then Some(|t|) else StepTo(t, n, p) {
      if p.Par? { FindFrame(t, t', t[n].params, p.name); }
      if p.Lit? { FindFrame(t, t', t[n].statics, p.name); }
    }
    ChildAdded(t, n, node, Wild);
  }

  lemma PredicateKeepsShape(t: Trie, c: nat, accepts: string -> bool)
    requires Valid(t) && c < |t|
    ensures Valid(t[c := t[c].(accepts := accepts)]) && StepsKept(t, t[c := t[c].(accepts := accepts)])
  {
    var t' := t[c := t[c].(accepts := accepts)];
    forall m | 0 <= m < |t| ensures NodeClosed(t'[m], m, |t'|) { assert NodeClosed(t[m], m, |t|); }
    forall m | 0 <= m < |t| ensures Siblings(t', m) && SameSteps(t, t', m) { UnchangedNode(t, t', m); }
    OneParentKept(t, t');
  }

  lemma OneParentKept(t: Trie, t': Trie)
    requires Valid(t) && Closed(t') && |t| == |t'| && forall m :: 0 <= m < |t| ==> SameSteps(t, t', m)
    ensures StepsKept(t, t') && forall m, n, p, q :: 0 <= m < |t'| && 0 <= n < |t'| ==> OneParent(t', m, n, p, q)
  {
    forall m, n, p, q | 0 <= m < |t| && 0 <= n < |t| ensures OneParent(t', m, n, p, q) {
      assert OneParent(t, m, n, p, q) && SameSteps(t, t', m) && SameSteps(t, t', n);
    }
    forall m, p | 0 <= m < |t| && StepTo(t, m, p).Some? ensures StepTo(t', m, p) == StepTo(t, m, p) {
      assert SameSteps(t, t', m);
    }
  }

  // ---------------------------------------------------------------- captures and branches

  lemma {:induction false} PutFound(items: Captures, i: nat, key: string, value: string)
    requires i < |items| && items[i].0 == key && forall j :: 0 <= j < i ==> items[j].0 != key
    ensures Put(items, key, value) == items[i := (key, value)]
    decreases i
  {
    if i == 0 {
    } else {
      PutFound(items[1..], i - 1, key, value);
    }
  }

  lemma {:induction false} PutNew(items: Captures, key: string, value: string)
    requires forall j :: 0 <= j < |items| ==> items[j].0 != key
    ensures Put(items, key, value) == items + [(key, value)]
  {
    if items == [] {
    } else {
      PutNew(items[1..], key, value);
    }
  }
}
