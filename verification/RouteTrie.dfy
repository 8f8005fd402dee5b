/** The routing trie: one node per path segment, static children sorted by name, parameter
    children in registration order, at most one wildcard. Nodes live in a sequence and refer to
    each other by index, the root being node 0. */
module RouteTrie {
  import opened Bytes

  /** Lexicographic order on names. */
  predicate Less(a: string, b: string) {
    b != "" && (a == "" || a[0] < b[0] || (a[0] == b[0] && Less(a[1..], b[1..])))
  }

  lemma {:induction false} LessTransitive(a: string, b: string, c: string)
    requires Less(a, b) && Less(b, c)
    ensures Less(a, c)
  {
    if a != "" && a[0] == b[0] && b[0] == c[0] { LessTransitive(a[1..], b[1..], c[1..]); }
  }

  lemma {:induction false} LessIrreflexive(a: string)
    ensures !Less(a, a)
  {
    if a == "" {
    } else {
      LessIrreflexive(a[1..]);
    }
  }

  lemma {:induction false} LessTotal(a: string, b: string)
    ensures a == b || Less(a, b) || Less(b, a)
  {
    if a != "" && b != "" && a[0] == b[0] {
      LessTotal(a[1..], b[1..]);
      assert a == [a[0]] + a[1..] && b == [b[0]] + b[1..];
    }
  }

  /** One segment of a registered path. */
  datatype Part = Lit(name: string) | Par(name: string) | Wild

  datatype Node = Node(
    name: string,
    accepts: string -> bool,
    statics: seq<nat>,
    params: seq<nat>,
    wildcard: Option<nat>)

  type Trie = seq<Node>

  const ANY: string -> bool := s => true

  function NameOf(part: Part): string { if part.Wild? then "*" else part.name }

  function Leaf(part: Part): Node { Node(NameOf(part), ANY, [], [], None) }

  const ROOT: Trie := [Node("", ANY, [], [], None)]

  // ---------------------------------------------------------------- structure

  predicate Within(children: seq<nat>, size: nat) {
    forall i :: 0 <= i < |children| ==> children[i] < size
  }

  predicate InRange(children: seq<nat>, n: nat, size: nat) {
    forall i :: 0 <= i < |children| ==> n < children[i] < size
  }

  /** Children come after their parents. */
  predicate NodeClosed(node: Node, n: nat, size: nat) {
    && InRange(node.statics, n, size) && InRange(node.params, n, size)
    && (node.wildcard.Some? ==> n < node.wildcard.value < size)
  }

  predicate Closed(t: Trie) { forall n :: 0 <= n < |t| ==> NodeClosed(t[n], n, |t|) }

  predicate Sorted(t: Trie, children: seq<nat>)
    requires Within(children, |t|)
  {
    forall i, j :: 0 <= i < j < |children| ==> Less(t[children[i]].name, t[children[j]].name)
  }

  predicate Distinct(t: Trie, children: seq<nat>)
    requires Within(children, |t|)
  {
    forall i, j :: 0 <= i < j < |children| ==> t[children[i]].name != t[children[j]].name
  }

  /** Index of the first child with this name, or the number of children. */
  function Position(t: Trie, children: seq<nat>, name: string): (i: nat)
    requires Within(children, |t|)
    ensures i <= |children| && (i < |children| ==> t[children[i]].name == name)
    ensures forall j :: 0 <= j < i ==> t[children[j]].name != name
  {
    if children == [] || t[children[0]].name == name then 0 else 1 + Position(t, children[1..], name)
  }

  function Find(t: Trie, children: seq<nat>, name: string): (r: Option<nat>)
    requires Within(children, |t|)
    ensures r.Some? ==> r.value in children && r.value < |t| && t[r.value].name == name
    ensures r.None? ==> forall i :: 0 <= i < |children| ==> t[children[i]].name != name
  {
    var i := Position(t, children, name);
    if i < |children| then Some(children[i]) else None
  }

  /** The child of `n` for one part. */
  function StepTo(t: Trie, n: nat, part: Part): (r: Option<nat>)
    requires Closed(t) && n < |t|
    ensures r.Some? ==> n < r.value < |t|
  {
    assert NodeClosed(t[n], n, |t|);
    match part
    case Lit(name) => Find(t, t[n].statics, name)
    case Par(name) => Find(t, t[n].params, name)
    case Wild => t[n].wildcard
  }

  /** The node a sequence of parts leads to. */
  function Reach(t: Trie, n: nat, key: seq<Part>): (r: Option<nat>)
    requires Closed(t) && n < |t|
    ensures r.Some? ==> n <= r.value < |t| && (key != [] ==> n < r.value)
    decreases key
  {
    if key == [] then Some(n)
    else
      match StepTo(t, n, key[0])
      case None => None
      case Some(c) => Reach(t, c, key[1..])
  }

  /** Siblings are sorted or at least distinct, and every node has one parent. */
  ghost predicate Valid(t: Trie) {
    && t != [] && Closed(t)
    && (forall n :: 0 <= n < |t| ==> Siblings(t, n))
    && (forall m, n, p, q :: 0 <= m < |t| && 0 <= n < |t| ==> OneParent(t, m, n, p, q))
  }

  ghost predicate OneParent(t: Trie, m: nat, n: nat, p: Part, q: Part)
    requires Closed(t) && m < |t| && n < |t|
  {
    StepTo(t, m, p).Some? && StepTo(t, m, p) == StepTo(t, n, q) ==> m == n && p == q
  }

  predicate Siblings(t: Trie, n: nat)
    requires Closed(t) && n < |t|
  {
    assert NodeClosed(t[n], n, |t|);
    Sorted(t, t[n].statics) && Distinct(t, t[n].params)
  }

  // ---------------------------------------------------------------- reaching nodes

  lemma ReachCons(t: Trie, n: nat, part: Part, key: seq<Part>)
    requires Closed(t) && n < |t|
    ensures ([part] + key)[0] == part && ([part] + key)[1..] == key
    ensures Reach(t, n, [part] + key) ==
            if StepTo(t, n, part).Some? then Reach(t, StepTo(t, n, part).value, key) else None
  {
    assert ([part] + key)[1..] == key;
  }

  lemma {:induction false} ReachSnoc(t: Trie, n: nat, key: seq<Part>, part: Part)
    requires Closed(t) && n < |t|
    ensures Reach(t, n, key + [part]) ==
            if Reach(t, n, key).Some? then StepTo(t, Reach(t, n, key).value, part) else None
    decreases key
  {
    if key == [] {
      assert key + [part] == [part];
      assert [part][1..] == [];
    } else {
      assert (key + [part])[1..] == key[1..] + [part];
      if StepTo(t, n, key[0]).Some? { ReachSnoc(t, StepTo(t, n, key[0]).value, key[1..], part); }
    }
  }

  /** No two ways lead to the same node. */
  lemma {:induction false} ReachUnique(t: Trie, n: nat, j: seq<Part>, k: seq<Part>)
    requires Valid(t) && n < |t| && Reach(t, n, j).Some? && Reach(t, n, j) == Reach(t, n, k)
    ensures j == k
    decreases |j|
  {
    if j != [] && k != [] {
      var j', p, k', q := j[..|j| - 1], j[|j| - 1], k[..|k| - 1], k[|k| - 1];
      assert j == j' + [p] && k == k' + [q];
      ReachSnoc(t, n, j', p);
      ReachSnoc(t, n, k', q);
      assert OneParent(t, Reach(t, n, j').value, Reach(t, n, k').value, p, q);
      ReachUnique(t, n, j', k');
    }
  }

  // ---------------------------------------------------------------- growth

  /** `t'` is `t` with a new child `c` of `n` for `part`, and nothing else changed. */
  ghost predicate Grown(t: Trie, t': Trie, n: nat, part: Part, c: nat)
    requires Closed(t) && Closed(t') && n < |t|
  {
    && c == |t| && |t'| == |t| + 1 && t'[c] == Leaf(part)
    && StepTo(t, n, part).None? && StepTo(t', n, part) == Some(c)
    && (forall m :: 0 <= m < |t| ==> t'[m].name == t[m].name && t'[m].accepts == t[m].accepts)
    && (forall m, p :: 0 <= m < |t| && (m != n || p != part) ==> StepTo(t', m, p) == StepTo(t, m, p))
  }

  /** What finding or creating a child may do. */
  ghost predicate Added(t: Trie, t': Trie, n: nat, part: Part, c: nat)
    requires Closed(t) && Closed(t') && n < |t|
  {
    (StepTo(t, n, part) == Some(c) && t' == t) || Grown(t, t', n, part, c)
  }

  lemma LeafHasNoSteps(t: Trie, c: nat, part: Part, p: Part)
    requires Closed(t) && c < |t| && t[c] == Leaf(part)
    ensures StepTo(t, c, p).None?
  {
  }

  lemma GrownKeepsOneParent(t: Trie, t': Trie, n: nat, part: Part, c: nat)
    requires Valid(t) && Closed(t') && n < |t| && Grown(t, t', n, part, c)
    ensures forall a, b, p, q :: 0 <= a < |t'| && 0 <= b < |t'| ==> OneParent(t', a, b, p, q)
  {
    forall a, b, p, q | 0 <= a < |t'| && 0 <= b < |t'| ensures OneParent(t', a, b, p, q) {
      if a == c { LeafHasNoSteps(t', c, part, p); }
      else if b == c { LeafHasNoSteps(t', c, part, q); }
      else { assert OneParent(t, a, b, p, q); }
    }
  }

  lemma {:induction false} ReachGrown(t: Trie, t': Trie, n: nat, done: seq<Part>, m: nat, part: Part, c: nat,
                                      key: seq<Part>)
    requires Valid(t) && Closed(t') && n < |t| && m < |t| && Grown(t, t', m, part, c) && Reach(t, n, done) == Some(m)
    ensures Reach(t', n, key) == if key == done + [part] then Some(c) else Reach(t, n, key)
    decreases |key|
  {
    if key == [] {
    } else {
      var k, p := key[..|key| - 1], key[|key| - 1];
      assert key == k + [p];
      ReachGrown(t, t', n, done, m, part, c, k);
      ReachSnoc(t, n, k, p);
      ReachSnoc(t', n, k, p);
      if k == done + [part] {
        LeafHasNoSteps(t', c, part, p);
        ReachSnoc(t, n, done, part);
      } else if Reach(t, n, k) == Some(m) {
        ReachUnique(t, n, k, done);
      } else if k == done {
        assert false;
      }
    }
  }

  // ---------------------------------------------------------------- paths

  function Strip(path: string): string { if path != "" && path[0] == '/' then path[1..] else path }

  function SlashAt(path: string): (i: nat)
    ensures i <= |path| && (i < |path| ==> path[i] == '/') && forall j :: 0 <= j < i ==> path[j] != '/'
  {
    if path == "" || path[0] == '/' then 0 else 1 + SlashAt(path[1..])
  }

  function Segment(path: string): string { path[..SlashAt(path)] }

  function Rest(path: string): string { if SlashAt(path) < |path| then path[SlashAt(path) + 1..] else "" }

  function PartOf(segment: string): Part {
    if segment == "" || segment == "*" then Wild else if segment[0] == ':' then Par(segment) else Lit(segment)
  }

  /** The parts of a path without its leading slash; nothing after a wildcard counts. */
  function PartsOf(path: string): seq<Part>
    decreases |path|
  {
    if path == "" then []
    else if PartOf(Segment(path)).Wild? then [Wild]
    else [PartOf(Segment(path))] + PartsOf(Rest(path))
  }

  function Parts(path: string): seq<Part> { PartsOf(Strip(path)) }

  lemma PartsStep(done: seq<Part>, path: string)
    requires path != ""
    ensures var part := PartOf(Segment(path));
            done + PartsOf(path) == if part.Wild? then done + [Wild] else done + [part] + PartsOf(Rest(path))
  {
  }

  // ---------------------------------------------------------------- registration

  /** Nodes and steps are never lost, and predicates stay as they are. */
  ghost predicate Extends(t: Trie, t': Trie)
    requires Closed(t) && Closed(t')
  {
    && StepsKept(t, t')
    && (forall m :: 0 <= m < |t| ==> t'[m].name == t[m].name && t'[m].accepts == t[m].accepts)
    && (forall m :: |t| <= m < |t'| ==> t'[m].accepts == ANY)
  }

  ghost predicate StepsKept(t: Trie, t': Trie) {
    && Closed(t) && Closed(t') && |t| <= |t'|
    && forall m, p :: 0 <= m < |t| && StepTo(t, m, p).Some? ==> StepTo(t', m, p) == StepTo(t, m, p)
  }

  /** What registering `parts` below `n` does: exactly its prefixes become reachable. */
  ghost predicate Registered(t: Trie, t': Trie, n: nat, parts: seq<Part>) {
    && Valid(t) && Valid(t') && n < |t| && Extends(t, t')
    && (Reach(t, n, parts).Some? ==> t' == t)
    && NewKeys(t, t', n, parts)
  }

  /** And `c` is where they lead. */
  ghost predicate RegisteredAt(t: Trie, t': Trie, n: nat, parts: seq<Part>, c: nat) {
    forall k :: k == parts ==> Registered(t, t', n, k) && Reach(t', n, k) == Some(c)
  }

  ghost predicate NewKeys(t: Trie, t': Trie, n: nat, parts: seq<Part>)
    requires Closed(t) && Closed(t') && n < |t| <= |t'|
  {
    forall key :: Reach(t', n, key).Some? <==> Reach(t, n, key).Some? || key <= parts
  }

  lemma RegisteredNothing(t: Trie, n: nat)
    requires Valid(t) && n < |t|
    ensures RegisteredAt(t, t, n, [], n)
  {
  }

  lemma PrefixSnoc(key: seq<Part>, done: seq<Part>, part: Part)
    ensures key <= done + [part] <==> key <= done || key == done + [part]
  {
  }

  lemma NewKeysOneMore(t: Trie, u: Trie, t': Trie, n: nat, done: seq<Part>, m: nat, part: Part, c: nat)
    requires Closed(t) && Valid(u) && Closed(t') && n < |t| <= |u| && NewKeys(t, u, n, done)
    requires Reach(u, n, done) == Some(m) && Added(u, t', m, part, c)
    ensures |u| <= |t'| && NewKeys(t, t', n, done + [part]) && Reach(t', n, done + [part]) == Some(c)
  {
    ReachSnoc(u, n, done, part);
    forall key ensures Reach(t', n, key).Some? <==> Reach(t, n, key).Some? || key <= done + [part] {
      PrefixSnoc(key, done, part);
      assert Reach(u, n, key).Some? <==> Reach(t, n, key).Some? || key <= done;
      if t' != u { ReachGrown(u, t', n, done, m, part, c, key); }
    }
    if t' != u { ReachGrown(u, t', n, done, m, part, c, done + [part]); }
  }

  lemma AddedExtends(t: Trie, u: Trie, t': Trie, m: nat, part: Part, c: nat)
    requires Closed(t) && Closed(u) && Closed(t') && Extends(t, u) && m < |u| && Added(u, t', m, part, c)
    ensures Extends(t, t')
  {
  }

  /** One more part. */
  lemma RegisteredOneMore(t: Trie, u: Trie, t': Trie, n: nat, done: seq<Part>, m: nat, part: Part, c: nat)
    requires RegisteredAt(t, u, n, done, m) && Valid(u) && Valid(t') && m < |u| && Added(u, t', m, part, c)
    ensures RegisteredAt(t, t', n, done + [part], c)
  {
    assert Registered(t, u, n, done);
    NewKeysOneMore(t, u, t', n, done, m, part, c);
    AddedExtends(t, u, t', m, part, c);
    ReachSnoc(t, n, done, part);
  }

  /** Everything reachable stays reachable, at the same node. */
  lemma {:induction false} ReachKept(t: Trie, t': Trie, n: nat, key: seq<Part>)
    requires StepsKept(t, t') && n < |t| && Reach(t, n, key).Some?
    ensures Reach(t', n, key) == Reach(t, n, key)
    decreases key
  {
    if key == [] {
    } else {
      ReachKept(t, t', StepTo(t, n, key[0]).value, key[1..]);
    }
  }
}
