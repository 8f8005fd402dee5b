/** Matching a request path against the trie: the branch that is taken, stated as a recursive
    choice and as a declarative preference among all branches that consume the path. */
module RouteMatch {
  import opened Bytes
  import opened RouteTrie

  type Branch = seq<Part>

  /** A way through the trie that consumes the whole path. */
  ghost predicate Accepts(t: Trie, n: nat, path: string, b: Branch)
    requires Closed(t) && n < |t|
    decreases |path|
  {
    var p := Strip(path);
    if p == "" then b == []
    else
      && b != [] && StepTo(t, n, b[0]).Some?
      && var c := StepTo(t, n, b[0]).value;
      match b[0]
      case Lit(name) => name == Segment(p) && Accepts(t, c, Rest(p), b[1..])
      case Par(_) => t[c].accepts(Segment(p)) && Accepts(t, c, Rest(p), b[1..])
      case Wild => b == [Wild]
  }

  /** Declaratively: the static subtree if it matches at all, else the first registered among the
      deepest accepting parameter branches, else the wildcard; and so on below. */
  ghost predicate Preferred(t: Trie, n: nat, path: string, b: Branch)
    requires Closed(t) && n < |t|
    decreases |path|
  {
    && Accepts(t, n, path, b)
    && var p := Strip(path);
    (p != "" ==>
       && (!b[0].Wild? ==> Preferred(t, StepTo(t, n, b[0]).value, Rest(p), b[1..]))
       && (!b[0].Lit? ==> forall a: Branch :: Accepts(t, n, path, a) ==> !a[0].Lit?)
       && (b[0].Par? ==>
             forall a: Branch :: Accepts(t, n, path, a) && a[0].Par?
                                 && Preferred(t, StepTo(t, n, a[0]).value, Rest(p), a[1..]) ==>
                                   |a| < |b| || (|a| == |b| && Rank(t, n, b[0]) <= Rank(t, n, a[0])))
       && (b[0].Wild? ==> forall a: Branch :: Accepts(t, n, path, a) ==> a[0].Wild?))
  }

  /** Registration rank of a parameter child. */
  function Rank(t: Trie, n: nat, part: Part): nat
    requires Closed(t) && n < |t| && part.Par?
  {
    assert NodeClosed(t[n], n, |t|);
    Position(t, t[n].params, part.name)
  }

  /** The branch the matcher takes. */
  function Pick(t: Trie, n: nat, path: string): (r: Option<Branch>)
    requires Closed(t) && n < |t|
    decreases |path|, 0
  {
    var p := Strip(path);
    if p == "" then Some([])
    else
      var viaStatic := PickStatic(t, n, Segment(p), Rest(p));
      var viaParam := PickParam(t, n, |t[n].params|, Segment(p), Rest(p));
      if viaStatic.Some? then viaStatic
      else if viaParam.Some? then viaParam
      else if t[n].wildcard.Some? then Some([Wild])
      else None
  }

  function PickStatic(t: Trie, n: nat, segment: string, rest: string): Option<Branch>
    requires Closed(t) && n < |t|
    decreases |rest|, 1
  {
    match StepTo(t, n, Lit(segment))
    case None => None
    case Some(c) =>
      match Pick(t, c, rest)
      case None => None
      case Some(b) => Some([Lit(segment)] + b)
  }

  /** The best among the first `k` parameter children: only a deeper match replaces an earlier one. */
  function PickParam(t: Trie, n: nat, k: nat, segment: string, rest: string): Option<Branch>
    requires Closed(t) && n < |t| && k <= |t[n].params|
    decreases |rest|, k + 1
  {
    if k == 0 then None
    else
      assert NodeClosed(t[n], n, |t|);
      var best := PickParam(t, n, k - 1, segment, rest);
      var one := Candidate(t, t[n].params[k - 1], segment, rest);
      if one.Some? && (best.None? || |one.value| > |best.value|) then one else best
  }

  function Candidate(t: Trie, c: nat, segment: string, rest: string): Option<Branch>
    requires Closed(t) && c < |t|
    decreases |rest|, 1
  {
    if !t[c].accepts(segment) then None
    else
      match Pick(t, c, rest)
      case None => None
      case Some(b) => Some([Par(t[c].name)] + b)
  }

  // ---------------------------------------------------------------- the choice is the preferred branch

  function Param(t: Trie, n: nat, i: nat): (c: nat)
    requires Closed(t) && n < |t| && i < |t[n].params|
    ensures n < c < |t|
  {
    assert NodeClosed(t[n], n, |t|);
    t[n].params[i]
  }

  /** The winner is deepest, and the first of the deepest. */
  ghost predicate Wins(t: Trie, n: nat, k: nat, segment: string, rest: string, i: nat, b: Branch)
    requires Closed(t) && n < |t| && k <= |t[n].params|
  {
    && i < k && Candidate(t, Param(t, n, i), segment, rest) == Some(b)
    && forall j :: 0 <= j < k ==>
                     var other := Candidate(t, Param(t, n, j), segment, rest);
                     other.Some? ==> |other.value| < |b| || (|other.value| == |b| && i <= j)
  }

  lemma {:induction false} ParamWinner(t: Trie, n: nat, k: nat, segment: string, rest: string)
    requires Closed(t) && n < |t| && k <= |t[n].params|
    ensures var r := PickParam(t, n, k, segment, rest);
            && (r.None? ==> forall j :: 0 <= j < k ==> Candidate(t, Param(t, n, j), segment, rest).None?)
            && (r.Some? ==> exists i: nat :: Wins(t, n, k, segment, rest, i, r.value))
  {
    if k == 0 {
    } else {
      ParamWinner(t, n, k - 1, segment, rest);
      var best := PickParam(t, n, k - 1, segment, rest);
      var one := Candidate(t, Param(t, n, k - 1), segment, rest);
      if best.Some? {
        var i: nat :| Wins(t, n, k - 1, segment, rest, i, best.value);
        NextCandidate(t, n, k, segment, rest, i, best.value);
      } else if one.Some? {
        assert Wins(t, n, k, segment, rest, k - 1, one.value);
      }
    }
  }

  /** Only a deeper candidate replaces the winner. */
  lemma NextCandidate(t: Trie, n: nat, k: nat, segment: string, rest: string, i: nat, best: Branch)
    requires Closed(t) && n < |t| && 1 <= k <= |t[n].params| && Wins(t, n, k - 1, segment, rest, i, best)
    ensures var one := Candidate(t, Param(t, n, k - 1), segment, rest);
            if one.Some? && |one.value| > |best| then Wins(t, n, k, segment, rest, k - 1, one.value)
            else Wins(t, n, k, segment, rest, i, best)
  {
  }

  lemma ParamStep(t: Trie, n: nat, i: nat)
    requires Valid(t) && n < |t| && i < |t[n].params|
    ensures StepTo(t, n, Par(t[Param(t, n, i)].name)) == Some(Param(t, n, i))
    ensures Rank(t, n, Par(t[Param(t, n, i)].name)) == i
  {
    assert Siblings(t, n);
  }

  lemma ParamOfStep(t: Trie, n: nat, part: Part)
    requires Valid(t) && n < |t| && part.Par? && StepTo(t, n, part).Some?
    ensures Rank(t, n, part) < |t[n].params| && Param(t, n, Rank(t, n, part)) == StepTo(t, n, part).value
    ensures t[StepTo(t, n, part).value].name == part.name
  {
  }

  ghost predicate Correct(t: Trie, n: nat, path: string)
    requires Closed(t) && n < |t|
  {
    && (Pick(t, n, path).None? ==> forall b: Branch :: !Accepts(t, n, path, b))
    && (Pick(t, n, path).Some? ==> Preferred(t, n, path, Pick(t, n, path).value))
    && (forall b: Branch :: Preferred(t, n, path, b) ==> Pick(t, n, path) == Some(b))
  }

  lemma AcceptsBelow(t: Trie, n: nat, path: string, b: Branch)
    requires Closed(t) && n < |t| && Strip(path) != "" && Accepts(t, n, path, b) && !b[0].Wild?
    ensures var p := Strip(path);
            var c := StepTo(t, n, b[0]).value;
            && b == [b[0]] + b[1..] && Accepts(t, c, Rest(p), b[1..])
            && (b[0].Lit? ==> b[0].name == Segment(p)) && (b[0].Par? ==> t[c].accepts(Segment(p)))
            && (Preferred(t, n, path, b) ==> Preferred(t, c, Rest(p), b[1..]))
  {
  }

  lemma StaticChoice(t: Trie, n: nat, path: string, b: Branch)
    requires Valid(t) && n < |t| && Strip(path) != "" && forall c: nat :: c < |t| ==> Correct(t, c, Rest(Strip(path)))
    ensures var p := Strip(path);
            var r := PickStatic(t, n, Segment(p), Rest(p));
            && (r.None? && Accepts(t, n, path, b) ==> !b[0].Lit?)
            && (r.Some? ==> Preferred(t, n, path, r.value))
            && (Preferred(t, n, path, b) && b[0].Lit? ==> r == Some(b))
  {
    var p := Strip(path);
    var part := Lit(Segment(p));
    if StepTo(t, n, part).Some? {
      var c := StepTo(t, n, part).value;
      assert Correct(t, c, Rest(p));
      if Pick(t, c, Rest(p)).Some? {
        var below := Pick(t, c, Rest(p)).value;
        assert ([part] + below)[1..] == below;
      }
      if Accepts(t, n, path, b) && b[0].Lit? { AcceptsBelow(t, n, path, b); }
    }
  }

  lemma ParamChoice(t: Trie, n: nat, path: string, b: Branch)
    requires Valid(t) && n < |t| && Strip(path) != "" && forall c: nat :: c < |t| ==> Correct(t, c, Rest(Strip(path)))
    requires Accepts(t, n, path, b) && b[0].Par?
    ensures var p := Strip(path);
            var c := StepTo(t, n, b[0]).value;
            var one := Candidate(t, c, Segment(p), Rest(p));
            && Param(t, n, Rank(t, n, b[0])) == c
            && one.Some? && (Preferred(t, c, Rest(p), b[1..]) ==> one == Some(b))
  {
    var p := Strip(path);
    ParamOfStep(t, n, b[0]);
    assert Correct(t, StepTo(t, n, b[0]).value, Rest(p));
    AcceptsBelow(t, n, path, b);
  }

  lemma CandidateAccepts(t: Trie, n: nat, path: string, i: nat)
    requires Valid(t) && n < |t| && Strip(path) != "" && forall c: nat :: c < |t| ==> Correct(t, c, Rest(Strip(path)))
    requires i < |t[n].params| && Candidate(t, Param(t, n, i), Segment(Strip(path)), Rest(Strip(path))).Some?
    ensures var p := Strip(path);
            var b := Candidate(t, Param(t, n, i), Segment(p), Rest(p)).value;
            && Accepts(t, n, path, b) && b[0].Par? && StepTo(t, n, b[0]) == Some(Param(t, n, i))
            && Rank(t, n, b[0]) == i && Preferred(t, Param(t, n, i), Rest(p), b[1..])
  {
    var p := Strip(path);
    var c := Param(t, n, i);
    ParamStep(t, n, i);
    assert Correct(t, c, Rest(p));
    var below := Pick(t, c, Rest(p)).value;
    assert ([Par(t[c].name)] + below)[1..] == below;
  }

  /** Between two parameter branches, the preferred one wins the comparison of candidates. */
  lemma ParamPreferred(t: Trie, n: nat, path: string, b: Branch)
    requires Valid(t) && n < |t| && Strip(path) != "" && forall c: nat :: c < |t| ==> Correct(t, c, Rest(Strip(path)))
    requires forall a: Branch :: Accepts(t, n, path, a) ==> !a[0].Lit?
    ensures var p := Strip(path);
            var r := PickParam(t, n, |t[n].params|, Segment(p), Rest(p));
            && (r.None? && Accepts(t, n, path, b) ==> !b[0].Par?)
            && (r.Some? ==> Preferred(t, n, path, r.value) && r.value[0].Par?)
            && (Preferred(t, n, path, b) && b[0].Par? ==> r == Some(b))
  {
    if Accepts(t, n, path, b) && b[0].Par? { ParamFound(t, n, path, b); }
    if PickParam(t, n, |t[n].params|, Segment(Strip(path)), Rest(Strip(path))).Some? { ParamPicked(t, n, path); }
    if Preferred(t, n, path, b) && b[0].Par? { ParamUnique(t, n, path, b); }
  }

  lemma ParamFound(t: Trie, n: nat, path: string, b: Branch)
    requires Valid(t) && n < |t| && Strip(path) != "" && forall c: nat :: c < |t| ==> Correct(t, c, Rest(Strip(path)))
    requires Accepts(t, n, path, b) && b[0].Par?
    ensures PickParam(t, n, |t[n].params|, Segment(Strip(path)), Rest(Strip(path))).Some?
  {
    var p := Strip(path);
    ParamWinner(t, n, |t[n].params|, Segment(p), Rest(p));
    ParamChoice(t, n, path, b);
    ParamOfStep(t, n, b[0]);
  }

  lemma ParamPicked(t: Trie, n: nat, path: string)
    requires Valid(t) && n < |t| && Strip(path) != "" && forall c: nat :: c < |t| ==> Correct(t, c, Rest(Strip(path)))
    requires forall a: Branch :: Accepts(t, n, path, a) ==> !a[0].Lit?
    requires PickParam(t, n, |t[n].params|, Segment(Strip(path)), Rest(Strip(path))).Some?
    ensures var r := PickParam(t, n, |t[n].params|, Segment(Strip(path)), Rest(Strip(path))).value;
            Preferred(t, n, path, r) && r[0].Par?
  {
    var p, k := Strip(path), |t[n].params|;
    var r := PickParam(t, n, k, Segment(p), Rest(p)).value;
    ParamWinner(t, n, k, Segment(p), Rest(p));
    var i: nat :| Wins(t, n, k, Segment(p), Rest(p), i, r);
    CandidateAccepts(t, n, path, i);
    forall a: Branch | Accepts(t, n, path, a) && a[0].Par? && Preferred(t, StepTo(t, n, a[0]).value, Rest(p), a[1..])
      ensures |a| < |r| || (|a| == |r| && i <= Rank(t, n, a[0]))
    {
      ParamChoice(t, n, path, a);
      ParamOfStep(t, n, a[0]);
    }
  }

  lemma ParamUnique(t: Trie, n: nat, path: string, b: Branch)
    requires Valid(t) && n < |t| && Strip(path) != "" && forall c: nat :: c < |t| ==> Correct(t, c, Rest(Strip(path)))
    requires Preferred(t, n, path, b) && b[0].Par?
    ensures PickParam(t, n, |t[n].params|, Segment(Strip(path)), Rest(Strip(path))) == Some(b)
  {
    var p, k := Strip(path), |t[n].params|;
    ParamFound(t, n, path, b);
    var r := PickParam(t, n, k, Segment(p), Rest(p)).value;
    ParamWinner(t, n, k, Segment(p), Rest(p));
    var i: nat :| Wins(t, n, k, Segment(p), Rest(p), i, r);
    CandidateAccepts(t, n, path, i);
    PreferredBeats(t, n, path, b, r);
    ParamChoice(t, n, path, b);
    ParamOfStep(t, n, b[0]);
    SameWinner(t, n, k, Segment(p), Rest(p), i, r, Rank(t, n, b[0]), b);
  }

  lemma PreferredBeats(t: Trie, n: nat, path: string, b: Branch, a: Branch)
    requires Closed(t) && n < |t| && Strip(path) != "" && Preferred(t, n, path, b) && b[0].Par?
    requires Accepts(t, n, path, a) && a[0].Par? && Preferred(t, StepTo(t, n, a[0]).value, Rest(Strip(path)), a[1..])
    ensures |a| < |b| || (|a| == |b| && Rank(t, n, b[0]) <= Rank(t, n, a[0]))
    ensures Preferred(t, StepTo(t, n, b[0]).value, Rest(Strip(path)), b[1..])
  {
  }

  lemma SameWinner(t: Trie, n: nat, k: nat, segment: string, rest: string, i: nat, r: Branch, j: nat, b: Branch)
    requires Closed(t) && n < |t| && k <= |t[n].params| && Wins(t, n, k, segment, rest, i, r)
    requires j < k && Candidate(t, Param(t, n, j), segment, rest) == Some(b)
    requires |r| < |b| || (|r| == |b| && j <= i)
    ensures r == b
  {
  }

  /** The matcher takes exactly the preferred branch, and none iff there is none. */
  lemma {:induction false} PickIsPreferred(t: Trie, n: nat, path: string)
    requires Valid(t) && n < |t|
    ensures Correct(t, n, path)
    decreases |path|
  {
    var p := Strip(path);
    if p == "" {
    } else {
      forall c: nat | c < |t| ensures Correct(t, c, Rest(p)) { PickIsPreferred(t, c, Rest(p)); }
      PickCases(t, n, path);
    }
  }

  lemma PickCases(t: Trie, n: nat, path: string)
    requires Valid(t) && n < |t| && Strip(path) != "" && forall c: nat :: c < |t| ==> Correct(t, c, Rest(Strip(path)))
    ensures Correct(t, n, path)
  {
    var p := Strip(path);
    StaticChoice(t, n, path, []);
    if PickStatic(t, n, Segment(p), Rest(p)).Some? {
      var s := PickStatic(t, n, Segment(p), Rest(p)).value;
      forall b: Branch | Preferred(t, n, path, b) ensures Pick(t, n, path) == Some(b) {
        StaticChoice(t, n, path, b);
        assert Accepts(t, n, path, s) && s[0].Lit?;
      }
    } else {
      forall a: Branch | Accepts(t, n, path, a) ensures !a[0].Lit? { StaticChoice(t, n, path, a); }
      ParamCases(t, n, path);
    }
  }

  lemma ParamCases(t: Trie, n: nat, path: string)
    requires Valid(t) && n < |t| && Strip(path) != "" && forall c: nat :: c < |t| ==> Correct(t, c, Rest(Strip(path)))
    requires PickStatic(t, n, Segment(Strip(path)), Rest(Strip(path))).None?
    requires forall a: Branch :: Accepts(t, n, path, a) ==> !a[0].Lit?
    ensures Correct(t, n, path)
  {
    var p := Strip(path);
    var r := PickParam(t, n, |t[n].params|, Segment(p), Rest(p));
    ParamPreferred(t, n, path, []);
    if r.Some? {
      forall b: Branch | Preferred(t, n, path, b) ensures Pick(t, n, path) == Some(b) {
        ParamPreferred(t, n, path, b);
        assert Accepts(t, n, path, r.value) && r.value[0].Par?;
      }
    } else {
      forall a: Branch | Accepts(t, n, path, a) ensures a == [Wild] { ParamPreferred(t, n, path, a); }
      assert t[n].wildcard.Some? ==> Accepts(t, n, path, [Wild]);
    }
  }

  // ---------------------------------------------------------------- captures

  type Captures = seq<(string, string)>

  /** Overwrites the first entry for the key, or appends one. */
  function Put(items: Captures, key: string, value: string): Captures {
    if items == [] then [(key, value)]
    else if items[0].0 == key then [(key, value)] + items[1..]
    else [items[0]] + Put(items[1..], key, value)
  }

  function Lookup(items: Captures, key: string): Option<string> {
    if items == [] then None
    else if items[0].0 == key then Some(items[0].1)
    else Lookup(items[1..], key)
  }

  lemma {:induction false} LookupPut(items: Captures, key: string, value: string, other: string)
    ensures Lookup(Put(items, key, value), other) == if other == key then Some(value) else Lookup(items, other)
  {
    if items == [] {
    } else {
      LookupPut(items[1..], key, value, other);
      if items[0].0 == key { assert ([(key, value)] + items[1..])[1..] == items[1..]; }
      else { assert ([items[0]] + Put(items[1..], key, value))[1..] == Put(items[1..], key, value); }
    }
  }

  /** The captures after following a branch. */
  function Captured(path: string, b: Branch, captures: Captures): Captures
    decreases b
  {
    var p := Strip(path);
    if p == "" || b == [] then captures
    else
      match b[0]
      case Lit(_) => Captured(Rest(p), b[1..], captures)
      case Par(name) => Captured(Rest(p), b[1..], Put(captures, name, Segment(p)))
      case Wild => Put(captures, "*", p)
  }

  /** What the branch binds to a name: the segment of its last parameter of that name, or all that
      is left at the wildcard. */
  function Binding(path: string, b: Branch, key: string): Option<string>
    decreases b
  {
    var p := Strip(path);
    if p == "" || b == [] then None
    else if b[0].Wild? then (if key == "*" then Some(p) else None)
    else
      var later := Binding(Rest(p), b[1..], key);
      if later.Some? then later
      else if b[0] == Par(key) then Some(Segment(p))
      else None
  }

  /** Captures are exactly those of the branch, on top of what was there. */
  lemma {:induction false} CapturesAreBindings(path: string, b: Branch, captures: Captures, key: string)
    ensures Lookup(Captured(path, b, captures), key) ==
            if Binding(path, b, key).Some? then Binding(path, b, key) else Lookup(captures, key)
    decreases b
  {
    var p := Strip(path);
    if p != "" && b != [] {
      match b[0]
      case Lit(_) => CapturesAreBindings(Rest(p), b[1..], captures, key);
      case Par(name) =>
        CapturesAreBindings(Rest(p), b[1..], Put(captures, name, Segment(p)), key);
        LookupPut(captures, name, Segment(p), key);
      case Wild => LookupPut(captures, "*", p, key);
    }
  }

  // ---------------------------------------------------------------- literal paths

  predicate Literal(path: string)
    decreases |path|
  {
    path == "" || (PartOf(Segment(path)).Lit? && Literal(Rest(path)))
  }

  /** A literal path matches exactly the node registered for it, and captures nothing. */
  lemma {:induction false} LiteralPathMatches(t: Trie, n: nat, path: string, captures: Captures)
    requires Closed(t) && n < |t| && Literal(Strip(path)) && Reach(t, n, Parts(path)).Some?
    ensures Pick(t, n, path) == Some(Parts(path)) && Captured(path, Parts(path), captures) == captures
    decreases |path|
  {
    var p := Strip(path);
    if p == "" {
    } else {
      var part, rest := PartOf(Segment(p)), Rest(p);
      assert Strip(rest) == rest;
      assert PartsOf(p) == [part] + PartsOf(rest) && ([part] + PartsOf(rest))[1..] == PartsOf(rest);
      LiteralPathMatches(t, StepTo(t, n, part).value, rest, captures);
    }
  }

  /** Whatever else is registered, on whatever node and in whatever order. */
  lemma {:induction false} LiteralPathStaysMatched(ts: seq<Trie>, n: nat, path: string)
    requires ts != [] && Closed(ts[0]) && n < |ts[0]| && Literal(Strip(path)) && Reach(ts[0], n, Parts(path)).Some?
    requires forall i, j :: 0 <= i < j < |ts| && j == i + 1 ==> StepsKept(ts[i], ts[j])
    ensures var t := ts[|ts| - 1];
            && Closed(t) && n < |t| && Pick(t, n, path) == Some(Parts(path))
            && Reach(t, n, Parts(path)) == Reach(ts[0], n, Parts(path))
  {
    StaysReachable(ts, n, Parts(path));
    LiteralPathMatches(ts[|ts| - 1], n, path, []);
  }

  lemma {:induction false} StaysReachable(ts: seq<Trie>, n: nat, key: seq<Part>)
    requires ts != [] && Closed(ts[0]) && n < |ts[0]| && Reach(ts[0], n, key).Some?
    requires forall i, j :: 0 <= i < j < |ts| && j == i + 1 ==> StepsKept(ts[i], ts[j])
    ensures var t := ts[|ts| - 1];
            Closed(t) && n < |t| && Reach(t, n, key) == Reach(ts[0], n, key)
    decreases |ts|
  {
    var k := |ts| - 1;
    if k == 0 {
    } else {
      StaysReachable(ts[..k], n, key);
      assert StepsKept(ts[k - 1], ts[k]);
      ReachKept(ts[k - 1], ts[k], n, key);
    }
  }

  // ---------------------------------------------------------------- registration order

  /** The same parts lead somewhere from both nodes, under the same predicates. */
  ghost predicate SameKeys(t: Trie, n: nat, t': Trie, n': nat)
    requires Closed(t) && Closed(t') && n < |t| && n' < |t'|
  {
    forall key :: SameAt(t, n, t', n', key)
  }

  ghost predicate SameAt(t: Trie, n: nat, t': Trie, n': nat, key: seq<Part>)
    requires Closed(t) && Closed(t') && n < |t| && n' < |t'|
  {
    && (Reach(t, n, key).Some? <==> Reach(t', n', key).Some?)
    && (Reach(t, n, key).Some? ==> t[Reach(t, n, key).value].accepts == t'[Reach(t', n', key).value].accepts)
  }

  lemma SameKeysBelow(t: Trie, n: nat, t': Trie, n': nat, part: Part)
    requires Closed(t) && Closed(t') && n < |t| && n' < |t'| && SameKeys(t, n, t', n')
    ensures StepTo(t, n, part).Some? <==> StepTo(t', n', part).Some?
    ensures StepTo(t, n, part).Some? ==>
              var c, c' := StepTo(t, n, part).value, StepTo(t', n', part).value;
              t[c].accepts == t'[c'].accepts && SameKeys(t, c, t', c')
  {
    assert SameAt(t, n, t', n', [part] + []);
    ReachCons(t, n, part, []);
    ReachCons(t', n', part, []);
    if StepTo(t, n, part).Some? {
      var c, c' := StepTo(t, n, part).value, StepTo(t', n', part).value;
      forall key ensures SameAt(t, c, t', c', key) {
        assert SameAt(t, n, t', n', [part] + key);
        ReachCons(t, n, part, key);
        ReachCons(t', n', part, key);
      }
      assert SameAt(t, c, t', c', []);
    }
  }

  /** Length of the chosen branch; it is what the depth grows by. */
  function Depth(b: Option<Branch>): int { if b.Some? then |b.value| else -1 }

  /** The other trie has a parameter branch at least as deep. */
  lemma ParamDominated(t: Trie, n: nat, t': Trie, n': nat, segment: string, rest: string)
    requires Valid(t) && Valid(t') && n < |t| && n' < |t'| && SameKeys(t, n, t', n')
    requires forall c: nat, c': nat :: c < |t| && c' < |t'| && SameKeys(t, c, t', c') ==>
                                         Depth(Pick(t, c, rest)) == Depth(Pick(t', c', rest))
    ensures Depth(PickParam(t, n, |t[n].params|, segment, rest)) <=
            Depth(PickParam(t', n', |t'[n'].params|, segment, rest))
  {
    var k := |t[n].params|;
    var r := PickParam(t, n, k, segment, rest);
    if r.Some? {
      ParamWinner(t, n, k, segment, rest);
      var i: nat :| Wins(t, n, k, segment, rest, i, r.value);
      var j := SameCandidate(t, n, t', n', segment, rest, i);
      DeepestCandidate(t', n', segment, rest, j);
    }
  }

  /** A candidate has one of the same depth in the other trie. */
  lemma SameCandidate(t: Trie, n: nat, t': Trie, n': nat, segment: string, rest: string, i: nat) returns (j: nat)
    requires Valid(t) && Valid(t') && n < |t| && n' < |t'| && SameKeys(t, n, t', n') && i < |t[n].params|
    requires forall c: nat, c': nat :: c < |t| && c' < |t'| && SameKeys(t, c, t', c') ==>
                                         Depth(Pick(t, c, rest)) == Depth(Pick(t', c', rest))
    ensures j < |t'[n'].params|
    ensures Depth(Candidate(t', Param(t', n', j), segment, rest)) == Depth(Candidate(t, Param(t, n, i), segment, rest))
  {
    var c := Param(t, n, i);
    var part := Par(t[c].name);
    ParamStep(t, n, i);
    SameKeysBelow(t, n, t', n', part);
    ParamOfStep(t', n', part);
    j := Rank(t', n', part);
    assert Depth(Pick(t, c, rest)) == Depth(Pick(t', Param(t', n', j), rest));
  }

  lemma DeepestCandidate(t: Trie, n: nat, segment: string, rest: string, j: nat)
    requires Closed(t) && n < |t| && j < |t[n].params|
    ensures Depth(Candidate(t, Param(t, n, j), segment, rest)) <= Depth(PickParam(t, n, |t[n].params|, segment, rest))
  {
    ParamWinner(t, n, |t[n].params|, segment, rest);
  }

  lemma SameKeysSymmetric(t: Trie, n: nat, t': Trie, n': nat)
    requires Closed(t) && Closed(t') && n < |t| && n' < |t'|
    ensures SameKeys(t, n, t', n') <==> SameKeys(t', n', t, n)
  {
    if SameKeys(t, n, t', n') { forall key ensures SameAt(t', n', t, n, key) { assert SameAt(t, n, t', n', key); } }
    if SameKeys(t', n', t, n) { forall key ensures SameAt(t, n, t', n', key) { assert SameAt(t', n', t, n, key); } }
  }

  /** Whether a path matches, and how deep, does not depend on the order of parameters anywhere. */
  lemma {:induction false} DepthIgnoresParamOrder(t: Trie, n: nat, t': Trie, n': nat, path: string)
    requires Valid(t) && Valid(t') && n < |t| && n' < |t'| && SameKeys(t, n, t', n')
    ensures Pick(t, n, path).Some? <==> Pick(t', n', path).Some?
    ensures Depth(Pick(t, n, path)) == Depth(Pick(t', n', path))
    decreases |path|
  {
    var p := Strip(path);
    if p == "" {
    } else {
      var segment, rest := Segment(p), Rest(p);
      forall c: nat, c': nat | c < |t| && c' < |t'|
        ensures SameKeys(t, c, t', c') ==> Depth(Pick(t, c, rest)) == Depth(Pick(t', c', rest))
        ensures SameKeys(t', c', t, c) ==> Depth(Pick(t, c, rest)) == Depth(Pick(t', c', rest))
      {
        SameKeysSymmetric(t, c, t', c');
        if SameKeys(t, c, t', c') { DepthIgnoresParamOrder(t, c, t', c', rest); }
      }
      SameKeysBelow(t, n, t', n', Lit(segment));
      SameKeysBelow(t, n, t', n', Wild);
      SameKeysSymmetric(t, n, t', n');
      ParamDominated(t, n, t', n', segment, rest);
      ParamDominated(t', n', t, n, segment, rest);
    }
  }

  // ---------------------------------------------------------------- whole registration histories

  /** The tries after each of a list of registrations on a new router. */
  ghost predicate IsHistory(ts: seq<Trie>, paths: seq<string>) {
    && |ts| == |paths| + 1 && ts[0] == ROOT
    && forall i :: 0 <= i < |paths| ==> Registered(ts[i], ts[i + 1], 0, Parts(paths[i]))
  }

  lemma RootValid()
    ensures Valid(ROOT) && forall key :: Reach(ROOT, 0, key).Some? <==> key == []
  {
    assert Closed(ROOT);
    forall p ensures StepTo(ROOT, 0, p).None? { LeafHasNoSteps(ROOT, 0, Lit(""), p); }
  }

  /** A key is reachable iff it is a prefix of a registered path. */
  lemma {:induction false} HistoryKeys(ts: seq<Trie>, paths: seq<string>, key: seq<Part>)
    requires IsHistory(ts, paths)
    ensures var t := ts[|paths|];
            && Valid(t) && (forall m :: 0 <= m < |t| ==> t[m].accepts == ANY)
            && (Reach(t, 0, key).Some? <==> key == [] || exists i :: 0 <= i < |paths| && key <= Parts(paths[i]))
    decreases |paths|
  {
    if paths == [] {
      RootValid();
    } else {
      var k := |paths| - 1;
      HistoryKeys(ts[..|paths|], paths[..k], key);
      assert Registered(ts[k], ts[k + 1], 0, Parts(paths[k]));
      if i :| 0 <= i < |paths| && key <= Parts(paths[i]) {
        if i < k { assert key <= Parts(paths[..k][i]); }
      }
    }
  }

  /** Routers given the same paths, in whatever order, match the same requests to the same depth. */
  lemma RegistrationOrderIrrelevant(ts: seq<Trie>, paths: seq<string>, ts': seq<Trie>, paths': seq<string>,
                                    request: string)
    requires IsHistory(ts, paths) && IsHistory(ts', paths') && (forall p :: p in paths <==> p in paths')
    ensures Valid(ts[|paths|]) && Valid(ts'[|paths'|])
    ensures Depth(Pick(ts[|paths|], 0, request)) == Depth(Pick(ts'[|paths'|], 0, request))
  {
    var t, t' := ts[|paths|], ts'[|paths'|];
    HistoryKeys(ts, paths, []);
    HistoryKeys(ts', paths', []);
    forall key ensures SameAt(t, 0, t', 0, key) {
      HistoryKeys(ts, paths, key);
      HistoryKeys(ts', paths', key);
      if i :| 0 <= i < |paths| && key <= Parts(paths[i]) { assert paths[i] in paths'; }
      if i :| 0 <= i < |paths'| && key <= Parts(paths'[i]) { assert paths'[i] in paths; }
    }
    DepthIgnoresParamOrder(t, 0, t', 0, request);
  }
}
