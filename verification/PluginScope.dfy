/** Plugin scopes around a request handler: every begin is paired with an end, whatever fails. */
module PluginScope {
  import opened Bytes

  datatype Call = Begin(scope: nat) | Target | End(scope: nat)

  datatype Reply = Done(response: nat) | Raised(error: nat)

  /** One call into a plugin or the handler, and how it ended. */
  datatype Step = Step(call: Call, reply: Reply)

  type Trace = seq<Step>

  /** How plugins and handler behave; it may depend on all that happened before. */
  type World = (Trace, Call) -> Reply

  class Request {
    const world: World
    var trace: Trace

    constructor (world: World)
      ensures this.world == world && trace == []
    {
      this.world := world;
      trace := [];
    }

    method Perform(call: Call) returns (reply: Reply)
      modifies this
      ensures trace == old(trace) + [Step(call, reply)]
    {
      reply := world(trace, call);
      trace := trace + [Step(call, reply)];
    }

    /** Runs the scopes from `i` on around the target. The calls made are properly bracketed, and
        the outcome is the target's response or else the earliest exception. */
    method Invoke(i: nat, count: nat) returns (outcome: Reply)
      requires i <= count
      modifies this
      ensures old(trace) <= trace && Bracketed(trace[|old(trace)|..], i, count)
      ensures outcome == Verdict(trace[|old(trace)|..])
      decreases count - i
    {
      if i == count {
        outcome := Perform(Target);
        ghost var only := [Step(Target, outcome)];
        assert trace[|old(trace)|..] == only && only[1..] == [];
        assert FirstRaised(only[1..]) == None;
        assert FirstRaised(only) == if outcome.Raised? then Some(outcome.error) else None;
      } else {
        outcome := Handle(i, count);
      }
    }

    /** One scope: the exception of the inner call, if any, is kept while the end hook runs. */
    method Handle(i: nat, count: nat) returns (outcome: Reply)
      requires i < count
      modifies this
      ensures old(trace) <= trace && Bracketed(trace[|old(trace)|..], i, count)
      ensures outcome == Verdict(trace[|old(trace)|..])
      decreases count - i, 0
    {
      var begun := Perform(Begin(i));
      if begun.Raised? {
        assert trace[|old(trace)|..] == [Step(Begin(i), begun)];
        return begun;
      }
      ghost var start := trace;
      var pending: Option<nat> := None;
      var result: Option<nat> := None;
      var inner := Invoke(i + 1, count);
      if inner.Raised? { pending := Some(inner.error); } else { result := Some(inner.response); }
      ghost var word := trace[|start|..];
      var ended := Perform(End(i));
      if ended.Raised? && pending.None? { pending := Some(ended.error); }
      outcome := if pending.Some? then Raised(pending.value) else Done(result.value);
      ghost var first, last := Step(Begin(i), begun), Step(End(i), ended);
      assert start == old(trace) + [first] && trace == start + word + [last];
      assert trace == old(trace) + ([first] + word + [last]);
      Enclosed(word, i, count, begun, ended);
    }
  }

  // ---------------------------------------------------------------- what a run looks like

  /** The calls of scopes `i` on: a failed begin alone, or a begin, the inner calls, and its end. */
  predicate Bracketed(w: Trace, i: nat, count: nat)
    requires i <= count
    decreases count - i
  {
    if i == count then |w| == 1 && w[0].call == Target
    else
      && w != [] && w[0].call == Begin(i)
      && if w[0].reply.Raised? then |w| == 1
         else |w| >= 2 && w[|w| - 1].call == End(i) && Bracketed(w[1..|w| - 1], i + 1, count)
  }

  /** The earliest exception. */
  function FirstRaised(w: Trace): Option<nat> {
    if w == [] then None else if w[0].reply.Raised? then Some(w[0].reply.error) else FirstRaised(w[1..])
  }

  /** The target's response, if it ran. */
  function Response(w: Trace): Option<nat> {
    if w == [] then None
    else if w[0].call == Target && w[0].reply.Done? then Some(w[0].reply.response)
    else Response(w[1..])
  }

  function Verdict(w: Trace): Reply {
    if FirstRaised(w).Some? then Raised(FirstRaised(w).value)
    else if Response(w).Some? then Done(Response(w).value)
    else Done(0)
  }

  lemma {:induction false} FirstRaisedAppend(a: Trace, b: Trace)
    ensures FirstRaised(a + b) == if FirstRaised(a).Some? then FirstRaised(a) else FirstRaised(b)
  {
    if a == [] { assert a + b == b; }
    else {
      assert (a + b)[1..] == a[1..] + b;
      FirstRaisedAppend(a[1..], b);
    }
  }

  lemma {:induction false} ResponseAppend(a: Trace, b: Trace)
    ensures Response(a + b) == if Response(a).Some? then Response(a) else Response(b)
  {
    if a == [] { assert a + b == b; }
    else {
      assert (a + b)[1..] == a[1..] + b;
      ResponseAppend(a[1..], b);
    }
  }

  /** Without an exception the target has answered. */
  lemma {:induction false} QuietRunAnswers(w: Trace, i: nat, count: nat)
    requires i <= count && Bracketed(w, i, count) && FirstRaised(w).None?
    ensures Response(w).Some?
    decreases count - i
  {
    if i == count {
    } else {
      var inner := w[1..|w| - 1];
      assert w == [w[0]] + (inner + [w[|w| - 1]]);
      FirstRaisedAppend([w[0]], inner + [w[|w| - 1]]);
      FirstRaisedAppend(inner, [w[|w| - 1]]);
      QuietRunAnswers(inner, i + 1, count);
      ResponseAppend([w[0]], inner + [w[|w| - 1]]);
      ResponseAppend(inner, [w[|w| - 1]]);
    }
  }

  /** A scope around a bracketed run is bracketed, and its own failures come after the inner ones. */
  lemma Enclosed(word: Trace, i: nat, count: nat, begun: Reply, ended: Reply)
    requires i < count && Bracketed(word, i + 1, count) && begun.Done?
    ensures var w := [Step(Begin(i), begun)] + word + [Step(End(i), ended)];
            && Bracketed(w, i, count)
            && Verdict(w) == (if Verdict(word).Raised? then Verdict(word) else if ended.Raised? then ended
                              else Verdict(word))
  {
    var a, b := [Step(Begin(i), begun)], [Step(End(i), ended)];
    var w := a + word + b;
    assert w[1..|w| - 1] == word;
    FirstRaisedAppend(a + word, b);
    FirstRaisedAppend(a, word);
    ResponseAppend(a + word, b);
    ResponseAppend(a, word);
    if FirstRaised(word).None? { QuietRunAnswers(word, i + 1, count); }
  }

  // ---------------------------------------------------------------- what follows

  /** Open scopes after a trace, the innermost last; None if an end does not match. */
  function Open(w: Trace, stack: seq<nat>): Option<seq<nat>>
    decreases w
  {
    if w == [] then Some(stack)
    else
      match w[0].call
      case Begin(i) => Open(w[1..], if w[0].reply.Done? then stack + [i] else stack)
      case Target => Open(w[1..], stack)
      case End(i) => if stack != [] && stack[|stack| - 1] == i then Open(w[1..], stack[..|stack| - 1]) else None
  }

  lemma {:induction false} OpenAppend(a: Trace, b: Trace, stack: seq<nat>)
    ensures Open(a + b, stack) == if Open(a, stack).Some? then Open(b, Open(a, stack).value) else None
    decreases a
  {
    if a == [] { assert a + b == b; }
    else {
      assert (a + b)[1..] == a[1..] + b;
      match a[0].call
      case Begin(i) => OpenAppend(a[1..], b, if a[0].reply.Done? then stack + [i] else stack);
      case Target => OpenAppend(a[1..], b, stack);
      case End(i) => if stack != [] && stack[|stack| - 1] == i { OpenAppend(a[1..], b, stack[..|stack| - 1]); }
    }
  }

  /** Ends match the begins that succeeded, innermost first, and none is left open. */
  lemma {:induction false} RunIsWellNested(w: Trace, i: nat, count: nat, stack: seq<nat>)
    requires i <= count && Bracketed(w, i, count)
    ensures Open(w, stack) == Some(stack)
    decreases count - i
  {
    if i == count || w[0].reply.Raised? {
      assert w[1..] == [];
    } else {
      var inner, last := w[1..|w| - 1], w[|w| - 1];
      assert w[1..] == inner + [last] && (stack + [i])[..|stack|] == stack;
      RunIsWellNested(inner, i + 1, count, stack + [i]);
      OpenAppend(inner, [last], stack + [i]);
      assert [last][1..] == [];
    }
  }

  function Count(w: Trace, call: Call, done: bool): nat {
    if w == [] then 0
    else (if w[0].call == call && (done ==> w[0].reply.Done?) then 1 else 0) + Count(w[1..], call, done)
  }

  lemma {:induction false} CountAppend(a: Trace, b: Trace, call: Call, done: bool)
    ensures Count(a + b, call, done) == Count(a, call, done) + Count(b, call, done)
  {
    if a == [] { assert a + b == b; }
    else {
      assert (a + b)[1..] == a[1..] + b;
      CountAppend(a[1..], b, call, done);
    }
  }

  lemma CountDone(w: Trace, call: Call)
    ensures Count(w, call, true) <= Count(w, call, false)
  {
  }

  predicate AllBegun(w: Trace) { forall k :: 0 <= k < |w| && w[k].call.Begin? ==> w[k].reply.Done? }

  lemma Surrounded(a: Step, inner: Trace, b: Step, call: Call, done: bool)
    ensures Count([a] + inner + [b], call, done) ==
            Count([a], call, done) + Count(inner, call, done) + Count([b], call, done)
  {
    CountAppend([a] + inner, [b], call, done);
    CountAppend([a], inner, call, done);
  }

  /** Every successful begin has exactly one end, a failed or missing one has none; the target
      runs, once, iff all begins succeeded. */
  lemma {:induction false} EveryBeginHasItsEnd(w: Trace, i: nat, count: nat, j: nat)
    requires i <= count && Bracketed(w, i, count)
    ensures Count(w, End(j), false) == Count(w, Begin(j), true) <= 1
    ensures Count(w, Begin(j), false) <= 1 && (j < i || j >= count ==> Count(w, Begin(j), false) == 0)
    ensures Count(w, Target, false) == if AllBegun(w) then 1 else 0
    decreases count - i
  {
    if i == count || w[0].reply.Raised? {
      assert w[1..] == [];
    } else {
      var inner, first, last := w[1..|w| - 1], w[0], w[|w| - 1];
      assert w == [first] + inner + [last] && [first][1..] == [] && [last][1..] == [];
      EveryBeginHasItsEnd(inner, i + 1, count, j);
      Surrounded(first, inner, last, End(j), false);
      Surrounded(first, inner, last, Begin(j), true);
      Surrounded(first, inner, last, Begin(j), false);
      Surrounded(first, inner, last, Target, false);
      BegunInside(w);
      CountDone(inner, Begin(j));
    }
  }

  lemma BegunInside(w: Trace)
    requires |w| >= 2 && w[0].reply.Done? && !w[|w| - 1].call.Begin?
    ensures AllBegun(w) <==> AllBegun(w[1..|w| - 1])
  {
    var inner := w[1..|w| - 1];
    if AllBegun(w) {
      forall k | 0 <= k < |inner| && inner[k].call.Begin? ensures inner[k].reply.Done? {
        assert inner[k] == w[k + 1];
      }
    }
    if AllBegun(inner) {
      forall k | 0 <= k < |w| && w[k].call.Begin? ensures w[k].reply.Done? { if 0 < k { assert w[k] == inner[k - 1]; } }
    }
  }
}
