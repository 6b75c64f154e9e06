/** The in-process message bus (src/core-component/message-bus.ts): an
    append-only list of (token, handler) registrations; emitting a message
    invokes, in registration order, every handler registered on the message's
    token. Handlers are opaque values of type H; what they do when invoked is
    outside the model, so an emit is described by the sequence of invocations it
    makes. */
module MessageBuses {

  import opened Tokens
  import opened Sequences

  /** `{componentInterface: token, ...payload}`. */
  datatype Message<P> = Message(componentInterface: Token, payload: P)

  /** One entry of the bus's `registry` array. */
  datatype Registration<H> = Registration(identifier: Token, handler: H)

  /** One call `handler(message)`. */
  datatype Invocation<H, P> = Invocation(handler: H, message: Message<P>)

  /** The invocations an emit of `m` makes over `registry`. */
  function Dispatch<H, P>(registry: seq<Registration<H>>, m: Message<P>): (r: seq<Invocation<H, P>>)
    ensures |r| <= |registry|
    ensures forall k :: 0 <= k < |r| ==>
              r[k].message == m && Registration(m.componentInterface, r[k].handler) in registry
    ensures (forall j :: 0 <= j < |registry| ==> registry[j].identifier != m.componentInterface) ==> r == []
  {
    if registry == [] then []
    else
      var last := registry[|registry| - 1];
      Dispatch(registry[..|registry| - 1], m)
      + (if last.identifier == m.componentInterface then [Invocation(last.handler, m)] else [])
  }

  /** Registrations made earlier are served earlier: dispatch over two runs of
      registrations is the first run's dispatch followed by the second's. */
  lemma {:induction false} DispatchAppend<H, P>(first: seq<Registration<H>>, second: seq<Registration<H>>, m: Message<P>)
    ensures Dispatch(first + second, m) == Dispatch(first, m) + Dispatch(second, m)
    decreases |second|
  {
    if second == [] {
      assert first + second == first;
    } else {
      var init := second[..|second| - 1];
      assert (first + second)[..|first + second| - 1] == first + init;
      assert (first + second)[|first + second| - 1] == second[|second| - 1];
      DispatchAppend(first, init, m);
    }
  }

  /** The positions in `registry` of the registrations on token `t`, in order. */
  function MatchingPositions<H>(registry: seq<Registration<H>>, t: Token): (ps: seq<nat>)
    ensures forall k :: 0 <= k < |ps| ==> ps[k] < |registry| && registry[ps[k]].identifier == t
  {
    if registry == [] then []
    else
      var n := |registry| - 1;
      MatchingPositions(registry[..n], t) + (if registry[n].identifier == t then [n] else [])
  }

  /** Each invocation of a dispatch comes from the matching registration at the
      same rank, with the message itself. */
  lemma {:induction false} DispatchFollowsPositions<H, P>(registry: seq<Registration<H>>, m: Message<P>)
    ensures |Dispatch(registry, m)| == |MatchingPositions(registry, m.componentInterface)|
    ensures forall k :: 0 <= k < |Dispatch(registry, m)| ==>
              Dispatch(registry, m)[k]
              == Invocation(registry[MatchingPositions(registry, m.componentInterface)[k]].handler, m)
  {
    if registry != [] {
      var n := |registry| - 1;
      var init := registry[..n];
      DispatchFollowsPositions(init, m);
      var earlier, ps := Dispatch(init, m), MatchingPositions(init, m.componentInterface);
      forall k | 0 <= k < |earlier|
        ensures Dispatch(registry, m)[k] == Invocation(registry[MatchingPositions(registry, m.componentInterface)[k]].handler, m)
      {
        assert Dispatch(registry, m)[k] == earlier[k];
        assert MatchingPositions(registry, m.componentInterface)[k] == ps[k];
        assert init[ps[k]] == registry[ps[k]];
      }
    }
  }

  /** Matching registrations are served in registration order. */
  lemma {:induction false} MatchingPositionsIncrease<H>(registry: seq<Registration<H>>, t: Token)
    ensures StrictlyIncreasing(MatchingPositions(registry, t))
  {
    if registry != [] {
      var n := |registry| - 1;
      MatchingPositionsIncrease(registry[..n], t);
    }
  }

  /** No registration on token `t` is skipped. */
  lemma {:induction false} MatchingPositionsComplete<H>(registry: seq<Registration<H>>, t: Token, j: nat)
    requires j < |registry| && registry[j].identifier == t
    ensures j in MatchingPositions(registry, t)
  {
    var n := |registry| - 1;
    if j < n {
      MatchingPositionsComplete(registry[..n], t, j);
    } else {
      var ps := MatchingPositions(registry, t);
      assert ps[|ps| - 1] == j;
    }
  }

  /** A handler registered k times on the message's token is invoked k times. */
  lemma {:induction false} DispatchCount<H, P>(registry: seq<Registration<H>>, m: Message<P>, h: H)
    ensures multiset(Dispatch(registry, m))[Invocation(h, m)]
            == multiset(registry)[Registration(m.componentInterface, h)]
  {
    if registry != [] {
      var n := |registry| - 1;
      DispatchCount(registry[..n], m, h);
      assert registry == registry[..n] + [registry[n]];
    }
  }

  /** Runs the filter-then-forEach of `emit` over a snapshot of a registry. */
  method Deliver<H, P>(registry: seq<Registration<H>>, m: Message<P>) returns (trace: seq<Invocation<H, P>>)
    ensures trace == Dispatch(registry, m)
  {
    trace := [];
    for i := 0 to |registry|
      invariant trace == Dispatch(registry[..i], m)
    {
      assert registry[..i + 1][..i] == registry[..i];
      if registry[i].identifier == m.componentInterface {
        trace := trace + [Invocation(registry[i].handler, m)];
      }
    }
    assert registry[..|registry|] == registry;
  }

  class MessageBus<H, P> {
    /** The `registry` array, in registration order. */
    var registry: seq<Registration<H>>

    constructor ()
      ensures registry == []
    {
      registry := [];
    }

    /** `on(token, handler)`: appends one registration; no de-duplication. */
    method On(componentIdentifier: Token, handler: H)
      modifies this
      ensures registry == old(registry) + [Registration(componentIdentifier, handler)]
    {
      registry := registry + [Registration(componentIdentifier, handler)];
    }

    /** `emit(message)`: the invocations it makes; the registry is left as it was. */
    method Emit(message: Message<P>) returns (trace: seq<Invocation<H, P>>)
      ensures trace == Dispatch(registry, message)
    {
      trace := Deliver(registry, message);
    }
  }

  /** Handlers A and B on token T (A first) and X on another token U: emitting
      on T invokes A then B, and never X. */
  lemma TwoHandlersInOrder<H, P>(a: H, b: H, x: H, t: Token, u: Token, payload: P)
    requires t != u
    ensures Dispatch([Registration(t, a), Registration(u, x), Registration(t, b)], Message(t, payload))
            == [Invocation(a, Message(t, payload)), Invocation(b, Message(t, payload))]
  {
    var m := Message(t, payload);
    var regs := [Registration(t, a), Registration(u, x), Registration(t, b)];
    assert regs[..2][..1] == [Registration(t, a)];
    assert regs[..2] == [Registration(t, a), Registration(u, x)];
    assert Dispatch([Registration(t, a)], m) == [Invocation(a, m)] by {
      assert [Registration(t, a)][..0] == [];
    }
    assert Dispatch(regs[..2], m) == [Invocation(a, m)];
  }
}
