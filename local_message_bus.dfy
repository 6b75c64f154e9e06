/** The layered message bus (src/core-component/local-message-bus.ts): a bus with
    its own registrations (inherited from MessageBus in the source) that, on
    every emit, dispatches locally and then forwards the same message to a
    shared root bus. */
module LocalMessageBuses {

  import opened Tokens
  import opened MessageBuses

  class LocalMessageBus<H, P> {
    /** The registrations made on this bus (the inherited `registry`). */
    var registry: seq<Registration<H>>
    /** The shared root bus, injected as "core:root-message-bus". */
    const root: MessageBus<H, P>

    constructor (root: MessageBus<H, P>)
      ensures this.root == root && registry == []
    {
      this.root := root;
      registry := [];
    }

    /** The inherited `on`: registers on this bus only, never on the root. */
    method On(componentIdentifier: Token, handler: H)
      modifies this
      ensures registry == old(registry) + [Registration(componentIdentifier, handler)]
      ensures root.registry == old(root.registry)
    {
      registry := registry + [Registration(componentIdentifier, handler)];
    }

    /** `emit(message)`: the local dispatch, then one forwarding to the root;
        neither registry changes. */
    method Emit(message: Message<P>) returns (trace: seq<Invocation<H, P>>)
      ensures trace == Dispatch(registry, message) + Dispatch(root.registry, message)
    {
      var localTrace := Deliver(registry, message);
      var rootTrace := root.Emit(message);
      trace := localTrace + rootTrace;
    }
  }

  /** A handler registered once on the root bus and not on the emitting local
      bus is invoked exactly once, and after every local invocation. */
  lemma {:induction false} RootHandlerOnceAfterLocal<H, P>(
    local: seq<Registration<H>>, root: seq<Registration<H>>, m: Message<P>, h: H)
    requires Registration(m.componentInterface, h) !in local
    requires multiset(root)[Registration(m.componentInterface, h)] == 1
    ensures multiset(Dispatch(local, m) + Dispatch(root, m))[Invocation(h, m)] == 1
    ensures forall k :: 0 <= k < |Dispatch(local, m) + Dispatch(root, m)| ==>
              ((Dispatch(local, m) + Dispatch(root, m))[k].handler == h ==> k >= |Dispatch(local, m)|)
  {
    DispatchCount(local, m, h);
    DispatchCount(root, m, h);
  }
}
