/** The part of the ns-3 event queue the models use: a clock and a multiset of pending events. */
module SimulatorCore {

  class Simulator<E(==)> {
    var now: nat
    var pending: multiset<(nat, E)>  // (due time, event)

    constructor ()
      ensures now == 0 && pending == multiset{}
    {
      now, pending := 0, multiset{};
    }

    method Schedule(delay: nat, event: E)
      modifies this`pending
      ensures pending == old(pending) + multiset{(now + delay, event)}
    {
      pending := pending + multiset{(now + delay, event)};
    }

    /** The event loop takes a due event out of the queue... */
    method Take(event: E)
      requires (now, event) in pending
      modifies this`pending
      ensures pending == old(pending) - multiset{(now, event)}
    {
      pending := pending - multiset{(now, event)};
    }

    /** ...or lets time pass. */
    method Advance(dt: nat)
      modifies this`now
      ensures now == old(now) + dt
    {
      now := now + dt;
    }
  }
}
