/** `ThreadState` of `state.rs`, in place. Each method is one critical section of
    its mutex and is proved to compute the matching function of `StateCell`. */
module ThreadState {
  import opened StateCell
  import opened Wrappers

  class ThreadState {
    var current: State
    var subscribers: seq<Subscriber>
    var issued: nat

    ghost function AsCell(): Cell
      reads this
    {
      Cell(current, subscribers, issued)
    }

    constructor ()
      ensures AsCell() == NEW_CELL && Valid(AsCell())
    {
      current, subscribers, issued := Reserved, [], 0;
    }

    method CompareAndSwap(expected: State, next: State) returns (swapped: bool)
      requires Valid(AsCell())
      modifies this
      ensures Valid(AsCell())
      ensures AsCell() == Swap(old(AsCell()), expected, next)
      ensures swapped <==> old(current) == expected
    {
      PublishWakes(AsCell(), next);
      if current != expected {
        return false;
      }
      current := next;
      NotifySubscribers(next);
      return true;
    }

    method Set(next: State)
      requires Valid(AsCell())
      modifies this
      ensures Valid(AsCell())
      ensures AsCell() == Publish(old(AsCell()), next)
    {
      PublishWakes(AsCell(), next);
      current := next;
      NotifySubscribers(next);
    }

    /** Drops the sender of every subscriber interested in `next` and removes
        it, keeping the others in order. */
    method NotifySubscribers(next: State)
      modifies this`subscribers
      ensures subscribers == Retain(old(subscribers), next)
    {
      var kept := [];
      for i := 0 to |subscribers|
        invariant subscribers == old(subscribers)
        invariant kept == Retain(subscribers[..i], next)
      {
        var subscriber := subscribers[i];
        assert subscribers[..i + 1][..i] == subscribers[..i];
        if next !in subscriber.states {
          kept := kept + [subscriber];
        }
      }
      assert subscribers[..|subscribers|] == subscribers;
      subscribers := kept;
    }

    method CheckAndSubscribe(states: set<State>) returns (token: Option<nat>)
      requires Valid(AsCell())
      modifies this
      ensures Valid(AsCell())
      ensures (AsCell(), token) == Subscribe(old(AsCell()), states)
    {
      SubscribeAdds(AsCell(), states);
      if current in states {
        return None;
      }
      token := Some(issued);
      subscribers := subscribers + [Subscriber(states, issued)];
      issued := issued + 1;
    }

    /** The timeout arm of `wait_for_state_with_timeout`. */
    method ExpireOwn(token: nat)
      requires Valid(AsCell())
      modifies this
      ensures Valid(AsCell())
      ensures AsCell() == Expire(old(AsCell()), token)
    {
      ExpireRemoves(AsCell(), token);
      var kept := [];
      for i := 0 to |subscribers|
        invariant subscribers == old(subscribers)
        invariant kept == Without(subscribers[..i], token)
      {
        assert subscribers[..i + 1][..i] == subscribers[..i];
        if subscribers[i].token != token {
          kept := kept + [subscribers[i]];
        }
      }
      assert subscribers[..|subscribers|] == subscribers;
      subscribers := kept;
    }

    /** The locked block of `request_safe_state_change`; on Retry the caller
        waits for Ready, Inactive or Reserved and tries again. */
    method TryRequest(next: State) returns (verdict: Verdict)
      requires Valid(AsCell())
      modifies this
      ensures Valid(AsCell())
      ensures (AsCell(), verdict) == Request(old(AsCell()), next)
    {
      PublishWakes(AsCell(), next);
      match current {
        case Reserved | ShuttingDown | Done => return Refused;
        case Ready | Inactive =>
          current := next;
          NotifySubscribers(next);
          return Granted;
        case _ => return Retry;
      }
    }
  }
}
