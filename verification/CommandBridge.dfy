/**
 The command bridge: `pending_commands` and the futures it points at.

 `Bridge` is the value of that state and the functions on it say what each await-free
 segment of the source does.  `CommandBridge` is the mutable object itself; each of its
 methods is proved to make exactly the transition its function describes, and `Relay`
 proves what those transitions mean over whole runs.
 */
module CommandBridges {

  /** A reply as the agent built it. */
  type Outcome = string

  datatype Future = Pending | Done(outcome: Outcome) | Cancelled

  /** `pending` maps a command id to the number of the call whose future waits for it. */
  datatype Bridge = Bridge(pending: map<string, nat>, futures: seq<Future>)

  /** Every entry points at a future that exists. */
  ghost predicate WellFormed(b: Bridge) {
    forall id :: id in b.pending ==> b.pending[id] < |b.futures|
  }

  /** A new call: its future is entered under its id, over whatever was there. */
  function Register(b: Bridge, id: string): Bridge {
    Bridge(b.pending[id := |b.futures|], b.futures + [Pending])
  }

  /** Completing a future that is done, or that nobody made, changes nothing. */
  function Complete(futures: seq<Future>, k: nat, future: Future): seq<Future> {
    if k < |futures| && futures[k].Pending? then futures[k := future] else futures
  }

  /** A reply bearing `id`: the entry goes, and its future completes unless it is done already. */
  function Resolve(b: Bridge, id: string, outcome: Outcome): Bridge {
    if id in b.pending then
      Bridge(b.pending - {id}, Complete(b.futures, b.pending[id], Done(outcome)))
    else b
  }

  /** The timer of `wait_for` cancels a future that is still pending. */
  function Expire(b: Bridge, k: nat): Bridge {
    b.(futures := Complete(b.futures, k, Cancelled))
  }

  /** The timed-out call pops whatever its id maps to by now. */
  function Forget(b: Bridge, id: string): Bridge {
    b.(pending := b.pending - {id})
  }

  class CommandBridge {
    var pending: map<string, nat>
    var futures: seq<Future>

    ghost function View(): Bridge
      reads this
    {
      Bridge(pending, futures)
    }

    constructor ()
      ensures View() == Bridge(map[], [])
    {
      pending := map[];
      futures := [];
    }

    /** `send_command_to_agent` up to its first await. */
    method Begin(id: string) returns (k: nat)
      modifies this
      ensures k == old(|futures|)
      ensures View() == Register(old(View()), id)
    {
      k := |futures|;
      futures := futures + [Pending];
      pending := pending[id := k];
    }

    method ResolveCommand(id: string, result: Outcome)
      requires WellFormed(View())
      modifies this
      ensures View() == Resolve(old(View()), id, result)
      ensures WellFormed(View())
    {
      if id in pending {
        var k := pending[id];
        pending := pending - {id};
        if futures[k].Pending? {
          futures := futures[k := Done(result)];
        }
      }
    }

    method TimerFires(k: nat)
      requires k < |futures|
      modifies this`futures
      ensures View() == Expire(old(View()), k)
    {
      if futures[k].Pending? {
        futures := futures[k := Cancelled];
      }
    }

    /**
     `send_command_to_agent` after `wait_for`: the reply, or the pop and the timeout error.
     `late`: the timer fired after the reply came and before the task resumed, which Python 3.12
     and later report as a timeout.
     */
    method Finish(id: string, k: nat, late: bool) returns (timedOut: bool, result: Outcome)
      requires k < |futures| && !futures[k].Pending?
      modifies this`pending
      ensures timedOut <==> futures[k].Cancelled? || late
      ensures !timedOut ==> futures[k] == Done(result)
      ensures View() == if timedOut then Forget(old(View()), id) else old(View())
    {
      if futures[k].Done? && !late {
        timedOut, result := false, futures[k].outcome;
      } else {
        pending := pending - {id};
        timedOut, result := true, "";
      }
    }
  }
}
