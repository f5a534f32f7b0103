/** Router.cpp in its own form: one object whose fields every pass of Router::Run updates. */
module RouterHost {
  import opened RouterSpec

  class Host<T(0)> {
    // FileBuf
    var empty: bool
    var buffer: T
    var destination: Peer

    var waitCount: nat
    var count1: nat
    var count2: nat

    // everything handed to the two sockets so far
    var toPeer1: seq<T>
    var toPeer2: seq<T>

    ghost function State(): Router<T>
      reads this
    {
      Router(if empty then Empty else Held(buffer, destination), waitCount)
    }

    ghost function Sent(): Output<T>
      reads this
    {
      Output(toPeer1, toPeer2)
    }

    constructor ()
      ensures State() == New() && Sent() == Output([], []) && count1 == count2 == 0
    {
      empty := true;
      destination := Peer1;
      waitCount, count1, count2 := 0, 0, 0;
      toPeer1, toPeer2 := [], [];
    }

    /** Sends the held packet to its destination and empties the slot. */
    method SendProc()
      requires !empty
      modifies this
      ensures empty && waitCount == old(waitCount) && count1 == old(count1) && count2 == old(count2)
      ensures toPeer1 == old(toPeer1) + old(HeldFor(State(), Peer1))
      ensures toPeer2 == old(toPeer2) + old(HeldFor(State(), Peer2))
    {
      if destination == Peer1 {
        toPeer1 := toPeer1 + [buffer];
      } else {
        toPeer2 := toPeer2 + [buffer];
      }
      empty := true;
    }

    /** One pass of the loop for a packet from the other peer. */
    method Receive(dest: Peer, msg: T, delayed: bool, damaged: bool)
      modifies this
      ensures State() == old(OnPacket(State(), dest, msg, delayed, damaged).0)
      ensures toPeer1 == old(toPeer1 + For(Step(State(), Packet(dest, msg, delayed, damaged)).1, Peer1))
      ensures toPeer2 == old(toPeer2 + For(Step(State(), Packet(dest, msg, delayed, damaged)).1, Peer2))
      ensures count1 == old(count1) + (if dest == Peer2 then 1 else 0)
      ensures count2 == old(count2) + (if dest == Peer1 then 1 else 0)
    {
      if !empty {
        waitCount := waitCount + 1;
      }
      if dest == Peer2 {
        count1 := count1 + 1;
      } else {
        count2 := count2 + 1;
      }
      if empty && delayed {
        buffer, destination := msg, dest;
        empty := false;
      } else if damaged {
        // dropped by not forwarding it
      } else if dest == Peer1 {
        toPeer1 := toPeer1 + [msg];
        if !empty && destination == Peer1 {
          waitCount := 0;
          SendProc();
        }
      } else {
        toPeer2 := toPeer2 + [msg];
        if !empty && destination == Peer2 {
          waitCount := 0;
          SendProc();
        }
      }
    }

    /** One pass of the loop in which select timed out. */
    method Wait()
      modifies this
      ensures State() == old(OnQuiet(State()).0)
      ensures toPeer1 == old(toPeer1 + OnQuiet(State()).1.peer1)
      ensures toPeer2 == old(toPeer2 + OnQuiet(State()).1.peer2)
      ensures count1 == old(count1) && count2 == old(count2)
    {
      if !empty {
        waitCount := waitCount + 1;
        if waitCount >= WAIT_LIMIT {
          SendProc();
          waitCount := 0;
        }
      }
    }

    /** The loop itself, for as long as `arrivals` lasts. The two counters number the packets received. */
    method RunLoop(arrivals: seq<Arrival<T>>)
      requires State() == New() && Sent() == Output([], []) && count1 == count2 == 0
      modifies this
      ensures (State(), Sent()) == Run(New(), arrivals)
      ensures count1 + count2 == Packets(arrivals)
    {
      var i := 0;
      while i < |arrivals|
        invariant 0 <= i <= |arrivals|
        invariant (State(), Sent()) == Run(New(), arrivals[..i])
        invariant count1 + count2 == Packets(arrivals[..i])
      {
        assert arrivals[..i + 1][..i] == arrivals[..i];
        match arrivals[i] {
          case Packet(dest, msg, delayed, damaged) => Receive(dest, msg, delayed, damaged);
          case Quiet => Wait();
        }
        i := i + 1;
      }
      assert arrivals[..i] == arrivals;
    }
  }
}
