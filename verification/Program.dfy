/** A series of sending calls as a process beside the network: what the caller does next follows from the
    calls, and between any two of its steps anything may happen on the legs. */
module Program {
  import opened Protocol
  import opened Sequences
  import opened SenderSpec
  import opened Link
  import opened Calls

  /** `todo`: the calls not yet returned. `busy`: the first of them is inside send_all_win_packets. `keep`:
      for each payload copied so far, whether it was stamped. `taken`, `sent`: what the calls have read
      from the socket and written to it. */
  datatype Process = Process(
    link: State, todo: seq<Command>, busy: bool, keep: seq<bool>, taken: seq<Arrival>, sent: seq<Frame>)

  /** The caller goes on, or something else happens. */
  datatype Step = Act | Outside(e: Event)

  function Start(link: State, commands: seq<Command>): Process {
    Process(link, commands, false, [], [], [])
  }

  function Transmits(p: Process): Process
    requires p.link.Valid()
  {
    p.(link := Next(p.link, Transmit), busy := true, sent := p.sent + Burst(p.link.tx.view))
  }

  /** The caller cannot go on while a call waits, and does not when one has failed or all have returned. */
  predicate Still(p: Process) {
    p.link.tx.phase != Idle || p.todo == []
  }

  /** The call has returned and its loop, if it has one, is over. */
  predicate Returned(p: Process) {
    p.busy && p.todo != [] && (p.todo[0].Copy? || p.link.tx.view.count == 0)
  }

  function Acted(p: Process): (p': Process)
    requires p.link.Valid()
    ensures p'.link.Valid()
  {
    if Still(p) then p
    else if Returned(p) then p.(busy := false, todo := p.todo[1..])
    else
      match p.todo[0]
      case Copy(data) =>
        var v := p.link.tx.view;
        var given := p.(link := Next(p.link, Give(data)), keep := p.keep + [v.count < v.Size()]);
        if given.link.tx.view.count == v.Size() then Transmits(given) else given.(todo := p.todo[1..])
      case Drain => Transmits(p)
  }

  function Do(p: Process, step: Step): (p': Process)
    requires p.link.Valid()
    ensures p'.link.Valid()
  {
    match step
    case Act => Acted(p)
    case Outside(e) =>
      if e.Give? || e.Transmit? then p
      else p.(link := Next(p.link, e), taken := p.taken + Took(p.link, e), sent := p.sent + Emitted(p.link, e))
  }

  function Play(p: Process, steps: seq<Step>): (p': Process)
    requires p.link.Valid()
    ensures p'.link.Valid()
  {
    if steps == [] then p else Do(Play(p, steps[..|steps| - 1]), steps[|steps| - 1])
  }

  // ----- a process makes a run of the system -----

  function StepEvents(p: Process, step: Step): seq<Event>
    requires p.link.Valid()
  {
    match step
    case Outside(e) => if e.Give? || e.Transmit? then [] else [e]
    case Act =>
      if Still(p) || Returned(p) then []
      else
        match p.todo[0]
        case Copy(data) =>
          if Next(p.link, Give(data)).tx.view.count == p.link.tx.view.Size() then [Give(data), Transmit]
          else [Give(data)]
        case Drain => [Transmit]
  }

  function Events(p: Process, steps: seq<Step>): seq<Event>
    requires p.link.Valid()
  {
    if steps == [] then []
    else
      var before := steps[..|steps| - 1];
      Events(p, before) + StepEvents(Play(p, before), steps[|steps| - 1])
  }

  lemma RunOne(s: State, e: Event)
    requires s.Valid()
    ensures Run(s, [e]) == Next(s, e)
  {
    hide Next;
    assert [e][..0] == [];
    assert Run(s, []) == s;
  }

  lemma {:induction false} RunBoth(s: State, xs: seq<Event>, ys: seq<Event>)
    requires s.Valid()
    ensures Run(s, xs + ys) == Run(Run(s, xs), ys)
  {
    hide Next;
    if ys == [] {
      assert xs + ys == xs;
    } else {
      RunBoth(s, xs, ys[..|ys| - 1]);
      assert (xs + ys)[..|xs + ys| - 1] == xs + ys[..|ys| - 1];
    }
  }

  lemma StepIsRun(p: Process, step: Step)
    requires p.link.Valid()
    ensures Do(p, step).link == Run(p.link, StepEvents(p, step))
  {
    hide Next, Run;
    assert Run(p.link, []) == p.link by { RunNone(p.link); }
    var events := StepEvents(p, step);
    if |events| == 1 {
      assert events == [events[0]];
      RunOne(p.link, events[0]);
    } else if |events| == 2 {
      assert events == [events[0]] + [events[1]];
      RunBoth(p.link, [events[0]], [events[1]]);
      RunOne(p.link, events[0]);
      RunOne(Next(p.link, events[0]), events[1]);
    }
  }

  lemma {:induction false} PlayIsRun(p: Process, steps: seq<Step>)
    requires p.link.Valid()
    ensures Play(p, steps).link == Run(p.link, Events(p, steps))
  {
    hide Next, Do, StepEvents, Run;
    if steps == [] {
      RunNone(p.link);
    } else {
      var before := steps[..|steps| - 1];
      PlayIsRun(p, before);
      StepIsRun(Play(p, before), steps[|steps| - 1]);
      RunBoth(p.link, Events(p, before), StepEvents(Play(p, before), steps[|steps| - 1]));
    }
  }

  // ----- what every step keeps -----

  /** The first message of a transfer is sent alone. */
  predicate FirstAlone(commands: seq<Command>) {
    commands == [] || (|commands| >= 2 && commands[0].Copy? && commands[1].Drain?)
  }

  predicate Orderly(p: Process) {
    && p.link.Valid() && (!p.busy ==> p.link.tx.phase == Idle) && (p.busy ==> p.todo != [])
    && p.link.tx.view.count <= |p.link.stamped|
    && (p.link.stamped == [] ==> !p.busy && FirstAlone(p.todo))
    && (|p.link.stamped| == 1 && p.link.tx.view.count > 0 ==>
          (p.todo != [] && p.todo[0].Drain?) || (p.busy && |p.todo| >= 2 && p.todo[1].Drain?))
  }

  lemma OutsideSmaller(s: State, e: Event)
    requires s.Valid() && !e.Give? && !e.Transmit?
    ensures var t := Next(s, e);
            t.stamped == s.stamped && t.tx.view.count <= s.tx.view.count && (s.tx.phase != Waiting ==> t.tx == s.tx)
  {
    hide OnArrival, Check;
    if s.tx.phase == Waiting {
      ArrivalSmaller(s.tx, TimedOut);
      if s.toSender != [] {
        ArrivalSmaller(s.tx, Datagram(s.toSender[0]));
      }
    }
  }

  /** Whenever copy_2_winbuf finds room, the system takes the payload. */
  lemma CopyGives(p: Process, data: Payload)
    requires Orderly(p) && !Still(p) && !Returned(p) && p.todo[0] == Copy(data)
    ensures var v := p.link.tx.view;
            Next(p.link, Give(data)) ==
            if v.count < v.Size() then
              p.link.(tx := Stamp(p.link.tx, data), stamped := p.link.stamped + [data])
            else p.link
  {
    hide Stamp;
  }

  lemma TransmitGoes(s: State)
    requires s.Valid() && s.tx.phase == Idle && s.stamped != []
    ensures Next(s, Transmit) == s.(tx := Begin(s.tx), toRouter := s.toRouter + Burst(s.tx.view))
  {
  }

  lemma DoKeeps(p: Process, step: Step)
    requires Orderly(p)
    ensures Orderly(Do(p, step))
  {
    hide Next;
    match step
    case Outside(e) =>
      if !e.Give? && !e.Transmit? {
        OutsideSmaller(p.link, e);
      }
    case Act =>
      if !Still(p) && !Returned(p) {
        if p.todo[0].Copy? {
          CopyGives(p, p.todo[0].data);
          var given := Next(p.link, Give(p.todo[0].data));
          if given.tx.view.count == p.link.tx.view.Size() {
            TransmitGoes(given);
          }
        } else {
          TransmitGoes(p.link);
        }
      }
  }

  // ----- a process does what the calls do -----

  /** How the calls go on from here, when `more` is all that will come in. */
  function Finish(p: Process, more: seq<Arrival>): Work
    requires p.link.Valid()
  {
    if !p.busy || p.todo == [] then Perform(Work(p.link.tx, more, p.sent, p.keep), p.todo)
    else
      var (tx, rest, sent) := Exchange(p.link.tx, more, p.sent);
      After(Work(tx, rest, sent, p.keep), p.todo)
  }

  /** How they go on from the return of a transmission in the first of `todo`. */
  function After(w: Work, todo: seq<Command>): Work
    requires w.tx.Valid() && todo != []
  {
    if w.tx.phase == Failed then w
    else if todo[0].Copy? || w.tx.view.count == 0 then Perform(w, todo[1..])
    else Perform(w, todo)
  }

  lemma DrainOnce(w: Work, todo: seq<Command>)
    requires w.tx.Valid() && todo != [] && todo[0].Drain?
    ensures var (tx, rest, sent) := Transmission(w.tx, w.inbox, w.sent);
            Perform(w, todo) == After(Work(tx, rest, sent, w.keep), todo)
  {
    hide Transmission, Perform;
    var (tx, rest, sent) := Transmission(w.tx, w.inbox, w.sent);
    PerformTurn(w, todo);
    PerformTurn(Work(tx, rest, sent, w.keep), todo);
  }

  lemma CopyOnce(w: Work, todo: seq<Command>)
    requires w.tx.Valid() && todo != [] && todo[0].Copy? && w.tx.phase == Idle
    ensures var v := w.tx.view;
            var tx := if v.count < v.Size() then Stamp(w.tx, todo[0].data) else w.tx;
            var keep := w.keep + [v.count < v.Size()];
            Perform(w, todo) ==
            if tx.view.count == v.Size() then
              var (s1, rest, sent) := Transmission(tx, w.inbox, w.sent);
              After(Work(s1, rest, sent, keep), todo)
            else Perform(Work(tx, w.inbox, w.sent, keep), todo[1..])
  {
    hide Transmission, Perform;
    PerformTurn(w, todo);
  }

  lemma TransmitsFinishes(p: Process, more: seq<Arrival>)
    requires Orderly(p) && p.link.tx.phase == Idle && p.link.stamped != [] && p.todo != []
    ensures var (tx, rest, sent) := Transmission(p.link.tx, more, p.sent);
            Finish(Transmits(p), more) == After(Work(tx, rest, sent, p.keep), p.todo)
  {
    hide Exchange, After;
    TransmitGoes(p.link);
  }

  lemma ActFinishes(p: Process, more: seq<Arrival>)
    requires Orderly(p)
    ensures Finish(Acted(p), more) == Finish(p, more)
  {
    hide Next, Perform, Exchange, Transmission, Stamp;
    if Still(p) {
    } else if Returned(p) {
      ExchangeOver(p.link.tx, more, p.sent);
    } else {
      var w := Work(p.link.tx, more, p.sent, p.keep);
      if p.busy {
        ExchangeOver(p.link.tx, more, p.sent);
      }
      if p.todo[0].Copy? {
        CopyGives(p, p.todo[0].data);
        CopyOnce(w, p.todo);
        CopyActs(p, more);
      } else {
        DrainOnce(w, p.todo);
        TransmitsFinishes(p, more);
      }
    }
  }

  lemma CopyActs(p: Process, more: seq<Arrival>)
    requires Orderly(p) && !Still(p) && !Returned(p) && p.todo[0].Copy?
    ensures var v := p.link.tx.view;
            var tx := if v.count < v.Size() then Stamp(p.link.tx, p.todo[0].data) else p.link.tx;
            var keep := p.keep + [v.count < v.Size()];
            Finish(Acted(p), more) ==
            if tx.view.count == v.Size() then
              var (s1, rest, sent) := Transmission(tx, more, p.sent);
              After(Work(s1, rest, sent, keep), p.todo)
            else Perform(Work(tx, more, p.sent, keep), p.todo[1..])
  {
    hide Next, Perform, Exchange, Transmission, After;
    var data, v := p.todo[0].data, p.link.tx.view;
    CopyGives(p, data);
    var given := p.(link := Next(p.link, Give(data)), keep := p.keep + [v.count < v.Size()]);
    if given.link.tx.view.count == v.Size() {
      GivenOrderly(p, given);
      TransmitsFinishes(given.(busy := true), more);
      assert Transmits(given) == Transmits(given.(busy := true));
    }
  }

  lemma GivenOrderly(p: Process, given: Process)
    requires Orderly(p) && !Still(p) && !Returned(p) && p.todo[0].Copy?
    requires given == p.(link := Next(p.link, Give(p.todo[0].data)), keep := given.keep)
    requires given.link.tx.view.count == p.link.tx.view.Size()
    ensures Orderly(given.(busy := true)) && given.link.tx.phase == Idle && given.link.stamped != []
  {
    hide Next;
    CopyGives(p, p.todo[0].data);
  }

  lemma OutsideFinishes(p: Process, e: Event, more: seq<Arrival>)
    requires Orderly(p) && !e.Give? && !e.Transmit?
    ensures Finish(Do(p, Outside(e)), more) == Finish(p, Took(p.link, e) + more)
  {
    hide Next, Perform, Exchange, Emitted, After;
    StepOfExchange(p.link, e, more, p.sent);
    OutsideSmaller(p.link, e);
    if !p.busy {
      assert Took(p.link, e) + more == more;
      QuietSender(p.link, e);
      assert p.sent + Emitted(p.link, e) == p.sent;
    }
  }

  lemma QuietSender(s: State, e: Event)
    requires s.Valid() && s.tx.phase != Waiting && !e.Transmit?
    ensures Emitted(s, e) == []
  {
  }

  lemma {:induction false} PlayKeeps(p: Process, steps: seq<Step>)
    requires Orderly(p)
    ensures Orderly(Play(p, steps))
  {
    hide Do, Orderly;
    assert p.link.Valid() by { OrderlyValid(p); }
    if steps != [] {
      PlayKeeps(p, steps[..|steps| - 1]);
      DoKeeps(Play(p, steps[..|steps| - 1]), steps[|steps| - 1]);
    }
  }

  lemma OrderlyValid(p: Process)
    requires Orderly(p)
    ensures p.link.Valid()
  {
  }

  lemma {:induction false} PlayFinishes(p: Process, steps: seq<Step>, more: seq<Arrival>)
    requires Orderly(p) && p.taken == []
    ensures Finish(p, Play(p, steps).taken + more) == Finish(Play(p, steps), more)
  {
    hide Finish, Acted, Next, Took, Emitted, Orderly;
    assert p.link.Valid() by { OrderlyValid(p); }
    if steps == [] {
      assert p.taken + more == more;
    } else {
      var q, step := Play(p, steps[..|steps| - 1]), steps[|steps| - 1];
      PlayKeeps(p, steps[..|steps| - 1]);
      match step
      case Act =>
        PlayFinishes(p, steps[..|steps| - 1], more);
        ActFinishes(q, more);
        ActTakesNothing(q);
      case Outside(e) =>
        if e.Give? || e.Transmit? {
          PlayFinishes(p, steps[..|steps| - 1], more);
        } else {
          PlayFinishes(p, steps[..|steps| - 1], Took(q.link, e) + more);
          OutsideFinishes(q, e, more);
          assert q.taken + (Took(q.link, e) + more) == q.taken + Took(q.link, e) + more;
        }
    }
  }

  lemma ActTakesNothing(p: Process)
    requires p.link.Valid()
    ensures Acted(p).taken == p.taken
  {
  }

  /** All calls have returned, or one has failed. */
  predicate Over(p: Process) {
    (!p.busy && p.todo == []) || p.link.tx.phase == Failed
  }

  /** CALLS ARE RUNS. However the caller's steps are interleaved with timeouts, losses and deliveries: when
      its calls are over, the sender's state, all it sent and the payloads it passed over are those that
      the methods of the library produce for the arrivals the calls met, and none is left unread. */
  lemma ProcessPerforms(link: State, commands: seq<Command>, steps: seq<Step>, more: seq<Arrival>)
    requires Orderly(Start(link, commands)) && Over(Play(Start(link, commands), steps))
    ensures var p := Play(Start(link, commands), steps);
            Perform(Work(link.tx, p.taken + more, [], []), commands) == Work(p.link.tx, more, p.sent, p.keep)
  {
    hide Play, Perform, Exchange;
    var p0 := Start(link, commands);
    var p := Play(p0, steps);
    PlayFinishes(p0, steps, more);
    PlayKeeps(p0, steps);
    ExchangeOver(p.link.tx, more, p.sent);
    PerformTurn(Work(p.link.tx, more, p.sent, p.keep), []);
  }

  // ----- what is stamped -----

  /** The payloads that the calls copy. */
  function Datas(commands: seq<Command>): seq<Payload> {
    if commands == [] then []
    else (if commands[0].Copy? then [commands[0].data] else []) + Datas(commands[1..])
  }

  /** The calls whose payload is still to be copied. */
  function Rest(p: Process): seq<Command> {
    if p.busy && p.todo != [] && p.todo[0].Copy? then p.todo[1..] else p.todo
  }

  /** `all` are the payloads of all calls, and `was` what had been stamped before them. */
  ghost predicate Accounted(p: Process, was: seq<Payload>, all: seq<Payload>) {
    && |p.keep| <= |all| && all[|p.keep|..] == Datas(Rest(p))
    && p.link.stamped == was + Pick(all[..|p.keep|], p.keep)
  }

  lemma OneMore(all: seq<Payload>, keep: seq<bool>, data: Payload, k: bool)
    requires |keep| < |all| && all[|keep|] == data
    ensures Pick(all[..|keep| + 1], keep + [k]) == Pick(all[..|keep|], keep) + if k then [data] else []
  {
    hide Pick;
    PickOneMore(all[..|keep|], keep, data, k);
    assert all[..|keep| + 1] == all[..|keep|] + [data];
  }

  lemma DoAccounts(p: Process, step: Step, was: seq<Payload>, all: seq<Payload>)
    requires Orderly(p) && Accounted(p, was, all)
    ensures Accounted(Do(p, step), was, all)
  {
    hide Next, Pick, Stamp;
    match step
    case Outside(e) =>
      if !e.Give? && !e.Transmit? {
        OutsideSmaller(p.link, e);
      }
    case Act =>
      if !Still(p) && !Returned(p) {
        if p.todo[0].Copy? {
          CopyAccounts(p, was, all);
        } else {
          TransmitGoes(p.link);
        }
      }
  }

  lemma CopyAccounts(p: Process, was: seq<Payload>, all: seq<Payload>)
    requires Orderly(p) && Accounted(p, was, all) && !Still(p) && !Returned(p) && p.todo[0].Copy?
    ensures Accounted(Acted(p), was, all)
  {
    hide Next, Pick, Stamp;
    var data, v := p.todo[0].data, p.link.tx.view;
    CopyGives(p, data);
    var left := all[|p.keep|..];
    assert left == [data] + Datas(p.todo[1..]);
    assert all[|p.keep|] == left[0] == data && all[|p.keep| + 1..] == left[1..] == Datas(p.todo[1..]);
    OneMore(all, p.keep, data, v.count < v.Size());
    var given := Next(p.link, Give(data));
    assert given.stamped == was + Pick(all[..|p.keep| + 1], p.keep + [v.count < v.Size()]) by {
      var picked := Pick(all[..|p.keep|], p.keep);
      assert was + picked + [data] == was + (picked + [data]) && was + (picked + []) == was + picked;
    }
    if given.tx.view.count == v.Size() {
      GivenOrderly(p, p.(link := given));
      TransmitGoes(given);
    }
  }

  lemma {:induction false} PlayAccounts(p: Process, steps: seq<Step>, was: seq<Payload>, all: seq<Payload>)
    requires Orderly(p) && Accounted(p, was, all)
    ensures Accounted(Play(p, steps), was, all)
  {
    hide Do, Orderly, Accounted;
    assert p.link.Valid() by { OrderlyValid(p); }
    if steps != [] {
      PlayAccounts(p, steps[..|steps| - 1], was, all);
      PlayKeeps(p, steps[..|steps| - 1]);
      DoAccounts(Play(p, steps[..|steps| - 1]), steps[|steps| - 1], was, all);
    }
  }

  /** WHAT IS STAMPED. At each moment the payloads stamped are those before, and then the payloads the calls
      have copied so far without the ones passed over, in order; all of them when the calls are over and
      none has failed. */
  lemma StampedInOrder(link: State, commands: seq<Command>, steps: seq<Step>)
    requires Orderly(Start(link, commands))
    ensures var p := Play(Start(link, commands), steps);
            && |p.keep| <= |Datas(commands)|
            && p.link.stamped == link.stamped + Pick(Datas(commands)[..|p.keep|], p.keep)
            && (Over(p) && p.link.tx.phase != Failed ==> |p.keep| == |Datas(commands)|)
  {
    hide Play, Orderly;
    var p0, all := Start(link, commands), Datas(commands);
    assert p0.link.Valid() by { OrderlyValid(p0); }
    assert link.stamped + [] == link.stamped;
    PlayAccounts(p0, steps, link.stamped, all);
  }

  lemma {:induction false} DatasOfFile(chunks: seq<Payload>)
    ensures Datas(FileCommands(chunks)) == chunks
  {
    if chunks == [] {
      assert FileCommands(chunks) == [Drain];
    } else {
      DatasOfFile(chunks[1..]);
      assert FileCommands(chunks)[1..] == FileCommands(chunks[1..]);
    }
  }

  /** sock_sendtoEx on an empty window: if it succeeds its message is stamped and the window empty again. */
  lemma MessageSent(link: State, data: Payload, steps: seq<Step>)
    requires Orderly(Start(link, MessageCommands(data))) && link.tx.view.count == 0
    requires Over(Play(Start(link, MessageCommands(data)), steps))
    ensures var t := Play(Start(link, MessageCommands(data)), steps).link;
            t.tx.phase != Failed ==> t.stamped == link.stamped + [data] && t.tx.view.count == 0
  {
    hide Play, Perform, Drained, CopyIn, Orderly, Over, Pick;
    assert link.Valid() by { OrderlyValid(Start(link, MessageCommands(data))); }
    var p := Play(Start(link, MessageCommands(data)), steps);
    var w := Work(link.tx, p.taken + [], [], []);
    ProcessPerforms(link, MessageCommands(data), steps, []);
    StampedInOrder(link, MessageCommands(data), steps);
    MessageTurn(w, data);
    if p.link.tx.phase != Failed {
      assert p.keep == [true];
      assert MessageCommands(data)[1..] == [Drain] && Datas(MessageCommands(data)) == [data];
      PickOneMore([], [], data, true);
      assert [] + [data] == [data] && [] + [true] == [true] && Pick<Payload>([], []) == [];
      assert [data][..1] == [data];
    }
  }
}
