/** From the bytes of a file on one side to the bytes written on the other. */
module Transfer {
  import opened Protocol
  import opened Sequences
  import opened SenderSpec
  import opened Refinement
  import opened Files
  import opened Link
  import opened Program
  import opened Receiving
  import opened SockLibrary
  import Safety

  /** The state in which send_file is called: some clean run has stamped the messages before the file, and
      the last of them has left the window empty. */
  ghost predicate BeforeFile(memory: seq<Frame>, first: nat, before: seq<Event>)
    requires 2 <= |memory| <= SAFE_WINDOW + 1 && first < UINT_RANGE
  {
    var link := Run(Init(memory, first), before);
    link.stamped != [] && link.tx.phase == Idle && link.tx.view.count == 0
  }

  /** send_file at some moment, after `steps` of it and of everything around it. */
  function Sending(link: State, file: seq<Byte>, steps: seq<Step>): Process
    requires link.Valid()
  {
    Play(Start(link, FileCommands(Chunks(file))), steps)
  }

  /** What recv_file needs, on top of the `n` payloads accepted before it, is there. */
  predicate Complete(link: State, n: nat, file: seq<Byte>) {
    |link.accepted| >= n + Needed(|file|)
  }

  /** The bytes it has written then. */
  function Written(link: State, n: nat, file: seq<Byte>): seq<Byte>
    requires Complete(link, n, file)
  {
    Assembled(link.accepted[n..][..Needed(|file|)], |file|)
  }

  lemma SentSoFar(memory: seq<Frame>, first: nat, before: seq<Event>, file: seq<Byte>, steps: seq<Step>)
    requires 2 <= |memory| <= SAFE_WINDOW + 1 && first < UINT_RANGE && BeforeFile(memory, first, before)
    requires var link := Run(Init(memory, first), before);
             Clean(Init(memory, first), before + Events(Start(link, FileCommands(Chunks(file))), steps))
    ensures var link := Run(Init(memory, first), before);
            var p := Sending(link, file, steps);
            && |p.keep| <= |Chunks(file)|
            && p.link.stamped == link.stamped + Pick(Chunks(file)[..|p.keep|], p.keep)
            && p.link.accepted <= p.link.stamped
  {
    hide Play, Run, Clean, Chunks, Pick, Program.Events;
    var link := Run(Init(memory, first), before);
    var commands := FileCommands(Chunks(file));
    var events := Program.Events(Start(link, commands), steps);
    PlayIsRun(Start(link, commands), steps);
    RunBoth(Init(memory, first), before, events);
    Safety.DeliveredIsPrefix(memory, first, before + events);
    StampedInOrder(link, commands, steps);
    DatasOfFile(Chunks(file));
  }

  /** The payloads after the messages, out of those stamped. */
  lemma TakenFromFile(pre: seq<Payload>, picked: seq<Payload>, accepted: seq<Payload>, k: nat)
    requires accepted <= pre + picked && |accepted| >= |pre| + k
    ensures k <= |picked| && accepted[|pre|..][..k] == picked[..k]
  {
    assert accepted[|pre|..] == picked[..|accepted| - |pre|];
  }

  /** FILE TRANSFER. Let send_file run with anything around it, in a clean run, from a state in which the
      messages before the file have been sent. When the receiver has taken as many packets as recv_file
      asks for, it has written the file if no chunk was passed over by copy_2_winbuf. */
  lemma FileArrives(memory: seq<Frame>, first: nat, before: seq<Event>, file: seq<Byte>, steps: seq<Step>)
    requires 2 <= |memory| <= SAFE_WINDOW + 1 && first < UINT_RANGE && BeforeFile(memory, first, before)
    requires var link := Run(Init(memory, first), before);
             Clean(Init(memory, first), before + Events(Start(link, FileCommands(Chunks(file))), steps))
    ensures var link := Run(Init(memory, first), before);
            var p := Sending(link, file, steps);
            Complete(p.link, |link.stamped|, file) && (forall i | 0 <= i < |p.keep| :: p.keep[i]) ==>
              Written(p.link, |link.stamped|, file) == file
  {
    hide Play, Run, Clean, Chunks, Pick, Program.Events, Assembled, Needed;
    var link := Run(Init(memory, first), before);
    var p := Sending(link, file, steps);
    SentSoFar(memory, first, before, file, steps);
    var n, pre := |p.keep|, link.stamped;
    var chunks := Chunks(file)[..n];
    PickAll(chunks, p.keep);
    if Complete(p.link, |pre|, file) && forall i | 0 <= i < n :: p.keep[i] {
      TakenFromFile(pre, chunks, p.link.accepted, Needed(|file|));
      assert chunks[..Needed(|file|)] == Chunks(file)[..Needed(|file|)];
      ChunksRoundTrip(file);
    }
  }

  /** A PAYLOAD PASSED OVER. Once chunk `i` has been passed over, recv_file waits for ever, unless 1024
      divides the length of the file and this is the only one; then it writes the file without the bytes
      of that chunk, filled up with zeros, which is the file if the chunk was the surplus one. */
  lemma SkippedChunk(memory: seq<Frame>, first: nat, before: seq<Event>, file: seq<Byte>, steps: seq<Step>, i: nat)
    requires 2 <= |memory| <= SAFE_WINDOW + 1 && first < UINT_RANGE && BeforeFile(memory, first, before)
    requires var link := Run(Init(memory, first), before);
             && Clean(Init(memory, first), before + Events(Start(link, FileCommands(Chunks(file))), steps))
             && i < |Sending(link, file, steps).keep| && !Sending(link, file, steps).keep[i]
    ensures var link := Run(Init(memory, first), before);
            var p := Sending(link, file, steps);
            Complete(p.link, |link.stamped|, file) ==>
              && |file| % BUFFER_LENGTH == 0 && |p.keep| == |Chunks(file)|
              && (forall j | 0 <= j < |p.keep| && j != i :: p.keep[j])
              && i <= |file| / BUFFER_LENGTH && Written(p.link, |link.stamped|, file) == WithoutChunk(file, i)
  {
    hide Play, Run, Clean, Chunks, Pick, Program.Events, Assembled, Needed;
    var link := Run(Init(memory, first), before);
    var p := Sending(link, file, steps);
    SentSoFar(memory, first, before, file, steps);
    var n, pre := |p.keep|, link.stamped;
    var chunks := Chunks(file)[..n];
    var picked := Pick(chunks, p.keep);
    if Complete(p.link, |pre|, file) {
      TakenFromFile(pre, picked, p.link.accepted, Needed(|file|));
      SurplusChunk(file);
      PickAll(chunks, p.keep);
      OneMissing(chunks, p.keep, i);
      assert chunks == Chunks(file);
      ChunkMissing(file, i);
      assert picked[..Needed(|file|)] == picked;
    }
  }

  /** So, when recv_file has all it asks for, what it has written is the file if and only if all bytes from
      the first chunk that was passed over on are zero; and if none was, it is the file. */
  lemma FileArrivesExactly(memory: seq<Frame>, first: nat, before: seq<Event>, file: seq<Byte>, steps: seq<Step>)
    requires 2 <= |memory| <= SAFE_WINDOW + 1 && first < UINT_RANGE && BeforeFile(memory, first, before)
    requires var link := Run(Init(memory, first), before);
             Clean(Init(memory, first), before + Events(Start(link, FileCommands(Chunks(file))), steps))
    ensures var link := Run(Init(memory, first), before);
            var p := Sending(link, file, steps);
            Complete(p.link, |link.stamped|, file) ==>
              (Written(p.link, |link.stamped|, file) == file <==>
                 forall i, j | 0 <= i < |p.keep| && !p.keep[i] && BUFFER_LENGTH * i <= j < |file| :: file[j] == 0)
  {
    hide Play, Run, Clean, Chunks, Program.Events, Written, WithoutChunk;
    var link := Run(Init(memory, first), before);
    var p := Sending(link, file, steps);
    if i :| 0 <= i < |p.keep| && !p.keep[i] {
      SkippedChunk(memory, first, before, file, steps, i);
      if Complete(p.link, |link.stamped|, file) {
        WithoutChunkSame(file, i);
        assert forall k | 0 <= k < |p.keep| && !p.keep[k] :: k == i;
      }
    } else {
      FileArrives(memory, first, before, file, steps);
    }
  }

  /** recv_file in a run: after the calls that took the first `n` payloads, it takes those it needs, and has
      them as soon as the run has; what it assembles then is Written. */
  lemma RecvFileInRun(memory: seq<Frame>, first: nat, events: seq<Event>, inbox: seq<Arrival>, hsData: Payload,
                      n: nat, file: seq<Byte>)
    requires 2 <= |memory| <= SEQUENCE_NUM_MAX + 1 && first < UINT_RANGE
    requires Frames(inbox) == Delivered(Init(memory, first), events)
    requires Complete(Run(Init(memory, first), events), n, file)
    ensures var s := Run(Init(memory, first), events);
            var before := Listen(Receiver(-1, inbox, [], []), hsData, n);
            var after := Listen(before, hsData, n + Needed(|file|));
            && |before.accepted| == n && |after.accepted| == n + Needed(|file|)
            && Assembled(after.accepted[n..], |file|) == Written(s, n, file)
  {
    hide Listen, Frames, Delivered, Run, Needed, Assembled;
    var s, r, goal := Run(Init(memory, first), events), Receiver(-1, inbox, [], []), n + Needed(|file|);
    ReceivedInRun(memory, first, events, hsData, inbox, n);
    ReceivedInRun(memory, first, events, hsData, inbox, goal);
    ListenOn(r, hsData, n, goal);
    assert s.accepted[..goal][n..] == s.accepted[n..][..Needed(|file|)];
  }

  /** The method itself, on an object that has taken the messages of the run and has its datagrams in front
      of it. */
  method RecvFileOfRun(lib: SockLib, len: nat, ghost memory: seq<Frame>, ghost first: nat, ghost events: seq<Event>,
                       ghost inbox: seq<Arrival>, ghost n: nat, ghost file: seq<Byte>)
    returns (done: bool, written: seq<Byte>)
    requires 2 <= |memory| <= SEQUENCE_NUM_MAX + 1 && first < UINT_RANGE && len == |file|
    requires Frames(inbox) == Delivered(Init(memory, first), events)
    requires Complete(Run(Init(memory, first), events), n, file)
    requires lib.Valid() && lib.Hearing() == Listen(Receiver(-1, inbox, [], []), lib.hsData, n)
    modifies lib
    ensures done && written == Written(Run(Init(memory, first), events), n, file)
  {
    hide Listen, Frames, Delivered, Run, Needed, Assembled, Written;
    RecvFileInRun(memory, first, events, inbox, lib.hsData, n, file);
    done, written := lib.RecvFile(len);
  }
}
