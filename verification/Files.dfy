/** How a file is cut into packets by send_file and put together by recv_file. */
module Files {
  import opened Protocol

  function Zeros(n: nat): seq<Byte> {
    seq(n, _ => 0)
  }

  /** A buffer that was cleared before `bytes` were read into it. */
  function Padded(bytes: seq<Byte>): Payload
    requires |bytes| <= BUFFER_LENGTH
  {
    bytes + Zeros(BUFFER_LENGTH - |bytes|)
  }

  /** The buffers that the feof loop of send_file passes on: it reads once more after the last full one. */
  function Chunks(file: seq<Byte>): (chunks: seq<Payload>)
    ensures |chunks| == |file| / BUFFER_LENGTH + 1
  {
    if |file| < BUFFER_LENGTH then [Padded(file)]
    else [file[..BUFFER_LENGTH]] + Chunks(file[BUFFER_LENGTH..])
  }

  lemma FirstChunk(file: seq<Byte>)
    ensures var n := if |file| < BUFFER_LENGTH then |file| else BUFFER_LENGTH;
            && Chunks(file)[0] == Padded(file[..n])
            && Chunks(file)[1..] == if n < BUFFER_LENGTH then [] else Chunks(file[n..])
  {
    if |file| < BUFFER_LENGTH {
      assert file[..|file|] == file;
    } else {
      assert Padded(file[..BUFFER_LENGTH]) == file[..BUFFER_LENGTH];
    }
  }

  /** How many packets recv_file takes for a file of `len` bytes. */
  function Needed(len: nat): nat {
    (len + BUFFER_LENGTH - 1) / BUFFER_LENGTH
  }

  /** What recv_file writes for a file of `len` bytes: all of every payload but the last. */
  function Assembled(payloads: seq<Payload>, len: nat): (bytes: seq<Byte>)
    requires |payloads| == Needed(len)
    ensures |bytes| == len
  {
    if len == 0 then []
    else if len <= BUFFER_LENGTH then payloads[0][..len]
    else payloads[0] + Assembled(payloads[1..], len - BUFFER_LENGTH)
  }

  /** CHUNKING ROUND TRIP. The packets recv_file takes, out of those send_file makes, give the file back. */
  lemma {:induction false} ChunksRoundTrip(file: seq<Byte>)
    ensures Needed(|file|) <= |Chunks(file)|
    ensures Assembled(Chunks(file)[..Needed(|file|)], |file|) == file
  {
    var chunks, n := Chunks(file), Needed(|file|);
    if |file| < BUFFER_LENGTH {
      assert |file| > 0 ==> n == 1 && chunks[..1] == [Padded(file)] && Padded(file)[..|file|] == file;
    } else {
      var rest := file[BUFFER_LENGTH..];
      ChunksRoundTrip(rest);
      assert n == Needed(|rest|) + 1;
      assert chunks[..n][1..] == Chunks(rest)[..Needed(|rest|)];
      if |file| == BUFFER_LENGTH {
        assert chunks[0][..|file|] == file;
      } else {
        assert chunks[..n][0] + rest == file;
      }
    }
  }

  /** There are L / 1024 + 1 packets and the first ones, as many as L bytes need, are taken: one packet is made
      for nothing exactly when 1024 divides L. */
  lemma SurplusChunk(file: seq<Byte>)
    ensures |Chunks(file)| == |file| / 1024 + 1 && 1024 * Needed(|file|) - 1024 < |file| <= 1024 * Needed(|file|)
    ensures |Chunks(file)| == Needed(|file|) + if |file| % 1024 == 0 then 1 else 0
  {
  }

  /** EVERY BYTE. Byte `j` of packet `i` is the byte of the file at 1024 i + j, or 0 behind the end. */
  lemma {:induction false} ChunkByte(file: seq<Byte>, i: nat, j: nat)
    requires i < |Chunks(file)| && j < 1024
    ensures Chunks(file)[i][j] == if 1024 * i + j < |file| then file[1024 * i + j] else 0
  {
    if |file| >= BUFFER_LENGTH && i > 0 {
      ChunkByte(file[BUFFER_LENGTH..], i - 1, j);
    }
  }

  /** What is left of the bytes of a file, whose length is a multiple of the buffer size, when one of its
      packets is missing and the surplus packet of zeros takes the last place. */
  function WithoutChunk(file: seq<Byte>, i: nat): (bytes: seq<Byte>)
    requires |file| % BUFFER_LENGTH == 0 && i <= |file| / BUFFER_LENGTH
    ensures |bytes| == |file|
  {
    if i == |file| / BUFFER_LENGTH then file
    else file[..BUFFER_LENGTH * i] + file[BUFFER_LENGTH * (i + 1)..] + Zeros(BUFFER_LENGTH)
  }

  /** The byte that moves to place `j` when a packet in front of it is left out. */
  function Later(file: seq<Byte>, j: nat): Byte {
    if j + BUFFER_LENGTH < |file| then file[j + BUFFER_LENGTH] else 0
  }

  lemma WithoutChunkAt(file: seq<Byte>, i: nat, j: nat)
    requires |file| % BUFFER_LENGTH == 0 && i < |file| / BUFFER_LENGTH && j < |file|
    ensures WithoutChunk(file, i)[j] == if j < BUFFER_LENGTH * i then file[j] else Later(file, j)
  {
  }

  /** Leaving out a packet makes no difference exactly when it and all bytes behind it are zero. */
  lemma WithoutChunkSame(file: seq<Byte>, i: nat)
    requires |file| % BUFFER_LENGTH == 0 && i <= |file| / BUFFER_LENGTH
    ensures WithoutChunk(file, i) == file <==> forall j | BUFFER_LENGTH * i <= j < |file| :: file[j] == 0
  {
    if i < |file| / BUFFER_LENGTH {
      if forall j | BUFFER_LENGTH * i <= j < |file| :: file[j] == 0 {
        ZeroStays(file, i);
      }
      if WithoutChunk(file, i) == file {
        forall j | BUFFER_LENGTH * i <= j < |file| ensures file[j] == Later(file, j) {
          hide Later, WithoutChunk;
          WithoutChunkAt(file, i, j);
        }
        hide Later, WithoutChunk;
        ZeroFrom(file, BUFFER_LENGTH * i);
      }
    }
  }

  lemma ZeroStays(file: seq<Byte>, i: nat)
    requires |file| % BUFFER_LENGTH == 0 && i < |file| / BUFFER_LENGTH
    requires forall j | BUFFER_LENGTH * i <= j < |file| :: file[j] == 0
    ensures WithoutChunk(file, i) == file
  {
    forall j: nat | j < |file| ensures WithoutChunk(file, i)[j] == file[j] {
      hide WithoutChunk;
      WithoutChunkAt(file, i, j);
    }
  }

  lemma {:induction false} ZeroFrom(file: seq<Byte>, at: nat)
    requires at <= |file| && forall j | at <= j < |file| :: file[j] == Later(file, j)
    ensures forall j | at <= j < |file| :: file[j] == 0
    decreases |file| - at
  {
    hide Later;
    if at < |file| {
      ZeroFrom(file, at + 1);
      LaterZero(file, at);
    }
  }

  lemma LaterZero(file: seq<Byte>, at: nat)
    requires at < |file| && file[at] == Later(file, at) && forall j | at < j < |file| :: file[j] == 0
    ensures file[at] == 0
  {
  }

  /** All packets of such a file, the surplus one with them. */
  lemma {:induction false} AllChunks(file: seq<Byte>)
    requires |file| % BUFFER_LENGTH == 0
    ensures Needed(|file| + BUFFER_LENGTH) == |Chunks(file)|
    ensures Assembled(Chunks(file), |file| + BUFFER_LENGTH) == file + Zeros(BUFFER_LENGTH)
  {
    if file == [] {
      assert Padded(file) == Zeros(BUFFER_LENGTH);
      assert Chunks(file)[0][..BUFFER_LENGTH] == Zeros(BUFFER_LENGTH);
    } else {
      var rest := file[BUFFER_LENGTH..];
      AllChunks(rest);
      assert Chunks(file)[1..] == Chunks(rest);
      assert file[..BUFFER_LENGTH] + (rest + Zeros(BUFFER_LENGTH)) == file + Zeros(BUFFER_LENGTH);
    }
  }

  /** The packets without the one at `i` assemble to the bytes without those at its place. */
  lemma {:induction false} ChunkMissing(file: seq<Byte>, i: nat)
    requires |file| % BUFFER_LENGTH == 0 && i <= |file| / BUFFER_LENGTH
    ensures |Chunks(file)[..i] + Chunks(file)[i + 1..]| == Needed(|file|)
    ensures Assembled(Chunks(file)[..i] + Chunks(file)[i + 1..], |file|) == WithoutChunk(file, i)
  {
    var chunks := Chunks(file);
    var left := chunks[..i] + chunks[i + 1..];
    if i == |file| / BUFFER_LENGTH {
      ChunksRoundTrip(file);
      assert left == chunks[..Needed(|file|)];
    } else {
      var rest := file[BUFFER_LENGTH..];
      assert chunks[1..] == Chunks(rest) && chunks[0] == file[..BUFFER_LENGTH];
      if i == 0 {
        AllChunks(rest);
        assert left == Chunks(rest);
        assert WithoutChunk(file, i) == rest + Zeros(BUFFER_LENGTH);
      } else {
        ChunkMissing(rest, i - 1);
        var tail := Chunks(rest)[..i - 1] + Chunks(rest)[i..];
        assert left == [chunks[0]] + tail && left[1..] == tail;
        assert Assembled(left, |file|) == chunks[0] + Assembled(tail, |rest|);
        WithoutFirst(file, i);
      }
    }
  }

  lemma WithoutFirst(file: seq<Byte>, i: nat)
    requires |file| % BUFFER_LENGTH == 0 && 0 < i < |file| / BUFFER_LENGTH
    ensures WithoutChunk(file, i) == file[..BUFFER_LENGTH] + WithoutChunk(file[BUFFER_LENGTH..], i - 1)
  {
    hide Zeros;
    var rest := file[BUFFER_LENGTH..];
    var head, left, right := file[..BUFFER_LENGTH], rest[..BUFFER_LENGTH * (i - 1)], rest[BUFFER_LENGTH * i..];
    assert right == file[BUFFER_LENGTH * (i + 1)..];
    assert head + left == file[..BUFFER_LENGTH * i];
    assert WithoutChunk(rest, i - 1) == left + right + Zeros(BUFFER_LENGTH);
    assert head + (left + right + Zeros(BUFFER_LENGTH)) == head + left + right + Zeros(BUFFER_LENGTH);
  }

  /** Assembling can be done one packet at a time, as the loop of recv_file does. */
  lemma {:induction false} AssembledSnoc(payloads: seq<Payload>, len: nat, last: Payload, n: nat)
    requires |payloads| == Needed(len) && len % BUFFER_LENGTH == 0 && 0 < n <= BUFFER_LENGTH
    ensures Needed(len + n) == Needed(len) + 1
    ensures Assembled(payloads + [last], len + n) == Assembled(payloads, len) + last[..n]
    decreases len
  {
    if len > 0 {
      var len' := len - BUFFER_LENGTH;
      assert Needed(len) == Needed(len') + 1;
      AssembledSnoc(payloads[1..], len', last, n);
      assert (payloads + [last])[1..] == payloads[1..] + [last];
      assert Assembled(payloads, len) == payloads[0] + Assembled(payloads[1..], len') by {
        if len' == 0 {
          assert payloads[0][..len] == payloads[0] + [];
        }
      }
      assert payloads[0] + (Assembled(payloads[1..], len') + last[..n]) == Assembled(payloads, len) + last[..n];
    }
  }

  /** The same for the payloads taken since there were `before` of them. */
  lemma AssembledTaken(before: nat, taken: seq<Payload>, len: nat, last: Payload, n: nat)
    requires before <= |taken| && |taken| - before == Needed(len)
    requires len % BUFFER_LENGTH == 0 && 0 < n <= BUFFER_LENGTH
    ensures |taken + [last]| - before == Needed(len + n) == Needed(len) + 1
    ensures Assembled((taken + [last])[before..], len + n) == Assembled(taken[before..], len) + last[..n]
  {
    AssembledSnoc(taken[before..], len, last, n);
    assert (taken + [last])[before..] == taken[before..] + [last];
  }

  lemma AssembledOne(taken: seq<Payload>, before: nat, n: nat)
    requires |taken| == before + 1 && 0 < n <= BUFFER_LENGTH
    ensures Needed(n) == 1 && Assembled(taken[before..], n) == taken[before][..n]
  {
  }

  /** While bytes are left after `k` packets, more packets are needed, and none otherwise. */
  lemma NeededLeft(len: nat, k: nat)
    ensures BUFFER_LENGTH * k < len ==> k < Needed(len)
    ensures Needed(BUFFER_LENGTH * k) == k
    ensures BUFFER_LENGTH * k >= len && (k == 0 || BUFFER_LENGTH * (k - 1) < len) ==> k == Needed(len)
  {
  }
}
