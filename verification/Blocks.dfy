/** The loops of Assign3_zcl that cut a file into blocks for udpsend, with the rest for udplastsend, and
    those that put it together again. */
module Blocks {
  import opened Protocol
  import opened PairSpec
  import PairNet

  /** How many blocks udpsend gets for a file of `len` bytes: at least one byte stays for the tail. */
  function Full(len: nat): nat {
    if len == 0 then 0 else (len - 1) / BLOCK_LENGTH
  }

  function BlocksOf(file: seq<Byte>): (blocks: seq<Block>)
    ensures |blocks| == Full(|file|)
  {
    seq(Full(|file|), i requires 0 <= i < Full(|file|) => file[BLOCK_LENGTH * i..][..BLOCK_LENGTH])
  }

  function TailOf(file: seq<Byte>): (tail: seq<Byte>)
    ensures file != [] ==> 1 <= |tail| <= BLOCK_LENGTH
    ensures file == [] ==> tail == []
  {
    file[BLOCK_LENGTH * Full(|file|)..]
  }

  function Joined(blocks: seq<Block>): (bytes: seq<Byte>)
    ensures |bytes| == BLOCK_LENGTH * |blocks|
  {
    if blocks == [] then [] else Joined(blocks[..|blocks| - 1]) + blocks[|blocks| - 1]
  }

  lemma JoinedOneMore(blocks: seq<Block>, block: Block)
    ensures Joined(blocks + [block]) == Joined(blocks) + block
  {
    assert (blocks + [block])[..|blocks|] == blocks;
  }

  lemma {:induction false} JoinedPrefix(file: seq<Byte>, k: nat)
    requires k <= Full(|file|)
    ensures Joined(BlocksOf(file)[..k]) == file[..BLOCK_LENGTH * k]
  {
    if k > 0 {
      JoinedPrefix(file, k - 1);
      assert BlocksOf(file)[..k][..k - 1] == BlocksOf(file)[..k - 1];
    }
  }

  /** BLOCK ROUND TRIP. The blocks and the tail make up the file. */
  lemma BlocksRoundTrip(file: seq<Byte>)
    ensures Joined(BlocksOf(file)) + TailOf(file) == file
  {
    JoinedPrefix(file, Full(|file|));
    assert BlocksOf(file)[..Full(|file|)] == BlocksOf(file);
  }

  /** While more than a block is left after `k` blocks there is a full one to come, and else none. */
  lemma FullLeft(len: nat, k: nat)
    requires k <= Full(len)
    ensures len - BLOCK_LENGTH * k > BLOCK_LENGTH <==> k < Full(len)
    ensures k == Full(len) && len > 0 ==> 1 <= len - BLOCK_LENGTH * k <= BLOCK_LENGTH
  {
  }

  /** The loop of PutFileToServer: what it passes to udpsend and to udplastsend. */
  method PutFile(file: seq<Byte>) returns (blocks: seq<Block>, tails: seq<seq<Byte>>)
    ensures blocks == BlocksOf(file)
    ensures tails == if file == [] then [] else [TailOf(file)]
  {
    var sizeleft, at: nat := |file|, 0;
    blocks, tails := [], [];
    while sizeleft > 0
      invariant |blocks| <= Full(|file|) && at == BLOCK_LENGTH * |blocks| && blocks == BlocksOf(file)[..|blocks|]
      invariant if tails == [] then sizeleft == |file| - at else sizeleft <= 0 && |blocks| == Full(|file|)
      invariant tails == if sizeleft > 0 || file == [] then [] else [TailOf(file)]
    {
      FullLeft(|file|, |blocks|);
      if sizeleft > BLOCK_LENGTH {
        blocks, at := blocks + [file[at..][..BLOCK_LENGTH]], at + BLOCK_LENGTH;
      } else {
        assert file[at..][..sizeleft] == TailOf(file);
        tails := tails + [file[at..][..sizeleft]];
      }
      sizeleft := sizeleft - BLOCK_LENGTH;
    }
    FullLeft(|file|, |blocks|);
  }

  /** The loop of PutFileToClient, which goes on while sizeleft is 0: after a file that fills its last
      block it passes one more tail, an empty one. */
  method ServeFile(file: seq<Byte>) returns (blocks: seq<Block>, tails: seq<seq<Byte>>)
    ensures blocks == BlocksOf(file)
    ensures tails == [TailOf(file)] + if file != [] && |file| % BLOCK_LENGTH == 0 then [[]] else []
  {
    var sizeleft, at: nat := |file|, 0;
    blocks, tails := [], [];
    while sizeleft >= 0
      invariant |blocks| <= Full(|file|) && blocks == BlocksOf(file)[..|blocks|]
      invariant tails == [] ==> sizeleft == |file| - at && at == BLOCK_LENGTH * |blocks|
      invariant tails != [] ==> |blocks| == Full(|file|) && at == |file|
      invariant tails != [] && sizeleft >= 0 ==>
                  tails == [TailOf(file)] && sizeleft == 0 && file != [] && |file| % BLOCK_LENGTH == 0
      invariant tails != [] && sizeleft < 0 ==>
                  tails == [TailOf(file)] + if file != [] && |file| % BLOCK_LENGTH == 0 then [[]] else []
      invariant sizeleft < 0 ==> tails != []
    {
      if tails == [] {
        FullLeft(|file|, |blocks|);
      }
      if sizeleft > BLOCK_LENGTH {
        blocks, at := blocks + [file[at..][..BLOCK_LENGTH]], at + BLOCK_LENGTH;
      } else {
        TailFills(|file|);
        assert file[at..][..sizeleft] == if tails == [] then TailOf(file) else [];
        tails, at := tails + [file[at..][..sizeleft]], at + sizeleft;
      }
      sizeleft := sizeleft - BLOCK_LENGTH;
    }
  }

  lemma TailFills(len: nat)
    ensures len > 0 ==> (len - BLOCK_LENGTH * Full(len) == BLOCK_LENGTH <==> len % BLOCK_LENGTH == 0)
  {
  }

  lemma ReturnsOneMore(results: seq<Result>, k: nat)
    requires k < |results|
    ensures Returns(results[..k + 1]) ==
            if results[k].Returned? then Returns(results[..k]) + [results[k].block] else Returns(results[..k])
  {
    assert results[..k + 1][..k] == results[..k];
  }

  /** The loop of GetFileFromClient and GetFileFromServer, when `results` is what successive calls of
      udprecv return and `last` is in the buffer that udplastrecv returns; `used` calls are made. */
  method GetFile(len: nat, results: seq<Result>, last: Block) returns (done: bool, written: seq<Byte>, used: nat)
    ensures used <= |results| && |Returns(results[..used])| <= Full(len)
    ensures done <==> |Returns(results[..used])| == Full(len)
    ensures !done ==> used == |results| && written == Joined(Returns(results))
    ensures done && len > 0 ==> written == Joined(Returns(results[..used])) + last[..len - BLOCK_LENGTH * Full(len)]
    ensures done && len == 0 ==> written == []
    ensures done && used > 0 ==> results[used - 1].Returned?
  {
    var fsize: int := len;
    written, used := [], 0;
    ghost var k := 0;
    FullLeft(len, 0);
    while fsize > 0
      invariant used <= |results| && k == |Returns(results[..used])| <= Full(len)
      invariant fsize > 0 ==> fsize == len - BLOCK_LENGTH * k && written == Joined(Returns(results[..used]))
      invariant fsize <= 0 ==> fsize == 0 && k == Full(len)
      invariant fsize <= 0 && len > 0 ==>
                  written == Joined(Returns(results[..used])) + last[..len - BLOCK_LENGTH * Full(len)]
      invariant fsize <= 0 && len == 0 ==> written == []
      invariant used > 0 && k == Full(len) ==> results[used - 1].Returned?
      decreases fsize > 0, |results| - used
    {
      FullLeft(len, k);
      if fsize > BLOCK_LENGTH {
        if used == |results| {
          assert results[..used] == results;
          return false, written, used;
        }
        var slidbuffer := results[used];
        ReturnsOneMore(results, used);
        used := used + 1;
        if !slidbuffer.Returned? {
          continue;
        }
        JoinedOneMore(Returns(results[..used - 1]), slidbuffer.block);
        written := written + slidbuffer.block;
        fsize := fsize - BLOCK_LENGTH;
        k := k + 1;
        FullLeft(len, k);
      } else {
        written := written + last[..fsize];
        fsize := 0;
      }
    }
    done := true;
  }

  /** FILE TRANSFER. In every run in which udpsend was called with the first blocks of the file, the
      blocks written are the beginning of the file; they are all its full blocks when the sender has
      given them all and no call is under way, and then the tail completes the file. */
  lemma BlocksArrive(block: Block, events: seq<PairNet.Event>, file: seq<Byte>, n: nat)
    requires n <= Full(|file|) && PairNet.Run(PairNet.Init(block), events).given == BlocksOf(file)[..n]
    ensures var s := PairNet.Run(PairNet.Init(block), events);
            && |s.written| <= n && Joined(s.written) == file[..BLOCK_LENGTH * |s.written|]
            && (n == Full(|file|) && s.tx.stage == Idle ==> |s.written| == n)
            && (|s.written| == Full(|file|) ==> Joined(s.written) + TailOf(file) == file)
  {
    hide PairNet.Run, BlocksOf;
    PairNet.WrittenIsPrefix(block, events);
    var s := PairNet.Run(PairNet.Init(block), events);
    assert s.written == BlocksOf(file)[..|s.written|];
    JoinedPrefix(file, |s.written|);
  }
}
