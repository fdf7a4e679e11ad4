/** Messages larger than one RPC: GuardianToServerMetaCallSplit and the accumulating handler.
    Several senders' chunks interleave at one receiver thread. */
module SplitRpc {
  newtype Byte = n: int | 0 <= n < 256

  /** One request: terminator flag, sender, payload. */
  datatype Chunk = Chunk(last: bool, sender: nat, payload: seq<Byte>)

  function Concat(chunks: seq<Chunk>): seq<Byte> {
    if chunks == [] then [] else Concat(chunks[..|chunks| - 1]) + chunks[|chunks| - 1].payload
  }

  /** The chunks of one message: only the last one carries the terminator. */
  ghost predicate IsSplit(chunks: seq<Chunk>, sender: nat, msg: seq<Byte>) {
    && chunks != [] && Concat(chunks) == msg
    && forall i :: 0 <= i < |chunks| ==> chunks[i].sender == sender && chunks[i].last == (i == |chunks| - 1)
  }

  /** The sending loop; `room` is the payload one request can carry. */
  method Split(sender: nat, msg: seq<Byte>, room: nat) returns (chunks: seq<Chunk>)
    requires room > 0 && msg != []
    ensures IsSplit(chunks, sender, msg)
    ensures forall i :: 0 <= i < |chunks| ==> 0 < |chunks[i].payload| <= room
  {
    chunks := [];
    var pos := 0;
    while pos < |msg|
      invariant pos <= |msg| && Concat(chunks) == msg[..pos] && (chunks == [] <==> pos == 0)
      invariant forall i :: 0 <= i < |chunks| ==>
                  chunks[i].sender == sender && chunks[i].last == (i == |chunks| - 1 && pos == |msg|) && 0 < |chunks[i].payload| <= room
    {
      var size := if |msg| - pos < room then |msg| - pos else room;
      var c := Chunk(pos + size == |msg|, sender, msg[pos..pos + size]);
      ConcatAppend(chunks, c);
      chunks := chunks + [c];
      assert msg[..pos] + msg[pos..pos + size] == msg[..pos + size];
      pos := pos + size;
    }
    assert msg[..|msg|] == msg;
  }

  lemma ConcatAppend(chunks: seq<Chunk>, c: Chunk)
    ensures Concat(chunks + [c]) == Concat(chunks) + c.payload
  {
    assert (chunks + [c])[..|chunks|] == chunks;
  }

  /** What the handler has delivered and holds for one sender after a stream of chunks. */
  datatype Inbox = Inbox(msgs: seq<seq<Byte>>, partial: seq<Byte>)

  function Accept(box: Inbox, c: Chunk): Inbox {
    var all := box.partial + c.payload;
    if c.last then Inbox(box.msgs + [all], []) else box.(partial := all)
  }

  function Feed(stream: seq<Chunk>, sender: nat): Inbox {
    if stream == [] then Inbox([], [])
    else
      var c := stream[|stream| - 1];
      var box := Feed(stream[..|stream| - 1], sender);
      if c.sender == sender then Accept(box, c) else box
  }

  /** The chunks of one sender. */
  function Only(stream: seq<Chunk>, sender: nat): seq<Chunk> {
    if stream == [] then []
    else Only(stream[..|stream| - 1], sender) + if stream[|stream| - 1].sender == sender then [stream[|stream| - 1]] else []
  }

  class SplitHandler {
    /** split_accum */
    var accum: map<nat, seq<Byte>>
    ghost var stream: seq<Chunk>

    function Held(sender: nat): seq<Byte>
      reads this
    {
      if sender in accum then accum[sender] else []
    }

    ghost predicate Valid()
      reads this
    {
      forall s :: Held(s) == Feed(stream, s).partial
    }

    constructor ()
      ensures Valid() && stream == []
    {
      accum, stream := map[], [];
    }

    /** MDPersistenceReqSplitHandler: the whole message once its terminator has arrived. */
    method OnChunk(c: Chunk) returns (complete: bool, msg: seq<Byte>)
      requires Valid()
      modifies this
      ensures Valid() && stream == old(stream) + [c]
      ensures complete == c.last
      ensures Feed(stream, c.sender).msgs == Feed(old(stream), c.sender).msgs + if complete then [msg] else []
      ensures forall s :: s != c.sender ==> Feed(stream, s) == Feed(old(stream), s)
    {
      assert (stream + [c])[..|stream|] == stream;
      var buf := Held(c.sender) + c.payload;
      assert buf == Feed(stream, c.sender).partial + c.payload;
      complete, msg := c.last, [];
      stream := stream + [c];
      if !c.last {
        accum := accum[c.sender := buf];
      } else {
        msg := buf;
        accum := accum[c.sender := []];
      }
    }
  }

  lemma FeedAppend(stream: seq<Chunk>, c: Chunk, sender: nat)
    ensures Feed(stream + [c], sender) == if c.sender == sender then Accept(Feed(stream, sender), c) else Feed(stream, sender)
    ensures Only(stream + [c], sender) == if c.sender == sender then Only(stream, sender) + [c] else Only(stream, sender)
  {
    assert (stream + [c])[..|stream|] == stream;
  }

  /** A sender's inbox depends on its own chunks only. */
  lemma {:induction false} FeedOnly(stream: seq<Chunk>, sender: nat)
    ensures Feed(stream, sender) == Feed(Only(stream, sender), sender)
    ensures forall c :: c in Only(stream, sender) ==> c.sender == sender
  {
    hide Feed, Only, Accept;
    if stream == [] {
      FeedNothing(sender);
    } else {
      var r, c := stream[..|stream| - 1], stream[|stream| - 1];
      assert stream == r + [c];
      FeedOnly(r, sender);
      FeedAppend(r, c, sender);
      FeedAppend(Only(r, sender), c, sender);
    }
  }

  /** All the chunks of some messages, one message after the other. */
  ghost predicate Sends(chunks: seq<Chunk>, sender: nat, msgs: seq<seq<Byte>>)
    decreases |msgs|
  {
    if msgs == [] then chunks == []
    else exists k :: 0 <= k <= |chunks| && Sends(chunks[..k], sender, msgs[..|msgs| - 1])
                     && IsSplit(chunks[k..], sender, msgs[|msgs| - 1])
  }

  lemma SendsNothing(chunks: seq<Chunk>, sender: nat)
    ensures Sends(chunks, sender, []) <==> chunks == []
  {
  }

  lemma SendsLast(chunks: seq<Chunk>, sender: nat, msgs: seq<seq<Byte>>) returns (k: nat)
    requires msgs != [] && Sends(chunks, sender, msgs)
    ensures k <= |chunks| && Sends(chunks[..k], sender, msgs[..|msgs| - 1]) && IsSplit(chunks[k..], sender, msgs[|msgs| - 1])
  {
    k :| 0 <= k <= |chunks| && Sends(chunks[..k], sender, msgs[..|msgs| - 1]) && IsSplit(chunks[k..], sender, msgs[|msgs| - 1]);
  }

  lemma {:induction false} FeedSplit(before: seq<Chunk>, chunks: seq<Chunk>, sender: nat, n: nat)
    requires n <= |chunks| && Feed(before, sender).partial == []
    requires forall i :: 0 <= i < |chunks| ==> chunks[i].sender == sender && chunks[i].last == (i == |chunks| - 1)
    ensures var box := Feed(before + chunks[..n], sender);
            box == if n == |chunks| > 0 then Inbox(Feed(before, sender).msgs + [Concat(chunks)], [])
                   else Inbox(Feed(before, sender).msgs, Concat(chunks[..n]))
  {
    if n == 0 {
      assert before + chunks[..0] == before && chunks[..0] == [];
    } else {
      FeedSplit(before, chunks, sender, n - 1);
      var all := before + chunks[..n];
      assert all[..|all| - 1] == before + chunks[..n - 1] && all[|all| - 1] == chunks[n - 1];
      assert chunks[..n] == chunks[..n - 1] + [chunks[n - 1]];
      ConcatAppend(chunks[..n - 1], chunks[n - 1]);
      assert chunks[..|chunks|] == chunks;
    }
  }

  /** Reassembly: whatever other senders' chunks come in between, the messages of a sender come
      out whole and in order, and nothing is left over. */
  lemma {:induction false} Reassembled(stream: seq<Chunk>, sender: nat, msgs: seq<seq<Byte>>)
    requires Sends(Only(stream, sender), sender, msgs)
    ensures Feed(stream, sender) == Inbox(msgs, [])
  {
    FeedOnly(stream, sender);
    FeedSends(Only(stream, sender), sender, msgs);
  }

  lemma FeedNothing(sender: nat)
    ensures Feed([], sender) == Inbox([], []) && Only([], sender) == []
  {
  }

  lemma {:induction false} FeedSends(chunks: seq<Chunk>, sender: nat, msgs: seq<seq<Byte>>)
    requires Sends(chunks, sender, msgs)
    ensures Feed(chunks, sender) == Inbox(msgs, [])
    decreases |msgs|
  {
    hide Feed, Concat, Sends;
    if msgs == [] {
      SendsNothing(chunks, sender);
      FeedNothing(sender);
    } else {
      var n := |msgs| - 1;
      var k := SendsLast(chunks, sender, msgs);
      FeedSends(chunks[..k], sender, msgs[..n]);
      FeedSplit(chunks[..k], chunks[k..], sender, |chunks| - k);
      assert chunks[..k] + chunks[k..][..|chunks| - k] == chunks;
      assert msgs == msgs[..n] + [msgs[n]];
    }
  }
}
