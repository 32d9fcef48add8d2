/**
 The chunk receiver: reassembly of any number of interleaved messages from
 chunks that arrive reordered and repeated.
 */
module Receiver {
  import opened Common
  import opened Utf8
  import opened Chunking

  // ---------- the receiver on values ----------

  /** A message in flight: the announced number of chunks and the payloads held so far. */
  datatype Pending = Pending(total: nat, chunks: map<nat, seq<Byte>>)

  type Inflight = map<nat, Pending>

  /** Panicked is the reassembly of a message with a chunk missing, which aborts the source. */
  datatype Reply = Refused(error: ChunkError) | More | Complete(message: seq<Byte>) | Panicked

  function Assemble(chunks: map<nat, seq<Byte>>, n: nat): Option<seq<Byte>> {
    if n == 0 then Some([]) else
      match Assemble(chunks, n - 1)
      case None => None
      case Some(front) => if n - 1 in chunks then Some(front + chunks[n - 1]) else None
  }

  /**
   The whole message; None stands for the panic when the number of chunks is not the announced one or one is missing.
   */
  function Reassembled(p: Pending): Option<seq<Byte>> {
    if |p.chunks| == p.total then Assemble(p.chunks, p.total) else None
  }

  function Finish(p: Pending): Reply {
    match Reassembled(p)
    case Some(message) => Complete(message)
    case None => Panicked
  }

  function Held(view: Inflight, id: nat, total: nat): Pending {
    if id in view then view[id] else Pending(total, map[])
  }

  function Receive(view: Inflight, raw: seq<Byte>): (Inflight, Reply) {
    match ParseChunk(raw)
    case Err(e) => (view, Refused(e))
    case Ok(c) =>
      var held := Held(view, c.id, c.total);
      var now := held.(chunks := held.chunks[c.seqNum := c.payload]);
      if |now.chunks| == now.total then (view - {c.id}, Finish(now)) else (view[c.id := now], More)
  }

  /** A refused datagram leaves everything in flight as it is; any other one touches its own message alone. */
  lemma RefusedChangesNothing(view: Inflight, raw: seq<Byte>)
    ensures ParseChunk(raw).Err? ==> Receive(view, raw) == (view, Refused(ParseChunk(raw).error))
    ensures ParseChunk(raw).Ok? ==>
      forall id :: id != ParseChunk(raw).value.id ==>
        (id in view <==> id in Receive(view, raw).0) && (id in view ==> Receive(view, raw).0[id] == view[id])
  {
    hide ParseChunk, Finish;
  }

  /** Whatever a chunk announces, its message keeps the total that its first chunk announced, until it is complete. */
  lemma FirstTotalStands(view: Inflight, raw: seq<Byte>)
    requires ParseChunk(raw).Ok?
    ensures var c, view' := ParseChunk(raw).value, Receive(view, raw).0;
            && (Receive(view, raw).1 == More <==> c.id in view')
            && (c.id in view' ==>
                  && view'[c.id].total == (if c.id in view then view[c.id].total else c.total)
                  && c.seqNum in view'[c.id].chunks && view'[c.id].chunks[c.seqNum] == c.payload)
  {
    hide ParseChunk, Reassembled;
  }

  // ---------- arrivals ----------

  /** The messages being sent: the payloads of each, by id, such as `Slices` makes them. */
  type Messages = map<nat, seq<seq<Byte>>>

  ghost predicate Sendable(messages: Messages) {
    forall id :: id in messages ==>
      && id <= U64_MAX
      && 1 <= |messages[id]| < 10_000_000
      && forall i :: 0 <= i < |messages[id]| ==> |messages[id][i]| < 10_000
  }

  /** The arrival of one chunk of one message. */
  datatype Arrival = Arrival(id: nat, index: nat)

  predicate Sent(messages: Messages, a: Arrival) {
    a.id in messages && a.index < |messages[a.id]|
  }

  function Datagram(messages: Messages, a: Arrival): seq<Byte>
    requires Sent(messages, a)
  {
    ChunkBytes(a.id, a.index, |messages[a.id]|, messages[a.id][a.index])
  }

  /** The chunks of a message seen since it was last complete. */
  function Seen(messages: Messages, arrivals: seq<Arrival>, id: nat): set<nat>
    requires id in messages
  {
    if arrivals == [] then {} else
      var a := arrivals[|arrivals| - 1];
      var before := Seen(messages, arrivals[..|arrivals| - 1], id);
      if a.id != id then before
      else if before + {a.index} == AllOf(|messages[id]|) then {} else before + {a.index}
  }

  function AllOf(n: nat): (r: set<nat>)
    ensures forall i: nat :: i in r <==> i < n
  {
    if n == 0 then {} else AllOf(n - 1) + {n - 1}
  }

  /** What the receiver should hold: for each incomplete message, the payloads seen. */
  function Expected(messages: Messages, arrivals: seq<Arrival>): Inflight {
    map id | id in messages && Seen(messages, arrivals, id) != {} :: Kept(messages[id], Seen(messages, arrivals, id))
  }

  function Kept(slices: seq<seq<Byte>>, seen: set<nat>): Pending {
    Pending(|slices|, map i | i in seen :: if i < |slices| then slices[i] else [])
  }

  /** What the receiver holds after a run of arrivals. */
  function ViewAfter(messages: Messages, arrivals: seq<Arrival>): Inflight
    requires forall i :: 0 <= i < |arrivals| ==> Sent(messages, arrivals[i])
  {
    if arrivals == [] then map[] else
      var n := |arrivals| - 1;
      Receive(ViewAfter(messages, arrivals[..n]), Datagram(messages, arrivals[n])).0
  }

  lemma {:induction false} AllOfSize(n: nat)
    ensures |AllOf(n)| == n
  {
    if n > 0 {
      AllOfSize(n - 1);
    }
  }

  /** Indices below n are all of them exactly when there are n of them. */
  lemma FullSize(s: set<nat>, n: nat)
    requires s <= AllOf(n)
    ensures |s| == n <==> s == AllOf(n)
  {
    AllOfSize(n);
    if |s| == n {
      assert |AllOf(n) - s| == |AllOf(n)| - |s|;
    }
  }

  lemma {:induction false} SeenIsBounded(messages: Messages, arrivals: seq<Arrival>, id: nat)
    requires id in messages
    requires forall i :: 0 <= i < |arrivals| ==> Sent(messages, arrivals[i])
    ensures Seen(messages, arrivals, id) <= AllOf(|messages[id]|)
  {
    if arrivals != [] {
      SeenIsBounded(messages, arrivals[..|arrivals| - 1], id);
    }
  }

  lemma {:induction false} AssembleIsFlatten(slices: seq<seq<Byte>>, n: nat)
    requires n <= |slices|
    ensures Assemble(Kept(slices, AllOf(|slices|)).chunks, n) == Some(Flatten(slices[..n]))
  {
    if n > 0 {
      AssembleIsFlatten(slices, n - 1);
      assert slices[..n][..n - 1] == slices[..n - 1];
      assert n - 1 in AllOf(|slices|);
    }
  }

  /**
   With what should be held, a chunk completes its message exactly when it was the last one missing, and nothing else
   changes.
   */
  lemma ReceiveStep(messages: Messages, arrivals: seq<Arrival>, a: Arrival)
    requires Sendable(messages) && Sent(messages, a)
    requires forall i :: 0 <= i < |arrivals| ==> Sent(messages, arrivals[i])
    ensures var seen := Seen(messages, arrivals, a.id) + {a.index};
            Receive(Expected(messages, arrivals), Datagram(messages, a)) ==
            (Expected(messages, arrivals + [a]),
             if seen == AllOf(|messages[a.id]|) then Complete(Flatten(messages[a.id])) else More)
  {
    hide ParseChunk, ChunkBytes, Flatten, Assemble, Seen, Expected, AllOf;
    var slices := messages[a.id];
    var before := Seen(messages, arrivals, a.id);
    var seen := before + {a.index};
    ChunkIsRead(a.id, a.index, |slices|, slices[a.index]);
    SeenIsBounded(messages, arrivals, a.id);
    FullSize(seen, |slices|);
    var held := Held(Expected(messages, arrivals), a.id, |slices|);
    HeldIsKept(messages, arrivals, a.id);
    var now := held.(chunks := held.chunks[a.index := slices[a.index]]);
    assert now == Kept(slices, seen);
    assert now.chunks.Keys == seen && |now.chunks| == |now.chunks.Keys|;
    ExpectedAfter(messages, arrivals, a);
    if seen == AllOf(|slices|) {
      AssembleIsFlatten(slices, |slices|);
      assert slices[..|slices|] == slices;
    }
  }

  lemma HeldIsKept(messages: Messages, arrivals: seq<Arrival>, id: nat)
    requires id in messages
    ensures Held(Expected(messages, arrivals), id, |messages[id]|) == Kept(messages[id], Seen(messages, arrivals, id))
  {
    hide Seen;
  }

  lemma SeenAfter(messages: Messages, arrivals: seq<Arrival>, a: Arrival, id: nat)
    requires id in messages
    ensures Seen(messages, arrivals + [a], id) ==
            if id != a.id then Seen(messages, arrivals, id)
            else if Seen(messages, arrivals, id) + {a.index} == AllOf(|messages[id]|) then {}
            else Seen(messages, arrivals, id) + {a.index}
  {
    assert (arrivals + [a])[..|arrivals|] == arrivals;
  }

  /** How the expected holdings change with one arrival: only its own message is concerned. */
  lemma ExpectedAfter(messages: Messages, arrivals: seq<Arrival>, a: Arrival)
    requires Sent(messages, a)
    ensures var seen := Seen(messages, arrivals, a.id) + {a.index};
            var view := Expected(messages, arrivals);
            Expected(messages, arrivals + [a]) ==
            if seen == AllOf(|messages[a.id]|) then view - {a.id} else view[a.id := Kept(messages[a.id], seen)]
  {
    hide Seen, AllOf;
    forall id | id in messages {
      SeenAfter(messages, arrivals, a, id);
    }
  }

  lemma {:induction false} ViewIsExpected(messages: Messages, arrivals: seq<Arrival>)
    requires Sendable(messages)
    requires forall i :: 0 <= i < |arrivals| ==> Sent(messages, arrivals[i])
    ensures ViewAfter(messages, arrivals) == Expected(messages, arrivals)
  {
    hide Receive, Seen, Datagram, Expected, Sendable;
    if arrivals == [] {
      NothingExpected(messages);
    } else {
      var n := |arrivals| - 1;
      ViewIsExpected(messages, arrivals[..n]);
      ReceiveStep(messages, arrivals[..n], arrivals[n]);
      assert arrivals[..n] + [arrivals[n]] == arrivals;
    }
  }

  lemma NothingExpected(messages: Messages)
    ensures Expected(messages, []) == map[]
  {
  }

  /**
   After any interleaved, reordered and repeated arrivals, the next chunk delivers its message, whole, exactly
   when it is the last one missing since the previous delivery; the receiver never panics.
   */
  lemma Delivery(messages: Messages, arrivals: seq<Arrival>, a: Arrival)
    requires Sendable(messages) && Sent(messages, a)
    requires forall i :: 0 <= i < |arrivals| ==> Sent(messages, arrivals[i])
    ensures var (view, reply) := Receive(ViewAfter(messages, arrivals), Datagram(messages, a));
            && (reply == Complete(Flatten(messages[a.id]))
                <==> Seen(messages, arrivals, a.id) + {a.index} == AllOf(|messages[a.id]|))
            && (reply != Complete(Flatten(messages[a.id])) ==> reply == More)
            && forall id :: id != a.id ==>
                 (id in view <==> id in ViewAfter(messages, arrivals))
                 && (id in view ==> view[id] == ViewAfter(messages, arrivals)[id])
  {
    hide Receive, Seen, Datagram;
    ViewIsExpected(messages, arrivals);
    ReceiveStep(messages, arrivals, a);
    ExpectedAfter(messages, arrivals, a);
  }

  datatype Original = Original(data: seq<Byte>, size: nat)

  /** Messages cut with a payload size the header has room for, into a number of chunks it has room for. */
  ghost predicate Cut(originals: map<nat, Original>, messages: Messages) {
    && messages.Keys == originals.Keys
    && forall id :: id in originals ==>
         && id <= U64_MAX && 0 < originals[id].size < 10_000
         && messages[id] == Slices(originals[id].data, originals[id].size)
         && |messages[id]| < 10_000_000
  }

  /**
   End to end: whatever the other traffic, the chunks of a message deliver the original bytes, exactly when complete.
   */
  lemma DeliversOriginal(originals: map<nat, Original>, messages: Messages, arrivals: seq<Arrival>, a: Arrival)
    requires Cut(originals, messages) && Sent(messages, a)
    requires forall i :: 0 <= i < |arrivals| ==> Sent(messages, arrivals[i])
    ensures Receive(ViewAfter(messages, arrivals), Datagram(messages, a)).1 ==
            if Seen(messages, arrivals, a.id) + {a.index} == AllOf(|messages[a.id]|)
            then Complete(originals[a.id].data) else More
  {
    hide Receive, Seen, Slices, Flatten;
    forall id | id in messages {
      SlicesAreSmall(originals[id].data, originals[id].size);
    }
    SlicesFlatten(originals[a.id].data, originals[a.id].size);
    Delivery(messages, arrivals, a);
  }

  // ---------- the receiver in place ----------

  class ChunkReassembler {
    var chunks: map<nat, seq<Byte>>
    const total: nat
    const id: nat

    function Now(): Pending
      reads this
    {
      Pending(total, chunks)
    }

    constructor (id: nat, total: nat)
      ensures Now() == Pending(total, map[]) && this.id == id
    {
      this.id, this.total, chunks := id, total, map[];
    }

    /** Stores a payload; says whether that was the last one needed. */
    method Insert(seqNum: nat, payload: seq<Byte>) returns (complete: bool)
      modifies this
      ensures Now() == old(Now()).(chunks := old(chunks)[seqNum := payload])
      ensures complete <==> |chunks| == total
    {
      chunks := chunks[seqNum := payload];
      complete := |chunks| == total;
    }

    /** Concatenates the payloads in order; None stands for the panics. */
    method Reassemble() returns (message: Option<seq<Byte>>)
      ensures message == Reassembled(Now())
    {
      if |chunks| != total {
        return None;
      }
      var result: seq<Byte> := [];
      for n := 0 to total
        invariant Assemble(chunks, n) == Some(result)
      {
        if n !in chunks {
          MissingStays(chunks, n, total);
          return None;
        }
        result := result + chunks[n];
      }
      return Some(result);
    }
  }

  lemma {:induction false} MissingStays(chunks: map<nat, seq<Byte>>, i: nat, n: nat)
    requires i < n && i !in chunks
    ensures Assemble(chunks, n) == None
  {
    if n - 1 > i {
      MissingStays(chunks, i, n - 1);
    }
  }

  class ChunkReceiver {
    var inflight: map<nat, ChunkReassembler>

    ghost function Repr(): set<object>
      reads this
    {
      set id | id in inflight :: inflight[id]
    }

    /** Messages in flight have reassemblers of their own. */
    ghost predicate Valid()
      reads this
    {
      forall i, j :: i in inflight && j in inflight && i != j ==> inflight[i] != inflight[j]
    }

    ghost function View(): Inflight
      reads this, Repr()
    {
      map id | id in inflight :: inflight[id].Now()
    }

    constructor ()
      ensures Valid() && View() == map[]
    {
      inflight := map[];
    }

    /** The reassembler of a message, made when its first chunk arrives. */
    method Entry(id: nat, total: nat) returns (r: ChunkReassembler)
      requires Valid()
      modifies this
      ensures Valid() && id in inflight && inflight[id] == r
      ensures if id in old(inflight) then inflight == old(inflight)
              else inflight == old(inflight)[id := r] && fresh(r)
      ensures View() == old(View())[id := Held(old(View()), id, total)]
    {
      if id !in inflight {
        var reassembler := new ChunkReassembler(id, total);
        inflight := inflight[id := reassembler];
      }
      r := inflight[id];
    }

    /** Stores a payload in a message in flight. */
    method Put(id: nat, seqNum: nat, payload: seq<Byte>) returns (complete: bool)
      requires Valid() && id in inflight
      modifies inflight[id]
      ensures View() == old(View())[id := old(View()[id]).(chunks := old(View()[id]).chunks[seqNum := payload])]
      ensures complete <==> |View()[id].chunks| == View()[id].total
    {
      complete := inflight[id].Insert(seqNum, payload);
    }

    method Take(id: nat) returns (reply: Reply)
      requires Valid() && id in inflight
      modifies this
      ensures Valid() && inflight == old(inflight) - {id} && View() == old(View()) - {id}
      ensures reply == Finish(old(View()[id]))
    {
      hide Assemble;
      var message := inflight[id].Reassemble();
      inflight := inflight - {id};
      reply := match message case Some(m) => Complete(m) case None => Panicked;
    }

    method Feed(c: Parsed) returns (reply: Reply)
      requires Valid()
      modifies this, Repr()
      ensures Valid() && fresh(Repr() - old(Repr()))
      ensures var held := Held(old(View()), c.id, c.total);
              var now := held.(chunks := held.chunks[c.seqNum := c.payload]);
              if |now.chunks| == now.total then View() == old(View()) - {c.id} && reply == Finish(now)
              else View() == old(View())[c.id := now] && reply == More
    {
      hide Finish, Held, View, Assemble;
      ghost var held := Held(View(), c.id, c.total);
      ghost var now := held.(chunks := held.chunks[c.seqNum := c.payload]);
      var r := Entry(c.id, c.total);
      assert r in Repr();
      var complete := Put(c.id, c.seqNum, c.payload);
      assert View() == old(View())[c.id := now];
      if complete {
        reply := Take(c.id);
      } else {
        reply := More;
      }
    }

    method ReceiveChunk(raw: seq<Byte>) returns (reply: Reply)
      requires Valid()
      modifies this, Repr()
      ensures Valid() && fresh(Repr() - old(Repr()))
      ensures (View(), reply) == Receive(old(View()), raw)
    {
      hide ParseChunk, Held, Finish;
      match ParseChunk(raw) {
        case Err(e) => reply := Refused(e);
        case Ok(c) => reply := Feed(c);
      }
    }
  }
}
