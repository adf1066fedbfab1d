/**
 Requests and responses over the pipe: the storage unit's end
 (SpdStorageUnitHandleTransactPipe in src/shared/stghandle.c) and the client's end
 (StgTransactPipe in src/stgtest/stgtest.c).
 */
module PipeTransport {
  import opened Bytes
  import opened HashMix
  import opened Hints
  import opened Wrappers

  datatype Kind = Read | Write | Flush | Unmap | OtherKind

  // The parameters the unit sends when it connects; both ends use the same ones.
  datatype Params = Params(blockLength: nat, maxTransferLength: nat)

  // `count` is the block count, or for Unmap the number of descriptors.
  datatype Request = Request(hint: Word, kind: Kind, address: nat, count: nat)

  datatype Response = Response(hint: Word, kind: Kind, good: bool)

  // A pipe message: TRANSACT_MSG and the bytes that follow it. A shorter one is malformed.
  datatype Message = Short | RequestMessage(request: Request, data: Data) | ResponseMessage(response: Response, data: Data)

  const UNMAP_DESCRIPTOR: nat := 16

  // The bytes a request is about, in UINT32 arithmetic.
  function TransferLength(p: Params, r: Request): nat {
    match r.kind
    case Read => (r.count * p.blockLength) % TWO_32
    case Write => (r.count * p.blockLength) % TWO_32
    case Unmap => (r.count * UNMAP_DESCRIPTOR) % TWO_32
    case _ => 0
  }

  // What is left in a buffer after n bytes of data are copied to its start and the rest, up to
  // length, is zeroed.
  function Received(buffer: Data, data: Data, length: nat): (r: Data)
    requires length <= |buffer|
    ensures |r| == |buffer|
  {
    var n := if |data| > length then length else |data|;
    data[..n] + seq(length - n, _ => 0 as byte) + buffer[length..]
  }

  // memcpy followed by memset.
  method CopyIn(buffer: array<byte>, data: Data, length: nat)
    requires length <= buffer.Length
    modifies buffer
    ensures buffer[..] == Received(old(buffer[..]), data, length)
  {
    var n := if |data| > length then length else |data|;
    forall i | 0 <= i < n { buffer[i] := data[i]; }
    forall i | n <= i < length { buffer[i] := 0; }
    assert buffer[..] == Received(old(buffer[..]), data, length);
  }

  // ----- The storage unit -----

  // What a fetched message leaves: the request if it is accepted, and the user buffer. A request
  // is dropped (zeroed out) when it is malformed, too long, or a read whose hint is in use.
  function Fetched(p: Params, contents: map<Word, nat>, m: Message): Option<Request> {
    if !m.RequestMessage? then None
    else
      var r := m.request;
      if TransferLength(p, r) > p.maxTransferLength then None
      else if r.kind == Read && r.hint in contents then None
      else Some(r)
  }

  function AfterFetch(p: Params, contents: map<Word, nat>, m: Message): map<Word, nat> {
    var r := Fetched(p, contents, m);
    if r.Some? && r.value.kind == Read then contents[r.value.hint := TransferLength(p, r.value)] else contents
  }

  // The user buffer after a fetch.
  function BufferAfter(p: Params, contents: map<Word, nat>, m: Message, buffer: Data): (b: Data)
    requires |buffer| == p.maxTransferLength
    ensures |b| == |buffer|
  {
    var r := Fetched(p, contents, m);
    if r.Some? && (r.value.kind == Write || r.value.kind == Unmap)
    then Received(buffer, m.data, TransferLength(p, r.value))
    else buffer
  }

  // No recorded length exceeds the buffers.
  ghost predicate Bounded(p: Params, contents: map<Word, nat>) {
    forall h :: h in contents ==> contents[h] <= p.maxTransferLength
  }

  lemma FetchKeepsBounded(p: Params, contents: map<Word, nat>, m: Message)
    requires Bounded(p, contents)
    ensures Bounded(p, AfterFetch(p, contents, m))
  {
  }

  method Fetch(p: Params, table: HintTable, m: Message, buffer: array<byte>) returns (request: Option<Request>)
    requires table.Valid() && Bounded(p, table.contents) && buffer.Length == p.maxTransferLength
    modifies table, table.index, table.index.buckets, buffer
    ensures table.Valid() && Bounded(p, table.contents) && fresh(table.index.members - old(table.index.members))
    ensures request == Fetched(p, old(table.contents), m)
    ensures table.contents == AfterFetch(p, old(table.contents), m)
    ensures buffer[..] == BufferAfter(p, old(table.contents), m, old(buffer[..]))
  {
    hide Received, HintTable.Valid, Bounded;
    FetchKeepsBounded(p, table.contents, m);
    if !m.RequestMessage? { return None; }
    var r := m.request;
    var length := TransferLength(p, r);
    if r.kind == Read {
      if length > p.maxTransferLength { return None; }
      var stored := table.Put(r.hint, length);
      if !stored { return None; }
    } else if r.kind == Write || r.kind == Unmap {
      if length > p.maxTransferLength { return None; }
      CopyIn(buffer, m.data, length);
    }
    return Some(r);
  }

  // The bytes sent with a response: for a read, what was recorded for its hint.
  function Attached(contents: map<Word, nat>, r: Response, buffer: Option<Data>): Data
    requires buffer.Some? && r.kind == Read && r.hint in contents ==> contents[r.hint] <= |buffer.value|
  {
    if r.kind == Read && buffer.Some? && r.hint in contents then buffer.value[..contents[r.hint]] else []
  }

  function AfterRespond(contents: map<Word, nat>, r: Response, buffer: Option<Data>): map<Word, nat> {
    if r.kind == Read && buffer.Some? then Without(contents, r.hint) else contents
  }

  method Respond(p: Params, table: HintTable, r: Response, buffer: array?<byte>) returns (m: Message)
    requires table.Valid() && Bounded(p, table.contents) && (buffer != null ==> buffer.Length == p.maxTransferLength)
    modifies table, table.index, table.index.buckets, table.index.members`next
    ensures table.Valid() && table.index.members <= old(table.index.members)
    ensures Bounded(p, table.contents)
    ensures m == ResponseMessage(r, Attached(old(table.contents), r, if buffer == null then None else Some(buffer[..])))
    ensures table.contents == AfterRespond(old(table.contents), r, if buffer == null then None else Some(buffer[..]))
  {
    hide HintTable.Valid;
    var length := 0;
    if r.kind == Read && buffer != null {
      length := table.Take(r.hint);
    }
    m := ResponseMessage(r, if length != 0 then buffer[..length] else []);
  }

  // ----- The client -----

  // The message of a request; `data` is the client's buffer, if it has one.
  function Sent(p: Params, r: Request, data: Data): Message
    requires r.kind == Write || r.kind == Unmap ==> TransferLength(p, r) <= |data|
  {
    RequestMessage(r, if r.kind == Write || r.kind == Unmap then data[..TransferLength(p, r)] else [])
  }

  // What the client makes of the answer to its request.
  datatype Result = DeviceError | Answered(response: Response, buffer: Data)

  function Understood(p: Params, r: Request, m: Message, buffer: Data): Result
    requires |buffer| >= p.maxTransferLength
  {
    if !m.ResponseMessage? || m.response.hint != r.hint then DeviceError
    else if m.response.kind == Read && m.response.good then
      var length := (r.count * p.blockLength) % TWO_32;
      if length > p.maxTransferLength then DeviceError else Answered(m.response, Received(buffer, m.data, length))
    else Answered(m.response, buffer)
  }

  // ----- The life of a unit -----

  // Messages read and responses written, on one connection after another.
  datatype Event = Incoming(m: Message) | Outgoing(r: Response, buffer: Option<Data>) | Disconnected

  function After(p: Params, contents: map<Word, nat>, e: Event): map<Word, nat> {
    match e
    case Incoming(m) => AfterFetch(p, contents, m)
    case Outgoing(r, buffer) => AfterRespond(contents, r, buffer)
    case Disconnected => contents  // the disconnect does not touch the table
  }

  function AfterAll(p: Params, contents: map<Word, nat>, es: seq<Event>): map<Word, nat> {
    if es == [] then contents else After(p, AfterAll(p, contents, es[..|es| - 1]), es[|es| - 1])
  }

  // The event gives the answer to a read with this hint.
  predicate Answers(e: Event, hint: Word) {
    e.Outgoing? && e.r.kind == Read && e.r.hint == hint && e.buffer.Some?
  }

  // Until it is answered, a recorded hint keeps its length through any other traffic, even
  // through requests that reuse it.
  lemma {:induction false} RecordedLengthStays(p: Params, contents: map<Word, nat>, es: seq<Event>, hint: Word)
    requires hint in contents && forall i :: 0 <= i < |es| ==> !Answers(es[i], hint)
    ensures hint in AfterAll(p, contents, es) && AfterAll(p, contents, es)[hint] == contents[hint]
  {
    if es != [] {
      var n := |es| - 1;
      RecordedLengthStays(p, contents, es[..n], hint);
      assert !Answers(es[n], hint);
    }
  }

  // A read is accepted exactly when its length, in 32 bits, fits and its hint is not in use; and
  // its answer, after any other traffic, brings the client that many first bytes of the device's
  // buffer and nothing else.
  lemma ReadRoundTrip(p: Params, contents: map<Word, nat>, r: Request, mine: Data, es: seq<Event>, device: Data, client: Data)
    requires r.kind == Read && |device| == p.maxTransferLength && |client| >= p.maxTransferLength
    requires forall i :: 0 <= i < |es| ==> !Answers(es[i], r.hint)
    ensures var accepted := Fetched(p, contents, Sent(p, r, mine));
      var n := (r.count * p.blockLength) % TWO_32;
      && accepted == (if n <= p.maxTransferLength && r.hint !in contents then Some(r) else None)
      && (accepted.Some? ==>
            var now := AfterAll(p, AfterFetch(p, contents, Sent(p, r, mine)), es);
            var answer := Response(r.hint, Read, true);
            && r.hint in now && now[r.hint] == n
            && Attached(now, answer, Some(device)) == device[..n]
            && Understood(p, r, ResponseMessage(answer, device[..n]), client) == Answered(answer, device[..n] + client[n..])
            && r.hint !in AfterRespond(now, answer, Some(device)))
  {
    var m := Sent(p, r, mine);
    if Fetched(p, contents, m).Some? {
      RecordedLengthStays(p, AfterFetch(p, contents, m), es, r.hint);
    }
  }

  // The client has read BlockCount * BlockLength bytes exactly when the product fits 32 bits.
  lemma ReadLengthExact(p: Params, contents: map<Word, nat>, r: Request, mine: Data, device: Data, client: Data)
    requires r.kind == Read && |device| == p.maxTransferLength <= |client| && p.maxTransferLength < TWO_32
    requires Fetched(p, contents, Sent(p, r, mine)).Some?
    ensures var n, answer := r.count * p.blockLength, Response(r.hint, Read, true);
      var now := AfterFetch(p, contents, Sent(p, r, mine));
      var result := Understood(p, r, ResponseMessage(answer, Attached(now, answer, Some(device))), client);
      result.Answered? && (n < TWO_32 <==> n <= |device| && result.buffer == device[..n] + client[n..])
  {
    ReadRoundTrip(p, contents, r, mine, [], device, client);
  }

  // A request with data: accepted exactly when its length, in 32 bits, fits; what arrives is all
  // `n` bytes as the client had them exactly when n itself fits 32 bits, and else its first few.
  ghost predicate Arrives(p: Params, contents: map<Word, nat>, r: Request, n: nat, mine: Data, device: Data)
    requires r.kind == Write || r.kind == Unmap ==> TransferLength(p, r) <= |mine|
    requires |device| == p.maxTransferLength
  {
    var m, k := Sent(p, r, mine), n % TWO_32;
    var accepted, buffer := Fetched(p, contents, m), BufferAfter(p, contents, m, device);
    && accepted == (if k <= p.maxTransferLength then Some(r) else None)
    && AfterFetch(p, contents, m) == contents
    && (accepted.None? ==> buffer == device)
    && (accepted.Some? ==>
          && k <= |mine| && buffer == mine[..k] + device[k..]
          && (n < TWO_32 <==> n <= |mine| && n <= |device| && buffer == mine[..n] + device[n..]))
  }

  lemma WriteRoundTrip(p: Params, contents: map<Word, nat>, r: Request, mine: Data, device: Data)
    requires r.kind == Write && |device| == p.maxTransferLength < TWO_32
    requires (r.count * p.blockLength) % TWO_32 <= |mine|
    ensures Arrives(p, contents, r, r.count * p.blockLength, mine, device)
  {
  }

  lemma UnmapRoundTrip(p: Params, contents: map<Word, nat>, r: Request, mine: Data, device: Data)
    requires r.kind == Unmap && |device| == p.maxTransferLength < TWO_32
    requires (r.count * 16) % TWO_32 <= |mine|
    ensures Arrives(p, contents, r, r.count * 16, mine, device)
  {
  }

  // All other requests are accepted and carry nothing.
  lemma OthersCarryNothing(p: Params, contents: map<Word, nat>, r: Request, mine: Data, device: Data)
    requires r.kind == Flush || r.kind == OtherKind
    requires |device| == p.maxTransferLength
    ensures Arrives(p, contents, r, 0, mine, device)
  {
  }

  // A read that fits: one that is accepted unless its hint is in use.
  predicate FittingRead(p: Params, e: Event, hint: Word) {
    && e.Incoming? && e.m.RequestMessage?
    && e.m.request.kind == Read && e.m.request.hint == hint && TransferLength(p, e.m.request) <= p.maxTransferLength
  }

  // A fitting read with the hint came at i and has not been answered since.
  ghost predicate Outstanding(p: Params, es: seq<Event>, hint: Word, i: nat) {
    i < |es| && FittingRead(p, es[i], hint) && forall j :: i < j < |es| ==> !Answers(es[j], hint)
  }

  lemma {:induction false} PresentIsOutstanding(p: Params, es: seq<Event>, hint: Word) returns (i: nat)
    requires hint in AfterAll(p, map[], es)
    ensures Outstanding(p, es, hint, i)
  {
    var n := |es| - 1;
    if FittingRead(p, es[n], hint) {
      i := n;
    } else {
      i := PresentIsOutstanding(p, es[..n], hint);
      assert !Answers(es[n], hint);
    }
  }

  // A hint is in the table exactly while a read with it is unanswered, on whatever connection
  // the read came and however often clients have come and gone since.
  lemma HintsAreOutstandingReads(p: Params, es: seq<Event>, hint: Word)
    ensures hint in AfterAll(p, map[], es) <==> exists i :: Outstanding(p, es, hint, i)
  {
    if hint in AfterAll(p, map[], es) { var i := PresentIsOutstanding(p, es, hint); }
    if i: nat :| Outstanding(p, es, hint, i) { OutstandingIsPresent(p, es, hint, i); }
  }

  lemma {:induction false} OutstandingIsPresent(p: Params, es: seq<Event>, hint: Word, i: nat)
    requires Outstanding(p, es, hint, i)
    ensures hint in AfterAll(p, map[], es)
  {
    var n := |es| - 1;
    if i < n {
      OutstandingIsPresent(p, es[..n], hint, i);
      assert !Answers(es[n], hint);
    }
  }

  // So a new client's read is dropped exactly when it does not fit or an earlier read with its
  // hint was never answered, be it another client's.
  lemma StaleHintDropsReads(p: Params, es: seq<Event>, r: Request, mine: Data)
    requires r.kind == Read
    ensures Fetched(p, AfterAll(p, map[], es), Sent(p, r, mine)) == None <==>
      TransferLength(p, r) > p.maxTransferLength || exists i :: Outstanding(p, es, r.hint, i)
  {
    HintsAreOutstandingReads(p, es, r.hint);
  }

  // For instance: a client asks for a block and goes away; the next one that uses the hint is
  // refused the same block.
  lemma RefusedAfterReconnect(p: Params, mine: Data)
    requires p.blockLength <= p.maxTransferLength && p.blockLength < TWO_32
    ensures var r := Request(7, Read, 0, 1); var m := Sent(p, r, mine);
      && Fetched(p, map[], m) == Some(r)
      && Fetched(p, AfterAll(p, map[], [Incoming(m), Disconnected]), m) == None
  {
    var r := Request(7, Read, 0, 1);
    var m := Sent(p, r, mine);
    var es := [Incoming(m), Disconnected];
    assert Outstanding(p, es, 7, 0);
    StaleHintDropsReads(p, es, r, mine);
  }

  // The client takes an answer to its own request and no other, and a READ's bytes only if it is
  // good and not longer than the buffers; anything else leaves its buffer alone.
  lemma UnderstoodExactly(p: Params, r: Request, m: Message, buffer: Data)
    requires |buffer| >= p.maxTransferLength
    ensures var result, n := Understood(p, r, m, buffer), (r.count * p.blockLength) % TWO_32;
      var good := m.ResponseMessage? && m.response.kind == Read && m.response.good;
      && (result.DeviceError? <==>
            !m.ResponseMessage? || m.response.hint != r.hint || (good && p.maxTransferLength < n))
      && (result.Answered? ==>
            && result.response == m.response && |result.buffer| == |buffer|
            && forall k :: 0 <= k < |buffer| ==>
                 result.buffer[k] == if !good || n <= k then buffer[k] else if k < |m.data| then m.data[k] else 0)
  {
  }

  // However many bytes a message brings, the user buffer of an accepted WRITE or UNMAP holds the
  // first `n`, zeros where there are fewer, and what it held before behind them.
  lemma WhatArrives(p: Params, contents: map<Word, nat>, m: Message, buffer: Data, k: nat)
    requires k < |buffer| == p.maxTransferLength
    requires m.RequestMessage? && (m.request.kind == Write || m.request.kind == Unmap)
    ensures var n := (m.request.count * if m.request.kind == Write then p.blockLength else 16) % TWO_32;
      && (Fetched(p, contents, m).Some? <==> n <= p.maxTransferLength)
      && BufferAfter(p, contents, m, buffer)[k] ==
           if p.maxTransferLength < n || n <= k then buffer[k] else if k < |m.data| then m.data[k] else 0
  {
  }
}
