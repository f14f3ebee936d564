/**
 One request of the AI consumer: chunks of the answer arrive in any order and are put back in
 sequence, within limits on gaps and sizes.
 */
module ResponseStream {
  import opened Wrappers
  import opened Text
  import Json

  const MAX_RESPONSE_BYTES: nat := 8 * 1024 * 1024
  const MAX_BUFFERED_CHUNKS: nat := 1024
  const MAX_SEQ_GAP: nat := 1024
  const MAX_TOOL_CALLS: nat := 128

  datatype Event =
    | Chunk(delta: string, seqNo: Option<nat>)
    | Done(final: Option<string>, toolCalls: Option<Json.Json>)
    | Error(message: string, code: Option<string>)
    | Rejected(reason: string)

  datatype ChatOutput = ChatOutput(content: string, toolCalls: Option<Json.Json>)

  const TOO_LARGE := "provider response exceeded the maximum size"
  const TOO_FAR := "provider sent too many out-of-order chunks"

  /** What the request loop keeps between events, and the deltas it has passed on. */
  datatype Stream = Stream(content: string, nextSeq: nat, buffered: map<nat, string>, forwarded: seq<string>)
  {
    function Append(delta: string): Stream { this.(content := content + delta, forwarded := forwarded + [delta]) }
  }

  const START := Stream("", 0, map[], [])

  // ---- Bytes held back ----------------------------------------------------------------------

  ghost function Bytes(m: map<nat, string>): nat
    decreases |m|
  {
    if m == map[] then 0
    else
      var k :| k in m;
      assert |m - {k}| < |m| by { Smaller(m, k); }
      Size(m[k]) + Bytes(m - {k})
  }

  lemma Smaller(m: map<nat, string>, k: nat)
    requires k in m
    ensures |m - {k}| == |m| - 1
  {
    assert (m - {k}).Keys == m.Keys - {k};
    assert |m| == |m.Keys| && |m - {k}| == |(m - {k}).Keys|;
  }

  /** The order of adding does not matter. */
  lemma {:induction false} BytesRemove(m: map<nat, string>, k: nat)
    requires k in m
    ensures Bytes(m) == Size(m[k]) + Bytes(m - {k})
    decreases |m|
  {
    hide Size;
    var x :| x in m && Bytes(m) == Size(m[x]) + Bytes(m - {x});
    if x != k {
      Smaller(m, x);
      Smaller(m, k);
      BytesRemove(m - {x}, k);
      BytesRemove(m - {k}, x);
      assert m - {x} - {k} == m - {k} - {x};
    }
  }

  method SumBytes(m: map<nat, string>) returns (n: nat)
    ensures n == Bytes(m)
  {
    hide Size;
    n := 0;
    var rest := m;
    while rest != map[]
      invariant n + Bytes(rest) == Bytes(m)
      decreases |rest|
    {
      var k :| k in rest.Keys;
      BytesRemove(rest, k);
      Smaller(rest, k);
      n := n + Size(rest[k]);
      rest := rest - {k};
    }
  }

  // ---- One chunk ----------------------------------------------------------------------------

  /** Applies the chunks that have become contiguous. */
  ghost function Drain(st: Stream): Result<Stream>
    decreases |st.buffered|
  {
    if st.nextSeq !in st.buffered then Ok(st)
    else
      var delta := st.buffered[st.nextSeq];
      if Size(st.content) + Size(delta) > MAX_RESPONSE_BYTES then Err(TOO_LARGE)
      else
        Smaller(st.buffered, st.nextSeq);
        Drain(st.Append(delta).(nextSeq := st.nextSeq + 1, buffered := st.buffered - {st.nextSeq}))
  }

  ghost function OnChunk(st: Stream, delta: string, seqNo: Option<nat>): Result<Stream> {
    match seqNo
    case None => if Size(st.content) + Size(delta) > MAX_RESPONSE_BYTES then Err(TOO_LARGE) else Ok(st.Append(delta))
    case Some(n) =>
      if n < st.nextSeq then Ok(st)
      else if n > st.nextSeq then
        if n - st.nextSeq > MAX_SEQ_GAP || (|st.buffered| >= MAX_BUFFERED_CHUNKS && n !in st.buffered) then Err(TOO_FAR)
        else
          var buffered := st.buffered[n := delta];
          if Size(st.content) + Bytes(buffered) > MAX_RESPONSE_BYTES then Err(TOO_LARGE)
          else Ok(st.(buffered := buffered))
      else if Size(st.content) + Size(delta) > MAX_RESPONSE_BYTES then Err(TOO_LARGE)
      else Drain(st.Append(delta).(nextSeq := n + 1))
  }

  // ---- What every reachable state keeps -----------------------------------------------------

  /** Held-back chunks lie in `(nextSeq, nextSeq + gap]`; what was passed on is the content. */
  ghost predicate Sound(st: Stream) {
    && (forall n | n in st.buffered :: st.nextSeq < n <= st.nextSeq + MAX_SEQ_GAP)
    && Concat(st.forwarded) == st.content
    && Size(st.content) <= MAX_RESPONSE_BYTES
    && Bytes(st.buffered) <= MAX_RESPONSE_BYTES
  }

  lemma {:induction false} DrainKeeps(st: Stream)
    requires forall n | n in st.buffered :: st.nextSeq <= n <= st.nextSeq + MAX_SEQ_GAP
    requires Concat(st.forwarded) == st.content && Size(st.content) <= MAX_RESPONSE_BYTES
    requires Bytes(st.buffered) <= MAX_RESPONSE_BYTES
    ensures Drain(st).Ok? ==> Sound(Drain(st).value)
    ensures Drain(st).Ok? ==> Drain(st).value.nextSeq >= st.nextSeq && st.forwarded <= Drain(st).value.forwarded
    decreases |st.buffered|
  {
    hide Bytes, Size, Concat;
    if st.nextSeq in st.buffered {
      var delta := st.buffered[st.nextSeq];
      BytesRemove(st.buffered, st.nextSeq);
      Smaller(st.buffered, st.nextSeq);
      SizeConcat(st.content, delta);
      ConcatSnoc(st.forwarded, delta);
      if Size(st.content) + Size(delta) <= MAX_RESPONSE_BYTES {
        DrainKeeps(st.Append(delta).(nextSeq := st.nextSeq + 1, buffered := st.buffered - {st.nextSeq}));
      }
    }
  }

  /** Every chunk keeps the invariant, never goes back, and only adds to what was passed on. */
  lemma ChunkKeeps(st: Stream, delta: string, seqNo: Option<nat>)
    requires Sound(st)
    ensures var r := OnChunk(st, delta, seqNo);
            r.Ok? ==> Sound(r.value) && st.nextSeq <= r.value.nextSeq && st.forwarded <= r.value.forwarded
  {
    hide Bytes, Size, Concat, Drain;
    SizeConcat(st.content, delta);
    ConcatSnoc(st.forwarded, delta);
    if seqNo == Some(st.nextSeq) && Size(st.content) + Size(delta) <= MAX_RESPONSE_BYTES {
      DrainKeeps(st.Append(delta).(nextSeq := st.nextSeq + 1));
    }
  }

  lemma {:induction false} FewInRange(s: set<nat>, lo: nat, n: nat)
    requires forall x | x in s :: lo < x <= lo + n
    ensures |s| <= n
    decreases n
  {
    if n > 0 {
      FewInRange(s - {lo + n}, lo, n - 1);
    } else {
      assert s == {};
    }
  }

  /** The separate limit on the number of held-back chunks can never be reached. */
  lemma BufferLimitIsUnreachable(st: Stream, n: nat)
    requires Sound(st) && st.nextSeq < n <= st.nextSeq + MAX_SEQ_GAP
    ensures !(|st.buffered| >= MAX_BUFFERED_CHUNKS && n !in st.buffered)
  {
    hide Bytes, Size, Concat;
    if n !in st.buffered {
      var keys := st.buffered.Keys + {n};
      FewInRange(keys, st.nextSeq, MAX_SEQ_GAP);
      assert |keys| == |st.buffered.Keys| + 1;
    }
  }

  // ---- Reordering ---------------------------------------------------------------------------

  ghost function RunChunks(st: Stream, chunks: seq<(string, Option<nat>)>): Result<Stream>
    decreases |chunks|
  {
    if chunks == [] then Ok(st)
    else
      match OnChunk(st, chunks[0].0, chunks[0].1)
      case Ok(next) => RunChunks(next, chunks[1..])
      case Err(e) => Err(e)
  }

  /** The least number that is not in the set. */
  ghost function LeastMissing(s: set<nat>): (k: nat)
    ensures k !in s && forall i | 0 <= i < k :: i in s
  {
    MissingFrom(s, 0)
  }

  ghost function MissingFrom(s: set<nat>, i: nat): (k: nat)
    requires forall j | 0 <= j < i :: j in s
    ensures k !in s && forall j | 0 <= j < k :: j in s
    decreases |set j | j in s && j >= i|
  {
    if i in s then
      assert (set j | j in s && j >= i) == (set j | j in s && j >= i + 1) + {i};
      MissingFrom(s, i + 1)
    else i
  }

  lemma LeastMissingIs(s: set<nat>, k: nat)
    requires k !in s && forall i | 0 <= i < k :: i in s
    ensures LeastMissing(s) == k
  {}

  /** The state when exactly these chunks have been received and the first `k` applied. */
  ghost function Applied(d: seq<string>, received: set<nat>, k: nat): Stream
    requires k <= |d| && forall n | n in received :: n < |d|
  {
    Stream(Concat(d[..k]), k, map n | n in received && n >= k :: d[n], d[..k])
  }

  /** The chunks of `d` that have arrived are applied as far as they are contiguous. */
  ghost function Expected(d: seq<string>, received: set<nat>): Stream
    requires forall n | n in received :: n < |d|
  {
    var k := LeastMissing(received);
    assert |d| !in received;
    Applied(d, received, k)
  }

  lemma ConcatPrefix(d: seq<string>, k: nat)
    requires k < |d|
    ensures Concat(d[..k + 1]) == Concat(d[..k]) + d[k]
    ensures Concat(d[k..]) == d[k] + Concat(d[k + 1..])
  {
    assert d[..k + 1] == d[..k] + [d[k]];
    ConcatSnoc(d[..k], d[k]);
  }

  lemma ConcatAt(d: seq<string>, k: nat)
    requires k <= |d|
    ensures Size(Concat(d)) == Size(Concat(d[..k])) + Size(Concat(d[k..]))
  {
    assert d == d[..k] + d[k..];
    ConcatAppend(d[..k], d[k..]);
    SizeConcat(Concat(d[..k]), Concat(d[k..]));
  }

  /** Distinct chunks of the tail are not larger than the tail. */
  lemma {:induction false} BytesOfTail(d: seq<string>, m: map<nat, string>, k: nat)
    requires k <= |d| && forall n | n in m :: k <= n < |d| && m[n] == d[n]
    ensures Bytes(m) <= Size(Concat(d[k..]))
    decreases |d| - k
  {
    hide Size, Concat;
    if k == |d| {
      assert m == map[];
      NoBytes();
    } else {
      ConcatPrefix(d, k);
      SizeConcat(d[k], Concat(d[k + 1..]));
      if k in m {
        BytesRemove(m, k);
        BytesOfTail(d, m - {k}, k + 1);
      } else {
        BytesOfTail(d, m, k + 1);
      }
    }
  }

  lemma NoBytes()
    ensures Bytes(map[]) == 0
  {}

  lemma {:induction false} DrainApplies(d: seq<string>, received: set<nat>, k: nat)
    requires k <= |d| && (forall n | n in received :: n < |d|)
    requires forall i | 0 <= i < k :: i in received
    requires Size(Concat(d)) <= MAX_RESPONSE_BYTES
    ensures Drain(Applied(d, received, k)) == Ok(Expected(d, received))
    decreases |d| - k
  {
    hide Size, Concat, Bytes;
    var st := Applied(d, received, k);
    if k in received {
      ConcatPrefix(d, k);
      ConcatAt(d, k + 1);
      SizeConcat(Concat(d[..k]), d[k]);
      DrainApplies(d, received, k + 1);
      var next := st.Append(d[k]).(nextSeq := k + 1, buffered := st.buffered - {k});
      assert d[..k] + [d[k]] == d[..k + 1];
      assert next.buffered == Applied(d, received, k + 1).buffered;
      assert next == Applied(d, received, k + 1);
    } else {
      LeastMissingIs(received, k);
    }
  }

  /** Everything received is at most one gap ahead. */
  ghost predicate InReach(received: set<nat>) {
    forall i | i in received :: i <= LeastMissing(received) + MAX_SEQ_GAP
  }

  lemma MissingGrows(received: set<nat>, n: nat)
    ensures LeastMissing(received) <= LeastMissing(received + {n})
  {
    var k, j := LeastMissing(received), LeastMissing(received + {n});
    assert j !in received;
  }

  lemma HeldAreFew(m: map<nat, string>, k: nat, n: nat)
    requires k < n <= k + MAX_SEQ_GAP && forall i | i in m :: k < i <= k + MAX_SEQ_GAP
    ensures n in m || |m| < MAX_BUFFERED_CHUNKS
  {
    if n !in m {
      var keys := m.Keys + {n};
      FewInRange(keys, k, MAX_SEQ_GAP);
      assert |keys| == |m.Keys| + 1;
    }
  }

  lemma HoldBack(st: Stream, delta: string, n: nat)
    requires st.nextSeq < n <= st.nextSeq + MAX_SEQ_GAP && (n in st.buffered || |st.buffered| < MAX_BUFFERED_CHUNKS)
    requires Size(st.content) + Bytes(st.buffered[n := delta]) <= MAX_RESPONSE_BYTES
    ensures OnChunk(st, delta, Some(n)) == Ok(st.(buffered := st.buffered[n := delta]))
  {
    hide Size, Bytes, Drain;
  }

  lemma DropStale(st: Stream, delta: string, n: nat)
    requires n < st.nextSeq
    ensures OnChunk(st, delta, Some(n)) == Ok(st)
  {}

  lemma RefuseFar(st: Stream, delta: string, n: nat)
    requires n > st.nextSeq + MAX_SEQ_GAP
    ensures OnChunk(st, delta, Some(n)) == Err(TOO_FAR)
  {}

  lemma ApplyNext(st: Stream, delta: string)
    requires Size(st.content) + Size(delta) <= MAX_RESPONSE_BYTES
    ensures OnChunk(st, delta, Some(st.nextSeq)) == Drain(st.Append(delta).(nextSeq := st.nextSeq + 1))
  {
    hide Size, Bytes, Drain;
  }

  /** Holding back one more chunk, in the map of those received. */
  lemma HeldMap(d: seq<string>, received: set<nat>, k: nat, n: nat)
    requires k <= n < |d| && (forall i | i in received :: i < |d|)
    ensures Applied(d, received + {n}, k)
              == Applied(d, received, k).(buffered := Applied(d, received, k).buffered[n := d[n]])
  {
    hide Concat;
    assert Applied(d, received + {n}, k).buffered == Applied(d, received, k).buffered[n := d[n]];
  }

  lemma ExpectedIsApplied(d: seq<string>, received: set<nat>, k: nat)
    requires (forall i | i in received :: i < |d|)
    requires k !in received && (forall i | 0 <= i < k :: i in received)
    ensures k <= |d| && Expected(d, received) == Applied(d, received, k)
  {
    hide Concat, Applied;
    assert |d| !in received;
    LeastMissingIs(received, k);
  }

  /** A chunk past the first missing one is held back. */
  lemma EarlyArrival(d: seq<string>, received: set<nat>, k: nat, n: nat)
    requires n < |d| && (forall i | i in received :: i < |d|)
    requires k == LeastMissing(received) && k < n <= k + MAX_SEQ_GAP && InReach(received)
    requires Size(Concat(d)) <= MAX_RESPONSE_BYTES
    ensures OnChunk(Expected(d, received), d[n], Some(n)) == Ok(Expected(d, received + {n}))
  {
    hide Size, Concat, Bytes, OnChunk, LeastMissing, Expected;
    ExpectedIsApplied(d, received, k);
    ExpectedIsApplied(d, received + {n}, k);
    var st := Applied(d, received, k);
    HeldMap(d, received, k, n);
    ConcatAt(d, k);
    BytesOfTail(d, st.buffered[n := d[n]], k);
    HeldAreFew(st.buffered, k, n);
    HoldBack(st, d[n], n);
  }

  /** Taking the first missing chunk is applying one more. */
  lemma OneMoreApplied(d: seq<string>, received: set<nat>, k: nat)
    requires k < |d| && k !in received && (forall i | i in received :: i < |d|)
    ensures Applied(d, received, k).Append(d[k]).(nextSeq := k + 1) == Applied(d, received + {k}, k + 1)
  {
    hide Concat;
    ConcatPrefix(d, k);
    assert d[..k] + [d[k]] == d[..k + 1];
    assert Applied(d, received, k).buffered == Applied(d, received + {k}, k + 1).buffered;
  }

  /** The first missing chunk is applied, with all that it makes contiguous. */
  lemma NextArrival(d: seq<string>, received: set<nat>, k: nat)
    requires (forall i | i in received :: i < |d|) && k == LeastMissing(received) < |d|
    requires Size(Concat(d)) <= MAX_RESPONSE_BYTES
    ensures OnChunk(Expected(d, received), d[k], Some(k)) == Ok(Expected(d, received + {k}))
  {
    hide Size, Concat, Bytes, Drain, OnChunk, LeastMissing, Expected;
    ExpectedIsApplied(d, received, k);
    var st := Applied(d, received, k);
    OneMoreApplied(d, received, k);
    ConcatPrefix(d, k);
    ConcatAt(d, k + 1);
    SizeConcat(st.content, d[k]);
    ApplyNext(st, d[k]);
    DrainApplies(d, received + {k}, k + 1);
  }

  /** One arrival is simply one more chunk received, unless it is too far ahead. */
  lemma ArrivalApplies(d: seq<string>, received: set<nat>, n: nat)
    requires n < |d| && (forall i | i in received :: i < |d|)
    requires InReach(received) && Size(Concat(d)) <= MAX_RESPONSE_BYTES
    ensures n <= LeastMissing(received) + MAX_SEQ_GAP ==>
              OnChunk(Expected(d, received), d[n], Some(n)) == Ok(Expected(d, received + {n}))
                && InReach(received + {n})
    ensures n > LeastMissing(received) + MAX_SEQ_GAP ==> OnChunk(Expected(d, received), d[n], Some(n)) == Err(TOO_FAR)
  {
    hide Size, Concat, Bytes, OnChunk, LeastMissing, Expected;
    MissingGrows(received, n);
    var k := LeastMissing(received);
    assert |d| !in received;
    ExpectedIsApplied(d, received, k);
    if n < k {
      assert received + {n} == received;
      DropStale(Applied(d, received, k), d[n], n);
    } else if n == k {
      NextArrival(d, received, k);
    } else if n <= k + MAX_SEQ_GAP {
      EarlyArrival(d, received, k, n);
    } else {
      RefuseFar(Applied(d, received, k), d[n], n);
    }
  }

  /** Chunks of `d` in the order in which they arrive. */
  function Arrivals(d: seq<string>, order: seq<nat>): (r: seq<(string, Option<nat>)>)
    requires forall n | n in order :: n < |d|
    ensures |r| == |order|
  {
    seq(|order|, i requires 0 <= i < |order| => assert order[i] in order; (d[order[i]], Some(order[i])))
  }

  ghost function SetOf(order: seq<nat>): set<nat> { set n | n in order }

  /** No chunk arrives more than one gap ahead of the first that is still missing. */
  ghost predicate NeverTooFar(received: set<nat>, order: seq<nat>)
    decreases |order|
  {
    order == [] || (order[0] <= LeastMissing(received) + MAX_SEQ_GAP && NeverTooFar(received + {order[0]}, order[1..]))
  }

  lemma {:induction false} ArrivalsApply(d: seq<string>, received: set<nat>, order: seq<nat>)
    requires (forall n | n in order :: n < |d|) && (forall n | n in received :: n < |d|)
    requires InReach(received) && Size(Concat(d)) <= MAX_RESPONSE_BYTES
    ensures var r := RunChunks(Expected(d, received), Arrivals(d, order));
            r == if NeverTooFar(received, order) then Ok(Expected(d, received + SetOf(order))) else Err(TOO_FAR)
    decreases |order|
  {
    hide Size, Concat, OnChunk, LeastMissing, Expected;
    if order == [] {
      assert received + SetOf(order) == received;
    } else {
      var n, rest := order[0], order[1..];
      assert n in order && forall i | i in rest :: i in order;
      ArrivalApplies(d, received, n);
      var chunks := Arrivals(d, order);
      assert chunks[0] == (d[n], Some(n)) && chunks[1..] == Arrivals(d, rest);
      if n <= LeastMissing(received) + MAX_SEQ_GAP {
        ArrivalsApply(d, received + {n}, rest);
        assert received + {n} + SetOf(rest) == received + SetOf(order);
      }
    }
  }

  /**
   Reordering is invisible: chunks of an answer within the size limit, in any order and with
   repeats, give at every moment the answer up to the first chunk that is missing. This holds
   exactly when no chunk arrives too far ahead; otherwise the request fails.
   */
  lemma ReorderingIsInvisible(d: seq<string>, order: seq<nat>)
    requires (forall n | n in order :: n < |d|) && Size(Concat(d)) <= MAX_RESPONSE_BYTES
    ensures RunChunks(START, Arrivals(d, order)) ==
              if NeverTooFar({}, order) then Ok(Expected(d, SetOf(order))) else Err(TOO_FAR)
  {
    hide Size, NeverTooFar, RunChunks, OnChunk;
    LeastMissingIs({}, 0);
    assert d[..0] == [];
    assert Concat([]) == "";
    assert Expected(d, {}) == START;
    ArrivalsApply(d, {}, order);
    assert {} + SetOf(order) == SetOf(order);
  }

  /** Once all chunks have arrived the content is the whole answer and nothing is held back. */
  lemma CompleteAnswer(d: seq<string>, order: seq<nat>)
    requires (forall n | n in order :: n < |d|) && Size(Concat(d)) <= MAX_RESPONSE_BYTES
    requires NeverTooFar({}, order) && forall n: nat | n < |d| :: n in order
    ensures RunChunks(START, Arrivals(d, order)) == Ok(Stream(Concat(d), |d|, map[], d))
  {
    hide Size, NeverTooFar, RunChunks, Concat;
    ReorderingIsInvisible(d, order);
    LeastMissingIs(SetOf(order), |d|);
    assert d[..|d|] == d;
  }

  // ---- The whole request --------------------------------------------------------------------

  datatype Outcome = Resolved(output: ChatOutput) | Errored(error: string) | Unfinished

  /** Tool calls of a finished answer: limited in number and size; an empty list means none. */
  function FinalCalls(lib: Json.JsonLib, toolCalls: Option<Json.Json>): Result<Option<Json.Json>> {
    match toolCalls
    case None => Ok(None)
    case Some(calls) =>
      if !calls.Arr? || |calls.items| > MAX_TOOL_CALLS then Err(TOO_LARGE)
      else if Size(lib.write(calls)) > MAX_RESPONSE_BYTES then Err(TOO_LARGE)
      else Ok(if calls.items == [] then None else toolCalls)
  }

  function Finished(lib: Json.JsonLib, content: string, final: Option<string>, toolCalls: Option<Json.Json>): Outcome {
    match FinalCalls(lib, toolCalls)
    case Err(e) => Errored(e)
    case Ok(calls) =>
      if final.Some? && Size(final.value) > MAX_RESPONSE_BYTES then Errored(TOO_LARGE)
      else Resolved(ChatOutput(final.GetOr(content), calls))
  }

  /** The events of a request, up to the first that ends it; with the state before that event. */
  ghost function RunEvents(lib: Json.JsonLib, st: Stream, events: seq<Event>): (Outcome, Stream)
    decreases |events|
  {
    if events == [] then (Unfinished, st)
    else
      match events[0]
      case Chunk(delta, seqNo) =>
        (match OnChunk(st, delta, seqNo)
         case Ok(next) => RunEvents(lib, next, events[1..])
         case Err(e) => (Errored(e), st))
      case Done(final, toolCalls) => (Finished(lib, st.content, final, toolCalls), st)
      case Error(message, code) => (Errored(ErrorText(message, code)), st)
      case Rejected(reason) => (Errored(reason), st)
  }

  function ErrorText(message: string, code: Option<string>): string {
    if code.Some? then message + " (code: " + code.value + ")" else message
  }

  function ChunkEvents(chunks: seq<(string, Option<nat>)>): (r: seq<Event>)
    ensures |r| == |chunks|
  {
    seq(|chunks|, i requires 0 <= i < |chunks| => Chunk(chunks[i].0, chunks[i].1))
  }

  lemma {:induction false} ChunksThenMore(lib: Json.JsonLib, st: Stream, chunks: seq<(string, Option<nat>)>,
      more: seq<Event>)
    ensures var r := RunChunks(st, chunks);
            if r.Ok? then RunEvents(lib, st, ChunkEvents(chunks) + more) == RunEvents(lib, r.value, more)
            else RunEvents(lib, st, ChunkEvents(chunks) + more).0 == Errored(r.error)
    decreases |chunks|
  {
    hide OnChunk, Finished;
    if chunks == [] {
      assert ChunkEvents(chunks) + more == more;
    } else {
      var events := ChunkEvents(chunks) + more;
      assert events[0] == Chunk(chunks[0].0, chunks[0].1);
      assert events[1..] == ChunkEvents(chunks[1..]) + more;
      var r := OnChunk(st, chunks[0].0, chunks[0].1);
      if r.Ok? {
        ChunksThenMore(lib, r.value, chunks[1..], more);
      }
    }
  }

  /** An answer that arrives whole, in any order, and then ends is the concatenation of its parts. */
  lemma AnswerIsRestored(lib: Json.JsonLib, d: seq<string>, order: seq<nat>, more: seq<Event>)
    requires (forall n | n in order :: n < |d|) && Size(Concat(d)) <= MAX_RESPONSE_BYTES
    requires NeverTooFar({}, order) && forall n: nat | n < |d| :: n in order
    ensures RunEvents(lib, START, ChunkEvents(Arrivals(d, order)) + ([Done(None, None)] + more)).0
         == Resolved(ChatOutput(Concat(d), None))
  {
    hide Size, NeverTooFar, RunChunks, Concat, OnChunk;
    CompleteAnswer(d, order);
    ChunksThenMore(lib, START, Arrivals(d, order), [Done(None, None)] + more);
    assert ([Done(None, None)] + more)[0] == Done(None, None);
  }

  /** Of all requests: every state is sound, so both size limits and the gap hold throughout. */
  lemma {:induction false} EventsKeepSound(lib: Json.JsonLib, st: Stream, events: seq<Event>)
    requires Sound(st)
    ensures Sound(RunEvents(lib, st, events).1)
    decreases |events|
  {
    hide OnChunk, Sound, Finished;
    if events != [] && events[0].Chunk? {
      var r := OnChunk(st, events[0].delta, events[0].seqNo);
      if r.Ok? {
        ChunkKeeps(st, events[0].delta, events[0].seqNo);
        EventsKeepSound(lib, r.value, events[1..]);
      }
    }
  }

  // ---- Chunks without numbers, and the end of an answer -------------------------------------

  function Unnumbered(d: seq<string>): (r: seq<(string, Option<nat>)>)
    ensures |r| == |d|
  {
    seq(|d|, i requires 0 <= i < |d| => (d[i], None))
  }

  /** Chunks without numbers are appended as they come, up to eight mebibytes, and leave the rest alone. */
  lemma {:induction false} UnnumberedAreAppended(st: Stream, d: seq<string>)
    requires Size(st.content) <= 8_388_608
    ensures RunChunks(st, Unnumbered(d)) ==
              if Size(st.content) + Size(Concat(d)) <= 8_388_608
              then Ok(Stream(st.content + Concat(d), st.nextSeq, st.buffered, st.forwarded + d))
              else Err("provider response exceeded the maximum size")
    decreases |d|
  {
    hide Size, Concat;
    if d == [] {
      NothingToAppend();
      assert st.content + "" == st.content && st.forwarded + [] == st.forwarded;
    } else {
      var chunks := Unnumbered(d);
      assert chunks[0] == (d[0], None) && chunks[1..] == Unnumbered(d[1..]);
      ConcatFirst(d);
      SizeConcat(d[0], Concat(d[1..]));
      SizeConcat(st.content, d[0]);
      if Size(st.content) + Size(d[0]) <= 8_388_608 {
        var next := st.Append(d[0]);
        UnnumberedAreAppended(next, d[1..]);
        assert st.content + d[0] + Concat(d[1..]) == st.content + Concat(d);
        assert st.forwarded + [d[0]] + d[1..] == st.forwarded + d;
      }
    }
  }

  lemma NothingToAppend()
    ensures Concat([]) == "" && Size("") == 0
  {}

  lemma ConcatFirst(d: seq<string>)
    requires d != []
    ensures Concat(d) == d[0] + Concat(d[1..])
  {}

  /**
   How a request ends: with the final text, if there is one, or else with the content, and with the
   tool calls, if there are any; but not with a text or calls of more than eight mebibytes, with more
   than 128 calls, or with something that is no list.
   */
  lemma EndOfAnswer(lib: Json.JsonLib, st: Stream, final: Option<string>, calls: Option<Json.Json>, more: seq<Event>)
    ensures var outcome := RunEvents(lib, st, [Done(final, calls)] + more).0;
            var content := if final.Some? then final.value else st.content;
            var fits := final.Some? ==> Size(final.value) <= 8_388_608;
            var listed := calls.Some? ==>
              calls.value.Arr? && |calls.value.items| <= 128 && Size(lib.write(calls.value)) <= 8_388_608;
            if !fits || !listed then outcome == Errored("provider response exceeded the maximum size")
            else outcome == Resolved(ChatOutput(content, if calls == Some(Json.Arr([])) then None else calls))
  {
    hide Size;
    assert ([Done(final, calls)] + more)[0] == Done(final, calls);
  }

  /** A failure ends the request with its message, with the code behind it if there is one. */
  lemma FailureEnds(lib: Json.JsonLib, st: Stream, message: string, code: Option<string>, more: seq<Event>)
    ensures RunEvents(lib, st, [Error(message, code)] + more).0
         == Errored(if code.Some? then message + " (code: " + code.value + ")" else message)
    ensures RunEvents(lib, st, [Rejected(message)] + more).0 == Errored(message)
  {
    assert ([Error(message, code)] + more)[0] == Error(message, code);
    assert ([Rejected(message)] + more)[0] == Rejected(message);
  }

  /** The limits of a sound state, in numbers. */
  lemma LimitsInNumbers(st: Stream)
    requires Sound(st)
    ensures Size(st.content) <= 8_388_608 && Bytes(st.buffered) <= 8_388_608
    ensures forall n | n in st.buffered :: st.nextSeq < n <= st.nextSeq + 1024
  {
    hide Size, Bytes, Concat;
  }

  // ---- The program's loop -------------------------------------------------------------------

  /** The chunks that became contiguous, as the loop applies them. */
  method DrainLoop(st: Stream) returns (r: Result<Stream>, forwarded: seq<string>)
    ensures r == Drain(st)
    ensures st.forwarded <= forwarded && (r.Ok? ==> forwarded == r.value.forwarded)
    ensures Concat(st.forwarded) == st.content && Size(st.content) <= MAX_RESPONSE_BYTES ==>
              Size(Concat(forwarded)) <= MAX_RESPONSE_BYTES
  {
    hide Size, Concat;
    var cur := st;
    while cur.nextSeq in cur.buffered
      invariant Drain(cur) == Drain(st) && st.forwarded <= cur.forwarded
      invariant Concat(st.forwarded) == st.content && Size(st.content) <= MAX_RESPONSE_BYTES ==>
                  Concat(cur.forwarded) == cur.content && Size(cur.content) <= MAX_RESPONSE_BYTES
      decreases |cur.buffered|
    {
      var delta := cur.buffered[cur.nextSeq];
      Smaller(cur.buffered, cur.nextSeq);
      SizeConcat(cur.content, delta);
      ConcatSnoc(cur.forwarded, delta);
      if Size(cur.content) + Size(delta) > MAX_RESPONSE_BYTES {
        return Err(TOO_LARGE), cur.forwarded;
      }
      cur := cur.Append(delta).(nextSeq := cur.nextSeq + 1, buffered := cur.buffered - {cur.nextSeq});
    }
    r, forwarded := Ok(cur), cur.forwarded;
  }

  method ApplyChunk(st: Stream, delta: string, seqNo: Option<nat>) returns (r: Result<Stream>, forwarded: seq<string>)
    requires Sound(st)
    ensures r == OnChunk(st, delta, seqNo)
    ensures st.forwarded <= forwarded && (r.Ok? ==> forwarded == r.value.forwarded)
    ensures Size(Concat(forwarded)) <= MAX_RESPONSE_BYTES
  {
    hide Size, Concat, Drain, Bytes;
    SizeConcat(st.content, delta);
    ConcatSnoc(st.forwarded, delta);
    ChunkKeeps(st, delta, seqNo);
    forwarded := st.forwarded;
    match seqNo {
    case None =>
      if Size(st.content) + Size(delta) > MAX_RESPONSE_BYTES {
        return Err(TOO_LARGE), forwarded;
      }
      return Ok(st.Append(delta)), st.forwarded + [delta];
    case Some(n) =>
      if n < st.nextSeq {
        return Ok(st), forwarded;
      }
      if n > st.nextSeq {
        if n - st.nextSeq > MAX_SEQ_GAP || (|st.buffered| >= MAX_BUFFERED_CHUNKS && n !in st.buffered) {
          return Err(TOO_FAR), forwarded;
        }
        var buffered := st.buffered[n := delta];
        var bufferedBytes := SumBytes(buffered);
        if Size(st.content) + bufferedBytes > MAX_RESPONSE_BYTES {
          return Err(TOO_LARGE), forwarded;
        }
        return Ok(st.(buffered := buffered)), forwarded;
      }
      if Size(st.content) + Size(delta) > MAX_RESPONSE_BYTES {
        return Err(TOO_LARGE), forwarded;
      }
      r, forwarded := DrainLoop(st.Append(delta).(nextSeq := n + 1));
    }
  }

  /** The request loop: its outcome, and the deltas passed on while it ran. */
  method RunRequest(lib: Json.JsonLib, events: seq<Event>) returns (outcome: Outcome, forwarded: seq<string>)
    ensures outcome == RunEvents(lib, START, events).0
    ensures RunEvents(lib, START, events).1.forwarded <= forwarded
    ensures !outcome.Errored? ==> forwarded == RunEvents(lib, START, events).1.forwarded
    ensures Size(Concat(forwarded)) <= MAX_RESPONSE_BYTES
  {
    hide Size, Concat, OnChunk, Bytes, Finished, ErrorText;
    var st := START;
    assert Sound(st) by { StartIsSound(); }
    assert events[0..] == events;
    forwarded := [];
    for i := 0 to |events|
      invariant Sound(st) && forwarded == st.forwarded
      invariant RunEvents(lib, st, events[i..]) == RunEvents(lib, START, events)
    {
      assert events[i..][0] == events[i] && events[i..][1..] == events[i + 1..];
      match events[i] {
      case Chunk(delta, seqNo) =>
        ChunkKeeps(st, delta, seqNo);
        var r;
        r, forwarded := ApplyChunk(st, delta, seqNo);
        if r.Err? {
          return Errored(r.error), forwarded;
        }
        st := r.value;
      case Done(final, toolCalls) => return Finished(lib, st.content, final, toolCalls), forwarded;
      case Error(message, code) => return Errored(ErrorText(message, code)), forwarded;
      case Rejected(reason) => return Errored(reason), forwarded;
      }
    }
    outcome := Unfinished;
  }

  lemma StartIsSound()
    ensures Sound(START)
  {}
}
