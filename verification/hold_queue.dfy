/**
 The hold-back queue: it buffers received chat payloads, kept sorted by
 order, and releases to the user pipe the contiguous run of payloads whose
 orders continue from the next expected order. Every released payload is
 also appended to a history.

 The pipe write is modelled as appending a `PipeMessage` to an output log.
 */
module HoldQueue {
  import opened Payloads
  import opened Ordering

  /** The user pipe before one is set. */
  const NoPipe: int := -1

  /** One write to the user pipe: the pipe written to, and the user name and text. */
  datatype PipeMessage = PipeMessage(pipe: int, username: string, message: string)

  /**
   The queue's state: the delivery queue (received, not yet released), the
   history (released, oldest first), the next order to release, the user pipe
   and the log of everything written to the pipe.
   */
  datatype State = State(
    delivery: seq<Payload>,
    history: seq<Payload>,
    expected: int,
    pipe: int,
    output: seq<PipeMessage>)

  /** The orders of `run` are e, e+1, e+2, ... with no gap. */
  predicate ConsecutiveFrom(run: seq<Payload>, e: int) {
    forall i :: 0 <= i < |run| ==> run[i].order as int == e + i
  }

  /** Nothing more can be released: the delivery queue is empty or its front is not the expected order. */
  predicate Settled(s: State) {
    s.delivery == [] || s.delivery[0].order as int != s.expected
  }

  /** The pipe writes made for releasing `run` on `pipe`, in release order. */
  function PipeWrites(pipe: int, run: seq<Payload>): seq<PipeMessage> {
    seq(|run|, i requires 0 <= i < |run| => PipeMessage(pipe, run[i].username, run[i].message))
  }

  /** The payloads released so far carry their user name and text into the output log, in order. */
  predicate LogMatchesHistory(s: State) {
    && |s.output| == |s.history|
    && forall i :: 0 <= i < |s.history| ==>
         s.output[i].username == s.history[i].username && s.output[i].message == s.history[i].message
  }

  /**
   The history holds exactly the orders DefaultFirstOrder,
   DefaultFirstOrder+1, ..., expected-1 in that order, and the output log
   mirrors it.
   */
  predicate HistoryConsistent(s: State) {
    && ConsecutiveFrom(s.history, DefaultFirstOrder)
    && s.expected == DefaultFirstOrder + |s.history|
    && LogMatchesHistory(s)
  }

  /**
   The invariant of every state the queue can reach: the delivery queue is
   sorted and settled, and the history is consistent.
   */
  predicate Valid(s: State) {
    && SortedByOrder(s.delivery)
    && Settled(s)
    && HistoryConsistent(s)
  }

  /** A fresh queue, as the constructor leaves it. */
  function Init(): (r: State)
    ensures Valid(r)
    ensures r.expected == DefaultFirstOrder && r.pipe == NoPipe
    ensures r.delivery == [] && r.history == [] && r.output == []
  {
    State([], [], DefaultFirstOrder, NoPipe, [])
  }

  /** A delivery queue cut into the run released from its front and the rest. */
  datatype Split = Split(released: seq<Payload>, remaining: seq<Payload>)

  /**
   The release loop on a bare queue `q` with expected order `e`: the released
   run is the longest prefix of `q` whose orders are e, e+1, ..., and the
   first payload left behind (if any) does not carry the next expected order.
   */
  function Release(q: seq<Payload>, e: int): (r: Split)
    ensures r.released + r.remaining == q
    ensures ConsecutiveFrom(r.released, e)
    ensures r.remaining == [] || r.remaining[0].order as int != e + |r.released|
    decreases |q|
  {
    if |q| > 0 && q[0].order as int == e then
      var rest := Release(q[1..], e + 1);
      assert q == [q[0]] + q[1..];
      Split([q[0]] + rest.released, rest.remaining)
    else
      Split([], q)
  }

  /**
   ProcessPayloads: releases the contiguous run at the front of the delivery
   queue. The released payloads leave the delivery queue from its front, are
   appended to the history and written to the pipe in release order, and the
   expected order advances by the number released.
   */
  function ProcessPayloads(s: State): (r: State)
    ensures r.pipe == s.pipe
    ensures |s.history| <= |r.history| && r.history[..|s.history|] == s.history
    ensures s.delivery == r.history[|s.history|..] + r.delivery
    ensures ConsecutiveFrom(r.history[|s.history|..], s.expected)
    ensures r.expected == s.expected + (|r.history| - |s.history|)
    ensures r.output == s.output + PipeWrites(s.pipe, r.history[|s.history|..])
    ensures Settled(r)
  {
    var split := Release(s.delivery, s.expected);
    var r := s.(delivery := split.remaining,
                history := s.history + split.released,
                expected := s.expected + |split.released|,
                output := s.output + PipeWrites(s.pipe, split.released));
    assert r.history[|s.history|..] == split.released;
    r
  }

  /**
   The release loop as the source writes it: while the front of the delivery
   queue carries the expected order, write it to the pipe, push it onto the
   history, erase it from the front and increment the expected order.
   */
  method ProcessPayloadsLoop(s: State) returns (r: State)
    ensures r == ProcessPayloads(s)
    ensures Settled(r)
    ensures |r.delivery| <= |s.delivery|
  {
    r := s;
    while |r.delivery| > 0 && r.delivery[0].order as int == r.expected
      invariant ProcessPayloads(r) == ProcessPayloads(s)
      invariant |r.delivery| <= |s.delivery|
      decreases |r.delivery|
    {
      var payload := r.delivery[0];
      var write := PipeMessage(r.pipe, payload.username, payload.message);
      var next := r.(output := r.output + [write],
                     history := r.history + [payload],
                     delivery := r.delivery[1..],
                     expected := r.expected + 1);
      ReleaseStep(r, next);
      r := next;
    }
    assert Release(r.delivery, r.expected).released == [];
  }

  /** Releasing one payload by hand and then the rest gives what releasing all at once gives. */
  lemma ReleaseStep(r: State, next: State)
    requires |r.delivery| > 0 && r.delivery[0].order as int == r.expected
    requires next == r.(output := r.output + [PipeMessage(r.pipe, r.delivery[0].username, r.delivery[0].message)],
                        history := r.history + [r.delivery[0]],
                        delivery := r.delivery[1..],
                        expected := r.expected + 1)
    ensures ProcessPayloads(next) == ProcessPayloads(r)
  {
    var run := Release(r.delivery, r.expected).released;
    var rest := Release(next.delivery, next.expected).released;
    assert run == [r.delivery[0]] + rest;
    assert r.history + run == next.history + rest;
    assert PipeWrites(r.pipe, run) == [PipeMessage(r.pipe, r.delivery[0].username, r.delivery[0].message)] + PipeWrites(r.pipe, rest);
    assert r.output + PipeWrites(r.pipe, run) == next.output + PipeWrites(r.pipe, rest);
  }

  /**
   AddMessageToQueue when std::sort leaves the grown delivery queue arranged
   as `arranged` (any ordering of equal orders is admissible). A non-chat
   payload changes nothing. A chat payload joins the delivery queue, which is
   sorted and then released from the front.
   */
  function AddMessageToQueueAs(s: State, p: Payload, arranged: seq<Payload>): (r: State)
    requires IsChat(p) ==> IsSortedPermutation(s.delivery + [p], arranged)
    ensures !IsChat(p) ==> r == s
    ensures IsChat(p) ==> SortedByOrder(r.delivery) && Settled(r)
    ensures SortedByOrder(s.delivery) ==> SortedByOrder(r.delivery)
    ensures r.expected >= s.expected && r.pipe == s.pipe
    ensures |s.history| <= |r.history| && r.history[..|s.history|] == s.history
    ensures ConsecutiveFrom(r.history[|s.history|..], s.expected)
    ensures r.expected == s.expected + (|r.history| - |s.history|)
    ensures r.output == s.output + PipeWrites(s.pipe, r.history[|s.history|..])
    ensures IsChat(p) ==> arranged == r.history[|s.history|..] + r.delivery
    ensures multiset(r.delivery) + multiset(r.history)
         == multiset(s.delivery) + multiset(s.history) + (if IsChat(p) then multiset{p} else multiset{})
    ensures Valid(s) ==> Valid(r)
  {
    if IsChat(p) then
      var r := ProcessPayloads(s.(delivery := arranged));
      SuffixSorted(arranged, r.history[|s.history|..], r.delivery);
      ValidAfterRelease(s, arranged, r);
      var run := r.history[|s.history|..];
      assert s.history + run == r.history;
      assert multiset(arranged) == multiset(run) + multiset(r.delivery);
      assert multiset(r.history) == multiset(s.history) + multiset(run);
      assert multiset(arranged) == multiset(s.delivery + [p]) == multiset(s.delivery) + multiset{p};
      calc {
        multiset(r.delivery) + multiset(r.history);
        multiset(r.delivery) + (multiset(s.history) + multiset(run));
        (multiset(run) + multiset(r.delivery)) + multiset(s.history);
        multiset(arranged) + multiset(s.history);
        multiset(s.delivery) + multiset{p} + multiset(s.history);
        multiset(s.delivery) + multiset(s.history) + multiset{p};
      }
      r
    else
      s
  }

  /** AddMessageToQueue, with the delivery queue sorted by an insertion sort. */
  function AddMessageToQueue(s: State, p: Payload): (r: State)
    ensures !IsChat(p) ==> r == s
    ensures IsChat(p) ==> SortedByOrder(r.delivery) && Settled(r)
    ensures r.expected >= s.expected && r.pipe == s.pipe
    ensures |s.history| <= |r.history| && r.history[..|s.history|] == s.history
    ensures ConsecutiveFrom(r.history[|s.history|..], s.expected)
    ensures r.expected == s.expected + (|r.history| - |s.history|)
    ensures r.output == s.output + PipeWrites(s.pipe, r.history[|s.history|..])
    ensures IsChat(p) ==> SortByOrder(s.delivery + [p]) == r.history[|s.history|..] + r.delivery
    ensures multiset(r.delivery) + multiset(r.history)
         == multiset(s.delivery) + multiset(s.history) + (if IsChat(p) then multiset{p} else multiset{})
    ensures Valid(s) ==> Valid(r)
  {
    AddMessageToQueueAs(s, p, if IsChat(p) then SortByOrder(s.delivery + [p]) else s.delivery)
  }

  /** A suffix of a sorted queue is sorted. */
  lemma SuffixSorted(q: seq<Payload>, front: seq<Payload>, back: seq<Payload>)
    requires SortedByOrder(q) && q == front + back
    ensures SortedByOrder(back)
  {
    forall i, j | 0 <= i < j < |back|
      ensures back[i].order <= back[j].order
    {
      assert back[i] == q[|front| + i] && back[j] == q[|front| + j];
    }
  }

  /** Releasing from any delivery queue keeps the history consistent. */
  lemma ValidAfterRelease(s: State, arranged: seq<Payload>, r: State)
    requires r == ProcessPayloads(s.(delivery := arranged))
    ensures HistoryConsistent(s) ==> HistoryConsistent(r)
  {
    if !HistoryConsistent(s) {
      return;
    }
    var run := r.history[|s.history|..];
    assert r.history == s.history + run;
    forall i | 0 <= i < |r.history|
      ensures r.history[i].order as int == DefaultFirstOrder + i
    {
      if i >= |s.history| {
        assert r.history[i] == run[i - |s.history|];
      }
    }
    forall i | 0 <= i < |r.history|
      ensures r.output[i].username == r.history[i].username && r.output[i].message == r.history[i].message
    {
      if i >= |s.history| {
        assert r.output[i] == PipeWrites(s.pipe, run)[i - |s.history|];
      }
    }
  }

  /** SetUserHandlerPipe: later pipe writes go to `pipe`; nothing else changes. */
  function SetUserHandlerPipe(s: State, pipe: int): (r: State)
    ensures GetUserHandlerPipe(r) == pipe
    ensures r.delivery == s.delivery && r.history == s.history
    ensures r.expected == s.expected && r.output == s.output
    ensures Valid(s) ==> Valid(r)
  {
    s.(pipe := pipe)
  }

  /** GetUserHandlerPipe: the pipe the queue currently writes to. */
  function GetUserHandlerPipe(s: State): int {
    s.pipe
  }

  /**
   The getter names the pipe every write of an addition goes to, and an
   addition does not change it.
   */
  lemma WritesGoToGetterPipe(s: State, p: Payload)
    ensures GetUserHandlerPipe(AddMessageToQueue(s, p)) == GetUserHandlerPipe(s)
    ensures var r := AddMessageToQueue(s, p);
      forall i :: |s.output| <= i < |r.output| ==> r.output[i].pipe == GetUserHandlerPipe(s)
  {
  }
}
