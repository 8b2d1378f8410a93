/**
 The event bus behind the progress streams. A subscriber gets the latest message
 of each event type and then every message published afterwards, through a
 queue of bounded length that is emptied when it is full.
 */
module SsePublisher {
  import opened Wrappers

  datatype Message = Message(event: string, data: string)

  const QUEUE_MAXSIZE: nat := 200

  // ----- States and dictionaries -----

  /** What a reader of the messages knows: the last data of each event type. */
  function Known(messages: seq<Message>): map<string, string> {
    if messages == [] then map[]
    else
      var last := messages[|messages| - 1];
      Known(messages[..|messages| - 1])[last.event := last.data]
  }

  lemma {:induction false} KnownAppend(messages: seq<Message>, more: seq<Message>)
    ensures Known(messages + more) == Known(messages) + Known(more)
  {
    if more == [] {
      assert messages + more == messages;
    } else {
      var all := messages + more;
      assert all[..|all| - 1] == messages + more[..|more| - 1];
      KnownAppend(messages, more[..|more| - 1]);
    }
  }

  /** A dictionary from event types to data, in insertion order. */
  predicate IsDictionary(items: seq<Message>) {
    forall i, j :: 0 <= i < j < |items| ==> items[i].event != items[j].event
  }

  /** `items[event] = data`: in place, or at the end for a new event type. */
  function Put(items: seq<Message>, m: Message): (r: seq<Message>)
    ensures |items| <= |r| <= |items| + 1
  {
    if items == [] then [m]
    else if items[0].event == m.event then [m] + items[1..]
    else [items[0]] + Put(items[1..], m)
  }

  lemma {:induction false} PutEvents(items: seq<Message>, m: Message)
    requires IsDictionary(items)
    ensures IsDictionary(Put(items, m))
    ensures forall i :: 0 <= i < |Put(items, m)| ==>
              Put(items, m)[i] == m || (i < |items| && Put(items, m)[i] == items[i] && items[i].event != m.event)
  {
    if items != [] && items[0].event != m.event {
      PutEvents(items[1..], m);
    }
  }

  lemma {:induction false} KnownAhead(m: Message, messages: seq<Message>)
    ensures Known([m] + messages) == map[m.event := m.data] + Known(messages)
  {
    assert [m][..0] == [];
    assert Known([m]) == map[m.event := m.data];
    KnownAppend([m], messages);
  }

  lemma KnownNothing()
    ensures IsDictionary([]) && Known([]) == map[]
  {
  }

  lemma {:induction false} KnownEvents(items: seq<Message>, event: string)
    ensures event in Known(items) ==> exists i :: 0 <= i < |items| && items[i].event == event
  {
    if items != [] && event in Known(items) && items[|items| - 1].event != event {
      KnownEvents(items[..|items| - 1], event);
      var i :| 0 <= i < |items| - 1 && items[..|items| - 1][i].event == event;
      assert items[i].event == event;
    }
  }

  /** Assigning a key of a dictionary is reading one more message. */
  lemma {:induction false} KnownPut(items: seq<Message>, m: Message)
    requires IsDictionary(items)
    ensures Known(Put(items, m)) == Known(items)[m.event := m.data]
  {
    hide Known;
    if items == [] {
      KnownAhead(m, []);
      KnownNothing();
      assert [m] + [] == [m];
    } else {
      var first, rest := items[0], items[1..];
      KnownAhead(first, rest);
      assert [first] + rest == items;
      if first.event == m.event {
        KnownAhead(m, rest);
        KnownEvents(rest, m.event);
      } else {
        KnownPut(rest, m);
        KnownAhead(first, Put(rest, m));
        assert map[first.event := first.data] + Known(rest)[m.event := m.data]
            == (map[first.event := first.data] + Known(rest))[m.event := m.data];
      }
    }
  }

  // ----- The queue of one subscriber -----

  /** `_offer`: a full queue is emptied first. */
  function Offered(queue: seq<Message>, m: Message): seq<Message> {
    if |queue| < QUEUE_MAXSIZE then queue + [m] else [m]
  }

  /**
   Emptying a full queue loses nothing a reader needs exactly when every message
   in it is of the same event type as the new one or tells what was known before.
   */
  lemma OverflowExact(before: seq<Message>, queue: seq<Message>, m: Message)
    requires |queue| >= QUEUE_MAXSIZE
    ensures Known(before + Offered(queue, m)) == Known(before + queue + [m]) <==>
            forall event :: event in Known(queue) ==>
              event == m.event || (event in Known(before) && Known(before)[event] == Known(queue)[event])
  {
    KnownAppend(before, [m]);
    KnownAppend(before + queue, [m]);
    KnownAppend(before, queue);
    KnownAhead(m, []);
    assert [m] + [] == [m];
    Overridden(Known(before), Known(queue), m.event, m.data);
  }

  lemma Overridden(before: map<string, string>, between: map<string, string>, event: string, data: string)
    ensures before[event := data] == (before + between)[event := data] <==>
            forall e :: e in between ==> e == event || (e in before && before[e] == between[e])
  {
    var short, long := before[event := data], (before + between)[event := data];
    if short == long {
      forall e | e in between && e != event
        ensures e in before && before[e] == between[e]
      {
        assert e in long && long[e] == between[e];
      }
    } else if forall e :: e in between ==> e == event || (e in before && before[e] == between[e]) {
      assert forall e :: e in long <==> e in short;
    }
  }

  /** A full queue whose first message is the only one of its event type: the slow reader never learns of it. */
  lemma OverflowCanLose(progress: Message, done: Message)
    requires progress.event != done.event
    ensures var queue := [done] + seq(QUEUE_MAXSIZE - 1, _ => progress);
            |queue| == QUEUE_MAXSIZE && done.event in Known(queue + [progress]) &&
                done.event !in Known(Offered(queue, progress))
  {
    var tail := seq(QUEUE_MAXSIZE - 1, _ => progress);
    KnownAhead(done, tail + [progress]);
    assert [done] + tail + [progress] == [done] + (tail + [progress]);
    KnownAhead(progress, []);
    assert [progress] + [] == [progress];
  }

  // ----- What a subscriber has been given -----

  /**
   A subscription as it was and went: the messages published before it began,
   the snapshot it took, the log positions of the messages it has read and of
   those in its queue, and all it has been given.
   */
  datatype Following = Following(
    channel: string, since: nat, snapshot: seq<Message>,
    seen: seq<nat>, waiting: seq<nat>, overflowed: bool, given: seq<Message>)

  predicate Increasing(positions: seq<nat>, low: nat, high: nat) {
    && (forall i :: 0 <= i < |positions| ==> low <= positions[i] < high)
    && (forall i, j :: 0 <= i < j < |positions| ==> positions[i] < positions[j])
  }

  function At(log: seq<Message>, positions: seq<nat>): (r: seq<Message>)
    requires Increasing(positions, 0, |log|)
    ensures |r| == |positions|
  {
    seq(|positions|, i requires 0 <= i < |positions| => log[positions[i]])
  }

  /**
   What the subscriber sees is an in-order part of what was published since it
   subscribed, ending with the last publication, and all of it while its queue
   has never been full.
   */
  predicate Follows(log: seq<Message>, queue: seq<Message>, pending: seq<Message>, f: Following) {
    var received := f.seen + f.waiting;
    && |queue| <= QUEUE_MAXSIZE
    && f.since <= |log| && Increasing(received, f.since, |log|)
    && Increasing(f.seen, 0, |log|) && Increasing(f.waiting, 0, |log|)
    && queue == At(log, f.waiting)
    && (f.since < |log| ==> received != [] && received[|received| - 1] == |log| - 1)
    && (!f.overflowed ==> |received| == |log| - f.since)
    && Known(f.snapshot) == Known(log[..f.since])
    && |pending| <= |f.snapshot| && pending == f.snapshot[|f.snapshot| - |pending|..]
    && (pending != [] ==> f.seen == [])
    && f.given == f.snapshot[..|f.snapshot| - |pending|] + At(log, f.seen)
  }

  function OfferedTo(f: Following, queue: seq<Message>, position: nat): Following {
    if |queue| < QUEUE_MAXSIZE then f.(waiting := f.waiting + [position])
    else f.(waiting := [position], overflowed := true)
  }

  lemma FollowsOffered(log: seq<Message>, queue: seq<Message>, pending: seq<Message>, f: Following, m: Message)
    requires Follows(log, queue, pending, f)
    ensures Follows(log + [m], Offered(queue, m), pending, OfferedTo(f, queue, |log|))
  {
    if |queue| < QUEUE_MAXSIZE {
      FollowsQueued(log, queue, pending, f, m);
    } else {
      FollowsDrained(log, queue, pending, f, m);
    }
  }

  lemma FollowsQueued(log: seq<Message>, queue: seq<Message>, pending: seq<Message>, f: Following, m: Message)
    requires Follows(log, queue, pending, f) && |queue| < QUEUE_MAXSIZE
    ensures Follows(log + [m], queue + [m], pending, f.(waiting := f.waiting + [|log|]))
  {
    hide Increasing, At, Known;
    IncreasingNext(f.seen, 0, |log|);
    AtLonger(log, f.seen, m);
    IncreasingNext(f.seen + f.waiting, f.since, |log|);
    assert f.seen + (f.waiting + [|log|]) == f.seen + f.waiting + [|log|];
    AtLast(log, f.waiting, m);
    assert (log + [m])[..f.since] == log[..f.since];
  }

  lemma FollowsDrained(log: seq<Message>, queue: seq<Message>, pending: seq<Message>, f: Following, m: Message)
    requires Follows(log, queue, pending, f)
    ensures Follows(log + [m], [m], pending, f.(waiting := [|log|], overflowed := true))
  {
    hide Increasing, At, Known;
    IncreasingFront(f.seen, f.waiting, f.since, |log|);
    IncreasingNext(f.seen, 0, |log|);
    IncreasingNext(f.seen, f.since, |log|);
    AtLonger(log, f.seen, m);
    AtLast(log, f.waiting, m);
    assert (log + [m])[..f.since] == log[..f.since];
  }

  lemma AtLast(log: seq<Message>, positions: seq<nat>, m: Message)
    requires Increasing(positions, 0, |log|)
    ensures Increasing(positions + [|log|], 0, |log| + 1) &&
              At(log + [m], positions + [|log|]) == At(log, positions) + [m]
    ensures Increasing([|log|], 0, |log| + 1) && At(log + [m], [|log|]) == [m]
  {
  }

  lemma IncreasingFront(front: seq<nat>, back: seq<nat>, low: nat, high: nat)
    requires Increasing(front + back, low, high)
    ensures Increasing(front, low, high) && Increasing(back, low, high)
  {
    var all := front + back;
    assert forall i :: 0 <= i < |front| ==> all[i] == front[i];
    assert forall i :: 0 <= i < |back| ==> all[|front| + i] == back[i];
  }

  lemma IncreasingNext(positions: seq<nat>, low: nat, high: nat)
    requires Increasing(positions, low, high) && low <= high
    ensures Increasing(positions, low, high + 1) && Increasing(positions + [high], low, high + 1)
    ensures Increasing([high], low, high + 1)
  {
  }

  lemma AtLonger(log: seq<Message>, positions: seq<nat>, m: Message)
    requires Increasing(positions, 0, |log|)
    ensures Increasing(positions, 0, |log| + 1) && At(log + [m], positions) == At(log, positions)
  {
  }

  lemma FollowsSnapshot(log: seq<Message>, queue: seq<Message>, pending: seq<Message>, f: Following)
    requires Follows(log, queue, pending, f) && pending != []
    ensures Follows(log, queue, pending[1..], f.(given := f.given + [pending[0]]))
  {
    var k := |f.snapshot| - |pending|;
    assert pending[1..] == f.snapshot[k + 1..];
    assert f.snapshot[..k + 1] == f.snapshot[..k] + [pending[0]];
    assert At(log, f.seen) == [];
    assert f.snapshot[..k] + [] == f.snapshot[..k] && f.snapshot[..k + 1] + [] == f.snapshot[..k + 1];
  }

  function Reading(f: Following, m: Message): Following
    requires f.waiting != []
  {
    f.(seen := f.seen + [f.waiting[0]], waiting := f.waiting[1..], given := f.given + [m])
  }

  lemma FollowsReading(log: seq<Message>, queue: seq<Message>, f: Following)
    requires Follows(log, queue, [], f) && queue != []
    ensures Follows(log, queue[1..], [], Reading(f, queue[0]))
  {
    hide Increasing, At, Known;
    ReadingMoves(log, f.seen, f.waiting, f.since);
    var items := f.snapshot[..|f.snapshot|];
    assert items + At(log, f.seen) + [queue[0]] == items + (At(log, f.seen) + [queue[0]]);
  }

  lemma ReadingMoves(log: seq<Message>, seen: seq<nat>, waiting: seq<nat>, since: nat)
    requires Increasing(seen + waiting, since, |log|) && waiting != []
    requires Increasing(seen, 0, |log|) && Increasing(waiting, 0, |log|)
    ensures (seen + [waiting[0]]) + waiting[1..] == seen + waiting
    ensures Increasing(seen + [waiting[0]], 0, |log|) && Increasing(waiting[1..], 0, |log|)
    ensures At(log, seen + [waiting[0]]) == At(log, seen) + [At(log, waiting)[0]]
    ensures At(log, waiting[1..]) == At(log, waiting)[1..]
  {
    assert (seen + [waiting[0]]) + waiting[1..] == seen + waiting;
    IncreasingFront(seen + [waiting[0]], waiting[1..], since, |log|);
  }

  /** As many increasing positions as there are places take every place. */
  lemma {:induction false} IncreasingIsAll(positions: seq<nat>, low: nat, high: nat, k: nat)
    requires low <= high && Increasing(positions, low, high) && k < |positions|
    ensures low + k <= positions[k] <= high - |positions| + k
    decreases k
  {
    IncreasingAbove(positions, low, high, k);
    IncreasingBelow(positions, low, high, k);
  }

  lemma {:induction false} IncreasingAbove(positions: seq<nat>, low: nat, high: nat, k: nat)
    requires Increasing(positions, low, high) && k < |positions|
    ensures low + k <= positions[k]
  {
    if k > 0 {
      IncreasingAbove(positions, low, high, k - 1);
    }
  }

  lemma {:induction false} IncreasingBelow(positions: seq<nat>, low: nat, high: nat, k: nat)
    requires Increasing(positions, low, high) && k < |positions|
    ensures positions[k] <= high - |positions| + k
    decreases |positions| - k
  {
    if k + 1 < |positions| {
      IncreasingBelow(positions, low, high, k + 1);
    }
  }

  /**
   Snapshot and then deltas give the latest state: what a subscriber was given,
   what is left of its snapshot and what is in its queue say together what the
   whole channel said.
   */
  lemma SnapshotThenDeltas(log: seq<Message>, queue: seq<Message>, pending: seq<Message>, f: Following)
    requires Follows(log, queue, pending, f) && !f.overflowed
    ensures Known(f.given + pending + queue) == Known(log)
  {
    hide Increasing, At, Known;
    ReceivedIsAll(log, f);
    GivenAndQueued(log, queue, pending, f);
    assert log == log[..f.since] + log[f.since..];
    KnownAppend(log[..f.since], log[f.since..]);
    KnownAppend(f.snapshot, log[f.since..]);
  }

  lemma ReceivedIsAll(log: seq<Message>, f: Following)
    requires f.since <= |log| && Increasing(f.seen + f.waiting, f.since, |log|)
    requires Increasing(f.seen, 0, |log|) && Increasing(f.waiting, 0, |log|)
    requires |f.seen| + |f.waiting| == |log| - f.since
    ensures At(log, f.seen) + At(log, f.waiting) == log[f.since..]
  {
    var received := f.seen + f.waiting;
    forall i | 0 <= i < |received|
      ensures received[i] == f.since + i
    {
      IncreasingIsAll(received, f.since, |log|, i);
    }
    var since := log[f.since..];
    forall i | 0 <= i < |since|
      ensures since[i] == (At(log, f.seen) + At(log, f.waiting))[i]
    {
      assert since[i] == log[received[i]];
    }
  }

  // ----- After an overflow -----

  /** The messages that reached the subscriber's queue and were not drained from it. */
  function Received(log: seq<Message>, f: Following): seq<Message>
    requires Increasing(f.seen, 0, |log|) && Increasing(f.waiting, 0, |log|)
  {
    At(log, f.seen) + At(log, f.waiting)
  }

  /** The log positions that reached the subscriber: those before it subscribed through its snapshot, then its own. */
  function Reaching(f: Following): seq<nat> {
    seq(f.since, i => i) + (f.seen + f.waiting)
  }

  /** No later message has the same event type. */
  predicate LastWord(messages: seq<Message>, p: nat) {
    p < |messages| && forall q :: p < q < |messages| ==> messages[q].event != messages[p].event
  }

  /** Of the messages in front of `p` that reach the reader, the last one of its event type says the same. */
  predicate SaidBefore(log: seq<Message>, reaching: seq<nat>, p: nat)
    requires p < |log|
  {
    exists q :: q in reaching && q < p && log[q] == log[p] && NoneBetween(log, reaching, q, p)
  }

  predicate NoneBetween(log: seq<Message>, reaching: seq<nat>, q: nat, p: nat)
    requires p < |log|
  {
    forall r :: r in reaching && q < r < p ==> log[r].event != log[p].event
  }

  /** Every message that does not reach the reader and is the last word on its event type was said before. */
  predicate NothingLost(log: seq<Message>, reaching: seq<nat>) {
    forall p :: 0 <= p < |log| && LastWord(log, p) && p !in reaching ==> SaidBefore(log, reaching, p)
  }

  /**
   In every run, overflow included, what a subscriber was given, the rest of its
   snapshot and its queue tell the state of the channel exactly when every
   drained message that is the last word on its event type repeats what the
   subscriber was told about that type before.
   */
  lemma FollowerExact(log: seq<Message>, queue: seq<Message>, pending: seq<Message>, f: Following)
    requires Follows(log, queue, pending, f)
    ensures Known(f.given + pending + queue) == Known(log) <==> NothingLost(log, Reaching(f))
  {
    hide At, Known, NothingLost;
    GivenAndQueued(log, queue, pending, f);
    ReachingIsIncreasing(log, f);
    KnownAppend(f.snapshot, Received(log, f));
    KnownAppend(log[..f.since], Received(log, f));
    ReachingExact(log, Reaching(f));
  }

  lemma ReachingIsIncreasing(log: seq<Message>, f: Following)
    requires f.since <= |log| && Increasing(f.seen + f.waiting, f.since, |log|)
    requires Increasing(f.seen, 0, |log|) && Increasing(f.waiting, 0, |log|)
    ensures Increasing(Reaching(f), 0, |log|) && At(log, Reaching(f)) == log[..f.since] + Received(log, f)
  {
  }

  /** Reading some of the messages in order tells the state exactly when no last word is lost. */
  lemma ReachingExact(log: seq<Message>, reaching: seq<nat>)
    requires Increasing(reaching, 0, |log|)
    ensures Known(At(log, reaching)) == Known(log) <==> NothingLost(log, reaching)
  {
    hide Known, Increasing;
    if Known(At(log, reaching)) == Known(log) {
      forall p | LastWord(log, p) && p !in reaching
        ensures SaidBefore(log, reaching, p)
      {
        WordWasSaid(log, reaching, p);
      }
    }
    if NothingLost(log, reaching) {
      ReachingTells(log, reaching);
    }
  }

  /** What is known of an event type is what the last message of that type said. */
  lemma {:induction false} LastWordIsKnown(messages: seq<Message>, p: nat)
    requires LastWord(messages, p)
    ensures messages[p].event in Known(messages) && Known(messages)[messages[p].event] == messages[p].data
  {
    var front := messages[..|messages| - 1];
    if p < |front| {
      assert messages[|messages| - 1].event != messages[p].event;
      LastWordIsKnown(front, p);
    }
  }

  lemma {:induction false} KnownHasLastWord(messages: seq<Message>, event: string) returns (p: nat)
    requires event in Known(messages)
    ensures LastWord(messages, p) && messages[p].event == event
  {
    var last := |messages| - 1;
    if messages[last].event == event {
      p := last;
    } else {
      p := KnownHasLastWord(messages[..last], event);
    }
  }

  lemma WordWasSaid(log: seq<Message>, reaching: seq<nat>, p: nat)
    requires Increasing(reaching, 0, |log|) && Known(At(log, reaching)) == Known(log)
    requires LastWord(log, p) && p !in reaching
    ensures SaidBefore(log, reaching, p)
  {
    hide Known, SaidBefore, NoneBetween;
    var told := At(log, reaching);
    LastWordIsKnown(log, p);
    var i := KnownHasLastWord(told, log[p].event);
    LastWordIsKnown(told, i);
    NothingToldSince(log, reaching, i, p);
    WasSaid(log, reaching, reaching[i], p);
  }

  lemma WasSaid(log: seq<Message>, reaching: seq<nat>, q: nat, p: nat)
    requires p < |log| && q < p && q in reaching && log[q] == log[p] && NoneBetween(log, reaching, q, p)
    ensures SaidBefore(log, reaching, p)
  {
  }

  lemma NothingToldSince(log: seq<Message>, reaching: seq<nat>, i: nat, p: nat)
    requires Increasing(reaching, 0, |log|) && LastWord(At(log, reaching), i) && LastWord(log, p) && p !in reaching
    requires log[reaching[i]].event == log[p].event
    ensures reaching[i] in reaching && reaching[i] < p && NoneBetween(log, reaching, reaching[i], p)
  {
    forall r | r in reaching && reaching[i] < r < p
      ensures log[r].event != log[p].event
    {
      var j :| 0 <= j < |reaching| && reaching[j] == r;
      assert At(log, reaching)[j] == log[r] && i < j;
    }
  }

  /** The last message of an event type that reaches the reader is the last word on it in what it was told. */
  lemma LastTold(log: seq<Message>, reaching: seq<nat>, p: nat, q: nat) returns (i: nat)
    requires Increasing(reaching, 0, |log|) && LastWord(log, p) && q in reaching && q <= p
    requires q == p || (p !in reaching && NoneBetween(log, reaching, q, p))
    requires log[q].event == log[p].event
    ensures LastWord(At(log, reaching), i) && At(log, reaching)[i] == log[q]
  {
    i :| 0 <= i < |reaching| && reaching[i] == q;
    forall j | i < j < |reaching|
      ensures At(log, reaching)[j].event != log[q].event
    {
      assert reaching[j] in reaching && reaching[j] > q;
    }
  }

  lemma ReachingTells(log: seq<Message>, reaching: seq<nat>)
    requires Increasing(reaching, 0, |log|) && NothingLost(log, reaching)
    ensures Known(At(log, reaching)) == Known(log)
  {
    hide Known;
    var told := At(log, reaching);
    forall event | event in Known(log)
      ensures event in Known(told) && Known(told)[event] == Known(log)[event]
    {
      var p := KnownHasLastWord(log, event);
      LastWordIsKnown(log, p);
      var q := p;
      if p !in reaching {
        q :| q in reaching && q < p && log[q] == log[p] && NoneBetween(log, reaching, q, p);
      }
      var i := LastTold(log, reaching, p, q);
      LastWordIsKnown(told, i);
    }
    forall event | event in Known(told)
      ensures event in Known(log)
    {
      var i := KnownHasLastWord(told, event);
      assert told[i] == log[reaching[i]];
      ToldIsKnown(log, reaching[i]);
    }
  }

  /** What is given, what is left of the snapshot and the queue are the snapshot and what was received. */
  lemma GivenAndQueued(log: seq<Message>, queue: seq<Message>, pending: seq<Message>, f: Following)
    requires Follows(log, queue, pending, f)
    ensures f.given + pending + queue == f.snapshot + Received(log, f)
  {
    hide Increasing, At, Known;
    if pending == [] {
      assert f.snapshot[..|f.snapshot|] == f.snapshot;
      assert f.snapshot + At(log, f.seen) + [] + queue == f.snapshot + (At(log, f.seen) + queue);
    } else {
      var k := |f.snapshot| - |pending|;
      assert At(log, f.seen) == [] && f.given == f.snapshot[..k];
      assert f.snapshot == f.snapshot[..k] + pending;
    }
  }

  lemma {:induction false} ToldIsKnown(messages: seq<Message>, i: nat)
    requires i < |messages|
    ensures messages[i].event in Known(messages)
  {
    if i < |messages| - 1 {
      ToldIsKnown(messages[..|messages| - 1], i);
    }
  }

  // ----- The bus -----

  function Of<T>(items: map<string, seq<T>>, channel: string): seq<T> {
    if channel in items then items[channel] else []
  }

  predicate Distinct(ids: seq<nat>) {
    forall i, j :: 0 <= i < j < |ids| ==> ids[i] != ids[j]
  }

  /** The retained messages of every channel say what the whole channel said. */
  predicate Retained(latest: map<string, seq<Message>>, log: map<string, seq<Message>>) {
    latest.Keys == log.Keys &&
    forall channel :: channel in latest ==>
        IsDictionary(latest[channel]) && Known(latest[channel]) == Known(log[channel])
  }

  /** The subscriber lists hold every open queue once, under its channel, and no list is empty. */
  predicate Registered(subscribers: map<string, seq<nat>>, following: map<nat, Following>) {
    && (forall channel :: channel in subscribers ==>
          && subscribers[channel] != [] && Distinct(subscribers[channel])
          && forall id :: id in subscribers[channel] ==> id in following && following[id].channel == channel)
    && forall id :: id in following ==> id in Of(subscribers, following[id].channel)
  }

  predicate Followed(
      log: map<string, seq<Message>>, queues: map<nat, seq<Message>>, pending: map<nat, seq<Message>>,
      following: map<nat, Following>)
  {
    queues.Keys == following.Keys && pending.Keys == following.Keys &&
    forall id :: id in following ==> Follows(Of(log, following[id].channel), queues[id], pending[id], following[id])
  }

  /** The queues after a message went to every subscriber of a channel. */
  function Delivered(queues: map<nat, seq<Message>>, ids: seq<nat>, m: Message): map<nat, seq<Message>> {
    map id | id in queues :: if id in ids then Offered(queues[id], m) else queues[id]
  }

  ghost function FollowingAfter(
      following: map<nat, Following>, queues: map<nat, seq<Message>>, channel: string, position: nat)
    : map<nat, Following>
    requires queues.Keys == following.Keys
  {
    map id | id in following ::
      if following[id].channel == channel then OfferedTo(following[id], queues[id], position) else following[id]
  }

  lemma PublishedRetained(latest: map<string, seq<Message>>, log: map<string, seq<Message>>, channel: string,
      m: Message)
    requires Retained(latest, log)
    ensures Retained(latest[channel := Put(Of(latest, channel), m)], log[channel := Of(log, channel) + [m]])
  {
    hide Known, IsDictionary, Put;
    var items, messages := Of(latest, channel), Of(log, channel);
    KnownNothing();
    PutEvents(items, m);
    KnownPut(items, m);
    KnownAppend(messages, [m]);
    KnownAhead(m, []);
    assert [m] + [] == [m];
  }

  lemma PublishedFollowed(
      log: map<string, seq<Message>>, queues: map<nat, seq<Message>>, pending: map<nat, seq<Message>>,
      following: map<nat, Following>, subscribers: map<string, seq<nat>>, channel: string, m: Message)
    requires Followed(log, queues, pending, following) && Registered(subscribers, following)
    ensures var after := FollowingAfter(following, queues, channel, |Of(log, channel)|);
            && Followed(log[channel := Of(log, channel) + [m]], Delivered(queues, Of(subscribers, channel), m),
                 pending, after)
            && Registered(subscribers, after)
  {
    hide Follows, Offered, OfferedTo, Registered;
    var ids, longer := Of(subscribers, channel), log[channel := Of(log, channel) + [m]];
    var after := FollowingAfter(following, queues, channel, |Of(log, channel)|);
    KeepsChannel(following, queues, channel, |Of(log, channel)|);
    SameRegistered(subscribers, following, after);
    forall id | id in following
      ensures Follows(Of(longer, after[id].channel), Delivered(queues, ids, m)[id], pending[id], after[id])
    {
      InChannel(subscribers, following, id, channel);
      if following[id].channel == channel {
        assert Of(longer, channel) == Of(log, channel) + [m];
        FollowsOffered(Of(log, channel), queues[id], pending[id], following[id], m);
      } else {
        assert Of(longer, following[id].channel) == Of(log, following[id].channel);
      }
    }
  }

  lemma InChannel(subscribers: map<string, seq<nat>>, following: map<nat, Following>, id: nat, channel: string)
    requires Registered(subscribers, following) && id in following
    ensures id in Of(subscribers, channel) <==> following[id].channel == channel
  {
  }

  lemma SameRegistered(subscribers: map<string, seq<nat>>, following: map<nat, Following>, after: map<nat, Following>)
    requires Registered(subscribers, following) && after.Keys == following.Keys
    requires forall id :: id in after ==> after[id].channel == following[id].channel
    ensures Registered(subscribers, after)
  {
  }

  lemma KeepsChannel(following: map<nat, Following>, queues: map<nat, seq<Message>>, channel: string, position: nat)
    requires queues.Keys == following.Keys
    ensures var after := FollowingAfter(following, queues, channel, position);
            after.Keys == following.Keys && forall id :: id in after ==> after[id].channel == following[id].channel
  {
  }

  class SsePublisher {
    var subscribers: map<string, seq<nat>>
    var latest: map<string, seq<Message>>
    var queues: map<nat, seq<Message>>
    /** What is left of each open subscription's snapshot. */
    var pending: map<nat, seq<Message>>
    var nextQueue: nat
    /** Everything ever published, by channel. */
    ghost var log: map<string, seq<Message>>
    ghost var following: map<nat, Following>

    ghost predicate Valid()
      reads this
    {
      && Retained(latest, log) && Registered(subscribers, following) && Followed(log, queues, pending, following)
      && forall id :: id in following ==> id < nextQueue
    }

    constructor ()
      ensures Valid() && log == map[] && following == map[]
    {
      subscribers, latest, queues, pending, nextQueue := map[], map[], map[], map[], 0;
      log, following := map[], map[];
    }

    /** Every subscriber of the channel is offered the message; nobody else is. */
    method Publish(channel: string, event: string, data: string)
      requires Valid()
      modifies this
      ensures Valid() && subscribers == old(subscribers) && pending == old(pending) && nextQueue == old(nextQueue)
      ensures log == old(log)[channel := Of(old(log), channel) + [Message(event, data)]]
      ensures latest == old(latest)[channel := Put(Of(old(latest), channel), Message(event, data))]
      ensures queues == Delivered(old(queues), Of(old(subscribers), channel), Message(event, data))
      ensures following == FollowingAfter(old(following), old(queues), channel, |Of(old(log), channel)|)
    {
      hide Retained, Registered, Followed, Delivered, FollowingAfter, Offered;
      var m := Message(event, data);
      PublishedRetained(latest, log, channel, m);
      PublishedFollowed(log, queues, pending, following, subscribers, channel, m);
      latest := latest[channel := Put(Of(latest, channel), m)];
      OpenQueues(subscribers, following, queues, pending, log, channel);
      var ids := Of(subscribers, channel);
      DeliveredNone(queues, m);
      for i := 0 to |ids|
        invariant queues == Delivered(old(queues), ids[..i], m) && queues.Keys == old(queues).Keys
        modifies this`queues
      {
        DeliveredNext(old(queues), ids, i, m);
        var accepted := Offer(ids[i], m);
      }
      assert ids[..|ids|] == ids;
      following := FollowingAfter(following, old(queues), channel, |Of(log, channel)|);
      KeepsChannel(old(following), old(queues), channel, |Of(old(log), channel)|);
      log := log[channel := Of(log, channel) + [m]];
    }

    /** A new subscriber starts from the retained messages of the channel. */
    method Subscribe(channel: string) returns (id: nat)
      requires Valid()
      modifies this
      ensures Valid() && id == old(nextQueue) && id !in old(queues) && latest == old(latest) && log == old(log)
      ensures subscribers == old(subscribers)[channel := Of(old(subscribers), channel) + [id]]
      ensures queues == old(queues)[id := []] && pending == old(pending)[id := Of(old(latest), channel)]
      ensures following == old(following)[id :=
                Following(channel, |Of(log, channel)|, Of(latest, channel), [], [], false, [])]
    {
      hide Retained, Registered, Followed, Follows;
      FollowedKeys(log, queues, pending, following);
      SubscribedFollows(latest, log, channel);
      id := nextQueue;
      ghost var f := Following(channel, |Of(log, channel)|, Of(latest, channel), [], [], false, []);
      RegisterOne(subscribers, following, id, f);
      FollowedWith(log, queues, pending, following, id, [], Of(latest, channel), f);
      nextQueue := nextQueue + 1;
      queues := queues[id := []];
      subscribers := subscribers[channel := Of(subscribers, channel) + [id]];
      pending := pending[id := Of(latest, channel)];
      following := following[id := f];
    }

    /** The next message of a subscription: first its snapshot, then its queue, or a keepalive. */
    method Next(id: nat) returns (r: Option<Message>)
      requires Valid() && id in queues
      modifies this
      ensures Valid() && subscribers == old(subscribers) && latest == old(latest) && log == old(log)
      ensures old(pending)[id] != [] ==>
                r == Some(old(pending)[id][0]) && pending == old(pending)[id := old(pending)[id][1..]] &&
                    queues == old(queues)
      ensures old(pending)[id] == [] ==>
                && pending == old(pending)
                && (old(queues)[id] == [] ==> r == None && queues == old(queues))
                && (old(queues)[id] != [] ==>
                      r == Some(old(queues)[id][0]) && queues == old(queues)[id := old(queues)[id][1..]])
      ensures following.Keys == old(following).Keys
      ensures following[id].given == old(following)[id].given + if r.Some? then [r.value] else []
      ensures following[id].overflowed == old(following)[id].overflowed &&
                following[id].channel == old(following)[id].channel
    {
      hide Retained, Registered, Followed, Follows;
      FollowedAt(log, queues, pending, following, id);
      ghost var f, messages := following[id], Of(log, following[id].channel);
      ghost var was := following;
      r := None;
      if pending[id] != [] {
        r := Some(pending[id][0]);
        FollowsSnapshot(messages, queues[id], pending[id], f);
        f := f.(given := f.given + [pending[id][0]]);
        SameRegistered(subscribers, was, was[id := f]);
        FollowedWith(log, queues, pending, following, id, queues[id], pending[id][1..], f);
        assert queues[id := queues[id]] == queues;
        pending := pending[id := pending[id][1..]];
      } else if queues[id] != [] {
        r := Some(queues[id][0]);
        WaitingIsQueued(messages, queues[id], f);
        FollowsReading(messages, queues[id], f);
        f := Reading(f, queues[id][0]);
        SameRegistered(subscribers, was, was[id := f]);
        FollowedWith(log, queues, pending, following, id, queues[id][1..], pending[id], f);
        assert pending[id := pending[id]] == pending;
        queues := queues[id := queues[id][1..]];
      } else {
        assert following[id := f] == following;
      }
      following := following[id := f];
    }

    /** The end of a subscription. A channel without subscribers has no list. */
    method Close(id: nat, channel: string)
      requires Valid() && id in queues && following[id].channel == channel
      modifies this
      ensures Valid() && id !in queues && latest == old(latest) && log == old(log)
      ensures queues == old(queues) - {id} && pending == old(pending) - {id} && following == old(following) - {id}
      ensures forall other :: other != channel ==> Of(subscribers, other) == Of(old(subscribers), other)
      ensures Of(subscribers, channel) == Removed(Of(old(subscribers), channel), id)
    {
      hide Retained, Registered, Followed, Follows, Removed;
      FollowedAt(log, queues, pending, following, id);
      HasList(subscribers, following, id);
      var rest := Removed(subscribers[channel], id);
      UnregisterOne(subscribers, following, id, channel);
      FollowedWithout(log, queues, pending, following, id);
      subscribers := if rest == [] then subscribers - {channel} else subscribers[channel := rest];
      queues, pending, following := queues - {id}, pending - {id}, following - {id};
    }

    method SubscriberCount(channel: string) returns (count: nat)
      ensures count == |Of(subscribers, channel)|
    {
      count := if channel in subscribers then |subscribers[channel]| else 0;
    }

    /** A full queue is drained before the newest message goes in, so the message is always accepted. */
    method Offer(id: nat, m: Message) returns (accepted: bool)
      requires id in queues && |queues[id]| <= QUEUE_MAXSIZE
      modifies this`queues
      ensures accepted && queues == old(queues)[id := Offered(old(queues)[id], m)]
    {
      var queue := queues[id];
      if |queue| >= QUEUE_MAXSIZE {
        while queue != []
          invariant |queue| <= QUEUE_MAXSIZE
          decreases |queue|
        {
          queue := queue[1..];
        }
      }
      accepted := |queue| < QUEUE_MAXSIZE;
      if accepted {
        assert |queues[id]| >= QUEUE_MAXSIZE ==> queue + [m] == [m];
        queues := queues[id := queue + [m]];
      }
    }
  }

  lemma OpenQueues(
      subscribers: map<string, seq<nat>>, following: map<nat, Following>, queues: map<nat, seq<Message>>,
      pending: map<nat, seq<Message>>, log: map<string, seq<Message>>, channel: string)
    requires Registered(subscribers, following) && Followed(log, queues, pending, following)
    ensures Distinct(Of(subscribers, channel)) && queues.Keys == following.Keys
    ensures forall id :: id in Of(subscribers, channel) ==> id in queues && |queues[id]| <= QUEUE_MAXSIZE
  {
  }

  lemma DeliveredNone(queues: map<nat, seq<Message>>, m: Message)
    ensures Delivered(queues, [], m) == queues
  {
  }

  lemma DeliveredNext(queues: map<nat, seq<Message>>, ids: seq<nat>, i: nat, m: Message)
    requires Distinct(ids) && i < |ids| && forall id :: id in ids ==> id in queues
    ensures ids[i] in Delivered(queues, ids[..i], m) && Delivered(queues, ids[..i], m)[ids[i]] == queues[ids[i]]
    ensures Delivered(queues, ids[..i + 1], m) == Delivered(queues, ids[..i], m)[ids[i] := Offered(queues[ids[i]], m)]
  {
    assert ids[..i + 1] == ids[..i] + [ids[i]];
  }

  /** `list.remove`: the first occurrence goes. */
  function Removed(ids: seq<nat>, id: nat): (r: seq<nat>)
    ensures forall other :: other in r ==> other in ids
    ensures forall other :: other in ids && other != id ==> other in r
  {
    if ids == [] then [] else if ids[0] == id then ids[1..] else [ids[0]] + Removed(ids[1..], id)
  }

  lemma {:induction false} RemovedDistinct(ids: seq<nat>, id: nat)
    requires Distinct(ids)
    ensures Distinct(Removed(ids, id)) && id !in Removed(ids, id)
  {
    if ids != [] {
      DistinctAhead(ids[0], ids[1..]);
      assert [ids[0]] + ids[1..] == ids;
      if ids[0] != id {
        RemovedDistinct(ids[1..], id);
        DistinctAhead(ids[0], Removed(ids[1..], id));
      }
    }
  }

  lemma DistinctAhead(id: nat, ids: seq<nat>)
    ensures Distinct([id] + ids) <==> Distinct(ids) && id !in ids
  {
    var all := [id] + ids;
    assert forall i :: 0 <= i < |ids| ==> all[i + 1] == ids[i];
    assert forall i :: 0 < i < |all| ==> all[i] == ids[i - 1];
    assert all[0] == id;
  }

  lemma SubscribedFollows(latest: map<string, seq<Message>>, log: map<string, seq<Message>>, channel: string)
    requires Retained(latest, log)
    ensures var items, messages := Of(latest, channel), Of(log, channel);
            Follows(messages, [], items, Following(channel, |messages|, items, [], [], false, []))
  {
    var items, messages := Of(latest, channel), Of(log, channel);
    assert messages[..|messages|] == messages;
    assert items[|items| - |items|..] == items && items[..0] + [] == [];
  }

  lemma RegisterOne(subscribers: map<string, seq<nat>>, following: map<nat, Following>, id: nat, f: Following)
    requires Registered(subscribers, following) && id !in following
    ensures Registered(subscribers[f.channel := Of(subscribers, f.channel) + [id]], following[id := f])
  {
  }

  lemma HasList(subscribers: map<string, seq<nat>>, following: map<nat, Following>, id: nat)
    requires Registered(subscribers, following) && id in following
    ensures following[id].channel in subscribers
  {
  }

  lemma UnregisterOne(subscribers: map<string, seq<nat>>, following: map<nat, Following>, id: nat, channel: string)
    requires Registered(subscribers, following) && id in following && following[id].channel == channel
    ensures channel in subscribers
    ensures var rest := Removed(subscribers[channel], id);
            Registered(if rest == [] then subscribers - {channel} else subscribers[channel := rest], following - {id})
  {
    hide Distinct, Removed;
    var rest := Removed(subscribers[channel], id);
    var after := if rest == [] then subscribers - {channel} else subscribers[channel := rest];
    RemovedDistinct(subscribers[channel], id);
    forall other | other in following - {id}
      ensures other in Of(after, following[other].channel)
    {
      assert other in Of(subscribers, following[other].channel);
    }
  }

  lemma FollowedKeys(
      log: map<string, seq<Message>>, queues: map<nat, seq<Message>>, pending: map<nat, seq<Message>>,
      following: map<nat, Following>)
    requires Followed(log, queues, pending, following)
    ensures queues.Keys == following.Keys && pending.Keys == following.Keys
  {
  }

  lemma FollowedAt(
      log: map<string, seq<Message>>, queues: map<nat, seq<Message>>, pending: map<nat, seq<Message>>,
      following: map<nat, Following>, id: nat)
    requires Followed(log, queues, pending, following) && id in queues
    ensures queues.Keys == following.Keys && pending.Keys == following.Keys
    ensures Follows(Of(log, following[id].channel), queues[id], pending[id], following[id])
  {
  }

  lemma FollowedWith(
      log: map<string, seq<Message>>, queues: map<nat, seq<Message>>, pending: map<nat, seq<Message>>,
      following: map<nat, Following>, id: nat, queue: seq<Message>, rest: seq<Message>, f: Following)
    requires Followed(log, queues, pending, following) && Follows(Of(log, f.channel), queue, rest, f)
    ensures Followed(log, queues[id := queue], pending[id := rest], following[id := f])
  {
    hide Follows;
  }

  lemma FollowedWithout(
      log: map<string, seq<Message>>, queues: map<nat, seq<Message>>, pending: map<nat, seq<Message>>,
      following: map<nat, Following>, id: nat)
    requires Followed(log, queues, pending, following)
    ensures Followed(log, queues - {id}, pending - {id}, following - {id})
  {
    hide Follows;
  }

  lemma WaitingIsQueued(log: seq<Message>, queue: seq<Message>, f: Following)
    requires Follows(log, queue, [], f)
    ensures |f.waiting| == |queue|
  {
  }

  /**
   In every run: an open queue is bounded, what its reader was given and will be
   given from the queue is an in-order part of the publications, the last of
   which is never missing. It tells the state of the channel exactly when every
   drained message that is the last word on its event type repeats what the
   reader was told before, and so always when the queue was never full.
   */
  lemma EverySubscriber(bus: SsePublisher, id: nat)
    requires bus.Valid() && id in bus.queues
    ensures var f := bus.following[id];
            var log, queue := Of(bus.log, f.channel), bus.queues[id];
            && |queue| <= QUEUE_MAXSIZE
            && Increasing(f.seen + f.waiting, f.since, |log|)
            && (f.since < |log| ==>
                 f.seen + f.waiting != [] && (f.seen + f.waiting)[|f.seen| + |f.waiting| - 1] == |log| - 1)
            && Known(log) == Known(Of(bus.latest, f.channel))
            && (Known(f.given + bus.pending[id] + queue) == Known(log) <==>
                  NothingLost(log, Reaching(f)))
            && (!f.overflowed ==> Known(f.given + bus.pending[id] + queue) == Known(log))
  {
    hide Known, Registered, Followed, Retained, Increasing, At, NothingLost, Received, Reaching;
    FollowedKeys(bus.log, bus.queues, bus.pending, bus.following);
    FollowedAt(bus.log, bus.queues, bus.pending, bus.following, id);
    var f := bus.following[id];
    RetainedAt(bus.latest, bus.log, f.channel);
    FollowerExact(Of(bus.log, f.channel), bus.queues[id], bus.pending[id], f);
    if !f.overflowed {
      SnapshotThenDeltas(Of(bus.log, f.channel), bus.queues[id], bus.pending[id], f);
    }
  }

  lemma RetainedAt(latest: map<string, seq<Message>>, log: map<string, seq<Message>>, channel: string)
    requires Retained(latest, log)
    ensures Known(Of(latest, channel)) == Known(Of(log, channel))
  {
  }

  // ----- A run that loses -----

  const CHANNEL := "scan"
  const DONE := Message("complete", "all")
  const PROGRESS := Message("progress", "some")

  predicate Silent(messages: seq<Message>, event: string) {
    forall i :: 0 <= i < |messages| ==> messages[i].event != event
  }

  lemma SilentIsUnknown(messages: seq<Message>, event: string)
    requires Silent(messages, event)
    ensures event !in Known(messages)
  {
    if event in Known(messages) {
      KnownEvents(messages, event);
    }
  }

  /** The subscriber follows the channel on which the terminal event came first. */
  ghost predicate FollowsDone(bus: SsePublisher, id: nat)
    reads bus
  {
    && bus.Valid() && id in bus.queues && id in bus.pending && id in bus.following
    && bus.following[id].channel == CHANNEL && Of(bus.log, CHANNEL) != [] && Of(bus.log, CHANNEL)[0] == DONE
  }

  /** Everything the subscriber was given or can still get. */
  ghost function Reach(bus: SsePublisher, id: nat): seq<Message>
    requires id in bus.queues && id in bus.pending && id in bus.following
    reads bus
  {
    bus.following[id].given + bus.pending[id] + bus.queues[id]
  }

  /**
   A subscriber that is slow once: its queue overflows behind one terminal event,
   and whatever messages of other types are published and read from then on, in
   any order, it never learns of it, while the bus retains it. A step without a
   message is a reading.
   */
  method SlowReaderMisses(steps: seq<Option<Message>>) returns (bus: SsePublisher, id: nat)
    requires forall i :: 0 <= i < |steps| && steps[i].Some? ==> steps[i].value.event != DONE.event
    ensures fresh(bus) && FollowsDone(bus, id)
    ensures DONE.event in Known(Of(bus.latest, CHANNEL)) && DONE.event !in Known(Reach(bus, id))
  {
    hide Known, Registered, Followed, Retained, Reach, Silent;
    bus, id := SubscribeAndFinish();
    PublishProgress(bus, id, QUEUE_MAXSIZE);
    for i := 0 to |steps|
      invariant fresh(bus) && FollowsDone(bus, id) && Silent(Reach(bus, id), DONE.event)
    {
      if steps[i].Some? {
        PublishOther(bus, id, steps[i].value);
      } else {
        ReadOne(bus, id);
      }
    }
    SilentIsUnknown(Reach(bus, id), DONE.event);
    ToldIsKnown(Of(bus.log, CHANNEL), 0);
    RetainedAt(bus.latest, bus.log, CHANNEL);
  }

  /** Subscribes first, so that the snapshot is empty, and then publishes the terminal event. */
  method SubscribeAndFinish() returns (bus: SsePublisher, id: nat)
    ensures fresh(bus) && FollowsDone(bus, id)
    ensures bus.following[id].given == [] && bus.pending[id] == [] && bus.queues[id] == [DONE]
  {
    hide Known, Retained, Registered, Followed;
    bus := new SsePublisher();
    NothingRetained(bus.latest, bus.log);
    id := bus.Subscribe(CHANNEL);
    PublishTo(bus, id, DONE);
  }

  method PublishTo(bus: SsePublisher, id: nat, m: Message)
    requires bus.Valid() && id in bus.queues && id in bus.pending && id in bus.following
    requires bus.following[id].channel == CHANNEL
    modifies bus
    ensures bus.Valid() && id in bus.queues && id in bus.pending && id in bus.following
    ensures bus.following[id].channel == CHANNEL && bus.following[id].given == old(bus.following[id].given)
    ensures bus.pending[id] == old(bus.pending[id]) && bus.queues[id] == Offered(old(bus.queues[id]), m)
    ensures Of(bus.log, CHANNEL) == old(Of(bus.log, CHANNEL)) + [m]
  {
    hide Known, Retained, Registered, Followed, Offered, Put;
    InChannel(bus.subscribers, bus.following, id, CHANNEL);
    FollowedKeys(bus.log, bus.queues, bus.pending, bus.following);
    bus.Publish(CHANNEL, m.event, m.data);
  }

  /** A message of another type keeps the terminal event out of reach. */
  method PublishOther(bus: SsePublisher, id: nat, m: Message)
    requires FollowsDone(bus, id) && Silent(Reach(bus, id), DONE.event) && m.event != DONE.event
    modifies bus
    ensures FollowsDone(bus, id) && Silent(Reach(bus, id), DONE.event)
  {
    hide Known, Retained, Registered, Followed, Offered, Silent;
    ghost var before, queue := bus.following[id].given + bus.pending[id], bus.queues[id];
    StaysSilent(before, queue, m, DONE.event);
    PublishTo(bus, id, m);
    assert Reach(bus, id) == before + Offered(queue, m);
  }

  lemma StaysSilent(before: seq<Message>, queue: seq<Message>, m: Message, event: string)
    requires Silent(before + queue, event) && m.event != event
    ensures Silent(before + Offered(queue, m), event)
  {
    assert forall i :: 0 <= i < |before| ==> (before + queue)[i] == before[i];
    assert forall i :: 0 <= i < |queue| ==> (before + queue)[|before| + i] == queue[i];
  }

  /** Enough messages of the other type to overflow the queue. */
  method PublishProgress(bus: SsePublisher, id: nat, count: nat)
    requires FollowsDone(bus, id) && count >= QUEUE_MAXSIZE
    requires bus.following[id].given == [] && bus.pending[id] == [] && bus.queues[id] == [DONE]
    modifies bus
    ensures FollowsDone(bus, id) && Silent(Reach(bus, id), DONE.event)
  {
    hide Known, Retained, Registered, Followed, Offered, Silent, Overrun;
    OneWaits();
    for i := 0 to count
      invariant FollowsDone(bus, id) && bus.following[id].given == [] && bus.pending[id] == []
      invariant Overrun(bus.queues[id], i)
    {
      OneMoreOverruns(bus.queues[id], i);
      PublishTo(bus, id, PROGRESS);
    }
    OverrunIsSilent(bus.queues[id], count);
    assert Reach(bus, id) == bus.queues[id];
  }

  /** The queue after so many messages of the other type: full at last, and then without the terminal event. */
  predicate Overrun(queue: seq<Message>, count: nat) {
    if count < QUEUE_MAXSIZE then |queue| == count + 1 else Silent(queue, DONE.event)
  }

  lemma OneWaits()
    ensures Overrun([DONE], 0)
  {
  }

  lemma OneMoreOverruns(queue: seq<Message>, count: nat)
    requires Overrun(queue, count)
    ensures Overrun(Offered(queue, PROGRESS), count + 1)
  {
  }

  lemma OverrunIsSilent(queue: seq<Message>, count: nat)
    requires Overrun(queue, count) && count >= QUEUE_MAXSIZE
    ensures Silent(queue, DONE.event)
  {
  }

  method ReadOne(bus: SsePublisher, id: nat)
    requires FollowsDone(bus, id)
    modifies bus
    ensures FollowsDone(bus, id) && Reach(bus, id) == old(Reach(bus, id))
  {
    hide Known, Retained, Registered, Followed;
    var r := bus.Next(id);
    FollowedKeys(bus.log, bus.queues, bus.pending, bus.following);
    assert Reach(bus, id) == old(Reach(bus, id));
  }

  lemma NothingRetained(latest: map<string, seq<Message>>, log: map<string, seq<Message>>)
    requires Retained(latest, log) && log == map[]
    ensures latest == map[]
  {
  }
}
