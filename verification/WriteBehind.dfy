/**
 The ordered write-behind queue of a room (draw-games/src/write_behind.rs): producers
 accept items, one worker folds and saves them, and `durable()` watches its progress.
 */
module WriteBehind {
  import opened Outcomes

  const CAPACITY: nat := 64

  /** Accepted items folded into one write, oldest first, and the value written. */
  datatype Batch<T> = Batch(parts: seq<T>, value: T)

  /** The batch the worker is holding, stamped with the last sequence it covers. */
  datatype Head<T> = Head(sequence: nat, batch: Batch<T>)

  datatype Writer<T> = Writer(
    accepted: seq<T>,              // every item ever accepted, in order
    queue: seq<(nat, T)>,          // the bounded channel
    carry: Option<Head<T>>,        // handed back by merge, to be written next
    head: Option<Head<T>>,         // being written, with its retries
    saved: seq<Batch<T>>,          // every batch whose write was acknowledged
    progress: nat,                 // last sequence reported durable
    durable: T,                    // the value last saved
    failing: bool,                 // the last attempt failed
    fenced: bool)                  // the worker stopped for good

  /** What `merge` may answer: fold the item into the head, or hand one back to be written next. */
  datatype Merge<T> = Folded(next: T) | HandedBack(next: T, item: T)

  datatype Event<T> =
    | Enqueue(item: T)
    | Take
    | Coalesce(answer: Merge<T>)
    | Saved(stored: T)             // what `persist` returned
    | Failed
    | Fenced

  function Open<T>(initial: T): Writer<T> {
    Writer([], [], None, None, [], 0, initial, false, false)
  }

  // ---- One step ----

  function Accept<T>(w: Writer<T>, item: T): Option<Writer<T>> {
    if w.fenced || |w.queue| >= CAPACITY then None
    else Some(w.(accepted := w.accepted + [item], queue := w.queue + [(|w.accepted| + 1, item)]))
  }

  /** The worker takes the carried item first, then the front of the channel. */
  function TakeNext<T>(w: Writer<T>): Option<Writer<T>> {
    if w.fenced || w.head.Some? then None
    else if w.carry.Some? then
      Some(w.(carry := None, head := w.carry))
    else if w.queue != [] then
      Some(w.(queue := w.queue[1..], head := Some(Head(w.queue[0].0, Batch([w.queue[0].1], w.queue[0].1)))))
    else None
  }

  /** One more queued item meets the head; after a hand-back nothing more is folded. */
  function CoalesceOne<T>(w: Writer<T>, answer: Merge<T>): Option<Writer<T>> {
    if w.fenced || w.head.None? || w.carry.Some? || w.queue == [] then None
    else
      var (sequence, item) := w.queue[0];
      var h := w.head.value;
      match answer
      case Folded(next) =>
        Some(w.(queue := w.queue[1..], head := Some(Head(sequence, Batch(h.batch.parts + [item], next)))))
      case HandedBack(next, back) =>
        Some(w.(queue := w.queue[1..],
                carry := Some(Head(sequence, Batch([item], back))),
                head := Some(h.(batch := h.batch.(value := next)))))
  }

  /** Folding while items are queued and none has been handed back, as `merge` decides. */
  function CoalesceAll<T>(w: Writer<T>, merge: (T, T) -> Merge<T>): Writer<T>
    decreases |w.queue|
  {
    if w.fenced || w.head.None? || w.carry.Some? || w.queue == [] then w
    else CoalesceAll(CoalesceOne(w, merge(w.head.value.batch.value, w.queue[0].1)).value, merge)
  }

  function Step<T>(w: Writer<T>, e: Event<T>): Option<Writer<T>> {
    match e
    case Enqueue(item) => Accept(w, item)
    case Take => TakeNext(w)
    case Coalesce(answer) => CoalesceOne(w, answer)
    case Saved(stored) =>
      if w.fenced || w.head.None? then None
      else
        Some(w.(head := None, saved := w.saved + [w.head.value.batch], progress := w.head.value.sequence,
                durable := stored, failing := false))
    case Failed => if w.fenced || w.head.None? then None else Some(w.(failing := true))
    case Fenced => if w.fenced || w.head.None? then None else Some(w.(failing := true, fenced := true))
  }

  function Run<T>(w: Writer<T>, es: seq<Event<T>>): Option<Writer<T>> {
    if es == [] then Some(w)
    else
      match Run(w, es[..|es| - 1])
      case None => None
      case Some(v) => Step(v, es[|es| - 1])
  }

  // ---- FIFO and contiguous sequences ----

  /** The items of the saved batches, in order. */
  function Parts<T>(bs: seq<Batch<T>>): seq<T> {
    if bs == [] then [] else Parts(bs[..|bs| - 1]) + bs[|bs| - 1].parts
  }

  function HeadParts<T>(w: Writer<T>): seq<T> { if w.head.Some? then w.head.value.batch.parts else [] }
  function CarryItems<T>(w: Writer<T>): seq<T> { if w.carry.Some? then w.carry.value.batch.parts else [] }

  function Items<T>(q: seq<(nat, T)>): (r: seq<T>)
    ensures |r| == |q|
  {
    seq(|q|, i requires 0 <= i < |q| => q[i].1)
  }

  /** The last sequence taken from the channel into the head or the carry. */
  function Taken<T>(w: Writer<T>): nat {
    |Parts(w.saved)| + |HeadParts(w)| + |CarryItems(w)|
  }

  /**
   Nothing is lost, repeated or reordered, and the unsaved items carry exactly the
   sequences after `progress`, up to the number accepted.
   */
  ghost predicate Valid<T>(w: Writer<T>) {
    && w.accepted == Parts(w.saved) + HeadParts(w) + CarryItems(w) + Items(w.queue)
    && w.progress == |Parts(w.saved)|
    && (w.head.Some? ==> w.head.value.sequence == w.progress + |HeadParts(w)| && HeadParts(w) != [])
    && (w.carry.Some? ==> w.carry.value.sequence == Taken(w) && |CarryItems(w)| == 1)
    && (forall i :: 0 <= i < |w.queue| ==> w.queue[i].0 == Taken(w) + 1 + i)
    && |w.queue| <= CAPACITY
  }

  lemma OpenIsValid<T>(initial: T)
    ensures Valid(Open(initial))
  {
    var w := Open(initial);
    assert Parts(w.saved) == [] && HeadParts(w) == [] && CarryItems(w) == [] && Items(w.queue) == [];
  }

  lemma PartsAppend<T>(bs: seq<Batch<T>>, b: Batch<T>)
    ensures Parts(bs + [b]) == Parts(bs) + b.parts
  {
    assert (bs + [b])[..|bs|] == bs;
  }

  lemma ItemsAppend<T>(q: seq<(nat, T)>, x: (nat, T))
    ensures Items(q + [x]) == Items(q) + [x.1]
  {
  }

  lemma ItemsTail<T>(q: seq<(nat, T)>)
    requires q != []
    ensures Items(q) == [q[0].1] + Items(q[1..])
  {
    forall i | 0 <= i < |q| ensures Items(q)[i] == ([q[0].1] + Items(q[1..]))[i] {
      if i > 0 { assert q[1..][i - 1] == q[i]; }
    }
  }

  lemma AcceptKeeps<T>(w: Writer<T>, item: T)
    requires Valid(w) && Accept(w, item).Some?
    ensures Valid(Accept(w, item).value)
  {
    var v := Accept(w, item).value;
    ItemsAppend(w.queue, v.queue[|w.queue|]);
    assert Taken(v) == Taken(w);
  }

  lemma TakeKeeps<T>(w: Writer<T>)
    requires Valid(w) && TakeNext(w).Some?
    ensures Valid(TakeNext(w).value)
  {
    if w.carry.None? { ItemsTail(w.queue); }
  }

  lemma CoalesceKeeps<T>(w: Writer<T>, answer: Merge<T>)
    requires Valid(w) && CoalesceOne(w, answer).Some?
    ensures Valid(CoalesceOne(w, answer).value)
  {
    var v := CoalesceOne(w, answer).value;
    ItemsTail(w.queue);
    assert Taken(v) == Taken(w) + 1;
    if answer.Folded? { assert HeadParts(v) == HeadParts(w) + [w.queue[0].1]; }
  }

  lemma SavedKeeps<T>(w: Writer<T>, stored: T)
    requires Valid(w) && Step(w, Saved(stored)).Some?
    ensures Valid(Step(w, Saved(stored)).value)
  {
    var v := Step(w, Saved(stored)).value;
    PartsAppend(w.saved, w.head.value.batch);
    assert Parts(v.saved) == Parts(w.saved) + HeadParts(w) && HeadParts(v) == [];
    assert CarryItems(v) == CarryItems(w) && Taken(v) == Taken(w);
  }

  lemma StepKeeps<T>(w: Writer<T>, e: Event<T>)
    requires Valid(w) && Step(w, e).Some?
    ensures Valid(Step(w, e).value)
  {
    match e
    case Enqueue(item) => AcceptKeeps(w, item);
    case Take => TakeKeeps(w);
    case Coalesce(answer) => CoalesceKeeps(w, answer);
    case Saved(stored) => SavedKeeps(w, stored);
    case Failed =>
    case Fenced =>
  }

  /** A whole round of folding keeps every item, in order. */
  lemma {:induction false} CoalesceAllKeeps<T>(w: Writer<T>, merge: (T, T) -> Merge<T>)
    requires Valid(w)
    ensures Valid(CoalesceAll(w, merge)) && CoalesceAll(w, merge).accepted == w.accepted
    decreases |w.queue|
  {
    if !(w.fenced || w.head.None? || w.carry.Some? || w.queue == []) {
      var answer := merge(w.head.value.batch.value, w.queue[0].1);
      CoalesceKeeps(w, answer);
      CoalesceAllKeeps(CoalesceOne(w, answer).value, merge);
    }
  }

  lemma {:induction false} RunKeeps<T>(w: Writer<T>, es: seq<Event<T>>)
    requires Valid(w) && Run(w, es).Some?
    ensures Valid(Run(w, es).value)
  {
    if es != [] {
      RunKeeps(w, es[..|es| - 1]);
      StepKeeps(Run(w, es[..|es| - 1]).value, es[|es| - 1]);
    }
  }

  /** The sequences of everything accepted and not yet reported durable, in write order. */
  function Unsaved<T>(w: Writer<T>): seq<int> {
    (if w.head.Some? then seq(|HeadParts(w)|, i => w.head.value.sequence - |HeadParts(w)| + 1 + i) else [])
    + (if w.carry.Some? then [w.carry.value.sequence] else [])
    + seq(|w.queue|, i requires 0 <= i < |w.queue| => w.queue[i].0)
  }

  /**
   Over every run the unsaved items, wherever they wait, carry exactly the contiguous
   sequences from `progress + 1` to the number accepted, and what has been saved is a
   prefix of what was accepted, in order.
   */
  lemma UnsavedIsContiguous<T>(initial: T, es: seq<Event<T>>)
    requires Run(Open(initial), es).Some?
    ensures var w := Run(Open(initial), es).value;
            && w.progress + |Unsaved(w)| == |w.accepted|
            && (forall i :: 0 <= i < |Unsaved(w)| ==> Unsaved(w)[i] == w.progress + 1 + i)
            && Parts(w.saved) == w.accepted[..w.progress]
  {
    RunKeeps(Open(initial), es);
  }

  // ---- The meaning of durable() ----

  datatype Outcome = Durable | Closed | Waiting

  /** What `durable()` sees when it looks, for the count accepted when it was called. */
  function DurableSees<T>(w: Writer<T>, target: nat): Outcome {
    if w.progress >= target then Durable else if w.fenced then Closed else Waiting
  }

  /** Item number `n`, counting from one, was written in some acknowledged batch. */
  ghost predicate WrittenAt<T>(w: Writer<T>, n: nat, k: nat, i: nat) {
    && 1 <= n <= |w.accepted|
    && k < |w.saved| && i < |w.saved[k].parts|
    && n == |Parts(w.saved[..k])| + i + 1
    && w.saved[k].parts[i] == w.accepted[n - 1]
  }

  lemma {:induction false} FindBatch<T>(bs: seq<Batch<T>>, n: nat) returns (k: nat, i: nat)
    requires n < |Parts(bs)|
    ensures k < |bs| && i < |bs[k].parts| && n == |Parts(bs[..k])| + i
    ensures bs[k].parts[i] == Parts(bs)[n]
  {
    var front := bs[..|bs| - 1];
    if n < |Parts(front)| {
      k, i := FindBatch(front, n);
      assert front[..k] == bs[..k];
    } else {
      k, i := |bs| - 1, n - |Parts(front)|;
    }
  }

  lemma {:induction false} RunExtends<T>(w: Writer<T>, es: seq<Event<T>>)
    requires Run(w, es).Some?
    ensures w.accepted <= Run(w, es).value.accepted
    ensures w.fenced ==> Run(w, es).value.fenced && Run(w, es).value.progress == w.progress
  {
    if es != [] { RunExtends(w, es[..|es| - 1]); }
  }

  /**
   If `durable()` is called after the events `before` and answers durable after `later`, then
   every item accepted before the call was saved, itself or folded into a saved batch.
   */
  lemma DurableMeansSaved<T>(initial: T, before: seq<Event<T>>, later: seq<Event<T>>, n: nat)
    requires Run(Open(initial), before).Some?
    requires Run(Run(Open(initial), before).value, later).Some?
    requires var w := Run(Open(initial), before).value;
             1 <= n <= |w.accepted| && DurableSees(Run(w, later).value, |w.accepted|) == Durable
    ensures var w := Run(Open(initial), before).value;
            && w.accepted <= Run(w, later).value.accepted
            && exists k: nat, i: nat :: WrittenAt(Run(w, later).value, n, k, i)
  {
    RunKeeps(Open(initial), before);
    var w := Run(Open(initial), before).value;
    RunKeeps(w, later);
    RunExtends(w, later);
    var v := Run(w, later).value;
    var k, i := FindBatch(v.saved, n - 1);
    assert WrittenAt(v, n, k, i);
  }

  /** Items a fence abandoned are never reported durable, however long one waits. */
  lemma AbandonedNeverDurable<T>(initial: T, before: seq<Event<T>>, later: seq<Event<T>>, target: nat)
    requires Run(Open(initial), before).Some?
    requires Run(Run(Open(initial), before).value, later).Some?
    requires Run(Open(initial), before).value.fenced && Run(Open(initial), before).value.progress < target
    ensures DurableSees(Run(Run(Open(initial), before).value, later).value, target) == Closed
  {
    RunExtends(Run(Open(initial), before).value, later);
  }

  /** Whether the latest attempt of a run to write ended in an error. */
  function LastFailed<T>(es: seq<Event<T>>): bool {
    if es == [] then false
    else
      match es[|es| - 1]
      case Saved(_) => false
      case Failed => true
      case Fenced => true
      case _ => LastFailed(es[..|es| - 1])
  }

  /** Over every run the writer is unhealthy exactly while its latest attempt has failed. */
  lemma {:induction false} FailingExactly<T>(initial: T, es: seq<Event<T>>)
    requires Run(Open(initial), es).Some?
    ensures Run(Open(initial), es).value.failing <==> LastFailed(es)
  {
    if es != [] { FailingExactly(initial, es[..|es| - 1]); }
  }

  /** Over every run `durable()` succeeds exactly once that many items were saved, and fails exactly if a fence came first. */
  lemma DurableExactly<T>(initial: T, es: seq<Event<T>>, target: nat)
    requires Run(Open(initial), es).Some?
    ensures var w := Run(Open(initial), es).value;
            && (DurableSees(w, target) == Durable <==> |Parts(w.saved)| >= target)
            && (DurableSees(w, target) == Closed <==> w.fenced && |Parts(w.saved)| < target)
  {
    OpenIsValid(initial);
    RunKeeps(Open(initial), es);
  }

  /** An item is refused exactly by a closed writer, or by one with 64 items queued. */
  lemma RefusesExactly<T>(initial: T, es: seq<Event<T>>, item: T)
    requires Run(Open(initial), es).Some?
    ensures var w := Run(Open(initial), es).value;
            Accept(w, item).None? <==> w.fenced || |w.queue| == 64
  {
    OpenIsValid(initial);
    RunKeeps(Open(initial), es);
  }

  // ---- The meaning of drain() ----

  /** What the last successful `persist` of a run returned. */
  function LastStored<T>(initial: T, es: seq<Event<T>>): T {
    if es == [] then initial
    else match es[|es| - 1] case Saved(stored) => stored case _ => LastStored(initial, es[..|es| - 1])
  }

  lemma {:induction false} RunStores<T>(initial: T, es: seq<Event<T>>)
    requires Run(Open(initial), es).Some?
    ensures Run(Open(initial), es).value.durable == LastStored(initial, es)
  {
    if es != [] { RunStores(initial, es[..|es| - 1]); }
  }

  /** What `drain()` returns when it looks: the durable value, once nothing accepted is ahead of it. */
  function Drained<T>(w: Writer<T>): Option<T> {
    if DurableSees(w, |w.accepted|) == Durable then Some(w.durable) else None
  }

  /**
   When `drain()` returns, everything accepted was saved, in order, nothing waits anywhere, and
   its result is what the last `persist` returned.
   */
  lemma DrainedMeansAllSaved<T>(initial: T, es: seq<Event<T>>)
    requires Run(Open(initial), es).Some? && Drained(Run(Open(initial), es).value).Some?
    ensures var w := Run(Open(initial), es).value;
            && Drained(w) == Some(LastStored(initial, es))
            && Parts(w.saved) == w.accepted
            && w.head.None? && w.carry.None? && w.queue == []
  {
    OpenIsValid(initial);
    RunKeeps(Open(initial), es);
    RunStores(initial, es);
  }

  // ---- What is written ----

  /** The contents of some items, one after another; `means` says what one item holds. */
  function Contents<T, U>(items: seq<T>, means: T -> seq<U>): seq<U> {
    if items == [] then [] else Contents(items[..|items| - 1], means) + means(items[|items| - 1])
  }

  /** What the saved batches wrote, one after another. */
  function Written<T, U>(saved: seq<Batch<T>>, means: T -> seq<U>): seq<U> {
    if saved == [] then [] else Written(saved[..|saved| - 1], means) + means(saved[|saved| - 1].value)
  }

  /** A fold holds the batch and then the item; what is handed back holds what it held. */
  ghost predicate Respects<T, U>(means: T -> seq<U>, batch: T, item: T, answer: Merge<T>) {
    match answer
    case Folded(next) => means(next) == means(batch) + means(item)
    case HandedBack(next, back) => means(next) == means(batch) && means(back) == means(item)
  }

  /** Every answer of `merge` in the run respects what the items hold. */
  ghost predicate MergesTruly<T, U>(w: Writer<T>, es: seq<Event<T>>, means: T -> seq<U>) {
    es == [] ||
    (var front, last := es[..|es| - 1], es[|es| - 1];
     && MergesTruly(w, front, means)
     && match (Run(w, front), last)
        case (Some(v), Coalesce(answer)) =>
          v.head.Some? && v.queue != [] ==> Respects(means, v.head.value.batch.value, v.queue[0].1, answer)
        case _ => true)
  }

  /** The value to be written holds what its items hold. */
  ghost predicate HoldsItems<T, U>(b: Batch<T>, means: T -> seq<U>) { means(b.value) == Contents(b.parts, means) }

  ghost predicate AllHold<T, U>(w: Writer<T>, means: T -> seq<U>) {
    && (w.head.Some? ==> HoldsItems(w.head.value.batch, means))
    && (w.carry.Some? ==> HoldsItems(w.carry.value.batch, means))
    && Written(w.saved, means) == Contents(Parts(w.saved), means)
  }

  lemma ContentsOfOne<T, U>(item: T, means: T -> seq<U>)
    ensures Contents([item], means) == means(item)
  {
    assert [item][..0] == [];
    assert Contents([item][..0], means) == [];
  }

  lemma {:induction false} ContentsAppend<T, U>(a: seq<T>, b: seq<T>, means: T -> seq<U>)
    ensures Contents(a + b, means) == Contents(a, means) + Contents(b, means)
  {
    if b == [] {
      assert a + b == a;
    } else {
      assert (a + b)[..|a + b| - 1] == a + b[..|b| - 1];
      ContentsAppend(a, b[..|b| - 1], means);
    }
  }

  lemma CoalesceHolds<T, U>(w: Writer<T>, answer: Merge<T>, means: T -> seq<U>)
    requires AllHold(w, means) && CoalesceOne(w, answer).Some?
    requires Respects(means, w.head.value.batch.value, w.queue[0].1, answer)
    ensures AllHold(CoalesceOne(w, answer).value, means)
  {
    ContentsOfOne(w.queue[0].1, means);
    ContentsAppend(w.head.value.batch.parts, [w.queue[0].1], means);
  }

  lemma WrittenAppend<T, U>(saved: seq<Batch<T>>, b: Batch<T>, means: T -> seq<U>)
    requires HoldsItems(b, means) && Written(saved, means) == Contents(Parts(saved), means)
    ensures Written(saved + [b], means) == Contents(Parts(saved + [b]), means)
  {
    assert (saved + [b])[..|saved|] == saved;
    PartsAppend(saved, b);
    ContentsAppend(Parts(saved), b.parts, means);
  }

  lemma SavedHolds<T, U>(w: Writer<T>, stored: T, means: T -> seq<U>)
    requires AllHold(w, means) && Step(w, Saved(stored)).Some?
    ensures AllHold(Step(w, Saved(stored)).value, means)
  {
    WrittenAppend(w.saved, w.head.value.batch, means);
  }

  lemma {:induction false} RunHolds<T, U>(w: Writer<T>, es: seq<Event<T>>, means: T -> seq<U>)
    requires AllHold(w, means) && Run(w, es).Some? && MergesTruly(w, es, means)
    ensures AllHold(Run(w, es).value, means)
  {
    if es != [] {
      var v := Run(w, es[..|es| - 1]).value;
      RunHolds(w, es[..|es| - 1], means);
      match es[|es| - 1]
      case Take => if v.carry.None? { ContentsOfOne(v.queue[0].1, means); }
      case Coalesce(answer) => CoalesceHolds(v, answer, means);
      case Saved(stored) => SavedHolds(v, stored, means);
      case _ =>
    }
  }

  /**
   Over every run whose merges keep what they are given, the values written hold, one after
   another, exactly what the accepted items up to the last saved one hold: nothing folded is
   lost, repeated or reordered.
   */
  lemma WrittenIsAccepted<T, U>(initial: T, es: seq<Event<T>>, means: T -> seq<U>)
    requires Run(Open(initial), es).Some? && MergesTruly(Open(initial), es, means)
    ensures var w := Run(Open(initial), es).value;
            w.progress <= |w.accepted| && Written(w.saved, means) == Contents(w.accepted[..w.progress], means)
  {
    UnsavedIsContiguous(initial, es);
    RunHolds(Open(initial), es, means);
  }

  // ---- The writer object ----

  class Ordered<T> {
    ghost var accepted: seq<T>
    ghost var saved: seq<Batch<T>>
    ghost var parts: seq<T>
    ghost var carried: seq<T>
    var sequence: nat
    var queue: seq<(nat, T)>
    var carry: Option<(nat, T)>
    var next: Option<(nat, T)>
    var completed: nat
    var durable: T
    var failing: bool
    var closed: bool

    ghost function View(): Writer<T>
      reads this
    {
      Writer(accepted, queue,
             match carry case Some(h) => Some(Head(h.0, Batch(carried, h.1))) case None => None,
             match next case Some(h) => Some(Head(h.0, Batch(parts, h.1))) case None => None,
             saved, completed, durable, failing, closed)
    }

    ghost predicate Counted()
      reads this
    {
      sequence == |accepted|
    }

    constructor (initial: T)
      ensures View() == Open(initial) && Counted()
    {
      accepted, saved, parts, carried, sequence, queue, carry, next := [], [], [], [], 0, [], None, None;
      completed, durable, failing, closed := 0, initial, false, false;
    }

    method Enqueue(item: T) returns (ok: bool)
      requires Counted()
      modifies this
      ensures Counted()
      ensures match Step(old(View()), Event.Enqueue(item))
              case Some(w) => ok && View() == w
              case None => !ok && View() == old(View())
    {
      var number := sequence + 1;
      if closed || |queue| >= CAPACITY { return false; }
      queue := queue + [(number, item)];
      sequence := number;
      accepted := accepted + [item];
      ok := true;
    }

    /** The head of the worker loop: the carried item, or the next one received. */
    method Receive() returns (ok: bool)
      modifies this`queue, this`carry, this`next, this`parts
      ensures match Step(old(View()), Take)
              case Some(w) => ok && View() == w
              case None => !ok && View() == old(View())
    {
      if closed || next.Some? { return false; }
      if carry.Some? {
        next, carry, parts := carry, None, carried;
      } else if queue != [] {
        next, queue := Some(queue[0]), queue[1..];
        parts := [next.value.1];
      } else {
        return false;
      }
      ok := true;
    }

    /** The `while let Ok(..) = rx.try_recv()` loop: fold until the queue is empty or an item is handed back. */
    method CoalesceQueued(merge: (T, T) -> Merge<T>)
      requires next.Some? && carry.None? && !closed
      modifies this`queue, this`carry, this`next, this`parts, this`carried
      ensures View() == CoalesceAll(old(View()), merge)
      ensures queue == [] || carry.Some?
    {
      while queue != [] && carry.None?
        invariant next.Some? && !closed
        invariant CoalesceAll(View(), merge) == CoalesceAll(old(View()), merge)
        decreases |queue|
      {
        MergeOne(merge);
      }
    }

    /** One item received while coalescing. */
    method MergeOne(merge: (T, T) -> Merge<T>)
      requires next.Some? && carry.None? && !closed && queue != []
      modifies this`queue, this`carry, this`next, this`parts, this`carried
      ensures CoalesceOne(old(View()), merge(old(next).value.1, old(queue)[0].1)) == Some(View())
      ensures next.Some? && |queue| < |old(queue)|
    {
      var (number, item) := queue[0];
      queue := queue[1..];
      match merge(next.value.1, item) {
        case Folded(folded) =>
          next, parts := Some((number, folded)), parts + [item];
        case HandedBack(kept, back) =>
          next := Some((next.value.0, kept));
          carry, carried := Some((number, back)), [item];
      }
    }

    /** One attempt at the write ended; a fence stops the worker, any other error retries. */
    method Attempted(result: Event<T>)
      requires (result.Saved? || result.Failed? || result.Fenced?) && next.Some? && !closed
      modifies this
      ensures Step(old(View()), result) == Some(View()) && sequence == old(sequence) && accepted == old(accepted)
    {
      match result {
        case Saved(stored) =>
          saved := saved + [Batch(parts, next.value.1)];
          completed, durable, failing := next.value.0, stored, false;
          next := None;
        case Failed =>
          failing := true;
        case Fenced =>
          failing, closed := true, true;
      }
    }
  }
}
