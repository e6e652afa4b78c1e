/**
 The event bus: publishers fill a bounded queue, workers take events from it, record them and
 dispatch their hooks, and Close waits for the workers.  Every step is atomic and steps interleave freely.
 */
module EventBus {
  import opened Wrappers
  import Text

  const CAPACITY := 1000

  datatype Event = Event(kind: string, resourceType: string, action: string, resourceId: Option<string>)

  /** An accepted event with its position in the order of acceptance. */
  datatype Item = Item(index: nat, event: Event)

  datatype Worker = Listening | Holding(item: Item) | Recorded(item: Item) | Exited

  datatype Entry =
    | Dropped(event: Event, queued: nat)
    | Took(index: nat)
    | RecordTried(index: nat)
    | Hooked(index: nat)

  datatype Bus = Bus(
    subscribers: seq<string>,
    handlers: nat,
    queue: seq<Item>,
    workers: seq<Worker>,
    stopped: bool,
    closed: bool,
    accepted: seq<Event>,
    log: seq<Entry>)

  datatype Step =
    | Subscribe(pattern: string)
    | Publish(event: Event)
    | HandlerDone
    | Take(worker: nat)
    | Record(worker: nat)
    | Dispatch(worker: nat)
    | Exit(worker: nat)
    | CloseCall
    | CloseReturn

  const INITIAL := Bus([], 0, [], [Listening, Listening, Listening, Listening], false, false, [], [])

  /* ---------- Patterns ---------- */

  predicate HasPrefix(s: string, prefix: string)
  {
    |prefix| <= |s| && s[..|prefix|] == prefix
  }

  predicate MatchesTrimmed(pattern: string, name: string)
  {
    || pattern == "*" || pattern == name
    || (|pattern| >= 2 && pattern[|pattern| - 2..] == ".*"
        && (HasPrefix(name, pattern[..|pattern| - 2] + ".") || name == pattern[..|pattern| - 2]))
  }

  /** The dot-separated segments of `prefix` are the first segments of `name`. */
  predicate SegmentsStart(name: string, prefix: string)
  {
    var all, first := Text.Split(name, '.'), Text.Split(prefix, '.');
    |first| <= |all| && all[..|first|] == first
  }

  lemma PrefixStartsSegments(prefix: string, rest: string)
    ensures SegmentsStart(prefix + ['.'] + rest, prefix)
  {
    Text.SplitConcat(prefix, '.', rest);
  }

  lemma SegmentsStartPrefix(name: string, prefix: string)
    requires SegmentsStart(name, prefix)
    ensures name == prefix || HasPrefix(name, prefix + ".")
  {
    var all, first := Text.Split(name, '.'), Text.Split(prefix, '.');
    Text.JoinSplit(name, '.');
    Text.JoinSplit(prefix, '.');
    var tail := all[|first|..];
    assert all == first + tail;
    if tail != [] {
      Text.JoinConcat(first, tail, '.');
      assert name == prefix + ['.'] + Text.Join(tail, '.');
    } else {
      assert all == first;
    }
  }

  /** A pattern that ends in a wildcard matches by whole segments, the prefix itself included. */
  lemma WildcardMatchesSegments(prefix: string, name: string)
    ensures MatchesTrimmed(prefix + ".*", name) <==> SegmentsStart(name, prefix)
  {
    var pattern := prefix + ".*";
    assert pattern[|pattern| - 2..] == ".*" && pattern[..|pattern| - 2] == prefix;
    if pattern == name {
      assert name[..|prefix| + 1] == prefix + ".";
    }
    if HasPrefix(name, prefix + ".") {
      assert name == prefix + ['.'] + name[|prefix| + 1..];
      PrefixStartsSegments(prefix, name[|prefix| + 1..]);
    }
    if SegmentsStart(name, prefix) {
      SegmentsStartPrefix(name, prefix);
    }
  }

  predicate Matches(pattern: string, name: string)
  {
    MatchesTrimmed(Text.TrimSpace(pattern), Text.TrimSpace(name))
  }

  /** The bare wildcard matches every event, and a pattern without wildcard its own name alone. */
  lemma OtherPatternsMatch(pattern: string, name: string)
    ensures Matches("*", name)
    ensures var trimmed := Text.TrimSpace(pattern);
      trimmed != "*" && (|trimmed| < 2 || trimmed[|trimmed| - 2..] != ".*") ==>
        (Matches(pattern, name) <==> trimmed == Text.TrimSpace(name))
  {
    Text.TrimOfWord("*");
  }

  function MatchCount(subscribers: seq<string>, kind: string): (n: nat)
  {
    if subscribers == [] then 0
    else MatchCount(subscribers[1..], kind) + if Matches(subscribers[0], kind) then 1 else 0
  }

  lemma {:induction false} MatchCountLast(subscribers: seq<string>, kind: string)
    requires subscribers != []
    ensures var n := |subscribers| - 1;
      MatchCount(subscribers, kind) == MatchCount(subscribers[..n], kind) + if Matches(subscribers[n], kind) then 1 else 0
  {
    var n := |subscribers| - 1;
    if n > 0 {
      MatchCountLast(subscribers[1..], kind);
      assert subscribers[1..][..n - 1] == subscribers[..n][1..];
    }
  }

  function MatchingPositions(subscribers: seq<string>, kind: string): (positions: set<int>)
  {
    set i | 0 <= i < |subscribers| && Matches(subscribers[i], kind)
  }

  lemma PositionsLast(subscribers: seq<string>, kind: string)
    requires subscribers != []
    ensures var n := |subscribers| - 1;
      var earlier := MatchingPositions(subscribers[..n], kind);
      n !in earlier && MatchingPositions(subscribers, kind) == earlier + if Matches(subscribers[n], kind) then {n} else {}
  {
    var n := |subscribers| - 1;
    assert forall i :: 0 <= i < n ==> subscribers[..n][i] == subscribers[i];
  }

  /** One handler is started for each matching subscription. */
  lemma {:induction false} MatchCountIs(subscribers: seq<string>, kind: string)
    ensures MatchCount(subscribers, kind) == |MatchingPositions(subscribers, kind)|
  {
    if subscribers == [] {
      assert MatchingPositions(subscribers, kind) == {};
    } else {
      MatchCountIs(subscribers[..|subscribers| - 1], kind);
      MatchCountLast(subscribers, kind);
      PositionsLast(subscribers, kind);
    }
  }

  /* ---------- Steps ---------- */

  predicate IsComplete(event: Event)
  {
    event.kind != "" && event.resourceType != "" && event.action != "" && event.resourceId.Some? && event.resourceId.value != ""
  }

  predicate AllExited(workers: seq<Worker>)
  {
    forall worker | worker in workers :: worker.Exited?
  }

  predicate Enabled(b: Bus, step: Step)
  {
    match step
    case Subscribe(_) => true
    case Publish(event) => IsComplete(event)
    case HandlerDone => b.handlers > 0
    case Take(w) => w < |b.workers| && b.workers[w].Listening? && b.queue != []
    case Record(w) => w < |b.workers| && b.workers[w].Holding?
    case Dispatch(w) => w < |b.workers| && b.workers[w].Recorded?
    case Exit(w) => w < |b.workers| && b.workers[w].Listening? && b.stopped
    case CloseCall => !b.stopped
    case CloseReturn => b.stopped && b.handlers == 0 && AllExited(b.workers)
  }

  function Published(b: Bus, event: Event): (b': Bus)
  {
    var notified := b.(handlers := b.handlers + MatchCount(b.subscribers, event.kind));
    if |b.queue| < CAPACITY then
      notified.(queue := b.queue + [Item(|b.accepted|, event)], accepted := b.accepted + [event])
    else
      notified.(log := b.log + [Dropped(event, |b.queue|)])
  }

  /** A worker may take an event even after the stop signal: the choice between the two is free. */
  function Taken(b: Bus, step: Step): (b': Bus)
    requires Enabled(b, step)
  {
    match step
    case Subscribe(pattern) => b.(subscribers := b.subscribers + [pattern])
    case Publish(event) => Published(b, event)
    case HandlerDone => b.(handlers := b.handlers - 1)
    case Take(w) =>
      b.(queue := b.queue[1..], workers := b.workers[w := Holding(b.queue[0])], log := b.log + [Took(b.queue[0].index)])
    case Record(w) =>
      b.(workers := b.workers[w := Recorded(b.workers[w].item)], log := b.log + [RecordTried(b.workers[w].item.index)])
    case Dispatch(w) =>
      b.(workers := b.workers[w := Listening], log := b.log + [Hooked(b.workers[w].item.index)])
    case Exit(w) => b.(workers := b.workers[w := Exited])
    case CloseCall => b.(stopped := true)
    case CloseReturn => b.(closed := true)
  }

  /** A step that is not enabled does nothing. */
  function Next(b: Bus, step: Step): (b': Bus)
  {
    if Enabled(b, step) then Taken(b, step) else b
  }

  function After(run: seq<Step>): (b: Bus)
  {
    if run == [] then INITIAL else Next(After(run[..|run| - 1]), run[|run| - 1])
  }

  /* ---------- Where an accepted event is ---------- */

  function TakenCount(b: Bus): (n: int)
  {
    |b.accepted| - |b.queue|
  }

  predicate InHands(b: Bus, w: int, i: int)
  {
    0 <= w < |b.workers| && (b.workers[w].Holding? || b.workers[w].Recorded?) && b.workers[w].item.index == i
  }

  /** The queue is what was accepted last, in order. */
  predicate QueueIsSuffix(b: Bus)
  {
    && |b.queue| <= CAPACITY && |b.queue| <= |b.accepted|
    && (forall j | 0 <= j < |b.queue| ::
          b.queue[j].index == TakenCount(b) + j && b.queue[j].event == b.accepted[TakenCount(b) + j])
  }

  ghost predicate HandsFit(b: Bus)
  {
    && (forall w, i | InHands(b, w, i) ::
          0 <= i < TakenCount(b) <= |b.accepted| && b.workers[w].item.event == b.accepted[i] && Hooked(i) !in b.log)
    && (forall v, w, i | InHands(b, v, i) && InHands(b, w, i) :: v == w)
    && (forall w | 0 <= w < |b.workers| && b.workers[w].Recorded? :: RecordTried(b.workers[w].item.index) in b.log)
  }

  /** Every event taken is in a worker's hands or has had its hooks dispatched. */
  ghost predicate NoneLost(b: Bus)
  {
    && (forall i: nat | i < TakenCount(b) :: Hooked(i) in b.log || exists w :: InHands(b, w, i))
    && (forall i: nat | Hooked(i) in b.log :: i < TakenCount(b))
  }

  ghost predicate EntriesBelow(log: seq<Entry>, n: int)
  {
    forall p | 0 <= p < |log| && log[p].Took? :: log[p].index < n
  }

  ghost predicate TakenInOrder(log: seq<Entry>)
  {
    forall p, q | 0 <= p < q < |log| && log[p].Took? && log[q].Took? :: log[p].index < log[q].index
  }

  ghost predicate HookedOnce(log: seq<Entry>)
  {
    forall p, q | 0 <= p < q < |log| && log[p].Hooked? && log[q].Hooked? :: log[p].index != log[q].index
  }

  ghost predicate RecordedFirst(log: seq<Entry>)
  {
    forall q | 0 <= q < |log| && log[q].Hooked? :: RecordTried(log[q].index) in log[..q]
  }

  ghost predicate DroppedWhenFull(log: seq<Entry>)
  {
    forall entry | entry in log && entry.Dropped? :: entry.queued == CAPACITY
  }

  ghost predicate LogFits(log: seq<Entry>)
  {
    TakenInOrder(log) && HookedOnce(log) && RecordedFirst(log) && DroppedWhenFull(log)
  }

  ghost predicate Inv(b: Bus)
  {
    && QueueIsSuffix(b) && HandsFit(b) && NoneLost(b) && EntriesBelow(b.log, TakenCount(b)) && LogFits(b.log)
    && (b.closed ==> AllExited(b.workers))
  }

  /* ---------- Preservation ---------- */

  lemma AppendKeepsLog(log: seq<Entry>, entry: Entry)
    requires LogFits(log)
    requires entry.Dropped? ==> entry.queued == CAPACITY
    requires entry.Took? ==> EntriesBelow(log, entry.index)
    requires entry.Hooked? ==> Hooked(entry.index) !in log && RecordTried(entry.index) in log
    ensures LogFits(log + [entry])
  {
    var longer := log + [entry];
    forall q | 0 <= q < |longer| && longer[q].Hooked?
      ensures RecordTried(longer[q].index) in longer[..q]
    {
      if q < |log| {
        assert longer[..q] == log[..q];
      } else {
        assert longer[..q] == log;
      }
    }
  }

  /** Steps that move no worker and dispatch no hooks keep what is known of hands. */
  lemma SameHands(b: Bus, next: Bus)
    requires HandsFit(b) && NoneLost(b) && next.workers == b.workers
    requires b.accepted <= next.accepted && TakenCount(next) == TakenCount(b) <= |b.accepted|
    requires next.log == b.log || exists entry: Entry :: !entry.Hooked? && next.log == b.log + [entry]
    ensures HandsFit(next) && NoneLost(next)
  {
    forall w, i
      ensures InHands(next, w, i) <==> InHands(b, w, i)
    {
    }
    forall i: nat | i < TakenCount(next)
      ensures Hooked(i) in next.log || exists w :: InHands(next, w, i)
    {
      if Hooked(i) !in b.log {
        var w :| InHands(b, w, i);
        assert InHands(next, w, i);
      }
    }
  }

  lemma PublishKeepsInv(b: Bus, event: Event)
    requires Inv(b)
    ensures Inv(Published(b, event))
  {
    var next := Published(b, event);
    if |b.queue| == CAPACITY {
      var entry := Dropped(event, |b.queue|);
      AppendKeepsLog(b.log, entry);
      assert !entry.Hooked? && next.log == b.log + [entry];
    }
    SameHands(b, next);
  }

  /** Every worker but `w` is where it was, and what `w` had is now in the log. */
  lemma MovedKeepsNoneLost(b: Bus, next: Bus, w: nat)
    requires NoneLost(b) && w < |b.workers| == |next.workers| && b.log <= next.log
    requires forall v | 0 <= v < |b.workers| && v != w :: next.workers[v] == b.workers[v]
    requires forall i: nat | i < TakenCount(next) && (i >= TakenCount(b) || InHands(b, w, i)) :: InHands(next, w, i) || Hooked(i) in next.log
    requires forall i: nat | Hooked(i) in next.log :: i < TakenCount(next)
    ensures NoneLost(next)
  {
    forall i: nat | i < TakenCount(next)
      ensures Hooked(i) in next.log || exists v :: InHands(next, v, i)
    {
      if i >= TakenCount(b) || InHands(b, w, i) {
        assert InHands(next, w, i) || Hooked(i) in next.log;
      } else if Hooked(i) !in b.log {
        var v :| InHands(b, v, i);
        assert InHands(next, v, i);
      }
    }
  }

  lemma TakeKeepsHands(b: Bus, w: nat)
    requires Inv(b) && Enabled(b, Take(w))
    ensures HandsFit(Taken(b, Take(w)))
  {
    var next, item := Taken(b, Take(w)), b.queue[0];
    assert item.index == TakenCount(b) && item.event == b.accepted[item.index];
    forall v, i
      ensures InHands(next, v, i) <==> if v == w then i == item.index else InHands(b, v, i)
    {
    }
    assert forall entry | entry in next.log :: entry in b.log || entry == Took(item.index);
  }

  lemma TakeKeepsQueue(b: Bus, w: nat)
    requires Inv(b) && Enabled(b, Take(w))
    ensures var next := Taken(b, Take(w));
      QueueIsSuffix(next) && LogFits(next.log) && EntriesBelow(next.log, TakenCount(next))
  {
    AppendKeepsLog(b.log, Took(b.queue[0].index));
  }

  lemma TakeKeepsInv(b: Bus, w: nat)
    requires Inv(b) && Enabled(b, Take(w))
    ensures Inv(Taken(b, Take(w)))
  {
    var next, item := Taken(b, Take(w)), b.queue[0];
    assert b.workers[w] in b.workers && TakenCount(next) == TakenCount(b) + 1;
    TakeKeepsQueue(b, w);
    TakeKeepsHands(b, w);
    MovedKeepsNoneLost(b, next, w);
  }

  lemma RecordKeepsHands(b: Bus, w: nat)
    requires Inv(b) && Enabled(b, Record(w))
    ensures HandsFit(Taken(b, Record(w))) && NoneLost(Taken(b, Record(w)))
  {
    var next, index := Taken(b, Record(w)), b.workers[w].item.index;
    assert next.log[|b.log|] == RecordTried(index);
    forall v, i
      ensures InHands(next, v, i) <==> InHands(b, v, i)
    {
    }
    MovedKeepsNoneLost(b, next, w);
  }

  lemma RecordKeepsInv(b: Bus, w: nat)
    requires Inv(b) && Enabled(b, Record(w))
    ensures Inv(Taken(b, Record(w)))
  {
    BusyIsOpen(b, w);
    AppendKeepsLog(b.log, RecordTried(b.workers[w].item.index));
    RecordKeepsHands(b, w);
  }

  lemma DispatchKeepsHands(b: Bus, w: nat)
    requires Inv(b) && Enabled(b, Dispatch(w))
    ensures HandsFit(Taken(b, Dispatch(w)))
  {
    var next, index := Taken(b, Dispatch(w)), b.workers[w].item.index;
    assert InHands(b, w, index);
    forall v, i
      ensures InHands(next, v, i) <==> v != w && InHands(b, v, i)
    {
    }
    assert forall entry | entry in next.log :: entry in b.log || entry == Hooked(index);
  }

  lemma DispatchKeepsLog(b: Bus, w: nat)
    requires Inv(b) && Enabled(b, Dispatch(w))
    ensures var next := Taken(b, Dispatch(w));
      QueueIsSuffix(next) && LogFits(next.log) && EntriesBelow(next.log, TakenCount(next))
  {
    assert InHands(b, w, b.workers[w].item.index);
    AppendKeepsLog(b.log, Hooked(b.workers[w].item.index));
  }

  lemma DispatchKeepsNoneLost(b: Bus, w: nat)
    requires Inv(b) && Enabled(b, Dispatch(w))
    ensures NoneLost(Taken(b, Dispatch(w)))
  {
    var next, index := Taken(b, Dispatch(w)), b.workers[w].item.index;
    assert InHands(b, w, index) && next.log[|b.log|] == Hooked(index);
    MovedKeepsNoneLost(b, next, w);
  }

  lemma BusyIsOpen(b: Bus, w: nat)
    requires Inv(b) && w < |b.workers| && !b.workers[w].Exited?
    ensures !b.closed
  {
    assert b.workers[w] in b.workers;
  }

  lemma DispatchKeepsInv(b: Bus, w: nat)
    requires Inv(b) && Enabled(b, Dispatch(w))
    ensures Inv(Taken(b, Dispatch(w)))
  {
    BusyIsOpen(b, w);
    DispatchKeepsLog(b, w);
    DispatchKeepsHands(b, w);
    DispatchKeepsNoneLost(b, w);
  }

  lemma ExitKeepsInv(b: Bus, w: nat)
    requires Inv(b) && Enabled(b, Exit(w))
    ensures Inv(Taken(b, Exit(w)))
  {
    var next := Taken(b, Exit(w));
    assert b.workers[w] in b.workers;
    forall v, i
      ensures InHands(next, v, i) <==> InHands(b, v, i)
    {
    }
    MovedKeepsNoneLost(b, next, w);
  }

  lemma StepKeepsInv(b: Bus, step: Step)
    requires Inv(b)
    ensures Inv(Next(b, step))
  {
    if Enabled(b, step) {
      match step
      case Publish(event) => PublishKeepsInv(b, event);
      case Take(w) => TakeKeepsInv(b, w);
      case Record(w) => RecordKeepsInv(b, w);
      case Dispatch(w) => DispatchKeepsInv(b, w);
      case Exit(w) => ExitKeepsInv(b, w);
      case _ => SameHands(b, Taken(b, step));
    }
  }

  lemma {:induction false} RunKeepsInv(run: seq<Step>)
    ensures Inv(After(run))
  {
    if run != [] {
      RunKeepsInv(run[..|run| - 1]);
      StepKeepsInv(After(run[..|run| - 1]), run[|run| - 1]);
    }
  }

  /* ---------- Main results ---------- */

  predicate InQueue(b: Bus, j: int, i: int)
  {
    0 <= j < |b.queue| && b.queue[j].index == i
  }

  /**
   Over every interleaving each accepted event is in exactly one place: one slot of the queue, one
   worker's hands, or dispatched, and dispatched once.
   */
  lemma EventsAreConserved(run: seq<Step>, i: nat)
    requires i < |After(run).accepted|
    ensures var b := After(run);
      && ((exists j :: InQueue(b, j, i)) || (exists w :: InHands(b, w, i)) || Hooked(i) in b.log)
      && (forall j, k | InQueue(b, j, i) && InQueue(b, k, i) :: j == k)
      && (forall v, w | InHands(b, v, i) && InHands(b, w, i) :: v == w)
      && HookedOnce(b.log)
      && !((exists j :: InQueue(b, j, i)) && (exists w :: InHands(b, w, i)))
      && !((exists j :: InQueue(b, j, i)) && Hooked(i) in b.log)
      && !((exists w :: InHands(b, w, i)) && Hooked(i) in b.log)
  {
    RunKeepsInv(run);
    var b := After(run);
    if i >= TakenCount(b) {
      assert InQueue(b, i - TakenCount(b), i);
    }
  }

  /**
   Events leave the queue in the order of acceptance, the queue stays within its capacity, events
   are dropped only when it is full, and hooks are dispatched only after recording was attempted.
   */
  lemma QueueIsFair(run: seq<Step>)
    ensures var b := After(run);
      && TakenInOrder(b.log) && RecordedFirst(b.log) && DroppedWhenFull(b.log)
      && |b.queue| <= CAPACITY && QueueIsSuffix(b)
  {
    RunKeepsInv(run);
  }

  function PublishedIn(run: seq<Step>): (n: nat)
  {
    if run == [] then 0
    else
      var last := run[|run| - 1];
      PublishedIn(run[..|run| - 1]) + if last.Publish? && IsComplete(last.event) then 1 else 0
  }

  function DroppedIn(log: seq<Entry>): (n: nat)
  {
    if log == [] then 0 else DroppedIn(log[..|log| - 1]) + if log[|log| - 1].Dropped? then 1 else 0
  }

  lemma DroppedAppend(log: seq<Entry>, entry: Entry)
    ensures DroppedIn(log + [entry]) == DroppedIn(log) + if entry.Dropped? then 1 else 0
  {
    assert (log + [entry])[..|log|] == log;
  }

  lemma StepCounts(b: Bus, step: Step)
    ensures var next, counted := Next(b, step), step.Publish? && IsComplete(step.event);
      |next.accepted| + DroppedIn(next.log) == |b.accepted| + DroppedIn(b.log) + if counted then 1 else 0
  {
    if Enabled(b, step) {
      match step
      case Publish(event) => DroppedAppend(b.log, Dropped(event, |b.queue|));
      case Take(w) => DroppedAppend(b.log, Took(b.queue[0].index));
      case Record(w) => DroppedAppend(b.log, RecordTried(b.workers[w].item.index));
      case Dispatch(w) => DroppedAppend(b.log, Hooked(b.workers[w].item.index));
      case _ =>
    }
  }

  /** Every complete event published, before or after Close, was either accepted or dropped. */
  lemma {:induction false} NothingVanishes(run: seq<Step>)
    ensures PublishedIn(run) == |After(run).accepted| + DroppedIn(After(run).log)
  {
    if run != [] {
      NothingVanishes(run[..|run| - 1]);
      StepCounts(After(run[..|run| - 1]), run[|run| - 1]);
    }
  }

  lemma ClosedStep(b: Bus, step: Step)
    requires Inv(b) && b.closed
    ensures Next(b, step).closed && b.log <= Next(b, step).log
    ensures forall p | |b.log| <= p < |Next(b, step).log| :: Next(b, step).log[p].Dropped?
  {
    forall w | 0 <= w < |b.workers|
      ensures b.workers[w].Exited?
    {
      assert b.workers[w] in b.workers;
    }
  }

  /** After Close has returned no worker takes, records or dispatches anything, whatever is published. */
  lemma {:induction false} NothingAfterClose(run: seq<Step>, i: nat)
    requires i <= |run| && After(run[..i]).closed
    ensures After(run).closed && After(run[..i]).log <= After(run).log
    ensures forall p | |After(run[..i]).log| <= p < |After(run).log| :: After(run).log[p].Dropped?
    decreases |run|
  {
    if i == |run| {
      assert run[..i] == run;
    } else {
      var rest := run[..|run| - 1];
      assert rest[..i] == run[..i];
      NothingAfterClose(rest, i);
      RunKeepsInv(rest);
      ClosedStep(After(rest), run[|run| - 1]);
    }
  }

  /** Only events with a type, a resource type, an action and a resource id are ever accepted. */
  lemma {:induction false} AcceptedAreComplete(run: seq<Step>, event: Event)
    requires event in After(run).accepted
    ensures event.kind != "" && event.resourceType != "" && event.action != "" && event.resourceId !in [None, Some("")]
  {
    var last := run[|run| - 1];
    var before := After(run[..|run| - 1]);
    if event in before.accepted {
      AcceptedAreComplete(run[..|run| - 1], event);
    } else {
      assert last == Publish(event);
    }
  }

  lemma StepStaysUntilStop(b: Bus, step: Step)
    requires (!b.stopped ==> forall w | 0 <= w < |b.workers| :: !b.workers[w].Exited?) && (b.closed ==> b.stopped && AllExited(b.workers))
    ensures var next := Next(b, step);
      (!next.stopped ==> forall w | 0 <= w < |next.workers| :: !next.workers[w].Exited?) && (next.closed ==> next.stopped && AllExited(next.workers))
  {
    if b.closed && (step.Take? || step.Record? || step.Dispatch? || step.Exit?) && step.worker < |b.workers| {
      assert b.workers[step.worker] in b.workers;
    }
  }

  /** No worker leaves before Close is called, and Close returns only once all of them have left. */
  lemma {:induction false} WorkersStayUntilStop(run: seq<Step>)
    ensures var b := After(run);
      (!b.stopped ==> forall w | 0 <= w < |b.workers| :: !b.workers[w].Exited?) && (b.closed ==> b.stopped && AllExited(b.workers))
  {
    if run != [] {
      WorkersStayUntilStop(run[..|run| - 1]);
      StepStaysUntilStop(After(run[..|run| - 1]), run[|run| - 1]);
    }
  }
}
