/**
 * Late confirmation keeps its own entry locked for writing while it counts the open positions of the mint.  The map
 * is divided into shards, each behind a lock of its own that is not reentrant, and counting reads one shard after another.
 */
module FallbackLock {
  import opened Common
  import opened Positions

  /** The monitor at one entry: about to lock it, counting with the entry locked, or through with it. */
  datatype Monitor = Waiting | Counting(shard: nat) | Through

  /** `entry` is in shard `own` of `shards`; `writer` says which other task has a shard locked for writing, `readers` who reads it. */
  datatype World = World(
    shards: nat,
    own: nat,
    balance: nat,
    entry: Option<PositionData>,
    monitor: Monitor,
    writers: map<nat, nat>,
    readers: set<(nat, nat)>)

  datatype Event =
    | Look
    | CountNext(share: nat, curvePrice: Option<real>, at: nat)
    | LockWrite(who: nat, shard: nat)
    | FreeWrite(who: nat, shard: nat)
    | LockRead(who: nat, shard: nat)
    | FreeRead(who: nat, shard: nat)
    | Put(who: nat, entry: Option<PositionData>)

  /** The balance grew, so that the entry is to be filled. */
  predicate Fills(w: World)
  {
    w.entry.Some? && w.balance > w.entry.value.preBuyBalance
  }

  predicate LockedByMonitor(w: World, shard: nat)
  {
    w.monitor.Counting? && shard == w.own
  }

  predicate NotWritten(w: World, shard: nat)
  {
    shard !in w.writers && !LockedByMonitor(w, shard)
  }

  predicate NotRead(w: World, shard: nat)
  {
    forall r | r in w.readers :: r.1 != shard
  }

  predicate Enabled(w: World, e: Event)
  {
    match e
    case Look => w.monitor.Waiting? && NotWritten(w, w.own) && NotRead(w, w.own)
    case CountNext(_, _, _) => w.monitor.Counting? && (w.monitor.shard < w.shards ==> NotWritten(w, w.monitor.shard))
    case LockWrite(_, shard) => NotWritten(w, shard) && NotRead(w, shard)
    case FreeWrite(who, shard) => shard in w.writers && w.writers[shard] == who
    case LockRead(_, shard) => NotWritten(w, shard)
    case FreeRead(who, shard) => (who, shard) in w.readers
    case Put(who, _) => w.own in w.writers && w.writers[w.own] == who
  }

  function Applied(entry: Option<PositionData>, op: Operation): Option<PositionData>
  {
    if entry.Some? then Some(Apply(entry.value, op)) else None
  }

  /** One step; what is not enabled waits and changes nothing. */
  function Step(w: World, e: Event): World
  {
    if !Enabled(w, e) then w else
    match e
    case Look =>
      if Fills(w) then w.(monitor := Counting(0)) else w.(monitor := Through, entry := Applied(w.entry, Fail))
    case CountNext(share, curvePrice, at) =>
      if w.monitor.shard < w.shards then w.(monitor := Counting(w.monitor.shard + 1))
      else w.(monitor := Through, entry := Applied(w.entry, Activate(share, curvePrice, at)))
    case LockWrite(who, shard) => w.(writers := w.writers[shard := who])
    case FreeWrite(who, shard) => w.(writers := w.writers - {shard})
    case LockRead(who, shard) => w.(readers := w.readers + {(who, shard)})
    case FreeRead(who, shard) => w.(readers := w.readers - {(who, shard)})
    case Put(who, entry) => w.(entry := entry)
  }

  function Run(w: World, events: seq<Event>): World
    decreases |events|
  {
    if events == [] then w else Step(Run(w, events[..|events| - 1]), events[|events| - 1])
  }

  /** The monitor has its own shard locked and has not got past it. */
  predicate Stuck(w: World)
  {
    w.own < w.shards && w.own !in w.writers && NotRead(w, w.own) && w.monitor.Counting? && w.monitor.shard <= w.own
  }

  lemma StuckStays(w: World, e: Event)
    requires Stuck(w)
    ensures Stuck(Step(w, e)) && Step(w, e).entry == w.entry
  {
  }

  /** From then on nobody gets at the shard, nothing in it is changed, and the monitor never comes back. */
  lemma {:induction false} StuckForever(w: World, events: seq<Event>)
    requires Stuck(w)
    ensures Stuck(Run(w, events)) && Run(w, events).entry == w.entry
    ensures forall who :: !Enabled(Run(w, events), LockWrite(who, w.own)) && !Enabled(Run(w, events), LockRead(who, w.own))
    decreases |events|
  {
    if events != [] {
      StuckForever(w, events[..|events| - 1]);
      StuckStays(Run(w, events[..|events| - 1]), events[|events| - 1]);
    }
    OwnIsKept(w, events);
  }

  lemma {:induction false} OwnIsKept(w: World, events: seq<Event>)
    ensures Run(w, events).own == w.own && Run(w, events).shards == w.shards && Run(w, events).balance == w.balance
    ensures w.monitor.Through? ==> Run(w, events).monitor.Through?
    decreases |events|
  {
    if events != [] {
      OwnIsKept(w, events[..|events| - 1]);
    }
  }

  /** Late confirmation returns exactly if the entry is gone or the balance did not grow, whatever the other tasks do. */
  lemma ReturnsIff(w: World, events: seq<Event>)
    requires w.own < w.shards && Enabled(w, Look)
    ensures Run(Step(w, Look), events).monitor.Through? <==> w.entry.None? || w.balance <= w.entry.value.preBuyBalance
  {
    OwnIsKept(Step(w, Look), events);
    if Fills(w) {
      StuckForever(Step(w, Look), events);
    }
  }

  /** The monitor is stuck if it has begun to count at all. */
  predicate NotCounting(w: World)
  {
    !w.monitor.Counting? || Stuck(w)
  }

  /** So no run at all ends with an entry filled by the monitor: no count is ever finished. */
  lemma {:induction false} NoCountEnds(w: World, events: seq<Event>, share: nat, curvePrice: Option<real>, at: nat)
    requires w.own < w.shards && NotCounting(w)
    ensures NotCounting(Run(w, events)) && Run(w, events).own < Run(w, events).shards
    ensures Enabled(Run(w, events), CountNext(share, curvePrice, at)) ==> Run(w, events).monitor.shard < Run(w, events).shards
    decreases |events|
  {
    if events != [] {
      NoCountEnds(w, events[..|events| - 1], share, curvePrice, at);
    }
  }
}
