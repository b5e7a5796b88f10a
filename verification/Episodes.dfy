// Loss episodes: opened and extended by verdicts that assert loss, closed once
// and for all, and evicted oldest first.
module Episodes {
  import opened Bytes
  import opened Evidence
  import opened Observation

  datatype State = Open | ClosedByAbsence | ClosedByIdle | ClosedByRestart | ClosedExplicitly

  datatype Episode = Episode(
    id: U64, flow: U64, path: U64, generation: U64, state: State, peak: LossClass,
    started: I64, last: I64, closed: I64, lost: U64, offered: U64, saturated: bool, count: U64,
    ratioDefined: bool, peakBp: U32, lastBp: U32)

  // The part of a classification an episode takes in.
  datatype Verdict = Verdict(verdict: LossClass, lost: U64, offered: U64, saturated: bool, ratioDefined: bool,
                             ratioBp: U32, admissible: U64)

  type Key = (U64, U64)

  datatype Tracker = Tracker(episodes: map<U64, Episode>, open: map<Key, U64>, evicted: nat)

  function KeyOf(e: Episode): Key {
    (e.flow, e.generation)
  }

  predicate IsOpen(e: Episode) {
    e.state == Open
  }

  function Severity(k: LossClass): nat {
    match k
    case UnknownClass => 0
    case NoLossObserved => 1
    case AbsentEvidence => 2
    case IncompleteEvidence => 3
    case StaleEvidence => 4
    case DiscontinuityClass => 5
    case UnsupportedClass => 6
    case ImplausibleEvidence => 7
    case ConflictingEvidence => 8
    case SuspectedLoss => 9
    case ConfirmedLoss => 10
  }

  function WorseClass(a: LossClass, b: LossClass): LossClass {
    if Severity(a) >= Severity(b) then a else b
  }

  function SaturatingAdd(a: U64, b: U64): U64 {
    if MAX64 - a < b then MAX64 else a + b
  }

  function Started(id: U64, flow: U64, path: U64, generation: U64, v: Verdict, now: I64): Episode {
    Episode(id, flow, path, generation, Open, v.verdict, now, now, 0, v.lost, v.offered, v.saturated, v.admissible,
            v.ratioDefined, v.ratioBp, v.ratioBp)
  }

  function Extended(e: Episode, v: Verdict, now: I64): Episode {
    e.(last := if now > e.last then now else e.last,
       lost := SaturatingAdd(e.lost, v.lost), offered := SaturatingAdd(e.offered, v.offered),
       saturated := e.saturated || MAX64 - e.lost < v.lost || MAX64 - e.offered < v.offered,
       peak := WorseClass(e.peak, v.verdict), count := SaturatingAdd(e.count, v.admissible),
       peakBp := if v.ratioDefined && v.ratioBp > e.peakBp then v.ratioBp else e.peakBp,
       lastBp := v.ratioBp, ratioDefined := e.ratioDefined || v.ratioDefined)
  }

  // What an extension never loses: start, identity and binding stay, totals and
  // peaks never fall, and the episode stays open.
  lemma {:induction false} ExtensionGrows(e: Episode, v: Verdict, now: I64)
    ensures var f := Extended(e, v, now);
            && (f.id, f.flow, f.path, f.generation, f.state, f.started)
               == (e.id, e.flow, e.path, e.generation, e.state, e.started)
            && f.last >= e.last && f.lost >= e.lost && f.offered >= e.offered && f.count >= e.count
            && Severity(f.peak) >= Severity(e.peak) && Severity(f.peak) >= Severity(v.verdict) && f.peakBp >= e.peakBp
  {
  }

  // ---- what a run keeps --------------------------------------------------------------------

  // Every episode stands under its identity, and the index names open episodes
  // under their own key only.
  ghost predicate Sound(t: Tracker) {
    && (forall id <- t.episodes :: t.episodes[id].id == id)
    && (forall key <- t.open ::
          t.open[key] in t.episodes && IsOpen(t.episodes[t.open[key]]) && KeyOf(t.episodes[t.open[key]]) == key)
  }

  // The other way round: every open episode is the one its key names.
  ghost predicate EveryOpenIndexed(t: Tracker) {
    forall id <- t.episodes :: IsOpen(t.episodes[id]) ==>
      KeyOf(t.episodes[id]) in t.open && t.open[KeyOf(t.episodes[id])] == id
  }

  // Then a flow and generation have at most one open episode.
  lemma {:induction false} OneOpenEpisode(t: Tracker, a: U64, b: U64)
    requires EveryOpenIndexed(t) && a in t.episodes && b in t.episodes
    requires IsOpen(t.episodes[a]) && IsOpen(t.episodes[b]) && KeyOf(t.episodes[a]) == KeyOf(t.episodes[b])
    ensures a == b
  {
  }

  // From one moment of a run to a later one: a closed episode never changes, let
  // alone opens again, and only closed episodes disappear.
  ghost predicate Onward(before: Tracker, after: Tracker) {
    && before.evicted <= after.evicted
    && (forall id <- before.episodes :: !IsOpen(before.episodes[id]) ==>
          id !in after.episodes || after.episodes[id] == before.episodes[id])
    && (forall id <- before.episodes :: IsOpen(before.episodes[id]) && id !in after.episodes ==>
          after.evicted > before.evicted)
    && (after.evicted == before.evicted ==> forall id <- before.episodes :: id in after.episodes)
  }

  // ---- eviction --------------------------------------------------------------------------------

  predicate Older(a: Episode, b: Episode) {
    a.started < b.started || (a.started == b.started && a.id < b.id)
  }

  method FindOldest(episodes: map<U64, Episode>) returns (oldest: U64)
    requires episodes != map[] && forall id <- episodes :: episodes[id].id == id
    ensures oldest in episodes && forall id <- episodes :: !Older(episodes[id], episodes[oldest])
  {
    oldest :| oldest in episodes;
    var left := episodes.Keys - {oldest};
    while left != {}
      invariant left <= episodes.Keys && oldest in episodes
      invariant forall id <- episodes :: id in left || !Older(episodes[id], episodes[oldest])
      decreases left
    {
      var id :| id in left;
      left := left - {id};
      if Older(episodes[id], episodes[oldest]) {
        oldest := id;
      }
    }
  }

  // The closed episode with the lowest identity, if there is one.
  method FirstClosed(episodes: map<U64, Episode>) returns (found: Option<U64>)
    ensures found.None? ==> forall id <- episodes :: IsOpen(episodes[id])
    ensures found.Some? ==>
              && found.value in episodes && !IsOpen(episodes[found.value])
              && forall id <- episodes :: !IsOpen(episodes[id]) ==> found.value <= id
  {
    found := None;
    var left := episodes.Keys;
    while left != {}
      invariant left <= episodes.Keys
      invariant found.None? ==> forall id <- episodes :: id in left || IsOpen(episodes[id])
      invariant found.Some? ==> found.value in episodes && !IsOpen(episodes[found.value])
      invariant found.Some? ==> forall id <- episodes :: id in left || IsOpen(episodes[id]) || found.value <= id
      decreases left
    {
      var id :| id in left;
      left := left - {id};
      if !IsOpen(episodes[id]) && (found.None? || id < found.value) {
        found := Some(id);
      }
    }
  }

  // What is removed when one episode is evicted.
  function Without(t: Tracker, id: U64): Tracker
    requires id in t.episodes
  {
    Tracker(t.episodes - {id}, t.open - {KeyOf(t.episodes[id])}, t.evicted + 1)
  }

  lemma {:induction false} WithoutIsSound(t: Tracker, id: U64)
    requires Sound(t) && id in t.episodes && !IsOpen(t.episodes[id])
    ensures Sound(Without(t, id))
  {
  }

  // Only closed episodes went; the rest is as it was.
  ghost predicate OnlyClosedGone(before: Tracker, after: Tracker) {
    && before.evicted <= after.evicted
    && (forall id <- after.episodes :: id in before.episodes && after.episodes[id] == before.episodes[id])
    && (forall id <- before.episodes :: IsOpen(before.episodes[id]) ==> id in after.episodes)
    && (forall key <- after.open :: key in before.open && after.open[key] == before.open[key])
    && (after.evicted == before.evicted ==> after == before)
  }

  // The episode that goes next: the oldest one, or the closed one with the lowest
  // identity if the oldest is open.
  ghost predicate IsVictim(t: Tracker, id: U64) {
    && id in t.episodes && !IsOpen(t.episodes[id])
    && (IsOldest(t, id) || ((exists other :: IsOldest(t, other) && IsOpen(t.episodes[other])) && IsFirstClosed(t, id)))
  }

  ghost predicate IsOldest(t: Tracker, id: U64) {
    id in t.episodes && forall x <- t.episodes :: !Older(t.episodes[x], t.episodes[id])
  }

  ghost predicate IsFirstClosed(t: Tracker, id: U64) {
    id in t.episodes && !IsOpen(t.episodes[id]) && forall x <- t.episodes :: !IsOpen(t.episodes[x]) ==> id <= x
  }

  // There is never a choice.
  lemma {:induction false} OneVictim(t: Tracker, a: U64, b: U64)
    requires Sound(t) && IsVictim(t, a) && IsVictim(t, b)
    ensures a == b
  {
    if IsOldest(t, a) || IsOldest(t, b) {
      assert forall x, y :: IsOldest(t, x) && IsOldest(t, y) ==> x == y;
    }
  }

  method FindVictim(ghost t: Tracker, episodes: map<U64, Episode>) returns (victim: Option<U64>)
    requires Sound(t) && episodes == t.episodes && episodes != map[]
    ensures victim.None? ==> forall id <- episodes :: IsOpen(episodes[id])
    ensures victim.Some? ==> IsVictim(t, victim.value)
  {
    hide Sound, IsVictim;
    SoundNames(t);
    var oldest := FindOldest(episodes);
    victim := Some(oldest);
    if IsOpen(episodes[oldest]) {
      victim := FirstClosed(episodes);
    }
    if victim.Some? {
      FoundVictim(t, oldest, victim.value);
    }
  }

  // What is left when the bound holds or nothing closed is left.
  ghost function EvictAll(t: Tracker, max: nat): (u: Tracker)
    decreases |t.episodes|
  {
    if |t.episodes| <= max || forall id <- t.episodes :: IsOpen(t.episodes[id]) then t
    else if exists id :: IsVictim(t, id) then
      var id :| IsVictim(t, id);
      EvictAll(Without(t, id), max)
    else t
  }

  // Eviction takes closed episodes only, keeps the rest as it was, and ends within
  // the bound or with nothing closed left.
  lemma {:induction false} EvictionKeeps(t: Tracker, max: nat)
    requires Sound(t)
    ensures var u := EvictAll(t, max);
            && Sound(u) && OnlyClosedGone(t, u)
            && (|u.episodes| <= max || forall id <- u.episodes :: IsOpen(u.episodes[id]))
    decreases |t.episodes|
  {
    hide Sound, OnlyClosedGone, IsVictim, EvictAll;
    NothingGone(t);
    if |t.episodes| <= max || forall id <- t.episodes :: IsOpen(t.episodes[id]) {
      NothingToEvict(t, max);
    } else {
      var id := NextVictim(t, max);
      WithoutIsSound(t, id);
      EvictionKeeps(Without(t, id), max);
      WithoutFirst(t, id, EvictAll(t, max));
    }
  }

  // While something closed is left above the bound, a victim goes first.
  lemma {:induction false} NextVictim(t: Tracker, max: nat) returns (id: U64)
    requires Sound(t) && |t.episodes| > max && !(forall id <- t.episodes :: IsOpen(t.episodes[id]))
    ensures id in t.episodes && !IsOpen(t.episodes[id]) && EvictAll(t, max) == EvictAll(Without(t, id), max)
    ensures IsVictim(t, id)
  {
    hide Sound, IsVictim, EvictAll, Without;
    SomeVictim(t);
    id :| IsVictim(t, id);
    OneEviction(t, max, id);
  }

  lemma {:induction false} VictimsAreClosed(t: Tracker)
    ensures forall id :: IsVictim(t, id) ==> id in t.episodes && !IsOpen(t.episodes[id])
  {
  }

  lemma {:induction false} WithoutFirst(t: Tracker, id: U64, u: Tracker)
    requires id in t.episodes && !IsOpen(t.episodes[id]) && OnlyClosedGone(Without(t, id), u)
    ensures OnlyClosedGone(t, u)
  {
  }

  // Where something is closed, there is a victim.
  lemma {:induction false} SomeVictim(t: Tracker)
    requires Sound(t) && !(forall id <- t.episodes :: IsOpen(t.episodes[id]))
    ensures exists id :: IsVictim(t, id)
  {
    var closed :| closed in t.episodes && !IsOpen(t.episodes[closed]);
    var oldest := OldestOf(t.episodes);
    if IsOpen(t.episodes[oldest]) {
      var first := LowestClosed(t.episodes, closed);
      assert IsOldest(t, oldest) && IsFirstClosed(t, first);
      assert IsVictim(t, first);
    } else {
      assert IsVictim(t, oldest);
    }
  }

  lemma {:induction false} OldestOf(episodes: map<U64, Episode>) returns (oldest: U64)
    requires episodes != map[]
    ensures oldest in episodes && forall x <- episodes :: !Older(episodes[x], episodes[oldest])
    decreases |episodes|
  {
    var first: U64 :| first in episodes;
    var rest := episodes - {first};
    oldest := first;
    if rest != map[] {
      var other := OldestOf(rest);
      if Older(episodes[other], episodes[oldest]) {
        oldest := other;
      }
    }
    forall x | x in episodes
      ensures !Older(episodes[x], episodes[oldest])
    {
      assert x != first ==> x in rest;
    }
  }

  lemma {:induction false} LowestClosed(episodes: map<U64, Episode>, closed: U64) returns (first: U64)
    requires closed in episodes && !IsOpen(episodes[closed])
    ensures first in episodes && !IsOpen(episodes[first]) && forall x <- episodes :: !IsOpen(episodes[x]) ==> first <= x
    decreases closed
  {
    if lower: U64 :| lower in episodes && !IsOpen(episodes[lower]) && lower < closed {
      first := LowestClosed(episodes, lower);
    } else {
      first := closed;
    }
  }

  // Taking out a closed episode takes its key out of the index.  Every open episode
  // is still the one its key names exactly when none had that key.
  lemma {:induction false} EvictionUnindexes(t: Tracker, id: U64)
    requires Sound(t) && EveryOpenIndexed(t) && id in t.episodes && !IsOpen(t.episodes[id])
    ensures EveryOpenIndexed(Without(t, id)) <==> KeyOf(t.episodes[id]) !in t.open
  {
    var key := KeyOf(t.episodes[id]);
    if key in t.open {
      assert t.open[key] in Without(t, id).episodes;
    }
  }

  // No episode that goes has the key of an open one.
  ghost predicate SafeEviction(t: Tracker, max: nat)
    decreases |t.episodes|
  {
    |t.episodes| <= max || (forall id <- t.episodes :: IsOpen(t.episodes[id]))
    || forall id :: IsVictim(t, id) ==> KeyOf(t.episodes[id]) !in t.open && SafeEviction(Without(t, id), max)
  }

  // Some open episode is not the one its key names.
  ghost predicate Unindexed(t: Tracker) {
    exists id <- t.episodes ::
      IsOpen(t.episodes[id]) && (KeyOf(t.episodes[id]) in t.open ==> t.open[KeyOf(t.episodes[id])] != id)
  }

  lemma {:induction false} StaysUnindexed(t: Tracker, u: Tracker)
    requires Unindexed(t) && OnlyClosedGone(t, u)
    ensures Unindexed(u)
  {
    var id :| id in t.episodes && IsOpen(t.episodes[id])
              && (KeyOf(t.episodes[id]) in t.open ==> t.open[KeyOf(t.episodes[id])] != id);
    assert u.episodes[id] == t.episodes[id];
  }

  // A whole eviction leaves every open episode indexed exactly when it is safe.
  lemma {:induction false} EvictionIndexed(t: Tracker, max: nat)
    requires Sound(t) && EveryOpenIndexed(t)
    ensures EveryOpenIndexed(EvictAll(t, max)) <==> SafeEviction(t, max)
    decreases |t.episodes|
  {
    hide Sound, EveryOpenIndexed, IsVictim, EvictAll;
    if |t.episodes| <= max || forall id <- t.episodes :: IsOpen(t.episodes[id]) {
      NothingToEvict(t, max);
    } else {
      var id := NextVictim(t, max);
      WithoutIsSound(t, id);
      EvictionUnindexes(t, id);
      OnlyVictim(t, max, id);
      if EveryOpenIndexed(Without(t, id)) {
        EvictionIndexed(Without(t, id), max);
      } else {
        EvictionKeeps(Without(t, id), max);
        hide OnlyClosedGone;
        IndexedOrNot(Without(t, id));
        StaysUnindexed(Without(t, id), EvictAll(t, max));
        IndexedOrNot(EvictAll(t, max));
      }
    }
  }

  lemma {:induction false} IndexedOrNot(t: Tracker)
    ensures Unindexed(t) <==> !EveryOpenIndexed(t)
  {
  }

  lemma {:induction false} OnlyVictim(t: Tracker, max: nat, id: U64)
    requires Sound(t) && IsVictim(t, id) && id in t.episodes
    requires |t.episodes| > max && !(forall x <- t.episodes :: IsOpen(t.episodes[x]))
    ensures SafeEviction(t, max) <==> KeyOf(t.episodes[id]) !in t.open && SafeEviction(Without(t, id), max)
  {
    VictimsAreClosed(t);
    hide Sound, IsVictim, Without;
    forall x | IsVictim(t, x)
      ensures x == id
    {
      OneVictim(t, x, id);
    }
  }

  // Otherwise the next loss verdict opens a second episode beside the first.
  lemma {:induction false} SecondOpens(t: Tracker, id: U64, e: Episode)
    requires Sound(t) && id in t.episodes && !IsOpen(t.episodes[id]) && KeyOf(t.episodes[id]) in t.open
    requires IsOpen(e) && KeyOf(e) == KeyOf(t.episodes[id]) && e.id !in t.episodes
    ensures var u, first := Opened(Without(t, id), e), t.open[KeyOf(e)];
            && KeyOf(e) !in Without(t, id).open
            && first != e.id && first in u.episodes && e.id in u.episodes
            && IsOpen(u.episodes[first]) && IsOpen(u.episodes[e.id])
            && KeyOf(u.episodes[first]) == KeyOf(u.episodes[e.id])
  {
  }

  // ---- the operations ----------------------------------------------------------------------------

  function Opened(t: Tracker, e: Episode): Tracker {
    t.(episodes := t.episodes[e.id := e], open := t.open[KeyOf(e) := e.id])
  }

  function ClosedAs(t: Tracker, id: U64, state: State, at: I64): Tracker
    requires id in t.episodes
  {
    t.(episodes := t.episodes[id := t.episodes[id].(state := state, closed := at)],
       open := t.open - {KeyOf(t.episodes[id])})
  }

  function Sealed(e: Episode, state: State, at: I64): Episode {
    e.(state := state, closed := if state == ClosedByRestart then e.last else if at > e.last then at else e.last)
  }

  function Historic(e: Episode): Episode {
    if IsOpen(e) then e.(state := ClosedByRestart, closed := e.last) else e
  }

  predicate IsIdle(e: Episode, now: I64, timeout: int) {
    IsOpen(e) && now - e.last > timeout
  }

  function IdleClosed(e: Episode, now: I64, timeout: int): Episode {
    if IsIdle(e, now, timeout) then e.(state := ClosedByIdle, closed := e.last) else e
  }

  // The idle ones among some episodes are closed, and their keys leave the index.
  function IdleAmong(t: Tracker, some: set<U64>, now: I64, timeout: int): Tracker {
    Tracker(map id | id in t.episodes ::
              if id in some then IdleClosed(t.episodes[id], now, timeout) else t.episodes[id],
            map key | key in t.open && !GoesIdle(t, some, key, now, timeout) :: t.open[key],
            t.evicted)
  }

  predicate GoesIdle(t: Tracker, some: set<U64>, key: Key, now: I64, timeout: int) {
    exists id <- t.episodes :: id in some && IsIdle(t.episodes[id], now, timeout) && KeyOf(t.episodes[id]) == key
  }

  function AfterIdle(t: Tracker, now: I64, timeout: int): Tracker {
    IdleAmong(t, t.episodes.Keys, now, timeout)
  }

  lemma {:induction false} NoneIdleYet(t: Tracker, now: I64, timeout: int)
    ensures IdleAmong(t, {}, now, timeout) == t
  {
    assert IdleAmong(t, {}, now, timeout).episodes == t.episodes;
    assert IdleAmong(t, {}, now, timeout).open == t.open;
  }

  lemma {:induction false} OneMoreIdle(t: Tracker, some: set<U64>, id: U64, now: I64, timeout: int)
    requires id in t.episodes && id !in some
    ensures var u, e := IdleAmong(t, some, now, timeout), t.episodes[id];
            && id in u.episodes && u.episodes[id] == e
            && IdleAmong(t, some + {id}, now, timeout)
            == (if IsIdle(e, now, timeout) then ClosedAs(u, id, ClosedByIdle, e.last) else u)
  {
    var u, v, e := IdleAmong(t, some, now, timeout), IdleAmong(t, some + {id}, now, timeout), t.episodes[id];
    var w := if IsIdle(e, now, timeout) then ClosedAs(u, id, ClosedByIdle, e.last) else u;
    assert v.episodes == w.episodes;
    forall key
      ensures GoesIdle(t, some + {id}, key, now, timeout)
         <==> GoesIdle(t, some, key, now, timeout) || (IsIdle(e, now, timeout) && KeyOf(e) == key)
    {
    }
    assert v.open == w.open;
  }

  function AfterSeal(t: Tracker, state: State, at: I64): Tracker {
    Tracker(map id | id in t.episodes ::
              if IsOpen(t.episodes[id]) then Sealed(t.episodes[id], state, at) else t.episodes[id],
            map[], t.evicted)
  }

  datatype Operation =
    | Saw(v: Verdict, flow: U64, path: U64, generation: U64, now: I64, freshId: U64)
    | Idle(now: I64)
    | Seal(state: State, at: I64)
    | Recall(episode: Episode)

  datatype Bounds = Bounds(maxEpisodes: nat, idleTimeout: int)

  // A new episode gets an identity of its own, and sealing closes.
  predicate Permitted(t: Tracker, op: Operation) {
    (op.Saw? ==> op.freshId != 0 && op.freshId !in t.episodes) && (op.Seal? ==> op.state != Open)
  }

  // What an operation leaves before anything is evicted.
  function Taken(t: Tracker, op: Operation, timeout: int): Tracker
    requires Sound(t)
  {
    match op
    case Saw(v, flow, path, generation, now, freshId) =>
      var key := (flow, generation);
      if key in t.open then
        var id := t.open[key];
        if AssertsLoss(v.verdict) then t.(episodes := t.episodes[id := Extended(t.episodes[id], v, now)])
        else if AssertsAbsence(v.verdict) then ClosedAs(t, id, ClosedByAbsence, now)
        else t
      else if AssertsLoss(v.verdict) then Opened(t, Started(freshId, flow, path, generation, v, now))
      else t
    case Idle(now) => AfterIdle(t, now, timeout)
    case Seal(state, at) => AfterSeal(t, state, at)
    case Recall(episode) =>
      var history := Historic(episode);
      if history.id in t.episodes then t else t.(episodes := t.episodes[history.id := history])
  }

  // Only what adds an episode evicts.
  predicate Adds(t: Tracker, op: Operation) {
    match op
    case Saw(v, flow, _, generation, _, _) => (flow, generation) !in t.open && AssertsLoss(v.verdict)
    case Idle(_) => false
    case Seal(_, _) => false
    case Recall(episode) => episode.id !in t.episodes
  }

  ghost function Applied(t: Tracker, op: Operation, bounds: Bounds): Tracker
    requires Sound(t)
  {
    var taken := Taken(t, op, bounds.idleTimeout);
    if Adds(t, op) then EvictAll(taken, bounds.maxEpisodes) else taken
  }

  class EpisodeTracker {
    const maxEpisodes: nat
    const idleTimeout: int
    var episodes: map<U64, Episode>
    var open: map<Key, U64>
    var evicted: nat

    ghost function Value(): Tracker
      reads this
    {
      Tracker(episodes, open, evicted)
    }

    ghost predicate Valid()
      reads this
    {
      Sound(Value())
    }

    ghost function Limits(): Bounds {
      Bounds(maxEpisodes, idleTimeout)
    }

    constructor (maxEpisodes: nat, idleTimeout: int)
      ensures Valid() && Value() == Tracker(map[], map[], 0)
    {
      this.maxEpisodes, this.idleTimeout := maxEpisodes, idleTimeout;
      episodes, open, evicted := map[], map[], 0;
    }

    method Remove(id: U64)
      requires id in episodes
      modifies this
      ensures Value() == Without(old(Value()), id) && |episodes| < |old(episodes)|
    {
      open := open - {KeyOf(episodes[id])};
      episodes := episodes - {id};
      evicted := evicted + 1;
    }

    // Evicts closed episodes until the bound holds or none is left.
    method Evict()
      requires Valid()
      modifies this
      ensures Valid() && Value() == EvictAll(old(Value()), maxEpisodes)
    {
      hide Sound, EvictAll, IsVictim, Without;
      ghost var start := Value();
      while |episodes| > maxEpisodes
        invariant Valid() && EvictAll(Value(), maxEpisodes) == EvictAll(start, maxEpisodes)
        decreases |episodes|
      {
        ghost var before := Value();
        var victim := FindVictim(before, episodes);
        if victim.None? {
          NothingToEvict(before, maxEpisodes);
          return;
        }
        OneEviction(before, maxEpisodes, victim.value);
        WithoutIsSound(before, victim.value);
        Remove(victim.value);
      }
      NothingToEvict(Value(), maxEpisodes);
    }

    // One verdict about a flow.  A new episode gets the given identity; the
    // answer is the identity of the episode concerned, zero if there is none.
    method Observe(v: Verdict, flow: U64, path: U64, generation: U64, now: I64, freshId: U64) returns (id: U64)
      requires Valid() && freshId != 0 && freshId !in episodes
      modifies this
      ensures Valid() && Value() == Applied(old(Value()), Saw(v, flow, path, generation, now, freshId), Limits())
      ensures id == if (flow, generation) in old(open) then old(open)[(flow, generation)]
                    else if AssertsLoss(v.verdict) then freshId else 0
    {
      hide Sound, Extended, EvictAll;
      var key := (flow, generation);
      ghost var before, op := Value(), Saw(v, flow, path, generation, now, freshId);
      SoundNames(before);
      OperationKeeps(before, op, Limits());
      if !AssertsLoss(v.verdict) {
        if key !in open {
          return 0;
        }
        id := open[key];
        if AssertsAbsence(v.verdict) {
          episodes := episodes[id := episodes[id].(state := ClosedByAbsence, closed := now)];
          open := open - {key};
        }
        return;
      }
      if key !in open {
        var episode := Started(freshId, flow, path, generation, v, now);
        TakenKeeps(before, op, idleTimeout);
        episodes := episodes[freshId := episode];
        open := open[key := freshId];
        assert Value() == Taken(before, op, idleTimeout);
        Evict();
        return freshId;
      }
      id := open[key];
      episodes := episodes[id := Extended(episodes[id], v, now)];
    }

    // Closes what has not been extended for too long, at its last observation.
    method CloseIdle(now: I64) returns (closed: nat)
      requires Valid()
      modifies this
      ensures Valid() && Value() == Applied(old(Value()), Idle(now), Limits())
    {
      hide Sound, IdleAmong, IsIdle;
      ghost var before := Value();
      OperationKeeps(before, Idle(now), Limits());
      NoneIdleYet(before, now, idleTimeout);
      closed := 0;
      var left := episodes.Keys;
      assert before.episodes.Keys - left == {};
      while left != {}
        invariant left <= before.episodes.Keys && before == old(Value())
        invariant Value() == IdleAmong(before, before.episodes.Keys - left, now, idleTimeout)
        decreases left
      {
        var id :| id in left;
        assert before.episodes.Keys - (left - {id}) == (before.episodes.Keys - left) + {id};
        OneMoreIdle(before, before.episodes.Keys - left, id, now, idleTimeout);
        left := left - {id};
        var more := CloseIfIdle(id, now);
        closed := closed + more;
      }
      assert before.episodes.Keys - {} == before.episodes.Keys;
    }

    method CloseIfIdle(id: U64, now: I64) returns (closed: nat)
      requires id in episodes
      modifies this
      ensures var before, e := old(Value()), old(episodes)[id];
              Value() == if IsIdle(e, now, idleTimeout) then ClosedAs(before, id, ClosedByIdle, e.last) else before
      ensures closed == if IsIdle(old(episodes)[id], now, idleTimeout) then 1 else 0
    {
      closed := 0;
      var e := episodes[id];
      if IsOpen(e) && now - e.last > idleTimeout {
        episodes := episodes[id := e.(state := ClosedByIdle, closed := e.last)];
        open := open - {KeyOf(e)};
        closed := 1;
      }
    }

    // Closes every open episode: at its last observation for a restart, at the
    // given instant otherwise, but never before its last observation.
    method SealAll(state: State, at: I64) returns (sealed: nat)
      requires Valid() && state != Open
      modifies this
      ensures Valid() && Value() == Applied(old(Value()), Seal(state, at), Limits())
    {
      hide Sealed, Sound;
      ghost var before := Value();
      OperationKeeps(before, Seal(state, at), Limits());
      sealed := 0;
      var left := episodes.Keys;
      while left != {}
        invariant before == old(Value()) && open == before.open && evicted == before.evicted
        invariant episodes.Keys == before.episodes.Keys && left <= episodes.Keys
        invariant forall id <- episodes ::
                    var e := before.episodes[id];
                    episodes[id] == if id !in left && IsOpen(e) then Sealed(e, state, at) else e
        decreases left
      {
        var id :| id in left;
        left := left - {id};
        var e := episodes[id];
        if IsOpen(e) {
          episodes := episodes[id := Sealed(e, state, at)];
          sealed := sealed + 1;
        }
      }
      open := map[];
      assert episodes == AfterSeal(before, state, at).episodes;
    }

    // History from the journal.  An episode that was open is closed by the
    // restart; one that is already known is left as it is.
    method Restore(episode: Episode)
      requires Valid()
      modifies this
      ensures Valid() && Value() == Applied(old(Value()), Recall(episode), Limits())
    {
      hide Sound, EvictAll;
      ghost var before := Value();
      OperationKeeps(before, Recall(episode), Limits());
      var history := Historic(episode);
      if history.id in episodes {
        return;
      }
      TakenKeeps(before, Recall(episode), idleTimeout);
      episodes := episodes[history.id := history];
      assert Value() == Taken(before, Recall(episode), idleTimeout);
      Evict();
    }
  }

  lemma {:induction false} NothingToEvict(t: Tracker, max: nat)
    requires |t.episodes| <= max || forall id <- t.episodes :: IsOpen(t.episodes[id])
    ensures EvictAll(t, max) == t
  {
  }

  lemma {:induction false} FoundVictim(t: Tracker, oldest: U64, victim: U64)
    requires IsOldest(t, oldest)
    requires if IsOpen(t.episodes[oldest]) then IsFirstClosed(t, victim) else victim == oldest
    ensures IsVictim(t, victim)
  {
  }

  lemma {:induction false} OneEviction(t: Tracker, max: nat, victim: U64)
    requires Sound(t) && |t.episodes| > max && IsVictim(t, victim)
    ensures victim in t.episodes && !IsOpen(t.episodes[victim])
    ensures EvictAll(t, max) == EvictAll(Without(t, victim), max)
  {
    VictimsAreClosed(t);
    hide IsVictim, Sound, Without;
    var id :| IsVictim(t, id) && id in t.episodes && EvictAll(t, max) == EvictAll(Without(t, id), max);
    OneVictim(t, id, victim);
  }

  lemma {:induction false} SealedIsSound(t: Tracker, state: State, at: I64)
    requires Sound(t) && state != Open
    ensures Sound(AfterSeal(t, state, at)) && Onward(t, AfterSeal(t, state, at))
  {
  }

  lemma {:induction false} IdleIsSound(t: Tracker, now: I64, timeout: int)
    requires Sound(t)
    ensures Sound(AfterIdle(t, now, timeout)) && Onward(t, AfterIdle(t, now, timeout))
  {
  }

  lemma {:induction false} RestoringIsSound(t: Tracker, e: Episode)
    requires Sound(t) && e.id !in t.episodes && !IsOpen(e)
    ensures var after := t.(episodes := t.episodes[e.id := e]);
            Sound(after) && Onward(t, after)
  {
  }

  lemma {:induction false} NothingGone(t: Tracker)
    ensures OnlyClosedGone(t, t)
  {
  }

  lemma {:induction false} StaysOnward(t: Tracker)
    ensures Onward(t, t)
  {
  }

  lemma {:induction false} SoundNames(t: Tracker)
    requires Sound(t)
    ensures forall id <- t.episodes :: t.episodes[id].id == id
    ensures forall key <- t.open :: t.open[key] in t.episodes && IsOpen(t.episodes[t.open[key]])
                                    && KeyOf(t.episodes[t.open[key]]) == key
  {
  }

  lemma {:induction false} ClosingIsSound(t: Tracker, id: U64, state: State, at: I64)
    requires Sound(t) && id in t.episodes && IsOpen(t.episodes[id]) && state != Open
    ensures Sound(ClosedAs(t, id, state, at)) && Onward(t, ClosedAs(t, id, state, at))
  {
  }

  lemma {:induction false} OpeningIsSound(t: Tracker, e: Episode, v: Verdict, path: U64, now: I64)
    requires Sound(t) && e == Started(e.id, e.flow, path, e.generation, v, now)
    requires e.id !in t.episodes && KeyOf(e) !in t.open
    ensures Sound(Opened(t, e)) && Onward(t, Opened(t, e))
  {
  }

  lemma {:induction false} ExtendingIsSound(t: Tracker, id: U64, v: Verdict, now: I64)
    requires Sound(t) && id in t.episodes && IsOpen(t.episodes[id])
    ensures var after := t.(episodes := t.episodes[id := Extended(t.episodes[id], v, now)]);
            Sound(after) && Onward(t, after)
  {
    ExtensionGrows(t.episodes[id], v, now);
    hide Extended;
  }

  lemma {:induction false} TakenKeeps(t: Tracker, op: Operation, timeout: int)
    requires Sound(t) && Permitted(t, op)
    ensures Sound(Taken(t, op, timeout)) && Onward(t, Taken(t, op, timeout))
  {
    hide Sound, Onward, Extended, AfterIdle, AfterSeal;
    StaysOnward(t);
    SoundNames(t);
    match op {
      case Saw(v, flow, path, generation, now, freshId) =>
        var key := (flow, generation);
        if key in t.open {
          ExtendingIsSound(t, t.open[key], v, now);
          ClosingIsSound(t, t.open[key], ClosedByAbsence, now);
        } else {
          OpeningIsSound(t, Started(freshId, flow, path, generation, v, now), v, path, now);
        }
      case Idle(now) => IdleIsSound(t, now, timeout);
      case Seal(state, at) => SealedIsSound(t, state, at);
      case Recall(episode) =>
        if episode.id !in t.episodes {
          RestoringIsSound(t, Historic(episode));
        }
    }
  }

  // What goes after an episode was added was there before, and closed.
  lemma {:induction false} GoneAfterAdding(t: Tracker, op: Operation, timeout: int, u: Tracker)
    requires Sound(t) && Permitted(t, op) && Adds(t, op) && OnlyClosedGone(Taken(t, op, timeout), u)
    ensures Onward(t, u)
  {
    hide Sound, Extended, AfterIdle, AfterSeal;
  }

  // Every operation keeps the tracker sound and never touches a closed episode.
  lemma {:induction false} OperationKeeps(t: Tracker, op: Operation, bounds: Bounds)
    requires Sound(t) && Permitted(t, op)
    ensures Sound(Applied(t, op, bounds)) && Onward(t, Applied(t, op, bounds))
  {
    hide Sound, Onward, Taken, OnlyClosedGone, EvictAll, Adds;
    TakenKeeps(t, op, bounds.idleTimeout);
    if Adds(t, op) {
      EvictionKeeps(Taken(t, op, bounds.idleTimeout), bounds.maxEpisodes);
      GoneAfterAdding(t, op, bounds.idleTimeout, Applied(t, op, bounds));
    }
  }

  // ---- whole runs -----------------------------------------------------------------------------------

  const NO_EPISODES := Tracker(map[], map[], 0)

  ghost function After(ops: seq<Operation>, bounds: Bounds): Tracker {
    if ops == [] then NO_EPISODES
    else
      var before := After(ops[..|ops| - 1], bounds);
      if Sound(before) then Applied(before, ops[|ops| - 1], bounds) else before
  }

  ghost predicate IsRun(ops: seq<Operation>, bounds: Bounds) {
    forall i :: 0 <= i < |ops| ==> Permitted(After(ops[..i], bounds), ops[i])
  }

  lemma {:induction false} ShorterRun(ops: seq<Operation>, i: nat, bounds: Bounds)
    requires IsRun(ops, bounds) && i <= |ops|
    ensures IsRun(ops[..i], bounds)
  {
    var front := ops[..i];
    forall j | 0 <= j < i
      ensures Permitted(After(front[..j], bounds), front[j])
    {
      assert front[..j] == ops[..j];
    }
  }

  lemma {:induction false} RunIsSound(ops: seq<Operation>, bounds: Bounds)
    requires IsRun(ops, bounds)
    ensures Sound(After(ops, bounds))
    decreases |ops|
  {
    hide Applied, Permitted;
    if ops == [] {
      assert Sound(NO_EPISODES);
    } else {
      hide Sound;
      var n := |ops| - 1;
      ShorterRun(ops, n, bounds);
      RunIsSound(ops[..n], bounds);
      OperationKeeps(After(ops[..n], bounds), ops[n], bounds);
    }
  }

  // One more operation of a run.
  lemma {:induction false} RunStep(ops: seq<Operation>, i: nat, bounds: Bounds)
    requires IsRun(ops, bounds) && i < |ops|
    ensures var t := After(ops[..i], bounds);
            Sound(t) && Permitted(t, ops[i]) && After(ops[..i + 1], bounds) == Applied(t, ops[i], bounds)
  {
    hide Sound, Applied, Permitted;
    ShorterRun(ops, i, bounds);
    RunIsSound(ops[..i], bounds);
    assert ops[..i + 1][..i] == ops[..i];
  }

  // Over any number of operations: an episode that is closed stays exactly as it
  // is for as long as it is kept.
  lemma {:induction false} ClosedForever(ops: seq<Operation>, i: nat, j: nat, id: U64, bounds: Bounds)
    requires IsRun(ops, bounds) && i <= j <= |ops|
    requires forall k :: i <= k <= j ==> id in After(ops[..k], bounds).episodes
    requires !IsOpen(After(ops[..i], bounds).episodes[id])
    ensures After(ops[..j], bounds).episodes[id] == After(ops[..i], bounds).episodes[id]
    decreases j
  {
    hide After, IsRun, Sound, Applied, Permitted;
    if i < j {
      ClosedForever(ops, i, j - 1, id, bounds);
      RunStep(ops, j - 1, bounds);
      OperationKeeps(After(ops[..j - 1], bounds), ops[j - 1], bounds);
    }
  }

  // An operation that evicts no episode with the key of an open one.
  ghost predicate SafeOperation(t: Tracker, op: Operation, bounds: Bounds)
    requires Sound(t)
  {
    Adds(t, op) ==> SafeEviction(Taken(t, op, bounds.idleTimeout), bounds.maxEpisodes)
  }

  lemma {:induction false} TakenStaysIndexed(t: Tracker, op: Operation, timeout: int)
    requires Sound(t) && EveryOpenIndexed(t) && Permitted(t, op)
    ensures EveryOpenIndexed(Taken(t, op, timeout))
  {
    hide Extended, AfterIdle, AfterSeal;
    match op {
      case Saw(v, flow, path, generation, now, freshId) =>
        var key := (flow, generation);
        if key in t.open {
          ExtensionGrows(t.episodes[t.open[key]], v, now);
        }
      case Idle(now) => IdleStaysIndexed(t, now, timeout);
      case Seal(state, at) => SealStaysIndexed(t, state, at);
      case Recall(episode) =>
    }
  }

  lemma {:induction false} IdleStaysIndexed(t: Tracker, now: I64, timeout: int)
    requires Sound(t) && EveryOpenIndexed(t)
    ensures EveryOpenIndexed(AfterIdle(t, now, timeout))
  {
    var u := AfterIdle(t, now, timeout);
    forall id | id in u.episodes && IsOpen(u.episodes[id])
      ensures KeyOf(u.episodes[id]) in u.open && u.open[KeyOf(u.episodes[id])] == id
    {
      assert u.episodes[id] == t.episodes[id];
      assert !GoesIdle(t, t.episodes.Keys, KeyOf(t.episodes[id]), now, timeout);
    }
  }

  lemma {:induction false} SealStaysIndexed(t: Tracker, state: State, at: I64)
    requires state != Open
    ensures EveryOpenIndexed(AfterSeal(t, state, at))
  {
  }

  lemma {:induction false} OperationIndexed(t: Tracker, op: Operation, bounds: Bounds)
    requires Sound(t) && EveryOpenIndexed(t) && Permitted(t, op)
    ensures EveryOpenIndexed(Applied(t, op, bounds)) <==> SafeOperation(t, op, bounds)
  {
    hide Sound, EveryOpenIndexed, Taken, EvictAll, SafeEviction, Adds;
    TakenStaysIndexed(t, op, bounds.idleTimeout);
    TakenKeeps(t, op, bounds.idleTimeout);
    EvictionIndexed(Taken(t, op, bounds.idleTimeout), bounds.maxEpisodes);
  }

  ghost predicate SafeSoFar(ops: seq<Operation>, n: nat, bounds: Bounds)
    requires n <= |ops|
  {
    forall i :: 0 <= i < n ==> Sound(After(ops[..i], bounds)) && SafeOperation(After(ops[..i], bounds), ops[i], bounds)
  }

  // Over every run: up to any moment, every open episode has been the one its key
  // names throughout, if and only if no episode was evicted that had the key of an
  // open one.
  lemma {:induction false} IndexedWhileSafe(ops: seq<Operation>, n: nat, bounds: Bounds)
    requires IsRun(ops, bounds) && n <= |ops|
    ensures (forall i :: 0 <= i <= n ==> EveryOpenIndexed(After(ops[..i], bounds))) <==> SafeSoFar(ops, n, bounds)
    decreases n
  {
    hide After, IsRun, Sound, Applied, Permitted, SafeOperation, EveryOpenIndexed;
    if n == 0 {
      StartIsIndexed(ops, bounds);
    } else {
      IndexedWhileSafe(ops, n - 1, bounds);
      RunStep(ops, n - 1, bounds);
      SafeStep(ops, n, bounds);
      hide SafeSoFar;
      assert forall i :: 0 <= i <= n ==> i <= n - 1 || ops[..i] == ops[..n];
      var t := After(ops[..n - 1], bounds);
      if EveryOpenIndexed(t) {
        OperationIndexed(t, ops[n - 1], bounds);
      }
    }
  }

  lemma {:induction false} SafeStep(ops: seq<Operation>, n: nat, bounds: Bounds)
    requires 1 <= n <= |ops|
    ensures SafeSoFar(ops, n, bounds)
       <==> SafeSoFar(ops, n - 1, bounds) && Sound(After(ops[..n - 1], bounds))
            && SafeOperation(After(ops[..n - 1], bounds), ops[n - 1], bounds)
  {
    hide After, Sound, SafeOperation;
  }

  lemma {:induction false} StartIsIndexed(ops: seq<Operation>, bounds: Bounds)
    ensures EveryOpenIndexed(After(ops[..0], bounds))
  {
  }

  // ---- one open episode to a flow and generation ---------------------------------------------------

  ghost predicate OneOpenEach(t: Tracker) {
    forall a <- t.episodes, b <- t.episodes ::
      IsOpen(t.episodes[a]) && IsOpen(t.episodes[b]) && KeyOf(t.episodes[a]) == KeyOf(t.episodes[b]) ==> a == b
  }

  // A verdict of loss for a key that the index does not name, although an episode is
  // open under it.
  ghost predicate Doubles(t: Tracker, op: Operation) {
    && op.Saw? && AssertsLoss(op.v.verdict) && (op.flow, op.generation) !in t.open
    && exists id <- t.episodes :: IsOpen(t.episodes[id]) && KeyOf(t.episodes[id]) == (op.flow, op.generation)
  }

  // Every open episode was open before, or is the one that the operation opened.
  ghost predicate OpensOnly(t: Tracker, u: Tracker, op: Operation) {
    forall id <- u.episodes :: IsOpen(u.episodes[id]) ==>
      || (id in t.episodes && IsOpen(t.episodes[id]) && KeyOf(u.episodes[id]) == KeyOf(t.episodes[id]))
      || (op.Saw? && id == op.freshId && AssertsLoss(op.v.verdict) && (op.flow, op.generation) !in t.open
          && KeyOf(u.episodes[id]) == (op.flow, op.generation))
  }

  lemma {:induction false} TakenOpensOnly(t: Tracker, op: Operation, timeout: int)
    requires Sound(t) && Permitted(t, op)
    ensures OpensOnly(t, Taken(t, op, timeout), op)
  {
    hide Extended, Started;
    match op
    case Saw(v, flow, path, generation, now, freshId) =>
      StartedAs(freshId, flow, path, generation, v, now);
      if (flow, generation) in t.open {
        ExtensionGrows(t.episodes[t.open[(flow, generation)]], v, now);
      }
    case _ =>
  }

  lemma {:induction false} StartedAs(id: U64, flow: U64, path: U64, generation: U64, v: Verdict, now: I64)
    ensures KeyOf(Started(id, flow, path, generation, v, now)) == (flow, generation)
    ensures IsOpen(Started(id, flow, path, generation, v, now)) && Started(id, flow, path, generation, v, now).id == id
  {
  }

  lemma {:induction false} AppliedOpensOnly(t: Tracker, op: Operation, bounds: Bounds)
    requires Sound(t) && Permitted(t, op)
    ensures OpensOnly(t, Applied(t, op, bounds), op)
  {
    hide Sound, Taken, EvictAll, Adds;
    TakenOpensOnly(t, op, bounds.idleTimeout);
    if Adds(t, op) {
      TakenKeeps(t, op, bounds.idleTimeout);
      EvictionKeeps(Taken(t, op, bounds.idleTimeout), bounds.maxEpisodes);
    }
  }

  // What opens stays through the eviction, and so does what was open.
  lemma {:induction false} DoublingDoubles(t: Tracker, op: Operation, bounds: Bounds)
    requires Sound(t) && Permitted(t, op) && Doubles(t, op)
    ensures !OneOpenEach(Applied(t, op, bounds))
  {
    hide Sound, EvictAll, Extended, Started;
    TakenKeeps(t, op, bounds.idleTimeout);
    EvictionKeeps(Taken(t, op, bounds.idleTimeout), bounds.maxEpisodes);
    StartedAs(op.freshId, op.flow, op.path, op.generation, op.v, op.now);
    var u := Applied(t, op, bounds);
    var first :| first in t.episodes && IsOpen(t.episodes[first])
                 && KeyOf(t.episodes[first]) == (op.flow, op.generation);
    assert u.episodes[first] == t.episodes[first];
    assert op.freshId in u.episodes && IsOpen(u.episodes[op.freshId]) && first != op.freshId;
  }

  // One operation: there still is one open episode each, exactly if it does not double one.
  lemma {:induction false} OneOpenStep(t: Tracker, op: Operation, bounds: Bounds)
    requires Sound(t) && Permitted(t, op) && OneOpenEach(t)
    ensures OneOpenEach(Applied(t, op, bounds)) <==> !Doubles(t, op)
  {
    hide Sound, Applied;
    if Doubles(t, op) {
      DoublingDoubles(t, op, bounds);
    } else {
      AppliedOpensOnly(t, op, bounds);
    }
  }

  ghost predicate NoneDoubles(ops: seq<Operation>, n: nat, bounds: Bounds)
    requires n <= |ops|
  {
    forall i :: 0 <= i < n ==> !Doubles(After(ops[..i], bounds), ops[i])
  }

  ghost predicate OneOpenUntil(ops: seq<Operation>, n: nat, bounds: Bounds)
    requires n <= |ops|
  {
    forall i :: 0 <= i <= n ==> OneOpenEach(After(ops[..i], bounds))
  }

  // Over every run: up to any moment a flow and generation have had at most one open
  // episode throughout if and only if no verdict of loss came for a key that an eviction
  // had taken out of the index while an episode was open under it.
  lemma {:induction false} OneOpenExactly(ops: seq<Operation>, n: nat, bounds: Bounds)
    requires IsRun(ops, bounds) && n <= |ops|
    ensures OneOpenUntil(ops, n, bounds) <==> NoneDoubles(ops, n, bounds)
    decreases n
  {
    hide After, IsRun, Sound, Applied, Permitted, Doubles, OneOpenEach;
    if n == 0 {
      StartHasOneEach(ops, bounds);
    } else {
      OneOpenExactly(ops, n - 1, bounds);
      RunStep(ops, n - 1, bounds);
      LastOfRun(ops, n, bounds);
      hide OneOpenUntil, NoneDoubles;
      var t := After(ops[..n - 1], bounds);
      if OneOpenEach(t) {
        OneOpenStep(t, ops[n - 1], bounds);
      }
    }
  }

  lemma {:induction false} LastOfRun(ops: seq<Operation>, n: nat, bounds: Bounds)
    requires 1 <= n <= |ops|
    ensures OneOpenUntil(ops, n, bounds) <==> OneOpenUntil(ops, n - 1, bounds) && OneOpenEach(After(ops[..n], bounds))
    ensures OneOpenUntil(ops, n - 1, bounds) ==> OneOpenEach(After(ops[..n - 1], bounds))
    ensures NoneDoubles(ops, n, bounds)
       <==> NoneDoubles(ops, n - 1, bounds) && !Doubles(After(ops[..n - 1], bounds), ops[n - 1])
  {
    hide After, Doubles, OneOpenEach;
    assert forall i :: 0 <= i <= n ==> i <= n - 1 || ops[..i] == ops[..n];
  }

  lemma {:induction false} StartHasOneEach(ops: seq<Operation>, bounds: Bounds)
    ensures OneOpenEach(After(ops[..0], bounds))
  {
  }

  // While no eviction takes an open key out of the index, no verdict can do so.
  lemma {:induction false} OneOpenWhileSafe(ops: seq<Operation>, n: nat, bounds: Bounds)
    requires IsRun(ops, bounds) && n <= |ops| && SafeSoFar(ops, n, bounds)
    ensures OneOpenUntil(ops, n, bounds) && NoneDoubles(ops, n, bounds)
  {
    hide After, IsRun, SafeOperation, Sound, EveryOpenIndexed, OneOpenEach, SafeSoFar;
    IndexedWhileSafe(ops, n, bounds);
    OneOpenExactly(ops, n, bounds);
    forall i | 0 <= i <= n
      ensures OneOpenEach(After(ops[..i], bounds))
    {
      IndexedHasOneEach(After(ops[..i], bounds));
    }
  }

  lemma {:induction false} IndexedHasOneEach(t: Tracker)
    requires EveryOpenIndexed(t)
    ensures OneOpenEach(t)
  {
  }

  // No episode is open, and the index is empty.
  ghost predicate AllClosed(t: Tracker) {
    t.open == map[] && forall id <- t.episodes :: !IsOpen(t.episodes[id])
  }

  // History opens nothing.
  lemma {:induction false} RecallOpensNothing(t: Tracker, episode: Episode, bounds: Bounds)
    requires Sound(t) && AllClosed(t)
    ensures AllClosed(Applied(t, Recall(episode), bounds))
  {
    var taken := Taken(t, Recall(episode), bounds.idleTimeout);
    assert AllClosed(taken);
    TakenKeeps(t, Recall(episode), bounds.idleTimeout);
    hide Sound, Taken, EvictAll;
    EvictionKeeps(taken, bounds.maxEpisodes);
    FewerClosed(taken, EvictAll(taken, bounds.maxEpisodes));
  }

  lemma {:induction false} FewerClosed(t: Tracker, u: Tracker)
    requires AllClosed(t) && OnlyClosedGone(t, u)
    ensures AllClosed(u)
  {
    assert u.open.Keys <= t.open.Keys;
    assert u.open == map[];
  }
}
