/// The read-through cache: entries live under a per-tenant namespace version, and writers make
/// them unreachable by bumping that version after their database write.
module VersionedCache {
  import opened Common

  type Pid = nat

  const MAX_WAITS := 40

  /// A cache key: namespace version and the remaining parts.
  datatype Key = Key(version: int, part: string)

  /// A cached value is represented by the index of the oldest database state its producer read.
  /// `Computing` runs the producer, which may query the database any number of times.
  datatype Pc =
    | Keyed
    | Missed
    | Waiting(tries: nat)
    | Computing(locked: bool, oldest: Option<nat>)
    | Unlocking(value: nat)
    | Done(value: nat)

  /// `due` records the writes whose invalidation had finished when the reader built its key.
  datatype Reader = Reader(key: Key, due: set<nat>, pc: Pc)

  /// `db` counts committed writes; `writers` holds, per writer between its database write and its
  /// version bump, the index of that write. `settled` and `floors` are history: the writes already
  /// invalidated, and for each version number the newest write settled when it began.
  datatype State = State(
    db: nat, version: int, entries: map<Key, nat>, locks: map<Key, Pid>,
    writers: map<Pid, nat>, readers: map<Pid, Reader>, settled: set<nat>, floors: seq<nat>)

  datatype Step =
    | Write(pid: Pid) | Bump(pid: Pid)
    | BuildKey(pid: Pid, part: string) | Lookup(pid: Pid) | TryLock(pid: Pid) | Poll(pid: Pid)
    | Query(pid: Pid) | Store(pid: Pid) | Unlock(pid: Pid) | Abort(pid: Pid)
    | DropEntry(key: Key) | DropLock(key: Key) | ExpireVersion

  const START := State(0, 0, map[], map[], map[], map[], {}, [0])

  function At(s: State, p: Pid, pc: Pc): State
    requires p in s.readers
  {
    s.(readers := s.readers[p := s.readers[p].(pc := pc)])
  }

  function LookupStep(s: State, p: Pid, onMiss: Pc): State
    requires p in s.readers
  {
    var key := s.readers[p].key;
    At(s, p, if key in s.entries then Done(s.entries[key]) else onMiss)
  }

  function FreeLock(s: State, p: Pid): State
    requires p in s.readers
  {
    var key := s.readers[p].key;
    if key in s.locks && s.locks[key] == p then s.(locks := s.locks - {key}) else s
  }

  function ReaderStep(s: State, p: Pid, step: Step): State
    requires p in s.readers
  {
    var r := s.readers[p];
    match (step, r.pc)
    case (Lookup(_), Keyed) => LookupStep(s, p, Missed)
    case (TryLock(_), Missed) =>
      if r.key in s.locks then At(s, p, Waiting(0))
      else At(s.(locks := s.locks[r.key := p]), p, Computing(true, None))
    case (Poll(_), Waiting(i)) =>
      LookupStep(s, p, if i + 1 < MAX_WAITS then Waiting(i + 1) else Computing(false, None))
    case (Query(_), Computing(locked, oldest)) =>
      At(s, p, Computing(locked, Some(if oldest.Some? && oldest.value < s.db then oldest.value else s.db)))
    case (Store(_), Computing(locked, Some(oldest))) =>
      At(s.(entries := s.entries[r.key := oldest]), p, if locked then Unlocking(oldest) else Done(oldest))
    case (Unlock(_), Unlocking(value)) => At(FreeLock(s, p), p, Done(value))
    case (Abort(_), Computing(_, _)) => var freed := FreeLock(s, p); freed.(readers := freed.readers - {p})
    case _ => s
  }

  function Apply(s: State, step: Step): State {
    match step
    case Write(p) => if p in s.writers then s else s.(db := s.db + 1, writers := s.writers[p := s.db + 1])
    case Bump(p) =>
      if p !in s.writers || s.floors == [] then s else
      var floor := s.floors[|s.floors| - 1];
      s.(version := s.version + 1, writers := s.writers - {p}, settled := s.settled + {s.writers[p]},
         floors := s.floors + [if floor < s.writers[p] then s.writers[p] else floor])
    case BuildKey(p, part) =>
      if p in s.readers && !s.readers[p].pc.Done? then s
      else s.(readers := s.readers[p := Reader(Key(s.version, part), s.settled, Keyed)])
    case DropEntry(key) => s.(entries := s.entries - {key})
    case DropLock(key) => s.(locks := s.locks - {key})
    case ExpireVersion =>
      if s.floors == [] then s else s.(version := 0, floors := [s.floors[|s.floors| - 1]])
    case _ => if step.pid in s.readers then ReaderStep(s, step.pid, step) else s
  }

  function Exec(s: State, steps: seq<Step>): State
    decreases |steps|
  {
    if steps == [] then s else Exec(Apply(s, steps[0]), steps[1..])
  }

  predicate Covers(value: nat, due: set<nat>) {
    forall w | w in due :: w <= value
  }

  /// Not yet settled on a value: what this reader will store or return is still open.
  predicate Open(pc: Pc) {
    pc.Keyed? || pc.Missed? || pc.Waiting? || pc.Computing?
  }

  ghost predicate ReaderInv(s: State, r: Reader) {
    && r.due <= s.settled
    && (r.pc.Done? || r.pc.Unlocking? ==> Covers(r.pc.value, r.due))
    && (Open(r.pc) ==>
          && 0 <= r.key.version < |s.floors|
          && Covers(s.floors[r.key.version], r.due)
          && (r.pc.Computing? && r.pc.oldest.Some? ==> s.floors[r.key.version] <= r.pc.oldest.value <= s.db))
  }

  /// Entries are no older than the floor of their version and no newer than the database.
  predicate EntriesInv(s: State) {
    forall key | key in s.entries ::
      0 <= key.version < |s.floors| && s.floors[key.version] <= s.entries[key] <= s.db
  }

  ghost predicate Inv(s: State) {
    && |s.floors| == s.version + 1 >= 1
    && Covers(s.floors[s.version], s.settled)
    && (s.floors[s.version] == 0 || s.floors[s.version] in s.settled)
    && (forall v | 0 <= v <= s.version :: s.floors[v] <= s.db)
    && (forall p | p in s.writers :: s.writers[p] <= s.db)
    && EntriesInv(s)
    && (forall p | p in s.readers :: ReaderInv(s, s.readers[p]))
  }

  /// An expiry of the version key that leaves nothing behind which a recurring version number could
  /// bring back: every entry and every open reader belongs to version 0 and is up to date.
  predicate Harmless(s: State) {
    && s.floors != []
    && (forall key | key in s.entries :: key.version == 0 && s.floors[|s.floors| - 1] <= s.entries[key])
    && (forall p | p in s.readers && Open(s.readers[p].pc) ::
          && s.readers[p].key.version == 0
          && (s.readers[p].pc.Computing? && s.readers[p].pc.oldest.Some? ==>
                s.floors[|s.floors| - 1] <= s.readers[p].pc.oldest.value))
  }

  /// Only `invalidate` renews the version key. Reads do not, so an entry stored in the last seconds of
  /// a day without writes outlives the key, and such a run is not one of these.
  ghost predicate ExpiresHarmlessly(s: State, steps: seq<Step>)
    decreases |steps|
  {
    steps != [] ==>
      && (steps[0].ExpireVersion? ==> Harmless(s))
      && ExpiresHarmlessly(Apply(s, steps[0]), steps[1..])
  }

  lemma ReaderStepFields(s: State, p: Pid, step: Step)
    requires p in s.readers
    ensures
      var s' := ReaderStep(s, p, step);
      && s' == s.(readers := s'.readers, entries := s'.entries, locks := s'.locks)
      && (p in s'.readers ==> s'.readers[p] == s.readers[p].(pc := s'.readers[p].pc))
  {
  }

  lemma ReaderStepReaders(s: State, p: Pid, step: Step)
    requires p in s.readers
    ensures
      var s' := ReaderStep(s, p, step);
      s'.readers == if p in s'.readers then s.readers[p := s'.readers[p]] else s.readers - {p}
  {
    if step.Abort? {
    } else {
      assert p in ReaderStep(s, p, step).readers;
    }
  }

  lemma ReaderStepEntries(s: State, p: Pid, step: Step)
    requires p in s.readers
    ensures
      var s', key := ReaderStep(s, p, step), s.readers[p].key;
      s'.entries == s.entries || (key in s'.entries && s'.entries == s.entries[key := s'.entries[key]])
  {
  }

  lemma LookupKeeps(s: State, p: Pid, onMiss: Pc)
    requires p in s.readers
    ensures LookupStep(s, p, onMiss).locks == s.locks
  {
  }

  lemma ReaderStepLocks(s: State, p: Pid, step: Step)
    requires p in s.readers
    ensures
      var s', key := ReaderStep(s, p, step), s.readers[p].key;
      s'.locks == s.locks || s'.locks == s.locks - {key} || s'.locks == s.locks[key := p]
  {
    hide LookupStep;
    LookupKeeps(s, p, Missed);
    LookupKeeps(s, p, Computing(false, None));
    forall i {
      LookupKeeps(s, p, Waiting(i));
    }
  }

  /// A reader's step touches its own record, its own cache entry and its own lock.
  lemma ReaderStepFrame(s: State, p: Pid, step: Step)
    requires p in s.readers
    ensures
      var s', key := ReaderStep(s, p, step), s.readers[p].key;
      && s'.readers - {p} == s.readers - {p}
      && s'.entries - {key} == s.entries - {key}
      && s'.locks - {key} == s.locks - {key}
      && s' == s.(readers := s'.readers, entries := s'.entries, locks := s'.locks)
      && (p in s'.readers ==> s'.readers[p] == s.readers[p].(pc := s'.readers[p].pc))
  {
    hide ReaderStep;
    ReaderStepFields(s, p, step);
    ReaderStepReaders(s, p, step);
    ReaderStepEntries(s, p, step);
    ReaderStepLocks(s, p, step);
  }

  /// Other readers are as they were.
  lemma OtherReaders(s: State, p: Pid, step: Step, q: Pid)
    requires p in s.readers && q != p && q in ReaderStep(s, p, step).readers
    ensures q in s.readers && ReaderStep(s, p, step).readers[q] == s.readers[q]
  {
    ReaderStepFrame(s, p, step);
    var others := ReaderStep(s, p, step).readers - {p};
    assert q in others && others[q] == ReaderStep(s, p, step).readers[q];
  }

  lemma ReaderStepKeepsEntries(s: State, p: Pid, step: Step)
    requires p in s.readers && ReaderInv(s, s.readers[p]) && EntriesInv(s)
    ensures EntriesInv(ReaderStep(s, p, step))
  {
  }

  lemma ReaderStepKeepsOwn(s: State, p: Pid, step: Step)
    requires p in s.readers && ReaderInv(s, s.readers[p]) && EntriesInv(s)
    requires forall v | 0 <= v < |s.floors| :: s.floors[v] <= s.db
    ensures
      var s' := ReaderStep(s, p, step);
      p in s'.readers ==> ReaderInv(s', s'.readers[p])
  {
  }

  lemma ReaderStepKeepsInv(s: State, p: Pid, step: Step)
    requires Inv(s) && p in s.readers
    ensures Inv(ReaderStep(s, p, step))
  {
    hide ReaderStep;
    var s', r := ReaderStep(s, p, step), s.readers[p];
    ReaderStepFields(s, p, step);
    ReaderStepKeepsEntries(s, p, step);
    ReaderStepKeepsOwn(s, p, step);
    forall q | q in s'.readers ensures ReaderInv(s', s'.readers[q]) {
      if q != p {
        OtherReaders(s, p, step, q);
        assert ReaderInv(s, s.readers[q]);
      }
    }
  }

  lemma BumpKeepsInv(s: State, p: Pid)
    requires Inv(s) && p in s.writers
    ensures Inv(Apply(s, Bump(p)))
  {
    var s' := Apply(s, Bump(p));
    assert forall v | 0 <= v <= s.version :: s'.floors[v] == s.floors[v];
    forall q | q in s'.readers ensures ReaderInv(s', s'.readers[q]) {
      assert ReaderInv(s, s.readers[q]);
    }
  }

  lemma WriteKeepsInv(s: State, p: Pid)
    requires Inv(s)
    ensures Inv(Apply(s, Write(p)))
  {
    assert forall q | q in s.readers :: ReaderInv(s, s.readers[q]);
  }

  lemma BuildKeyKeepsInv(s: State, p: Pid, part: string)
    requires Inv(s)
    ensures Inv(Apply(s, BuildKey(p, part)))
  {
    assert forall q | q in s.readers :: ReaderInv(s, s.readers[q]);
  }

  lemma ExpiryKeepsInv(s: State)
    requires Inv(s) && Harmless(s)
    ensures Inv(Apply(s, ExpireVersion))
  {
    assert forall q | q in s.readers :: ReaderInv(s, s.readers[q]);
  }

  lemma StepKeepsInv(s: State, step: Step)
    requires Inv(s) && (step.ExpireVersion? ==> Harmless(s))
    ensures Inv(Apply(s, step))
  {
    hide ReaderStep;
    match step
    case Bump(p) => if p in s.writers { BumpKeepsInv(s, p); }
    case Write(p) => WriteKeepsInv(s, p);
    case BuildKey(p, part) => BuildKeyKeepsInv(s, p, part);
    case DropEntry(_) => assert forall q | q in s.readers :: ReaderInv(s, s.readers[q]);
    case DropLock(_) => assert forall q | q in s.readers :: ReaderInv(s, s.readers[q]);
    case ExpireVersion => ExpiryKeepsInv(s);
    case _ => if step.pid in s.readers { ReaderStepKeepsInv(s, step.pid, step); }
  }

  lemma {:induction false} RunKeepsInv(s: State, steps: seq<Step>)
    requires Inv(s) && ExpiresHarmlessly(s, steps)
    ensures Inv(Exec(s, steps))
    decreases |steps|
  {
    if steps != [] {
      StepKeepsInv(s, steps[0]);
      RunKeepsInv(Apply(s, steps[0]), steps[1..]);
    }
  }

  /// Whatever the interleaving, the value a reader returns was computed from database states that
  /// include every write whose invalidation had finished when the reader built its key.
  lemma ReadersSeeSettledWrites(steps: seq<Step>, p: Pid)
    requires ExpiresHarmlessly(START, steps)
    ensures
      var s := Exec(START, steps);
      p in s.readers && s.readers[p].pc.Done? ==> forall w | w in s.readers[p].due :: w <= s.readers[p].pc.value
  {
    RunKeepsInv(START, steps);
    var s := Exec(START, steps);
    if p in s.readers {
      assert ReaderInv(s, s.readers[p]);
    }
  }

  lemma ExecSplit(s: State, first: seq<Step>, rest: seq<Step>)
    ensures Exec(s, first + rest) == Exec(Exec(s, first), rest)
    decreases |first|
  {
    if first == [] {
      assert first + rest == rest;
    } else {
      assert (first + rest)[1..] == first[1..] + rest;
      ExecSplit(Apply(s, first[0]), first[1..], rest);
    }
  }

  /// `due` is what it claims to be: once a writer has written and bumped the version, every reader
  /// that builds its key later, at any distance, owes that write.
  lemma FinishedWritesAreDue(s: State, w: Pid, between: seq<Step>, p: Pid, part: string)
    requires w in s.writers && s.floors != []
    ensures
      var later := Exec(Apply(s, Bump(w)), between);
      (p in later.readers ==> later.readers[p].pc.Done?) ==>
        s.writers[w] in Apply(later, BuildKey(p, part)).readers[p].due
  {
    SettledGrows(Apply(s, Bump(w)), between);
  }

  lemma {:induction false} SettledGrows(s: State, steps: seq<Step>)
    ensures s.settled <= Exec(s, steps).settled
    decreases |steps|
  {
    hide Apply;
    if steps != [] {
      StepSettles(s, steps[0]);
      SettledGrows(Apply(s, steps[0]), steps[1..]);
    }
  }

  lemma StepSettles(s: State, step: Step)
    ensures s.settled <= Apply(s, step).settled
  {
    hide ReaderStep;
    match step
    case Write(_) =>
    case Bump(_) =>
    case BuildKey(_, _) =>
    case DropEntry(_) =>
    case DropLock(_) =>
    case ExpireVersion =>
    case _ => if step.pid in s.readers { ReaderStepFields(s, step.pid, step); }
  }

  /// A reader that computes, or has yet to unlock, under the stampede lock.
  predicate InFlight(r: Reader) {
    r.pc.Unlocking? || (r.pc.Computing? && r.pc.locked)
  }

  predicate LocksHeld(s: State) {
    forall p | p in s.readers && InFlight(s.readers[p]) :: s.readers[p].key in s.locks && s.locks[s.readers[p].key] == p
  }

  lemma ReaderStepKeepsLocks(s: State, p: Pid, step: Step)
    requires LocksHeld(s) && p in s.readers
    ensures LocksHeld(ReaderStep(s, p, step))
  {
    var s', key := ReaderStep(s, p, step), s.readers[p].key;
    ReaderStepFrame(s, p, step);
    forall q | q in s'.readers && InFlight(s'.readers[q])
      ensures s'.readers[q].key in s'.locks && s'.locks[s'.readers[q].key] == q
    {
      if q != p {
        OtherReaders(s, p, step, q);
        LockStays(s, p, step, q);
      }
    }
  }

  /// A reader's step leaves a lock that another reader holds.
  lemma LockStays(s: State, p: Pid, step: Step, q: Pid)
    requires p in s.readers && q in s.readers && q != p
    requires s.readers[q].key in s.locks && s.locks[s.readers[q].key] == q
    ensures
      var locks := ReaderStep(s, p, step).locks;
      s.readers[q].key in locks && locks[s.readers[q].key] == q
  {
  }

  function Polls(p: Pid, n: nat): seq<Step> {
    if n == 0 then [] else [Poll(p)] + Polls(p, n - 1)
  }

  /// A reader that waits finds nothing forty times and then computes without the lock, not sooner.
  lemma {:induction false} PollsFortyTimes(s: State, p: Pid, tries: nat, n: nat)
    requires p in s.readers && s.readers[p].pc == Waiting(tries) && s.readers[p].key !in s.entries
    requires tries < 40 && tries + n <= 40
    ensures
      var s' := Exec(s, Polls(p, n));
      p in s'.readers
      && s'.readers[p] == s.readers[p].(pc := if tries + n < 40 then Waiting(tries + n) else Computing(false, None))
    decreases n
  {
    if n > 0 {
      var next := Apply(s, Poll(p));
      assert Polls(p, n)[1..] == Polls(p, n - 1);
      if tries + 1 < 40 {
        PollsFortyTimes(next, p, tries + 1, n - 1);
      }
    }
  }

  /// However a computation under the lock ends, stored or thrown, its lock is free afterwards, and a thrown
  /// one leaves no entry.
  lemma FlightEndsUnlocked(s: State, p: Pid)
    requires p in s.readers
    ensures s.readers[p].pc.Unlocking? ==>
      var s' := Apply(s, Unlock(p));
      && (s.readers[p].key in s'.locks ==> s'.locks[s.readers[p].key] != p)
      && p in s'.readers && s'.readers[p].pc == Done(s.readers[p].pc.value)
    ensures s.readers[p].pc.Computing? ==>
      var s' := Apply(s, Abort(p));
      && (s.readers[p].key in s'.locks ==> s'.locks[s.readers[p].key] != p)
      && s'.entries == s.entries && p !in s'.readers
  {
  }

  predicate Flying(s: State, key: Key) {
    exists p | p in s.readers && InFlight(s.readers[p]) :: s.readers[p].key == key
  }

  /// A stampede lock expires only when nobody computes, or has yet to unlock, under it.
  predicate DropsIdly(s: State, steps: seq<Step>)
    decreases |steps|
  {
    steps != [] ==>
      && (steps[0].DropLock? ==> !Flying(s, steps[0].key))
      && DropsIdly(Apply(s, steps[0]), steps[1..])
  }

  lemma StepKeepsLocks(s: State, step: Step)
    requires LocksHeld(s) && (step.DropLock? ==> !Flying(s, step.key))
    ensures LocksHeld(Apply(s, step))
  {
    hide ReaderStep;
    match step
    case Write(_) =>
    case Bump(_) =>
    case BuildKey(_, _) =>
    case DropEntry(_) =>
    case DropLock(_) =>
    case ExpireVersion =>
    case _ => if step.pid in s.readers { ReaderStepKeepsLocks(s, step.pid, step); }
  }

  lemma {:induction false} RunKeepsLocks(s: State, steps: seq<Step>)
    requires LocksHeld(s) && DropsIdly(s, steps)
    ensures LocksHeld(Exec(s, steps))
    decreases |steps|
  {
    hide LocksHeld, Apply, Flying;
    if steps != [] {
      StepKeepsLocks(s, steps[0]);
      RunKeepsLocks(Apply(s, steps[0]), steps[1..]);
    }
  }

  predicate OneFlightPerKey(s: State) {
    forall p, q | p in s.readers && q in s.readers && InFlight(s.readers[p]) && InFlight(s.readers[q])
                  && s.readers[p].key == s.readers[q].key :: p == q
  }

  /// As long as every expiring stampede lock is idle, no two readers compute the same key under the lock.
  lemma SingleFlight(steps: seq<Step>)
    requires DropsIdly(START, steps)
    ensures OneFlightPerKey(Exec(START, steps))
  {
    RunKeepsLocks(START, steps);
  }
}
