/// What an expiry of a stampede lock can do: exactly when it lets two readers compute one key at once.
module CacheStampede {
  import opened Common
  import opened VersionedCache
  import opened CacheExpiry

  /// Every continuation in which no lock expires under a computation keeps to one computation a key.
  ghost predicate SingleFromHere(s: State) {
    forall steps :: DropsIdly(s, steps) ==> OneFlightPerKey(Exec(s, steps))
  }

  predicate NoDrop(steps: seq<Step>) {
    forall i | 0 <= i < |steps| :: !steps[i].DropLock?
  }

  lemma {:induction false} IdleWithoutDrop(s: State, steps: seq<Step>)
    requires NoDrop(steps)
    ensures DropsIdly(s, steps)
    decreases |steps|
  {
    if steps != [] {
      IdleWithoutDrop(Apply(s, steps[0]), steps[1..]);
    }
  }

  lemma {:induction false} BumpsDropNothing(q: Pid, n: nat)
    ensures NoDrop(Bumps(q, n))
  {
    if n > 0 {
      BumpsDropNothing(q, n - 1);
    }
  }

  lemma IdleIsEnough(s: State, key: Key)
    requires LocksHeld(s) && !Flying(s, key)
    ensures SingleFromHere(Apply(s, DropLock(key)))
  {
    hide Flying;
    var dropped := Apply(s, DropLock(key));
    StepKeepsLocks(s, DropLock(key));
    forall steps | DropsIdly(dropped, steps)
      ensures OneFlightPerKey(Exec(dropped, steps))
    {
      RunKeepsLocks(dropped, steps);
    }
  }

  /// A reader that finds neither entry nor lock computes under the lock.
  lemma MissLocks(s: State, r: Pid, part: string)
    requires r !in s.readers && Key(s.version, part) !in s.entries && Key(s.version, part) !in s.locks
    ensures
      var s', key := Exec(s, [BuildKey(r, part), Lookup(r), TryLock(r)]), Key(s.version, part);
      s'.readers == s.readers[r := Reader(key, s.settled, Computing(true, None))]
  {
    var built := Apply(s, BuildKey(r, part));
    var missed := Apply(built, Lookup(r));
    assert missed.readers[r] == Reader(Key(s.version, part), s.settled, Missed);
    var steps := [BuildKey(r, part), Lookup(r), TryLock(r)];
    assert steps[1..] == [Lookup(r), TryLock(r)];
    assert Exec(s, steps) == Exec(built, [Lookup(r), TryLock(r)]);
    Unroll2(built, [Lookup(r), TryLock(r)]);
  }

  /// Another reader under the same key: the entry expires, the version key expires, and the version is
  /// counted up to that of the key again.
  lemma SecondFlight(s: State, p: Pid) returns (steps: seq<Step>)
    requires p in s.readers && InFlight(s.readers[p]) && s.readers[p].key !in s.locks
    requires s.readers[p].key.version >= 0 && s.floors != []
    ensures NoDrop(steps) && !OneFlightPerKey(Exec(s, steps))
  {
    var q := UnusedNumber(s.writers.Keys);
    var r := UnusedNumber(s.readers.Keys);
    var key := s.readers[p].key;
    var forget := [DropEntry(key), ExpireVersion];
    var s1 := Exec(s, forget);
    Forgotten(s, key);
    BumpsMoveOnlyTheVersion(s1, q, key.version);
    BumpsDropNothing(q, key.version);
    var bumps, again := Bumps(q, key.version), [BuildKey(r, key.part), Lookup(r), TryLock(r)];
    var s2 := Exec(s1, bumps);
    assert key == Key(s2.version, key.part);
    MissLocks(s2, r, key.part);
    ExecSplit(s, forget, bumps);
    ExecSplit(s, forget + bumps, again);
    steps := forget + bumps + again;
    var s3 := Exec(s, steps);
    assert p in s3.readers && r in s3.readers && s3.readers[p] == s.readers[p] && p != r;
  }

  lemma Forgotten(s: State, key: Key)
    requires s.floors != []
    ensures
      var s' := Exec(s, [DropEntry(key), ExpireVersion]);
      s' == s.(entries := s.entries - {key}, version := 0, floors := s'.floors) && s'.floors != []
  {
    Unroll2(s, [DropEntry(key), ExpireVersion]);
  }

  /// Exactly when an expiry of a stampede lock is safe: when nobody computes under it, or has yet to unlock
  /// it. Otherwise some continuation has a second reader compute the same key under the lock.
  lemma SingleAfterDropIff(s: State, key: Key)
    requires LocksHeld(s) && s.floors != [] && forall p | p in s.readers :: s.readers[p].key.version >= 0
    ensures SingleFromHere(Apply(s, DropLock(key))) <==> !Flying(s, key)
  {
    if p :| p in s.readers && InFlight(s.readers[p]) && s.readers[p].key == key {
      var dropped := Apply(s, DropLock(key));
      var steps := SecondFlight(dropped, p);
      IdleWithoutDrop(dropped, steps);
      assert DropsIdly(dropped, steps) && !OneFlightPerKey(Exec(dropped, steps));
    } else {
      IdleIsEnough(s, key);
    }
  }

  /// What the theorem asks of the state holds in every run.
  lemma {:induction false} RunKeepsVersions(s: State, steps: seq<Step>)
    requires s.floors != [] && s.version >= 0 && forall p | p in s.readers :: s.readers[p].key.version >= 0
    ensures
      var s' := Exec(s, steps);
      s'.floors != [] && s'.version >= 0 && forall p | p in s'.readers :: s'.readers[p].key.version >= 0
    decreases |steps|
  {
    hide Apply;
    if steps != [] {
      StepKeepsVersions(s, steps[0]);
      RunKeepsVersions(Apply(s, steps[0]), steps[1..]);
    }
  }

  lemma StepKeepsVersions(s: State, step: Step)
    requires s.floors != [] && s.version >= 0 && forall p | p in s.readers :: s.readers[p].key.version >= 0
    ensures
      var s' := Apply(s, step);
      s'.floors != [] && s'.version >= 0 && forall p | p in s'.readers :: s'.readers[p].key.version >= 0
  {
    hide ReaderStep;
    match step
    case Write(_) =>
    case Bump(_) =>
    case BuildKey(_, _) =>
    case DropEntry(_) =>
    case DropLock(_) =>
    case ExpireVersion =>
    case _ =>
      if step.pid in s.readers {
        ReaderStepFields(s, step.pid, step);
        ReaderStepReaders(s, step.pid, step);
      }
  }
}
