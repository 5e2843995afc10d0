/// What an expiry of the version key can do to the read-through cache: exactly when it lets a later
/// reader see a value older than a write it is owed.
module CacheExpiry {
  import opened Common
  import opened VersionedCache

  ghost predicate NoExpiry(steps: seq<Step>) {
    forall i | 0 <= i < |steps| :: !steps[i].ExpireVersion?
  }

  ghost predicate Fresh(s: State) {
    forall p | p in s.readers && s.readers[p].pc.Done? :: Covers(s.readers[p].pc.value, s.readers[p].due)
  }

  /// Every continuation without a further expiry returns only values its readers are owed.
  ghost predicate FreshFromHere(s: State) {
    forall steps :: NoExpiry(steps) ==> Fresh(Exec(s, steps))
  }

  lemma {:induction false} HarmlessWithoutExpiry(s: State, steps: seq<Step>)
    requires NoExpiry(steps)
    ensures ExpiresHarmlessly(s, steps)
    decreases |steps|
  {
    if steps != [] {
      HarmlessWithoutExpiry(Apply(s, steps[0]), steps[1..]);
    }
  }

  lemma InvIsFresh(s: State)
    requires Inv(s)
    ensures Fresh(s)
  {
    forall p | p in s.readers && s.readers[p].pc.Done?
      ensures Covers(s.readers[p].pc.value, s.readers[p].due)
    {
      assert ReaderInv(s, s.readers[p]);
    }
  }

  lemma HarmlessIsEnough(s: State)
    requires Inv(s) && Harmless(s)
    ensures FreshFromHere(Apply(s, ExpireVersion))
  {
    var expired := Apply(s, ExpireVersion);
    ExpiryKeepsInv(s);
    forall steps | NoExpiry(steps)
      ensures Fresh(Exec(expired, steps))
    {
      HarmlessWithoutExpiry(expired, steps);
      RunKeepsInv(expired, steps);
      InvIsFresh(Exec(expired, steps));
    }
  }

  // ----- The runs that go wrong ---------------------------------------------------------------------

  /// `n` writes, each invalidated.
  function Bumps(q: Pid, n: nat): seq<Step> {
    if n == 0 then [] else Bumps(q, n - 1) + [Write(q), Bump(q)]
  }

  /// Only the database and the version have moved, and the last of the writes is settled.
  ghost predicate Bumped(s: State, s': State, n: nat) {
    && s'.version == s.version + n && s'.db == s.db + n
    && s'.entries == s.entries && s'.readers == s.readers && s'.locks == s.locks && s'.writers == s.writers
    && s.settled <= s'.settled && (n > 0 ==> s'.db in s'.settled)
    && s'.floors != []
  }

  lemma OneBump(s: State, q: Pid)
    requires q !in s.writers && s.floors != []
    ensures Bumped(s, Exec(s, [Write(q), Bump(q)]), 1)
  {
    var written := Apply(s, Write(q));
    var bumped := Apply(written, Bump(q));
    assert Exec(s, [Write(q), Bump(q)]) == bumped by {
      Unroll2(s, [Write(q), Bump(q)]);
    }
    assert bumped.writers == s.writers;
  }

  lemma {:induction false} BumpsMoveOnlyTheVersion(s: State, q: Pid, n: nat)
    requires q !in s.writers && s.floors != []
    ensures Bumped(s, Exec(s, Bumps(q, n)), n) && NoExpiry(Bumps(q, n))
  {
    if n > 0 {
      BumpsMoveOnlyTheVersion(s, q, n - 1);
      ExecSplit(s, Bumps(q, n - 1), [Write(q), Bump(q)]);
      OneBump(Exec(s, Bumps(q, n - 1)), q);
    }
  }

  lemma Unroll2(s: State, steps: seq<Step>)
    requires |steps| == 2
    ensures Exec(s, steps) == Apply(Apply(s, steps[0]), steps[1])
  {
    assert Exec(Apply(s, steps[0]), steps[1..]) == Exec(Apply(Apply(s, steps[0]), steps[1]), []);
  }

  /// A reader that meets an entry older than a settled write returns it.
  lemma StaleHit(s: State, r: Pid, part: string, w: nat)
    requires r !in s.readers && Key(s.version, part) in s.entries
    requires w in s.settled && s.entries[Key(s.version, part)] < w
    ensures !Fresh(Exec(s, [BuildKey(r, part), Lookup(r)]))
  {
    var built := Apply(s, BuildKey(r, part));
    assert built.readers[r] == Reader(Key(s.version, part), s.settled, Keyed);
    var found := Apply(built, Lookup(r));
    assert found.readers[r] == Reader(Key(s.version, part), s.settled, Done(s.entries[Key(s.version, part)]));
    Unroll2(s, [BuildKey(r, part), Lookup(r)]);
  }

  /// The version counts up to that of a leftover entry, and the entry is served.
  lemma OldEntryComesBack(s: State, part: string, n: nat, w: nat) returns (steps: seq<Step>)
    requires s.version == 0 && s.floors != [] && Key(n, part) in s.entries
    requires s.entries[Key(n, part)] <= s.db
    requires n == 0 ==> w in s.settled && s.entries[Key(n, part)] < w
    ensures NoExpiry(steps) && !Fresh(Exec(s, steps))
  {
    var q := UnusedNumber(s.writers.Keys);
    var r := UnusedNumber(s.readers.Keys);
    BumpsMoveOnlyTheVersion(s, q, n);
    var bumped := Exec(s, Bumps(q, n));
    StaleHit(bumped, r, part, if n == 0 then w else bumped.db);
    ExecSplit(s, Bumps(q, n), [BuildKey(r, part), Lookup(r)]);
    steps := Bumps(q, n) + [BuildKey(r, part), Lookup(r)];
  }

  /// Only reader `p` has moved, to a computation that has read a state of the database.
  ghost predicate Computed(s: State, s': State, p: Pid) {
    && s' == s.(readers := s'.readers, locks := s'.locks)
    && p in s.readers && p in s'.readers && s'.readers[p].key == s.readers[p].key
    && s'.readers[p].pc.Computing? && s'.readers[p].pc.oldest.Some? && s'.readers[p].pc.oldest.value <= s'.db
  }

  lemma ComputedChain(s: State, middle: State, s': State, p: Pid)
    requires middle == s.(readers := middle.readers, locks := middle.locks)
    requires p in s.readers && p in middle.readers && middle.readers[p].key == s.readers[p].key
    requires Computed(middle, s', p)
    ensures Computed(s, s', p)
  {
  }

  /// A reader that finds no entry can be driven to compute: the lock may have expired, or it has
  /// waited long enough.
  lemma {:induction false} DriveToCompute(s: State, p: Pid) returns (steps: seq<Step>)
    requires p in s.readers && Open(s.readers[p].pc) && s.readers[p].key !in s.entries
    requires s.readers[p].pc.Computing? && s.readers[p].pc.oldest.Some? ==> s.readers[p].pc.oldest.value <= s.db
    ensures NoExpiry(steps) && Computed(s, Exec(s, steps), p)
    decreases match s.readers[p].pc
      case Keyed => MAX_WAITS + 3
      case Missed => MAX_WAITS + 2
      case Waiting(i) => Max(0, MAX_WAITS - i) + 1
      case _ => 0
  {
    var r := s.readers[p];
    if r.pc.Computing? {
      steps := [Query(p)];
      assert Exec(s, steps) == Apply(s, Query(p));
    } else {
      var first := if r.pc.Keyed? then Lookup(p) else if r.pc.Missed? then DropLock(r.key) else Poll(p);
      if r.pc.Missed? {
        var freed := Apply(s, first);
        var locked := Apply(freed, TryLock(p));
        assert locked.readers[p] == r.(pc := Computing(true, None));
        var rest := DriveToCompute(locked, p);
        steps := [first, TryLock(p)] + rest;
        ExecSplit(s, [first, TryLock(p)], rest);
        Unroll2(s, [first, TryLock(p)]);
        ComputedChain(s, locked, Exec(locked, rest), p);
      } else {
        var next := Apply(s, first);
        assert next.readers[p].pc == if r.pc.Keyed? then Missed
          else if r.pc.tries + 1 < MAX_WAITS then Waiting(r.pc.tries + 1) else Computing(false, None);
        var rest := DriveToCompute(next, p);
        steps := [first] + rest;
        assert steps[1..] == rest;
        ComputedChain(s, next, Exec(next, rest), p);
      }
    }
  }

  /// A leftover computation stores what it has read, under a version that then comes round again.
  lemma OldComputationStores(s: State, p: Pid, n: nat, w: nat) returns (steps: seq<Step>)
    requires s.version == 0 && s.floors != [] && p in s.readers && s.readers[p].key.version == n
    requires s.readers[p].pc.Computing? && s.readers[p].pc.oldest.Some? && s.readers[p].pc.oldest.value <= s.db
    requires n == 0 ==> w in s.settled && s.readers[p].pc.oldest.value < w
    ensures NoExpiry(steps) && !Fresh(Exec(s, steps))
  {
    var r := s.readers[p];
    var stored := Apply(s, Store(p));
    assert stored.entries == s.entries[r.key := r.pc.oldest.value];
    assert r.key == Key(n, r.key.part);
    var rest := OldEntryComesBack(stored, r.key.part, n, w);
    steps := [Store(p)] + rest;
    assert steps[1..] == rest;
  }

  /// A leftover reader that has computed nothing yet does so before the version comes round.
  lemma OldReaderComesBack(s: State, p: Pid) returns (steps: seq<Step>)
    requires s.version == 0 && s.floors != [] && p in s.readers && Open(s.readers[p].pc)
    requires s.readers[p].key.version >= 1
    requires s.readers[p].pc.Computing? && s.readers[p].pc.oldest.Some? ==> s.readers[p].pc.oldest.value <= s.db
    requires forall key | key in s.entries :: s.entries[key] <= s.db
    ensures NoExpiry(steps) && !Fresh(Exec(s, steps))
  {
    var key := s.readers[p].key;
    assert key == Key(key.version, key.part);
    if key in s.entries {
      steps := OldEntryComesBack(s, key.part, key.version, 0);
    } else {
      var drive := DriveToCompute(s, p);
      var rest := OldComputationStores(Exec(s, drive), p, key.version, 0);
      steps := drive + rest;
      ExecSplit(s, drive, rest);
    }
  }

  lemma NotHarmlessGoesStale(s: State) returns (steps: seq<Step>)
    requires Inv(s) && !Harmless(s)
    ensures NoExpiry(steps) && !Fresh(Exec(Apply(s, ExpireVersion), steps))
  {
    hide Fresh, NoExpiry;
    var expired, last := Apply(s, ExpireVersion), s.floors[s.version];
    if key :| key in s.entries && !(key.version == 0 && last <= s.entries[key]) {
      assert key == Key(key.version, key.part);
      steps := OldEntryComesBack(expired, key.part, key.version, last);
    } else {
      var p :| p in s.readers && Open(s.readers[p].pc)
        && !(s.readers[p].key.version == 0
             && (s.readers[p].pc.Computing? && s.readers[p].pc.oldest.Some? ==> last <= s.readers[p].pc.oldest.value));
      assert ReaderInv(s, s.readers[p]);
      if s.readers[p].key.version == 0 {
        steps := OldComputationStores(expired, p, 0, last);
      } else {
        steps := OldReaderComesBack(expired, p);
      }
    }
  }

  /// Exactly when an expiry of the version key is safe: when no entry and no open reader of a later
  /// version is left, and what is left of version 0 includes the newest settled write. Otherwise some
  /// continuation counts the version up again and serves a value older than a write it owes.
  lemma FreshAfterExpiryIff(s: State)
    requires Inv(s)
    ensures FreshFromHere(Apply(s, ExpireVersion)) <==> Harmless(s)
  {
    if Harmless(s) {
      HarmlessIsEnough(s);
    } else {
      var steps := NotHarmlessGoesStale(s);
      assert NoExpiry(steps) && !Fresh(Exec(Apply(s, ExpireVersion), steps));
    }
  }

  // ----- An ordinary day -------------------------------------------------------------------------------

  const ONE_WRITE_ONE_READ :=
    [Write(9), Bump(9), BuildKey(1, "x"), Lookup(1), TryLock(1), Query(1), Store(1), Unlock(1)]

  lemma Unroll4(s: State, steps: seq<Step>)
    requires |steps| == 4
    ensures Exec(s, steps) == Apply(Apply(Apply(Apply(s, steps[0]), steps[1]), steps[2]), steps[3])
  {
    assert steps == steps[..2] + steps[2..];
    ExecSplit(s, steps[..2], steps[2..]);
    Unroll2(s, steps[..2]);
    Unroll2(Exec(s, steps[..2]), steps[2..]);
  }

  lemma FirstHalf()
    ensures
      var s := Exec(START, [Write(9), Bump(9), BuildKey(1, "x"), Lookup(1)]);
      s == State(1, 1, map[], map[], map[], map[1 := Reader(Key(1, "x"), {1}, Missed)], {1}, [0, 1])
  {
    var bumped := Apply(Apply(START, Write(9)), Bump(9));
    assert bumped == State(1, 1, map[], map[], map[], map[], {1}, [0, 1]);
    Unroll4(START, [Write(9), Bump(9), BuildKey(1, "x"), Lookup(1)]);
  }

  lemma MissComputes(s: State)
    requires s == State(1, 1, map[], map[], map[], map[1 := Reader(Key(1, "x"), {1}, Missed)], {1}, [0, 1])
    ensures Apply(Apply(s, TryLock(1)), Query(1))
      == s.(locks := map[Key(1, "x") := 1], readers := map[1 := Reader(Key(1, "x"), {1}, Computing(true, Some(1)))])
  {
    assert Apply(s, TryLock(1)).readers[1].pc == Computing(true, None);
  }

  lemma ComputedIsStored(s: State)
    requires s == State(1, 1, map[], map[Key(1, "x") := 1], map[],
                        map[1 := Reader(Key(1, "x"), {1}, Computing(true, Some(1)))], {1}, [0, 1])
    ensures Apply(Apply(s, Store(1)), Unlock(1))
      == s.(entries := map[Key(1, "x") := 1], locks := map[], readers := map[1 := Reader(Key(1, "x"), {1}, Done(1))])
  {
    assert Apply(s, Store(1)).readers[1].pc == Unlocking(1);
  }

  lemma SecondHalf(s: State)
    requires s == State(1, 1, map[], map[], map[], map[1 := Reader(Key(1, "x"), {1}, Missed)], {1}, [0, 1])
    ensures Exec(s, [TryLock(1), Query(1), Store(1), Unlock(1)])
      == State(1, 1, map[Key(1, "x") := 1], map[], map[], map[1 := Reader(Key(1, "x"), {1}, Done(1))], {1}, [0, 1])
  {
    Unroll4(s, [TryLock(1), Query(1), Store(1), Unlock(1)]);
    hide *;
    MissComputes(s);
    ComputedIsStored(Apply(Apply(s, TryLock(1)), Query(1)));
  }

  lemma OrdinaryDay()
    ensures Exec(START, ONE_WRITE_ONE_READ)
      == State(1, 1, map[Key(1, "x") := 1], map[], map[], map[1 := Reader(Key(1, "x"), {1}, Done(1))], {1}, [0, 1])
  {
    hide Exec, Apply;
    var first, second := [Write(9), Bump(9), BuildKey(1, "x"), Lookup(1)], [TryLock(1), Query(1), Store(1), Unlock(1)];
    assert ONE_WRITE_ONE_READ == first + second;
    ExecSplit(START, first, second);
    FirstHalf();
    SecondHalf(Exec(START, first));
  }

  lemma OrdinaryDayKeepsInv()
    ensures Inv(Exec(START, ONE_WRITE_ONE_READ))
  {
    assert Inv(START);
    hide Exec, Apply, Inv;
    HarmlessWithoutExpiry(START, ONE_WRITE_ONE_READ);
    RunKeepsInv(START, ONE_WRITE_ONE_READ);
  }

  /// No slow reader is needed: after one write and one finished read, an expiry under the stored
  /// entry lets the next write's readers see the value from before it.
  lemma EntryOutlivesTheVersionKey()
    ensures
      var s := Exec(START, ONE_WRITE_ONE_READ);
      && Inv(s) && (forall p | p in s.readers :: s.readers[p].pc.Done?)
      && s.entries == map[Key(1, "x") := 1]
      && !FreshFromHere(Apply(s, ExpireVersion))
  {
    hide Exec, Apply, Inv, FreshFromHere;
    OrdinaryDay();
    OrdinaryDayKeepsInv();
    var s := Exec(START, ONE_WRITE_ONE_READ);
    assert Key(1, "x") in s.entries && !Harmless(s);
    FreshAfterExpiryIff(s);
  }
}
