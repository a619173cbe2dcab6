/**
 Rotating selection of provider keys with cooldowns (internal/reliability/keyselector.go).
 */
module KeySelector {
  import opened Wrappers
  import opened Failure

  /** The zero time: no cooldown. The clock always shows a later time. */
  const ZERO_TIME: int := 0

  datatype Key = Key(id: string, disabled: bool, cooldownUntil: int, version: nat)

  datatype Selection = Selection(index: nat, version: nat)

  /** The rotation counter is a 64-bit word. */
  const WORD: nat := 0x1_0000_0000_0000_0000

  predicate Eligible(key: Key, excluded: set<string>) {
    key.id !in excluded && !key.disabled
  }

  predicate Available(key: Key, excluded: set<string>, now: int) {
    Eligible(key, excluded) && key.cooldownUntil <= now
  }

  predicate Cooling(key: Key, excluded: set<string>, now: int) {
    Eligible(key, excluded) && now < key.cooldownUntil
  }

  /** The key visited at an offset; the sum wraps at the word size before the remainder is taken. */
  function Visited(start: nat, offset: nat, count: nat): (index: nat)
    requires count > 0
    ensures index < count
  {
    (start + offset) % WORD % count
  }

  /** A remaining cooldown that is the least among the given offsets; None when nothing cools. */
  predicate LeastCooldown(
    keys: seq<Key>, excluded: set<string>, now: int, start: nat, upTo: nat, least: Option<int>)
    requires |keys| > 0
  {
    match least
    case None =>
      forall offset | 0 <= offset < upTo :: !Cooling(keys[Visited(start, offset, |keys|)], excluded, now)
    case Some(until) =>
      && now < until
      && (exists offset | 0 <= offset < upTo ::
            Cooling(keys[Visited(start, offset, |keys|)], excluded, now) &&
            keys[Visited(start, offset, |keys|)].cooldownUntil == until)
      && (forall offset | 0 <= offset < upTo ::
            Cooling(keys[Visited(start, offset, |keys|)], excluded, now) ==>
              until <= keys[Visited(start, offset, |keys|)].cooldownUntil)
  }

  predicate PreferredAvailable(keys: seq<Key>, preferred: string, excluded: set<string>, now: int) {
    preferred != "" && exists k | 0 <= k < |keys| :: keys[k].id == preferred && Available(keys[k], excluded, now)
  }

  /** What a call that starts its scan at `start` answers. */
  predicate Answers(
    keys: seq<Key>, preferred: string, excluded: set<string>, now: int, start: nat,
    result: Result<Selection, Option<int>>)
    requires |keys| > 0
  {
    match result
    case Ok(selection) =>
      && selection.index < |keys|
      && selection.version == keys[selection.index].version
      && Available(keys[selection.index], excluded, now)
      && (PreferredAvailable(keys, preferred, excluded, now) ==> keys[selection.index].id == preferred)
      && (!PreferredAvailable(keys, preferred, excluded, now) ==>
            exists offset | 0 <= offset < |keys| :: FirstAvailable(keys, excluded, now, start, offset, selection.index))
    case Err(retryAfter) =>
      && !PreferredAvailable(keys, preferred, excluded, now)
      && (forall offset | 0 <= offset < |keys| :: !Available(keys[Visited(start, offset, |keys|)], excluded, now))
      && LeastCooldown(keys, excluded, now, start, |keys|,
                       if retryAfter.Some? then Some(now + retryAfter.value) else None)
  }

  predicate FirstAvailable(
    keys: seq<Key>, excluded: set<string>, now: int, start: nat, offset: nat, index: nat)
    requires |keys| > 0
  {
    index == Visited(start, offset, |keys|) &&
    forall earlier | 0 <= earlier < offset ::
      !Available(keys[Visited(start, earlier, |keys|)], excluded, now)
  }

  /** The state of a key after a call that used it in state `version` came back. */
  function KeyAfter(key: Key, version: nat, failure: Option<Failure>, now: int): Key {
    match failure
    case None =>
      if !key.disabled && key.version == version then key.(cooldownUntil := ZERO_TIME) else key
    case Some(f) =>
      if f.category == KeyUnauthorized then
        key.(disabled := true, cooldownUntil := ZERO_TIME, version := key.version + 1)
      else if f.category == UpstreamRateLimit && !key.disabled then
        var until := now + CooldownOf(f);
        key.(cooldownUntil := if until > key.cooldownUntil then until else key.cooldownUntil,
             version := key.version + 1)
      else key
  }

  function CooldownOf(failure: Failure): int {
    var cooldown := if failure.retryAfterSet then failure.retryAfter else DEFAULT_COOLDOWN;
    if cooldown > MAXIMUM_RETRY_AFTER then MAXIMUM_RETRY_AFTER else cooldown
  }

  class Selector {
    var keys: seq<Key>
    var next: nat

    ghost predicate Valid()
      reads this
    {
      1 <= |keys| <= 1000 && next < WORD
    }

    constructor (keys: seq<Key>)
      requires 1 <= |keys| <= 1000
      ensures Valid() && this.keys == keys && next == 0
    {
      this.keys, next := keys, 0;
    }

    method FindPreferred(preferred: string, excluded: set<string>, now: int) returns (found: Option<nat>)
      requires preferred != ""
      ensures found.Some? <==> PreferredAvailable(keys, preferred, excluded, now)
      ensures found.Some? ==> found.value < |keys| && keys[found.value].id == preferred &&
                              Available(keys[found.value], excluded, now)
    {
      var i := 0;
      while i < |keys|
        invariant 0 <= i <= |keys|
        invariant forall k | 0 <= k < i :: !(keys[k].id == preferred && Available(keys[k], excluded, now))
      {
        var key := keys[i];
        if key.id == preferred && key.id !in excluded && !key.disabled && !(now < key.cooldownUntil) {
          return Some(i);
        }
        i := i + 1;
      }
      found := None;
    }

    method SelectKey(preferred: string, excluded: set<string>, now: int)
      returns (result: Result<Selection, Option<int>>)
      requires Valid() && ZERO_TIME <= now
      modifies this`next
      ensures Valid()
      ensures Answers(keys, preferred, excluded, now, old(next), result)
      ensures next == if PreferredAvailable(keys, preferred, excluded, now) then old(next) else (old(next) + 1) % WORD
    {
      if preferred != "" {
        var found := FindPreferred(preferred, excluded, now);
        if found.Some? {
          return Ok(Selection(found.value, keys[found.value].version));
        }
      }
      var start := next;
      next := (next + 1) % WORD;
      var earliest := ZERO_TIME;
      var offset := 0;
      while offset < |keys|
        invariant 0 <= offset <= |keys|
        invariant forall k | 0 <= k < offset :: !Available(keys[Visited(start, k, |keys|)], excluded, now)
        invariant LeastCooldown(keys, excluded, now, start, offset,
                                if earliest == ZERO_TIME then None else Some(earliest))
      {
        var index := Visited(start, offset, |keys|);
        var key := keys[index];
        offset := offset + 1;
        if key.id in excluded {
          continue;
        }
        if key.disabled {
          continue;
        }
        if now < key.cooldownUntil {
          if earliest == ZERO_TIME || key.cooldownUntil < earliest {
            earliest := key.cooldownUntil;
          }
          continue;
        }
        assert FirstAvailable(keys, excluded, now, start, offset - 1, index);
        return Ok(Selection(index, key.version));
      }
      result := Err(if earliest == ZERO_TIME then None else Some(earliest - now));
    }

    method Complete(selection: SelectionHandle, failure: Option<Failure>, now: int) returns (first: bool)
      requires Valid() && selection.selection.index < |keys|
      modifies this`keys, selection
      ensures Valid() && first == !old(selection.completed) && selection.completed
      ensures var index := selection.selection.index;
              keys == if first
                      then old(keys)[index := KeyAfter(old(keys[index]), selection.selection.version, failure, now)]
                      else old(keys)
    {
      if selection.completed {
        return false;
      }
      selection.completed := true;
      var index := selection.selection.index;
      var key := keys[index];
      if failure.None? {
        if !key.disabled && key.version == selection.selection.version {
          key := key.(cooldownUntil := ZERO_TIME);
        }
      } else if failure.value.category == KeyUnauthorized {
        key := key.(disabled := true);
        key := key.(cooldownUntil := ZERO_TIME);
        key := key.(version := key.version + 1);
      } else if failure.value.category == UpstreamRateLimit && !key.disabled {
        var cooldown := DEFAULT_COOLDOWN;
        if failure.value.retryAfterSet {
          cooldown := failure.value.retryAfter;
        }
        if cooldown > MAXIMUM_RETRY_AFTER {
          cooldown := MAXIMUM_RETRY_AFTER;
        }
        if now + cooldown > key.cooldownUntil {
          key := key.(cooldownUntil := now + cooldown);
        }
        key := key.(version := key.version + 1);
      }
      keys := keys[index := key];
      first := true;
    }
  }

  /** A selection in a caller's hands; it reports at most once. */
  class SelectionHandle {
    const selection: Selection
    var completed: bool

    constructor (selection: Selection)
      ensures this.selection == selection && !completed
    {
      this.selection, completed := selection, false;
    }
  }

  // ---------------------------------------------------------------- which keys a scan visits

  predicate Visits(start: nat, count: nat, index: nat)
    requires count > 0
  {
    exists offset | 0 <= offset < count :: Visited(start, offset, count) == index
  }

  predicate Covers(start: nat, count: nat)
    requires count > 0
  {
    forall index | 0 <= index < count :: Visits(start, count, index)
  }

  lemma RemainderIs(x: nat, count: nat, quotient: nat, remainder: nat)
    requires x == quotient * count + remainder && remainder < count
    ensures x % count == remainder
  {
    var q, r := x / count, x % count;
    assert x == q * count + r;
    if q < quotient {
      MultiplyAtLeast(quotient - q, count);
      assert false;
    } else if q > quotient {
      MultiplyAtLeast(q - quotient, count);
      assert false;
    }
  }

  lemma MultiplyAtLeast(factor: nat, count: nat)
    requires factor >= 1
    ensures factor * count >= count
  {
  }

  lemma RemainderOfSum(start: nat, offset: nat, count: nat)
    requires count > 0 && offset < count
    ensures (start + offset) % count ==
            if start % count + offset < count then start % count + offset else start % count + offset - count
  {
    var q, r := start / count, start % count;
    assert start == q * count + r;
    if r + offset < count {
      RemainderIs(start + offset, count, q, r + offset);
    } else {
      assert (q + 1) * count == q * count + count;
      RemainderIs(start + offset, count, q + 1, r + offset - count);
    }
  }

  /** The visited index spelled out on both sides of the wrap. */
  lemma VisitedIs(start: nat, offset: nat, count: nat)
    requires 0 < count && offset < count <= WORD && start < WORD
    ensures Visited(start, offset, count) ==
            if start + offset >= WORD then start + offset - WORD
            else if start % count + offset < count then start % count + offset
            else start % count + offset - count
  {
    if start + offset >= WORD {
      RemainderIs(start + offset, WORD, 1, start + offset - WORD);
      RemainderIs(start + offset - WORD, count, 0, start + offset - WORD);
    } else {
      RemainderIs(start + offset, WORD, 0, start + offset);
      RemainderOfSum(start, offset, count);
    }
  }

  lemma WordRemainder(start: nat, count: nat)
    requires start < WORD < start + count && 0 < count <= WORD
    ensures WORD % count == 0 <==> start % count == count - (WORD - start)
  {
    RemainderOfSum(start, WORD - start, count);
    assert start + (WORD - start) == WORD;
  }

  lemma CoversWithoutWrap(start: nat, count: nat, index: nat)
    requires 0 < count <= WORD && start + count <= WORD && index < count
    ensures Visits(start, count, index)
  {
    var r := start % count;
    var offset := if r <= index then index - r else index - r + count;
    VisitedIs(start, offset, count);
  }

  lemma CoversWithWrap(start: nat, count: nat, index: nat)
    requires 0 < count <= WORD && start < WORD < start + count && WORD % count == 0 && index < count
    ensures Visits(start, count, index)
  {
    WordRemainder(start, count);
    var before := WORD - start;
    var offset := if index < count - before then index + before else index - (count - before);
    VisitedIs(start, offset, count);
  }

  lemma MissesAfterWrap(start: nat, count: nat) returns (missed: nat)
    requires 0 < count <= WORD && start < WORD < start + count && WORD % count != 0
    ensures missed < count && !Visits(start, count, missed)
  {
    WordRemainder(start, count);
    var before := WORD - start;
    var r := start % count;
    missed := if r > count - before then r - 1 else count - 1;
    forall offset | 0 <= offset < count
      ensures Visited(start, offset, count) != missed
    {
      VisitedIs(start, offset, count);
    }
  }

  /** A scan visits every key exactly when the counter does not wrap during it, or wraps evenly. */
  lemma CoversExactly(start: nat, count: nat)
    requires 0 < count <= WORD && start < WORD
    ensures Covers(start, count) <==> start + count <= WORD || WORD % count == 0
  {
    if start + count <= WORD {
      forall index | 0 <= index < count ensures Visits(start, count, index) {
        CoversWithoutWrap(start, count, index);
      }
    } else if WORD % count == 0 {
      forall index | 0 <= index < count ensures Visits(start, count, index) {
        CoversWithWrap(start, count, index);
      }
    } else {
      var missed := MissesAfterWrap(start, count);
    }
  }

  predicate SomeAvailable(keys: seq<Key>, excluded: set<string>, now: int) {
    exists k | 0 <= k < |keys| :: Available(keys[k], excluded, now)
  }

  /** The shortest remaining cooldown over all keys that are neither excluded nor disabled. */
  predicate ShortestCooldown(keys: seq<Key>, excluded: set<string>, now: int, retryAfter: Option<int>) {
    match retryAfter
    case None => forall k | 0 <= k < |keys| :: !Cooling(keys[k], excluded, now)
    case Some(delay) =>
      && delay > 0
      && (exists k | 0 <= k < |keys| :: Cooling(keys[k], excluded, now) && keys[k].cooldownUntil == now + delay)
      && (forall k | 0 <= k < |keys| :: Cooling(keys[k], excluded, now) ==> now + delay <= keys[k].cooldownUntil)
  }

  /** With full coverage the answer is about all keys: a failure means none is available. */
  lemma AnswersForAllKeys(
    keys: seq<Key>, preferred: string, excluded: set<string>, now: int, start: nat,
    result: Result<Selection, Option<int>>)
    requires |keys| > 0 && Covers(start, |keys|) && Answers(keys, preferred, excluded, now, start, result)
    ensures result.Ok? <==> SomeAvailable(keys, excluded, now)
    ensures result.Err? ==> ShortestCooldown(keys, excluded, now, result.error)
  {
    if result.Err? {
      forall k | 0 <= k < |keys|
        ensures !Available(keys[k], excluded, now)
      {
        assert Visits(start, |keys|, k);
      }
      EveryKeyCooled(keys, excluded, now, start, result.error);
    }
  }

  lemma EveryKeyCooled(keys: seq<Key>, excluded: set<string>, now: int, start: nat, retryAfter: Option<int>)
    requires |keys| > 0 && Covers(start, |keys|)
    requires LeastCooldown(keys, excluded, now, start, |keys|,
                           if retryAfter.Some? then Some(now + retryAfter.value) else None)
    ensures ShortestCooldown(keys, excluded, now, retryAfter)
  {
    hide Cooling, Visited;
    forall k | 0 <= k < |keys| && Cooling(keys[k], excluded, now)
      ensures retryAfter.Some? && now + retryAfter.value <= keys[k].cooldownUntil
    {
      assert Visits(start, |keys|, k);
    }
  }

  /** A key that was answered with 401 on its first use. */
  function Rejected(id: string): Key {
    KeyAfter(Key(id, false, ZERO_TIME, 0), 0, Some(Plain(KeyUnauthorized)), ZERO_TIME)
  }

  /** The keys after the first `done` of them, except one, were rejected on their first use. */
  function AllButOne(ids: seq<string>, spared: nat, done: nat): (keys: seq<Key>)
    ensures |keys| == |ids| && forall k | 0 <= k < |ids| :: keys[k].id == ids[k]
  {
    seq(|ids|, k requires 0 <= k < |ids| =>
      if k < done && k != spared then Rejected(ids[k]) else Key(ids[k], false, ZERO_TIME, 0))
  }

  /** Without coverage a call can fail although a key is available, whatever the keys are called. */
  lemma CanMissTheOnlyKey(start: nat, ids: seq<string>, now: int) returns (missed: nat)
    requires var count := |ids|;
             0 < count <= WORD && start < WORD < start + count && WORD % count != 0 && ZERO_TIME <= now
    ensures missed < |ids| && SomeAvailable(AllButOne(ids, missed, |ids|), {}, now)
    ensures Answers(AllButOne(ids, missed, |ids|), "", {}, now, start, Err(None))
  {
    missed := MissesAfterWrap(start, |ids|);
    var keys := AllButOne(ids, missed, |ids|);
    assert Available(keys[missed], {}, now);
    assert forall offset | 0 <= offset < |ids| :: Visited(start, offset, |ids|) != missed;
  }

  /** For example, with three keys and the counter at its last value the last key is skipped. */
  lemma ThreeKeysCanMissOne()
    ensures !Covers(WORD - 1, 3)
  {
    CoversExactly(WORD - 1, 3);
  }
}
