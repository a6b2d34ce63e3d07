/**
 The two cache backends of src/network/cache.py against one timed map. The
 in-memory backend is a cachetools LRUCache of (value, expiry) pairs; the SQLite
 backend is a table with lazy deletion of expired rows.
 */
module TimedCaches {
  import opened Options

  type Key = string

  datatype Entry<V> = Entry(value: V, expiry: real)

  datatype Op<V> = Get(key: Key, now: real) | Set(key: Key, value: V, ttl: real, now: real)

  // ---------- The timed map: nothing is ever evicted or deleted ----------

  type Timed<V> = map<Key, Entry<V>>

  function Lookup<V>(m: Timed<V>, key: Key, now: real): Option<V> {
    if key in m && now <= m[key].expiry then Some(m[key].value) else None
  }

  function Stored<V>(m: Timed<V>, op: Op<V>): Timed<V> {
    match op
    case Get(_, _) => m
    case Set(key, value, ttl, now) => m[key := Entry(value, now + ttl)]
  }

  function Answer<V>(m: Timed<V>, op: Op<V>): Option<V> {
    match op
    case Get(key, now) => Lookup(m, key, now)
    case Set(_, _, _, _) => None
  }

  ghost predicate ClockForward<V>(clock: real, ops: seq<Op<V>>)
    decreases |ops|
  {
    ops != [] ==> clock <= ops[0].now && ClockForward(ops[0].now, ops[1..])
  }

  function TimedAnswers<V>(m: Timed<V>, ops: seq<Op<V>>): seq<Option<V>>
    decreases |ops|
  {
    if ops == [] then [] else [Answer(m, ops[0])] + TimedAnswers(Stored(m, ops[0]), ops[1..])
  }

  function TimedRun<V>(m: Timed<V>, ops: seq<Op<V>>): Timed<V>
    decreases |ops|
  {
    if ops == [] then m else TimedRun(Stored(m, ops[0]), ops[1..])
  }

  lemma {:induction false} AnswerComesFromRun<V>(m: Timed<V>, ops: seq<Op<V>>, i: nat)
    requires i < |ops|
    ensures |TimedAnswers(m, ops)| == |ops|
    ensures TimedAnswers(m, ops)[i] == Answer(TimedRun(m, ops[..i]), ops[i])
    decreases |ops|
  {
    if i > 0 {
      assert ops[..i][1..] == ops[1..][..i - 1];
      AnswerComesFromRun(Stored(m, ops[0]), ops[1..], i - 1);
    } else if |ops| > 1 {
      AnswerComesFromRun(Stored(m, ops[0]), ops[1..], 0);
    }
  }

  /** No operation from number j on stores the key. */
  ghost predicate Unwritten<V>(ops: seq<Op<V>>, j: nat, key: Key) {
    forall k: nat :: j <= k < |ops| ==> !(ops[k].Set? && ops[k].key == key)
  }

  lemma {:induction false} UnwrittenStays<V>(m: Timed<V>, ops: seq<Op<V>>, key: Key)
    requires Unwritten(ops, 0, key)
    ensures key in TimedRun(m, ops) <==> key in m
    ensures key in m ==> TimedRun(m, ops)[key] == m[key]
    decreases |ops|
  {
    if ops != [] {
      assert forall k: nat :: k < |ops[1..]| ==> ops[1..][k] == ops[k + 1];
      assert !(ops[0].Set? && ops[0].key == key);
      UnwrittenStays(Stored(m, ops[0]), ops[1..], key);
    }
  }

  lemma {:induction false} LastWriteStays<V>(m: Timed<V>, ops: seq<Op<V>>, j: nat)
    requires j < |ops| && ops[j].Set? && Unwritten(ops, j + 1, ops[j].key)
    ensures ops[j].key in TimedRun(m, ops)
    ensures TimedRun(m, ops)[ops[j].key] == Entry(ops[j].value, ops[j].now + ops[j].ttl)
    decreases |ops|
  {
    var rest := ops[1..];
    assert forall k: nat :: k < |rest| ==> rest[k] == ops[k + 1];
    if j == 0 {
      UnwrittenStays(Stored(m, ops[0]), rest, ops[0].key);
    } else {
      LastWriteStays(Stored(m, ops[0]), rest, j - 1);
    }
  }

  /**
   What the timed map means, told from the operations alone: a read answers the value of the last
   write of its key, up to and at the instant ttl after that write, and nothing later or before any write.
   */
  lemma ReadsLastWrite<V>(ops: seq<Op<V>>, i: nat)
    requires i < |ops| && ops[i].Get?
    ensures |TimedAnswers<V>(map[], ops)| == |ops|
    ensures Unwritten(ops[..i], 0, ops[i].key) ==> TimedAnswers(map[], ops)[i] == None
    ensures forall j: nat ::
              j < i && ops[j].Set? && ops[j].key == ops[i].key && Unwritten(ops[..i], j + 1, ops[i].key) ==>
                TimedAnswers(map[], ops)[i] ==
                  if ops[i].now <= ops[j].now + ops[j].ttl then Some(ops[j].value) else None
  {
    var none: Timed<V> := map[];
    var before := ops[..i];
    AnswerComesFromRun(none, ops, i);
    if Unwritten(before, 0, ops[i].key) {
      UnwrittenStays(none, before, ops[i].key);
    }
    forall j: nat | j < i && ops[j].Set? && ops[j].key == ops[i].key && Unwritten(before, j + 1, ops[i].key)
      ensures TimedAnswers(none, ops)[i] ==
                if ops[i].now <= ops[j].now + ops[j].ttl then Some(ops[j].value) else None
    {
      assert before[j] == ops[j];
      LastWriteStays(none, before, j);
    }
  }

  // ---------- The SQLite table ----------

  function TableAfter<V>(rows: Timed<V>, op: Op<V>): Timed<V> {
    match op
    case Get(key, now) => if key in rows && now > rows[key].expiry then rows - {key} else rows
    case Set(key, value, ttl, now) => rows[key := Entry(value, now + ttl)]
  }

  function TableAnswers<V>(rows: Timed<V>, ops: seq<Op<V>>): seq<Option<V>>
    decreases |ops|
  {
    if ops == [] then [] else [Answer(rows, ops[0])] + TableAnswers(TableAfter(rows, ops[0]), ops[1..])
  }

  /** The table is the timed map without some rows that have expired. */
  ghost predicate Lazily<V>(rows: Timed<V>, m: Timed<V>, clock: real) {
    && (forall k <- rows :: k in m && rows[k] == m[k])
    && (forall k <- m :: k in rows || m[k].expiry < clock)
  }

  lemma LazyStep<V>(rows: Timed<V>, m: Timed<V>, clock: real, op: Op<V>)
    requires Lazily(rows, m, clock) && clock <= op.now
    ensures Answer(rows, op) == Answer(m, op)
    ensures Lazily(TableAfter(rows, op), Stored(m, op), op.now)
  {}

  /** On a clock that never goes back, lazy deletion is invisible: the table answers as the timed map does. */
  lemma {:induction false} TableIsTimedMap<V>(rows: Timed<V>, m: Timed<V>, clock: real, ops: seq<Op<V>>)
    requires Lazily(rows, m, clock) && ClockForward(clock, ops)
    ensures TableAnswers(rows, ops) == TimedAnswers(m, ops)
    decreases |ops|
  {
    if ops != [] {
      LazyStep(rows, m, clock, ops[0]);
      TableIsTimedMap(TableAfter(rows, ops[0]), Stored(m, ops[0]), ops[0].now, ops[1..]);
    }
  }

  /** The keys a read found expired and no write has stored since. */
  function Gone<V>(m: Timed<V>, gone: set<Key>, op: Op<V>): set<Key> {
    match op
    case Get(key, now) => if key in m && now > m[key].expiry then gone + {key} else gone
    case Set(key, _, _, _) => gone - {key}
  }

  /** Some read of a key already found expired, and not written since, comes at or before its expiry. */
  ghost predicate ReadsAgain<V>(m: Timed<V>, gone: set<Key>, ops: seq<Op<V>>)
    decreases |ops|
  {
    && ops != []
    && (|| (ops[0].Get? && ops[0].key in gone && Answer(m, ops[0]).Some?)
        || ReadsAgain(Stored(m, ops[0]), Gone(m, gone, ops[0]), ops[1..]))
  }

  /**
   The backend reads the wall clock, which may be set back. Over every sequence of operations, at
   any instants in any order, deletion shows exactly when a key is read at or before its expiry
   after it was already found expired.
   */
  lemma {:induction false} ClockSetBackShows<V>(m: Timed<V>, gone: set<Key>, ops: seq<Op<V>>)
    ensures TableAnswers(m - gone, ops) != TimedAnswers(m, ops) <==> ReadsAgain(m, gone, ops)
    decreases |ops|
  {
    if ops != [] {
      var next, left := Stored(m, ops[0]), Gone(m, gone, ops[0]);
      assert TableAfter(m - gone, ops[0]) == next - left;
      ClockSetBackShows(next, left, ops[1..]);
      SameAnswers(m - gone, m, ops);
    }
  }

  lemma SameAnswers<V>(rows: Timed<V>, m: Timed<V>, ops: seq<Op<V>>)
    requires ops != []
    ensures TableAnswers(rows, ops) == TimedAnswers(m, ops) <==>
              Answer(rows, ops[0]) == Answer(m, ops[0])
              && TableAnswers(TableAfter(rows, ops[0]), ops[1..]) == TimedAnswers(Stored(m, ops[0]), ops[1..])
  {
    assert TableAnswers(rows, ops)[0] == Answer(rows, ops[0]);
    assert TimedAnswers(m, ops)[0] == Answer(m, ops[0]);
    assert TableAnswers(rows, ops)[1..] == TableAnswers(TableAfter(rows, ops[0]), ops[1..]);
    assert TimedAnswers(m, ops)[1..] == TimedAnswers(Stored(m, ops[0]), ops[1..]);
  }

  // ---------- The in-memory LRU ----------

  /** `order` lists the keys of `entries`, least recently used first. */
  datatype Lru<V> = Lru(maxsize: int, entries: Timed<V>, order: seq<Key>)

  function Without(order: seq<Key>, key: Key): seq<Key> {
    if order == [] then []
    else if order[0] == key then Without(order[1..], key)
    else [order[0]] + Without(order[1..], key)
  }

  function Touch(order: seq<Key>, key: Key): seq<Key> {
    Without(order, key) + [key]
  }

  /** A read touches the key or drops it when expired. A write evicts for a new key only, and stores if one fits. */
  function LruAfter<V>(c: Lru<V>, op: Op<V>): Lru<V> {
    match op
    case Get(key, now) =>
      if key !in c.entries then c
      else if now > c.entries[key].expiry then c.(entries := c.entries - {key}, order := Without(c.order, key))
      else c.(order := Touch(c.order, key))
    case Set(key, value, ttl, now) =>
      if c.maxsize < 1 then c
      else
        var room := if key in c.entries || |c.order| < c.maxsize || c.order == [] then c
                    else c.(entries := c.entries - {c.order[0]}, order := c.order[1..]);
        room.(entries := room.entries[key := Entry(value, now + ttl)], order := Touch(room.order, key))
  }

  ghost predicate Distinct(order: seq<Key>) {
    forall i, j :: 0 <= i < j < |order| ==> order[i] != order[j]
  }

  ghost predicate LruInv<V>(c: Lru<V>) {
    && Distinct(c.order)
    && (forall k :: k in c.entries <==> k in c.order)
    && (c.maxsize >= 0 ==> |c.order| <= c.maxsize)
    && (c.maxsize < 0 ==> c.order == [])
  }

  lemma {:induction false} WithoutIsRemoval(order: seq<Key>, key: Key)
    ensures forall k :: k in Without(order, key) <==> k in order && k != key
    ensures |Without(order, key)| <= |order|
    ensures key in order ==> |Without(order, key)| < |order|
    ensures key !in order ==> Without(order, key) == order
    ensures Distinct(order) ==> Distinct(Without(order, key))
    decreases |order|
  {
    if order != [] {
      WithoutIsRemoval(order[1..], key);
      assert order == [order[0]] + order[1..];
      if Distinct(order) {
        var rest := order[1..];
        assert forall i, j :: 0 <= i < j < |rest| ==> rest[i] == order[i + 1] && rest[j] == order[j + 1];
        assert Distinct(order[1..]);
        assert order[0] !in order[1..];
      }
    }
  }

  lemma TouchKeepsDistinct(order: seq<Key>, key: Key)
    requires Distinct(order)
    ensures Distinct(Touch(order, key))
    ensures forall k :: k in Touch(order, key) <==> k in order || k == key
    ensures |Touch(order, key)| <= |order| + if key in order then 0 else 1
  {
    WithoutIsRemoval(order, key);
  }

  lemma RestOfOrder(order: seq<Key>)
    requires Distinct(order) && order != []
    ensures Distinct(order[1..])
    ensures forall k :: k in order[1..] <==> k in order && k != order[0]
  {
    assert order == [order[0]] + order[1..];
  }

  lemma LruStepKeepsInv<V>(c: Lru<V>, op: Op<V>)
    requires LruInv(c)
    ensures LruInv(LruAfter(c, op)) && LruAfter(c, op).maxsize == c.maxsize
  {
    if op.Set? && op.key !in c.entries && |c.order| >= c.maxsize >= 1 {
      RestOfOrder(c.order);
      TouchKeepsDistinct(c.order[1..], op.key);
    } else {
      WithoutIsRemoval(c.order, op.key);
      TouchKeepsDistinct(c.order, op.key);
    }
  }

  function LruAnswers<V>(c: Lru<V>, ops: seq<Op<V>>): seq<Option<V>>
    decreases |ops|
  {
    if ops == [] then [] else [Answer(c.entries, ops[0])] + LruAnswers(LruAfter(c, ops[0]), ops[1..])
  }

  function LruRun<V>(c: Lru<V>, ops: seq<Op<V>>): Lru<V>
    decreases |ops|
  {
    if ops == [] then c else LruRun(LruAfter(c, ops[0]), ops[1..])
  }

  lemma {:induction false} LruRunKeepsInv<V>(c: Lru<V>, ops: seq<Op<V>>)
    requires LruInv(c)
    ensures LruInv(LruRun(c, ops)) && LruRun(c, ops).maxsize == c.maxsize
    decreases |ops|
  {
    if ops != [] {
      LruStepKeepsInv(c, ops[0]);
      LruRunKeepsInv(LruAfter(c, ops[0]), ops[1..]);
    }
  }

  // ---------- Hits are right ----------

  /** What the cache holds is what was last stored. */
  ghost predicate Holds<V>(c: Lru<V>, m: Timed<V>) {
    forall k <- c.entries :: k in m && c.entries[k] == m[k]
  }

  /** Every in-memory hit, at any clock, is the latest stored value, unexpired; a miss promises nothing. */
  lemma {:induction false} HitsAreLatest<V>(c: Lru<V>, m: Timed<V>, ops: seq<Op<V>>)
    requires LruInv(c) && Holds(c, m)
    ensures |LruAnswers(c, ops)| == |TimedAnswers(m, ops)| == |ops|
    ensures forall i :: 0 <= i < |ops| && LruAnswers(c, ops)[i].Some? ==>
              LruAnswers(c, ops)[i] == TimedAnswers(m, ops)[i]
    decreases |ops|
  {
    if ops != [] {
      LruStepKeepsInv(c, ops[0]);
      HitsAreLatest(LruAfter(c, ops[0]), Stored(m, ops[0]), ops[1..]);
    }
  }

  /** The backends agree: on one operation sequence and clock, every in-memory hit is a SQLite hit of the same value. */
  lemma BackendsAgree<V>(maxsize: int, clock: real, ops: seq<Op<V>>)
    requires ClockForward(clock, ops)
    ensures |LruAnswers(Lru(maxsize, map[], []), ops)| == |TableAnswers<V>(map[], ops)| == |ops|
    ensures forall i :: 0 <= i < |ops| && LruAnswers(Lru(maxsize, map[], []), ops)[i].Some? ==>
              TableAnswers<V>(map[], ops)[i] == LruAnswers(Lru(maxsize, map[], []), ops)[i]
  {
    TableIsTimedMap<V>(map[], map[], clock, ops);
    HitsAreLatest<V>(Lru(maxsize, map[], []), map[], ops);
  }

  // ---------- Which keys stay ----------

  ghost function KeysOf<V>(ops: seq<Op<V>>): set<Key> {
    set op <- ops :: op.key
  }

  lemma {:induction false} WithoutSplits(a: seq<Key>, b: seq<Key>, x: Key)
    ensures Without(a + b, x) == Without(a, x) + Without(b, x)
    decreases |a|
  {
    if a == [] {
      assert a + b == b;
    } else {
      assert (a + b)[1..] == a[1..] + b;
      WithoutSplits(a[1..], b, x);
    }
  }

  /** A sequence of distinct keys all in a set is no longer than the set. */
  lemma {:induction false} DistinctFits(order: seq<Key>, keys: set<Key>)
    requires Distinct(order) && forall k <- order :: k in keys
    ensures |order| <= |keys|
    decreases |order|
  {
    if order != [] {
      var rest := order[1..];
      assert order == [order[0]] + rest;
      forall i, j | 0 <= i < j < |rest| ensures rest[i] != rest[j] {
        assert rest[i] == order[i + 1] && rest[j] == order[j + 1];
      }
      assert order[0] !in rest;
      DistinctFits(rest, keys - {order[0]});
    }
  }

  /** Every key used more recently than `key` is in `others`. */
  ghost predicate OnlyBehind(order: seq<Key>, key: Key, others: set<Key>) {
    exists a, b :: order == a + [key] + b && forall k <- b :: k in others
  }

  lemma WithoutKeepsPlace(a: seq<Key>, key: Key, b: seq<Key>, x: Key, others: set<Key>)
    requires x != key && forall k <- b :: k in others
    ensures OnlyBehind(Without(a + [key] + b, x), key, others)
    ensures OnlyBehind(Touch(a + [key] + b, x), key, others + {x})
  {
    var a', b' := Without(a, x), Without(b, x);
    WithoutSplits(a + [key], b, x);
    WithoutSplits(a, [key], x);
    assert Without([key], x) == [key];
    var order := a' + [key] + b';
    assert Without(a + [key] + b, x) == order;
    WithoutIsRemoval(b, x);
    assert forall k <- b' :: k in others;
    assert order + [x] == a' + [key] + (b' + [x]);
  }

  /** In a full cache, a key with few enough others behind it is not the first in line. */
  lemma NotFirstInLine(a: seq<Key>, key: Key, b: seq<Key>, x: Key, others: set<Key>)
    requires Distinct(a + [key] + b) && x !in a + [key] + b && forall k <- b :: k in others
    requires |others + {x}| < |a + [key] + b|
    ensures a != []
  {
    var order := a + [key] + b;
    if a == [] {
      var tail := b + [x];
      forall i, j | 0 <= i < j < |tail| ensures tail[i] != tail[j] {
        assert order[i + 1] == tail[i] && (j < |b| ==> order[j + 1] == tail[j]);
      }
      DistinctFits(tail, others + {x});
    }
  }

  /** Writing a new key into a full cache evicts somebody else. */
  lemma EvictionSparesRecent<V>(c: Lru<V>, key: Key, x: Key, others: set<Key>)
    requires LruInv(c) && x !in c.order && |c.order| >= c.maxsize && OnlyBehind(c.order, key, others)
    requires |others + {x}| < c.maxsize && x != key
    ensures c.order != [] && c.order[0] != key && OnlyBehind(Touch(c.order[1..], x), key, others + {x})
  {
    var a, b :| c.order == a + [key] + b && forall k <- b :: k in others;
    NotFirstInLine(a, key, b, x, others);
    assert c.order[1..] == a[1..] + [key] + b;
    assert c.order[|a|] == key;
    WithoutKeepsPlace(a[1..], key, b, x, others);
  }

  lemma BehindIsMember(order: seq<Key>, key: Key, others: set<Key>)
    requires OnlyBehind(order, key, others)
    ensures key in order
  {
    var a, b :| order == a + [key] + b && forall k <- b :: k in others;
    assert order[|a|] == key;
  }

  /** One operation on another key puts at most that key behind, and never evicts a key this recent. */
  lemma OtherKeyPushesBack<V>(c: Lru<V>, op: Op<V>, key: Key, others: set<Key>)
    requires LruInv(c) && op.key != key && OnlyBehind(c.order, key, others)
    requires |others + {op.key}| < c.maxsize
    ensures OnlyBehind(LruAfter(c, op).order, key, others + {op.key})
    ensures key in LruAfter(c, op).entries && LruAfter(c, op).entries[key] == c.entries[key]
  {
    BehindIsMember(c.order, key, others);
    if op.Set? && op.key !in c.entries && |c.order| >= c.maxsize {
      EvictionSparesRecent(c, key, op.key, others);
    } else {
      var a, b :| c.order == a + [key] + b && forall k <- b :: k in others;
      WithoutKeepsPlace(a, key, b, op.key, others);
      Widen(LruAfter(c, op).order, key, others, others + {op.key});
    }
  }

  lemma Widen(order: seq<Key>, key: Key, few: set<Key>, many: set<Key>)
    requires few <= many
    ensures OnlyBehind(order, key, few) ==> OnlyBehind(order, key, many)
  {
    if OnlyBehind(order, key, few) {
      var a, b :| order == a + [key] + b && forall k <- b :: k in few;
      assert forall k <- b :: k in many;
    }
  }

  /**
   An unexpired key is still a hit, with its latest value, if fewer than maxsize distinct other
   keys were touched since: whatever was read or written, hit or missed, expired or not.
   */
  lemma {:induction false} RecentKeyStays<V>(c: Lru<V>, ops: seq<Op<V>>, key: Key, others: set<Key>)
    requires LruInv(c) && OnlyBehind(c.order, key, others)
    requires key !in KeysOf(ops) && |others + KeysOf(ops)| < c.maxsize
    ensures key in c.entries && key in LruRun(c, ops).entries
    ensures LruRun(c, ops).entries[key] == c.entries[key]
    decreases |ops|
  {
    BehindIsMember(c.order, key, others);
    if ops != [] {
      var op, rest := ops[0], ops[1..];
      KeysOfCons(op, rest);
      assert ops == [op] + rest;
      SmallerSet(others + {op.key}, others + KeysOf(ops));
      assert (others + {op.key}) + KeysOf(rest) == others + KeysOf(ops);
      OtherKeyPushesBack(c, op, key, others);
      LruStepKeepsInv(c, op);
      RecentKeyStays(LruAfter(c, op), rest, key, others + {op.key});
    }
  }

  lemma KeysOfCons<V>(op: Op<V>, rest: seq<Op<V>>)
    ensures KeysOf([op] + rest) == {op.key} + KeysOf(rest)
  {
    forall k | k in {op.key} + KeysOf(rest)
      ensures k in KeysOf([op] + rest)
    {
      if k == op.key {
        assert op in [op] + rest;
      } else {
        var o :| o in rest && o.key == k;
        assert o in [op] + rest;
      }
    }
  }

  lemma SmallerSet(a: set<Key>, b: set<Key>)
    requires a <= b
    ensures |a| <= |b|
  {
    assert a + (b - a) == b;
  }

  /**
   After a write of `key`, or a read that hit it, a later read at an unexpired instant hits with
   the value last stored, if fewer than maxsize distinct other keys were touched in between.
   */
  lemma TouchedKeyIsHit<V>(c: Lru<V>, m: Timed<V>, touch: Op<V>, ops: seq<Op<V>>, now: real)
    requires LruInv(c) && Holds(c, m) && c.maxsize >= 1
    requires touch.Set? || Answer(c.entries, touch).Some?
    requires touch.key !in KeysOf(ops) && |KeysOf(ops)| < c.maxsize
    ensures Lookup(LruRun(LruAfter(c, touch), ops).entries, touch.key, now)
         == Lookup(Stored(m, touch), touch.key, now)
  {
    var next := LruAfter(c, touch);
    LruStepKeepsInv(c, touch);
    var n := |next.order| - 1;
    assert next.order == next.order[..n] + [touch.key] + [];
    assert {} + KeysOf(ops) == KeysOf(ops);
    RecentKeyStays(next, ops, touch.key, {});
  }

  function Writes<V>(keys: seq<Key>, value: V, now: real): seq<Op<V>> {
    if keys == [] then [] else [Set(keys[0], value, 1.0, now)] + Writes(keys[1..], value, now)
  }

  lemma {:induction false} KeysOfWrites<V>(keys: seq<Key>, value: V, now: real)
    ensures |KeysOf(Writes(keys, value, now))| <= |keys|
    ensures forall k :: k in KeysOf(Writes(keys, value, now)) ==> k in keys
    decreases |keys|
  {
    if keys != [] {
      KeysOfWrites(keys[1..], value, now);
      KeysOfCons(Set(keys[0], value, 1.0, now), Writes(keys[1..], value, now));
    }
  }

  /** A write puts its key last and leaves the order of the recently written ones alone. */
  lemma WriteGoesLast<V>(c: Lru<V>, front: seq<Key>, recent: seq<Key>, op: Op<V>) returns (front': seq<Key>)
    requires LruInv(c) && op.Set? && c.order == front + recent && c.maxsize > |recent| && op.key !in recent
    ensures LruAfter(c, op).order == front' + (recent + [op.key])
  {
    var x := op.key;
    WithoutIsRemoval(recent, x);
    if x !in c.entries && |c.order| >= c.maxsize {
      assert c.order[1..] == front[1..] + recent;
      WithoutSplits(front[1..], recent, x);
      front' := Without(front[1..], x);
    } else {
      WithoutSplits(front, recent, x);
      front' := Without(front, x);
    }
  }

  /** Distinct keys written in a row end up as the most recent ones, in order. */
  lemma {:induction false} WritesAreMostRecent<V>(c: Lru<V>, front: seq<Key>, recent: seq<Key>, keys: seq<Key>,
                                                 value: V, now: real) returns (front': seq<Key>)
    requires LruInv(c) && c.order == front + recent && c.maxsize >= |recent| + |keys| && Distinct(recent + keys)
    ensures LruRun(c, Writes(keys, value, now)).order == front' + (recent + keys)
    decreases |keys|
  {
    if keys == [] {
      front' := front;
      assert recent + keys == recent;
    } else {
      var op := Set(keys[0], value, 1.0, now);
      forall n | 0 <= n < |recent| ensures recent[n] != keys[0] {
        assert (recent + keys)[n] == recent[n] && (recent + keys)[|recent|] == keys[0];
      }
      var next := WriteGoesLast(c, front, recent, op);
      LruStepKeepsInv(c, op);
      assert recent + keys == (recent + [keys[0]]) + keys[1..];
      assert Writes(keys, value, now)[1..] == Writes(keys[1..], value, now);
      front' := WritesAreMostRecent(LruAfter(c, op), next, recent + [keys[0]], keys[1..], value, now);
    }
  }

  /** Exactly: a key just used survives writes of distinct other keys if and only if they number fewer than maxsize. */
  lemma SurvivesIffFewerThanMaxsize<V>(c: Lru<V>, key: Key, keys: seq<Key>, value: V, now: real)
    requires LruInv(c) && c.order != [] && c.order[|c.order| - 1] == key
    requires Distinct(keys) && key !in keys
    ensures key in LruRun(c, Writes(keys, value, now)).entries <==> |keys| < c.maxsize
  {
    if |keys| < c.maxsize {
      StaysBehindFew(c, key, keys, value, now);
    } else {
      GoneBehindMany(c, key, keys, value, now);
    }
  }

  lemma StaysBehindFew<V>(c: Lru<V>, key: Key, keys: seq<Key>, value: V, now: real)
    requires LruInv(c) && c.order != [] && c.order[|c.order| - 1] == key
    requires key !in keys && |keys| < c.maxsize
    ensures key in LruRun(c, Writes(keys, value, now)).entries
  {
    var writes, n := Writes(keys, value, now), |c.order| - 1;
    KeysOfWrites(keys, value, now);
    assert {} + KeysOf(writes) == KeysOf(writes);
    assert c.order == c.order[..n] + [key] + [];
    RecentKeyStays(c, writes, key, {});
  }

  lemma GoneBehindMany<V>(c: Lru<V>, key: Key, keys: seq<Key>, value: V, now: real)
    requires LruInv(c) && Distinct(keys) && key !in keys && 0 <= c.maxsize <= |keys|
    ensures key !in LruRun(c, Writes(keys, value, now)).entries
  {
    var first, later := keys[..c.maxsize], keys[c.maxsize..];
    assert keys == first + later;
    EvictedByMaxsize(c, key, first, value, now);
    RunSplits(c, first, later, value, now);
    LruRunKeepsInv(c, Writes(first, value, now));
    NeverReturns(LruRun(c, Writes(first, value, now)), later, key, value, now);
  }

  /** Maxsize writes of distinct other keys fill the cache. */
  lemma EvictedByMaxsize<V>(c: Lru<V>, key: Key, keys: seq<Key>, value: V, now: real)
    requires LruInv(c) && Distinct(keys) && key !in keys && |keys| == c.maxsize
    ensures key !in LruRun(c, Writes(keys, value, now)).entries
  {
    var none: seq<Key> := [];
    assert none + keys == keys && c.order + none == c.order;
    var front := WritesAreMostRecent(c, c.order, none, keys, value, now);
    var full := LruRun(c, Writes(keys, value, now));
    LruRunKeepsInv(c, Writes(keys, value, now));
    assert full.order == front + keys;
    assert front == [];
  }

  lemma {:induction false} RunSplits<V>(c: Lru<V>, a: seq<Key>, b: seq<Key>, value: V, now: real)
    ensures LruRun(c, Writes(a + b, value, now)) == LruRun(LruRun(c, Writes(a, value, now)), Writes(b, value, now))
    decreases |a|
  {
    if a == [] {
      assert a + b == b;
    } else {
      assert (a + b)[1..] == a[1..] + b;
      var op := Set(a[0], value, 1.0, now);
      assert Writes(a, value, now)[1..] == Writes(a[1..], value, now);
      assert Writes(a + b, value, now)[1..] == Writes(a[1..] + b, value, now);
      RunSplits(LruAfter(c, op), a[1..], b, value, now);
    }
  }

  lemma {:induction false} NeverReturns<V>(c: Lru<V>, keys: seq<Key>, key: Key, value: V, now: real)
    requires LruInv(c) && key !in c.entries && key !in keys
    ensures key !in LruRun(c, Writes(keys, value, now)).entries
    decreases |keys|
  {
    if keys != [] {
      var op := Set(keys[0], value, 1.0, now);
      LruStepKeepsInv(c, op);
      assert Writes(keys, value, now)[1..] == Writes(keys[1..], value, now);
      NeverReturns(LruAfter(c, op), keys[1..], key, value, now);
    }
  }

  // ---------- The backends ----------

  class InMemoryTtlCache<V> {
    const maxsize: int
    var entries: Timed<V>
    var order: seq<Key>

    ghost function State(): Lru<V>
      reads this
    {
      Lru(maxsize, entries, order)
    }

    ghost predicate Valid()
      reads this
    {
      LruInv(State())
    }

    constructor (maxsize: int)
      ensures Valid() && State() == Lru(maxsize, map[], [])
    {
      this.maxsize := maxsize;
      entries, order := map[], [];
    }

    method Get(key: Key, now: real) returns (value: Option<V>)
      requires Valid()
      modifies this
      ensures Valid()
      ensures State() == LruAfter(old(State()), Op.Get(key, now))
      ensures value == Lookup(old(entries), key, now)
      ensures value.None? ==> key !in entries
    {
      LruStepKeepsInv(State(), Op.Get(key, now));
      if key !in entries {
        return None;
      }
      var entry := entries[key];
      WithoutIsRemoval(Without(order, key) + [key], key);
      if now > entry.expiry {
        entries := entries - {key};
        order := Without(order, key);
        return None;
      }
      order := Touch(order, key);
      return Some(entry.value);
    }

    /** `stored` is false where the library refuses an item larger than the whole cache. */
    method Set(key: Key, value: V, ttl: real, now: real) returns (stored: bool)
      requires Valid()
      modifies this
      ensures Valid()
      ensures State() == LruAfter(old(State()), Op.Set(key, value, ttl, now))
      ensures stored <==> maxsize >= 1
      ensures stored ==> Lookup(entries, key, now) == if ttl >= 0.0 then Some(value) else None
      ensures |order| <= if maxsize >= 0 then maxsize else 0
    {
      LruStepKeepsInv(State(), Op.Set(key, value, ttl, now));
      if maxsize < 1 {
        return false;
      }
      var expiry := now + ttl;
      if key !in entries {
        while order != [] && |order| + 1 > maxsize
          invariant State() == old(State()) ||
                    (|old(order)| >= maxsize && old(order) != [] && State().maxsize == maxsize
                     && entries == old(entries) - {old(order)[0]} && order == old(order)[1..] && |order| < maxsize)
          decreases |order|
        {
          entries := entries - {order[0]};
          order := order[1..];
        }
      }
      entries := entries[key := Entry(value, expiry)];
      order := Touch(order, key);
      return true;
    }
  }

  /** `connected` is the cached connection; every operation reopens it on demand, so closing loses nothing. */
  class SqliteCacheBackend<V> {
    var rows: Timed<V>
    var connected: bool

    constructor ()
      ensures rows == map[]
    {
      rows := map[];
      connected := true;
    }

    method Get(key: Key, now: real) returns (value: Option<V>)
      modifies this
      ensures rows == TableAfter(old(rows), Op.Get(key, now))
      ensures value == Lookup(old(rows), key, now)
      ensures value.None? ==> key !in rows
      ensures connected
    {
      connected := true;
      if key !in rows {
        return None;
      }
      var row := rows[key];
      if now > row.expiry {
        rows := rows - {key};
        return None;
      }
      return Some(row.value);
    }

    method Set(key: Key, value: V, ttl: real, now: real)
      modifies this
      ensures rows == TableAfter(old(rows), Op.Set(key, value, ttl, now))
      ensures connected
    {
      connected := true;
      var expiry := now + ttl;
      rows := rows[key := Entry(value, expiry)];
    }

    method Close()
      modifies this
      ensures rows == old(rows) && !connected
    {
      connected := false;
    }
  }
}
