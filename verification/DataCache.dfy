// The dispatcher's prefetch cache: bounded by bytes, least recently accessed
// entries evicted first, hit and miss counters.
module DataCache {
  import opened Protocol

  datatype Entry = Entry(key: string, data: Bytes, lastAccess: real)

  /** Entries in dictionary order; total is the running byte count kept beside them. */
  datatype Cache = Cache(entries: seq<Entry>, total: int, hits: nat, misses: nat)

  const EMPTY := Cache([], 0, 0, 0)

  ghost predicate DistinctKeys(entries: seq<Entry>) {
    forall i, j :: 0 <= i < j < |entries| ==> entries[i].key != entries[j].key
  }

  function Position(entries: seq<Entry>, key: string): (r: Option<nat>)
    ensures r.Some? ==> r.value < |entries| && entries[r.value].key == key
    ensures r == None ==> forall i :: 0 <= i < |entries| ==> entries[i].key != key
  {
    if entries == [] then None
    else if entries[0].key == key then Some(0)
    else match Position(entries[1..], key) case None => None case Some(i) => Some(i + 1)
  }

  predicate Holds(entries: seq<Entry>, key: string) {
    Position(entries, key).Some?
  }

  /** The bytes cached under key. */
  function DataAt(entries: seq<Entry>, key: string): Option<Bytes> {
    match Position(entries, key) case None => None case Some(i) => Some(entries[i].data)
  }

  function Held(entries: seq<Entry>): nat {
    if entries == [] then 0 else |entries[0].data| + Held(entries[1..])
  }

  function Dropped(entries: seq<Entry>, i: nat): seq<Entry>
    requires i < |entries|
  {
    entries[..i] + entries[i + 1..]
  }

  /** The entry to evict: the first in dictionary order among the least recently accessed. */
  function Oldest(entries: seq<Entry>): (i: nat)
    requires entries != []
    ensures i < |entries|
    ensures forall j :: 0 <= j < |entries| ==> entries[i].lastAccess <= entries[j].lastAccess
    ensures forall j :: 0 <= j < i ==> entries[i].lastAccess < entries[j].lastAccess
  {
    if |entries| == 1 then 0
    else
      var i := Oldest(entries[1..]);
      if entries[0].lastAccess <= entries[1..][i].lastAccess then 0 else i + 1
  }

  /** Evicts until size more bytes fit by the running count, or nothing is left. */
  function MakeRoom(c: Cache, size: nat, max: int): Cache
    decreases |c.entries|
  {
    if c.total + size <= max || c.entries == [] then c
    else
      MakeRoom(WithoutOldest(c), size, max)
  }

  function WithoutOldest(c: Cache): Cache
    requires c.entries != []
  {
    var i := Oldest(c.entries);
    c.(entries := Dropped(c.entries, i), total := c.total - |c.entries[i].data|)
  }

  /** Dictionary assignment: an existing key keeps its position. */
  function Assigned(entries: seq<Entry>, e: Entry): seq<Entry> {
    match Position(entries, e.key)
    case None => entries + [e]
    case Some(i) => entries[i := e]
  }

  datatype Op =
    | GetRef(key: string, now: real)
    | Put(key: string, data: Bytes, now: real)
    | Invalidate(key: string)
    | Clear

  function Step(c: Cache, op: Op, max: int): Cache {
    match op
    case GetRef(key, now) =>
      (match Position(c.entries, key)
       case None => c.(misses := c.misses + 1)
       case Some(i) => c.(entries := c.entries[i := c.entries[i].(lastAccess := now)], hits := c.hits + 1))
    case Put(key, data, now) =>
      var room := MakeRoom(c, |data|, max);
      room.(entries := Assigned(room.entries, Entry(key, data, now)), total := room.total + |data|)
    case Invalidate(key) =>
      (match Position(c.entries, key)
       case None => c
       case Some(i) => c.(entries := Dropped(c.entries, i), total := c.total - |c.entries[i].data|))
    case Clear => EMPTY
  }

  function Run(c: Cache, ops: seq<Op>, max: int): Cache
    decreases ops
  {
    if ops == [] then c else Run(Step(c, ops[0], max), ops[1..], max)
  }

  // ---------------------------------------------------------------- what is held, and how often it was found

  /** The bytes that the operations last put under the key, unless they dropped them since. */
  function LastPut(ops: seq<Op>, key: string): Option<Bytes> {
    if ops == [] then None
    else
      var rest := ops[..|ops| - 1];
      match ops[|ops| - 1]
      case GetRef(_, _) => LastPut(rest, key)
      case Put(k, data, _) => if k == key then Some(data) else LastPut(rest, key)
      case Invalidate(k) => if k == key then None else LastPut(rest, key)
      case Clear => None
  }

  /** Every entry is what was last put under its key. */
  ghost predicate Current(entries: seq<Entry>, ops: seq<Op>) {
    forall i :: 0 <= i < |entries| ==> LastPut(ops, entries[i].key) == Some(entries[i].data)
  }

  lemma {:induction false} RoomCurrent(c: Cache, size: nat, max: int, ops: seq<Op>)
    requires Current(c.entries, ops) && DistinctKeys(c.entries)
    ensures Current(MakeRoom(c, size, max).entries, ops) && DistinctKeys(MakeRoom(c, size, max).entries)
    decreases |c.entries|
  {
    if !(c.total + size <= max || c.entries == []) {
      RoomCurrent(WithoutOldest(c), size, max, ops);
    }
  }

  lemma StepCurrent(c: Cache, op: Op, max: int, ops: seq<Op>)
    requires Current(c.entries, ops) && DistinctKeys(c.entries)
    ensures Current(Step(c, op, max).entries, ops + [op]) && DistinctKeys(Step(c, op, max).entries)
  {
    assert (ops + [op])[..|ops|] == ops;
    if op.Put? {
      RoomCurrent(c, |op.data|, max, ops);
    }
  }

  lemma {:induction false} RunCurrent(c: Cache, before: seq<Op>, ops: seq<Op>, max: int)
    requires Current(c.entries, before) && DistinctKeys(c.entries)
    ensures Current(Run(c, ops, max).entries, before + ops) && DistinctKeys(Run(c, ops, max).entries)
    decreases ops
  {
    if ops == [] {
      assert before + ops == before;
    } else {
      StepCurrent(c, ops[0], max, before);
      RunCurrent(Step(c, ops[0], max), before + [ops[0]], ops[1..], max);
      assert before + [ops[0]] + ops[1..] == before + ops;
    }
  }

  /** How many of the look-ups found their key, or did not. */
  function LookUps(c: Cache, ops: seq<Op>, max: int, found: bool): nat
    decreases ops
  {
    if ops == [] then 0
    else
      LookUps(Step(c, ops[0], max), ops[1..], max, found) +
      if ops[0].GetRef? && DataAt(c.entries, ops[0].key).Some? == found then 1 else 0
  }

  lemma {:induction false} CountersTally(c: Cache, ops: seq<Op>, max: int)
    requires forall i :: 0 <= i < |ops| ==> !ops[i].Clear?
    ensures var c' := Run(c, ops, max);
            c'.hits == c.hits + LookUps(c, ops, max, true) && c'.misses == c.misses + LookUps(c, ops, max, false)
    decreases ops
  {
    if ops != [] {
      if ops[0].Put? {
        RoomCounters(c, |ops[0].data|, max);
      }
      CountersTally(Step(c, ops[0], max), ops[1..], max);
    }
  }

  lemma {:induction false} RoomCounters(c: Cache, size: nat, max: int)
    ensures MakeRoom(c, size, max).hits == c.hits && MakeRoom(c, size, max).misses == c.misses
    decreases |c.entries|
  {
    if !(c.total + size <= max || c.entries == []) {
      RoomCounters(WithoutOldest(c), size, max);
    }
  }

  /** In every run from an empty cache, bytes found under a key are those last put there and not dropped
      since, and hits and misses are the look-ups that found their key and that did not. */
  lemma FindsLastPut(ops: seq<Op>, max: int, key: string)
    ensures var c := Run(EMPTY, ops, max);
            && (DataAt(c.entries, key).Some? ==> DataAt(c.entries, key) == LastPut(ops, key))
            && ((forall i :: 0 <= i < |ops| ==> !ops[i].Clear?) ==>
                 c.hits == LookUps(EMPTY, ops, max, true) && c.misses == LookUps(EMPTY, ops, max, false))
  {
    RunCurrent(EMPTY, [], ops, max);
    assert [] + ops == ops;
    if forall i :: 0 <= i < |ops| ==> !ops[i].Clear? {
      CountersTally(EMPTY, ops, max);
    }
  }

  // ---------------------------------------------------------------- byte accounting

  /** Bytes of entries overwritten in place since the last Clear, on top of leaked earlier ones. */
  function OverwrittenFrom(leaked: nat, c: Cache, ops: seq<Op>, max: int): nat
    decreases ops
  {
    if ops == [] then leaked
    else OverwrittenFrom(LeakStep(leaked, c, ops[0], max), Step(c, ops[0], max), ops[1..], max)
  }

  function LeakStep(leaked: nat, c: Cache, op: Op, max: int): nat {
    match op
    case Put(key, data, _) =>
      (match DataAt(MakeRoom(c, |data|, max).entries, key)
       case None => leaked
       case Some(stale) => leaked + |stale|)
    case Clear => 0
    case _ => leaked
  }

  lemma {:induction false} BytesConcat(a: seq<Entry>, b: seq<Entry>)
    ensures Held(a + b) == Held(a) + Held(b)
  {
    if a == [] {
      assert a + b == b;
    } else {
      assert (a + b)[1..] == a[1..] + b;
      BytesConcat(a[1..], b);
    }
  }

  lemma BytesOf(entries: seq<Entry>, i: nat)
    requires i < |entries|
    ensures Held(entries) == Held(Dropped(entries, i)) + |entries[i].data|
  {
    assert entries == entries[..i] + ([entries[i]] + entries[i + 1..]);
    BytesConcat(entries[..i], [entries[i]] + entries[i + 1..]);
    BytesConcat([entries[i]], entries[i + 1..]);
    BytesConcat(entries[..i], entries[i + 1..]);
  }

  lemma BytesUpdated(entries: seq<Entry>, i: nat, e: Entry)
    requires i < |entries|
    ensures Held(entries[i := e]) == Held(entries) - |entries[i].data| + |e.data|
  {
    BytesOf(entries, i);
    BytesOf(entries[i := e], i);
    assert Dropped(entries[i := e], i) == Dropped(entries, i);
  }

  lemma {:induction false} MakeRoomAccount(c: Cache, size: nat, max: int)
    ensures var r := MakeRoom(c, size, max); c.total - r.total == Held(c.entries) - Held(r.entries)
    ensures var r := MakeRoom(c, size, max); r.entries == [] || r.total + size <= max
    decreases |c.entries|
  {
    if !(c.total + size <= max || c.entries == []) {
      BytesOf(c.entries, Oldest(c.entries));
      MakeRoomAccount(WithoutOldest(c), size, max);
    }
  }

  lemma {:induction false} MakeRoomDistinct(c: Cache, size: nat, max: int)
    requires DistinctKeys(c.entries)
    ensures DistinctKeys(MakeRoom(c, size, max).entries)
    decreases |c.entries|
  {
    if !(c.total + size <= max || c.entries == []) {
      DroppedKeys(c.entries, Oldest(c.entries));
      MakeRoomDistinct(WithoutOldest(c), size, max);
    }
  }

  lemma AssignedAccount(entries: seq<Entry>, e: Entry)
    requires DistinctKeys(entries)
    ensures DistinctKeys(Assigned(entries, e))
    ensures Held(Assigned(entries, e)) ==
      Held(entries) + |e.data| - (match DataAt(entries, e.key) case None => 0 case Some(stale) => |stale|)
  {
    match Position(entries, e.key)
    case None => BytesConcat(entries, [e]);
    case Some(i) => BytesUpdated(entries, i, e);
  }

  lemma AccountStep(c: Cache, op: Op, max: int, leaked: nat)
    requires DistinctKeys(c.entries) && c.total == Held(c.entries) + leaked
    ensures DistinctKeys(Step(c, op, max).entries)
    ensures Step(c, op, max).total == Held(Step(c, op, max).entries) + LeakStep(leaked, c, op, max)
  {
    match op
    case Clear =>
    case GetRef(key, now) =>
      if Holds(c.entries, key) {
        var i := Position(c.entries, key).value;
        BytesUpdated(c.entries, i, c.entries[i].(lastAccess := now));
      }
    case Invalidate(key) =>
      if Holds(c.entries, key) {
        var i := Position(c.entries, key).value;
        BytesOf(c.entries, i);
        DroppedKeys(c.entries, i);
      }
    case Put(key, data, now) =>
      MakeRoomAccount(c, |data|, max);
      MakeRoomDistinct(c, |data|, max);
      AssignedAccount(MakeRoom(c, |data|, max).entries, Entry(key, data, now));
  }

  /** The running count exceeds the bytes really held by exactly the bytes overwritten in
      place since the last Clear; it is exact if and only if there are none. */
  lemma {:induction false} RunningCount(c: Cache, ops: seq<Op>, max: int, leaked: nat)
    requires DistinctKeys(c.entries) && c.total == Held(c.entries) + leaked
    ensures DistinctKeys(Run(c, ops, max).entries)
    ensures Run(c, ops, max).total == Held(Run(c, ops, max).entries) + OverwrittenFrom(leaked, c, ops, max)
    decreases ops
  {
    if ops != [] {
      AccountStep(c, ops[0], max, leaked);
      RunningCount(Step(c, ops[0], max), ops[1..], max, LeakStep(leaked, c, ops[0], max));
    }
  }

  /** Sequential use: a put follows only a miss. */
  ghost predicate PutsOnMisses(c: Cache, ops: seq<Op>, max: int)
    decreases ops
  {
    ops == [] ||
    ((ops[0].Put? ==> !Holds(c.entries, ops[0].key)) && PutsOnMisses(Step(c, ops[0], max), ops[1..], max))
  }

  lemma {:induction false} MakeRoomMisses(c: Cache, size: nat, max: int, key: string)
    requires !Holds(c.entries, key)
    ensures !Holds(MakeRoom(c, size, max).entries, key)
    decreases |c.entries|
  {
    if !(c.total + size <= max || c.entries == []) {
      MakeRoomMisses(WithoutOldest(c), size, max, key);
    }
  }

  lemma {:induction false} NothingOverwritten(c: Cache, ops: seq<Op>, max: int)
    requires PutsOnMisses(c, ops, max)
    ensures OverwrittenFrom(0, c, ops, max) == 0
    decreases ops
  {
    if ops != [] {
      if ops[0].Put? {
        MakeRoomMisses(c, |ops[0].data|, max, ops[0].key);
      }
      NothingOverwritten(Step(c, ops[0], max), ops[1..], max);
    }
  }

  /** Where puts follow only misses the running count is exact in every state. */
  lemma CountExactOnMisses(ops: seq<Op>, max: int)
    requires PutsOnMisses(EMPTY, ops, max)
    ensures Run(EMPTY, ops, max).total == Held(Run(EMPTY, ops, max).entries)
  {
    RunningCount(EMPTY, ops, max, 0);
    NothingOverwritten(EMPTY, ops, max);
  }

  /** Right after a put, either the cache is within its bound or the new entry is alone. */
  lemma BoundAfterPut(ops: seq<Op>, key: string, data: Bytes, now: real, max: int)
    ensures var c := Step(Run(EMPTY, ops, max), Put(key, data, now), max);
            Held(c.entries) <= max || c.entries == [Entry(key, data, now)]
  {
    RunningCount(EMPTY, ops, max, 0);
    var before := Run(EMPTY, ops, max);
    var leaked := OverwrittenFrom(0, EMPTY, ops, max);
    AccountStep(before, Put(key, data, now), max, leaked);
    MakeRoomAccount(before, |data|, max);
  }

  /** Once the overwritten bytes exceed the bound the cache retains nothing across puts. */
  lemma LeakDefeatsCaching(ops: seq<Op>, key: string, data: Bytes, now: real, max: int)
    requires OverwrittenFrom(0, EMPTY, ops, max) > max
    ensures Step(Run(EMPTY, ops, max), Put(key, data, now), max).entries == [Entry(key, data, now)]
  {
    RunningCount(EMPTY, ops, max, 0);
    MakeRoomAccount(Run(EMPTY, ops, max), |data|, max);
  }

  // ---------------------------------------------------------------- what a put evicts

  function Keys(entries: seq<Entry>): set<string> {
    set i | 0 <= i < |entries| :: entries[i].key
  }

  function Restrict(entries: seq<Entry>, keys: set<string>): seq<Entry> {
    if entries == [] then []
    else if entries[0].key in keys then [entries[0]] + Restrict(entries[1..], keys)
    else Restrict(entries[1..], keys)
  }

  lemma {:induction false} RestrictConcat(a: seq<Entry>, b: seq<Entry>, keys: set<string>)
    ensures Restrict(a + b, keys) == Restrict(a, keys) + Restrict(b, keys)
  {
    if a == [] {
      assert a + b == b;
    } else {
      assert (a + b)[1..] == a[1..] + b;
      RestrictConcat(a[1..], b, keys);
    }
  }

  lemma RestrictDropped(entries: seq<Entry>, i: nat, keys: set<string>)
    requires i < |entries| && entries[i].key !in keys
    ensures Restrict(Dropped(entries, i), keys) == Restrict(entries, keys)
  {
    assert entries == entries[..i] + ([entries[i]] + entries[i + 1..]);
    RestrictConcat(entries[..i], [entries[i]] + entries[i + 1..], keys);
    RestrictConcat([entries[i]], entries[i + 1..], keys);
    RestrictConcat(entries[..i], entries[i + 1..], keys);
  }

  lemma {:induction false} RestrictToOwnKeys(entries: seq<Entry>, keys: set<string>)
    requires Keys(entries) <= keys
    ensures Restrict(entries, keys) == entries
  {
    if entries != [] {
      assert entries[0].key in Keys(entries);
      forall k | k in Keys(entries[1..])
        ensures k in keys
      {
        var i :| 0 <= i < |entries[1..]| && entries[1..][i].key == k;
        assert entries[i + 1].key in Keys(entries);
      }
      RestrictToOwnKeys(entries[1..], keys);
    }
  }

  lemma DroppedKeys(entries: seq<Entry>, i: nat)
    requires i < |entries| && DistinctKeys(entries)
    ensures Keys(Dropped(entries, i)) == Keys(entries) - {entries[i].key}
    ensures DistinctKeys(Dropped(entries, i))
  {
    var d := Dropped(entries, i);
    forall k | k in Keys(entries) - {entries[i].key}
      ensures k in Keys(d)
    {
      var j :| 0 <= j < |entries| && entries[j].key == k;
      assert d[if j < i then j else j - 1].key == k;
    }
  }

  predicate Survives(c: Cache, size: nat, max: int, key: string) {
    key in Keys(MakeRoom(c, size, max).entries)
  }

  /** What survives making room keeps its dictionary order. */
  lemma {:induction false} SurvivorsInOrder(c: Cache, size: nat, max: int)
    requires DistinctKeys(c.entries)
    ensures var kept := MakeRoom(c, size, max).entries;
            Keys(kept) <= Keys(c.entries) && kept == Restrict(c.entries, Keys(kept))
    decreases |c.entries|
  {
    if c.total + size <= max || c.entries == [] {
      RestrictToOwnKeys(c.entries, Keys(c.entries));
    } else {
      var o := Oldest(c.entries);
      DroppedKeys(c.entries, o);
      SurvivorsInOrder(WithoutOldest(c), size, max);
      RestrictDropped(c.entries, o, Keys(MakeRoom(WithoutOldest(c), size, max).entries));
    }
  }

  /** Making room evicts a prefix of the entries in order of last access: the survivors keep
      their dictionary order, and nothing evicted is more recent than a survivor. */
  lemma EvictsLruPrefix(c: Cache, size: nat, max: int)
    requires DistinctKeys(c.entries)
    ensures var kept := MakeRoom(c, size, max).entries;
            Keys(kept) <= Keys(c.entries) && kept == Restrict(c.entries, Keys(kept))
    ensures forall i, j :: 0 <= i < |c.entries| && 0 <= j < |c.entries| ==>
              Survives(c, size, max, c.entries[i].key) || !Survives(c, size, max, c.entries[j].key) ||
              c.entries[i].lastAccess <= c.entries[j].lastAccess
  {
    SurvivorsInOrder(c, size, max);
    forall i, j | 0 <= i < |c.entries| && 0 <= j < |c.entries| && c.entries[j].lastAccess < c.entries[i].lastAccess
      ensures Survives(c, size, max, c.entries[j].key) ==> Survives(c, size, max, c.entries[i].key)
    {
      SurvivesIff(c, size, max, i);
      SurvivesIff(c, size, max, j);
      LaterHasMoreBefore(c.entries, c.entries[j].lastAccess, j, c.entries[i].lastAccess, i);
    }
  }

  lemma {:induction false} LaterHasMoreBefore(entries: seq<Entry>, stamp: real, k: nat, stamp': real, k': nat)
    requires stamp < stamp'
    ensures BytesBefore(entries, stamp, k) <= BytesBefore(entries, stamp', k')
  {
    if entries != [] {
      LaterHasMoreBefore(entries[1..], stamp, if k > 0 then k - 1 else 0, stamp', if k' > 0 then k' - 1 else 0);
    }
  }

  lemma DroppedAt(entries: seq<Entry>, o: nat, i: nat)
    requires o < |entries| && i < |entries| && i != o
    ensures Dropped(entries, o)[if i < o then i else i - 1] == entries[i]
  {
  }

  /** The entry evicted first does not survive; whether another one does is settled afterwards. */
  lemma OldestIsEvicted(c: Cache, size: nat, max: int)
    requires DistinctKeys(c.entries) && MakeRoom(c, size, max) != c
    ensures c.entries != [] && MakeRoom(c, size, max) == MakeRoom(WithoutOldest(c), size, max)
    ensures DistinctKeys(WithoutOldest(c).entries)
    ensures !Survives(c, size, max, c.entries[Oldest(c.entries)].key)
  {
    DroppedKeys(c.entries, Oldest(c.entries));
    SurvivorsInOrder(WithoutOldest(c), size, max);
  }

  lemma OthersSurvive(c: Cache, size: nat, max: int)
    requires DistinctKeys(c.entries) && MakeRoom(c, size, max) != c
    requires c.entries != [] && MakeRoom(c, size, max) == WithoutOldest(c)
    ensures forall i :: 0 <= i < |c.entries| && i != Oldest(c.entries) ==> Survives(c, size, max, c.entries[i].key)
  {
    var o, next := Oldest(c.entries), WithoutOldest(c);
    forall i | 0 <= i < |c.entries| && i != o
      ensures c.entries[i].key in Keys(next.entries)
    {
      DroppedAt(c.entries, o, i);
    }
  }

  /** ... and a shortest such prefix: unless nothing was evicted, there is a most recent
      evicted entry with which the data would still not have fitted. */
  lemma {:induction false} EvictsNoMoreThanNeeded(c: Cache, size: nat, max: int) returns (last: nat)
    requires DistinctKeys(c.entries) && MakeRoom(c, size, max) != c
    ensures last < |c.entries| && !Survives(c, size, max, c.entries[last].key)
    ensures MakeRoom(c, size, max).total + |c.entries[last].data| + size > max
    ensures forall i :: 0 <= i < |c.entries| && !Survives(c, size, max, c.entries[i].key) ==>
              c.entries[i].lastAccess <= c.entries[last].lastAccess
    decreases |c.entries|
  {
    OldestIsEvicted(c, size, max);
    var o, next := Oldest(c.entries), WithoutOldest(c);
    if MakeRoom(next, size, max) == next {
      last := o;
      OthersSurvive(c, size, max);
    } else {
      var l := EvictsNoMoreThanNeeded(next, size, max);
      last := if l < o then l else l + 1;
      DroppedAt(c.entries, o, last);
      forall i | 0 <= i < |c.entries| && !Survives(c, size, max, c.entries[i].key)
        ensures c.entries[i].lastAccess <= c.entries[last].lastAccess
      {
        if i != o {
          DroppedAt(c.entries, o, i);
        }
      }
    }
  }

  /** Bytes of the entries evicted before one that was accessed at stamp and has k entries in front of
      it in the dictionary: those accessed earlier, and those accessed at the same time in front of it. */
  function BytesBefore(entries: seq<Entry>, stamp: real, k: nat): nat {
    if entries == [] then 0
    else
      (if entries[0].lastAccess < stamp || (entries[0].lastAccess == stamp && k > 0) then |entries[0].data| else 0) +
      BytesBefore(entries[1..], stamp, if k > 0 then k - 1 else 0)
  }

  lemma {:induction false} BeforeDropped(entries: seq<Entry>, o: nat, stamp: real, k: nat)
    requires o < |entries|
    requires entries[o].lastAccess < stamp || (entries[o].lastAccess == stamp && o < k)
    ensures BytesBefore(entries, stamp, k) ==
      |entries[o].data| + BytesBefore(Dropped(entries, o), stamp, if o < k then k - 1 else k)
  {
    if o == 0 {
      assert Dropped(entries, 0) == entries[1..];
    } else {
      BeforeDropped(entries[1..], o - 1, stamp, if k > 0 then k - 1 else 0);
      assert Dropped(entries, o) == [entries[0]] + Dropped(entries[1..], o - 1);
      assert Dropped(entries, o)[1..] == Dropped(entries[1..], o - 1);
    }
  }

  lemma {:induction false} NothingBefore(entries: seq<Entry>, stamp: real, k: nat)
    requires forall j :: 0 <= j < |entries| ==> stamp <= entries[j].lastAccess
    requires forall j :: 0 <= j < |entries| && j < k ==> stamp < entries[j].lastAccess
    ensures BytesBefore(entries, stamp, k) == 0
  {
    if entries != [] {
      NothingBefore(entries[1..], stamp, if k > 0 then k - 1 else 0);
    }
  }

  /** An entry survives exactly when the data fit once everything before it in the order of eviction
      is gone: by last access, and by dictionary order among entries accessed at the same time. */
  lemma {:induction false} SurvivesIff(c: Cache, size: nat, max: int, i: nat)
    requires DistinctKeys(c.entries) && i < |c.entries|
    ensures Survives(c, size, max, c.entries[i].key) <==>
      c.total - BytesBefore(c.entries, c.entries[i].lastAccess, i) + size <= max
    decreases |c.entries|
  {
    if c.total + size <= max {
      assert c.entries[i].key in Keys(c.entries);
    } else {
      var o, stamp := Oldest(c.entries), c.entries[i].lastAccess;
      DroppedKeys(c.entries, o);
      SurvivorsInOrder(WithoutOldest(c), size, max);
      if o == i {
        NothingBefore(c.entries, stamp, i);
      } else {
        DroppedAt(c.entries, o, i);
        BeforeDropped(c.entries, o, stamp, i);
        SurvivesIff(WithoutOldest(c), size, max, if i < o then i else i - 1);
      }
    }
  }

  /** No other entry was accessed as late as entry i. */
  ghost predicate Newest(entries: seq<Entry>, i: nat)
    requires i < |entries|
  {
    forall j :: 0 <= j < |entries| && j != i ==> entries[j].lastAccess < entries[i].lastAccess
  }

  lemma {:induction false} AllBefore(entries: seq<Entry>, stamp: real, k: nat)
    requires forall j :: 0 <= j < |entries| ==> entries[j].lastAccess < stamp
    ensures BytesBefore(entries, stamp, k) == Held(entries)
  {
    if entries != [] {
      AllBefore(entries[1..], stamp, if k > 0 then k - 1 else 0);
    }
  }

  lemma {:induction false} NewestBefore(entries: seq<Entry>, i: nat)
    requires i < |entries| && Newest(entries, i)
    ensures BytesBefore(entries, entries[i].lastAccess, i) == Held(entries) - |entries[i].data|
  {
    if i == 0 {
      AllBefore(entries[1..], entries[0].lastAccess, 0);
    } else {
      NewestBefore(entries[1..], i - 1);
    }
  }

  /** The newest entry is evicted exactly when the data would not fit beside it alone. */
  lemma NewestEvictedIff(c: Cache, size: nat, max: int, i: nat)
    requires DistinctKeys(c.entries) && i < |c.entries| && Newest(c.entries, i)
    ensures Survives(c, size, max, c.entries[i].key) <==>
      c.total - (Held(c.entries) - |c.entries[i].data|) + size <= max
  {
    SurvivesIff(c, size, max, i);
    NewestBefore(c.entries, i);
  }

  // ---------------------------------------------------------------- the class

  const SCHEME := "cache://"
  const INLINE := "inline:"

  class DataCache {
    const max: int
    const decodeBase64: string -> Bytes
    var entries: seq<Entry>
    var total: int
    var hits: nat
    var misses: nat

    function View(): Cache
      reads this
    {
      Cache(entries, total, hits, misses)
    }

    constructor (maxSizeMb: int, decodeBase64: string -> Bytes)
      ensures View() == EMPTY && max == maxSizeMb * 1024 * 1024 && this.decodeBase64 == decodeBase64
    {
      max := maxSizeMb * 1024 * 1024;
      this.decodeBase64 := decodeBase64;
      entries, total, hits, misses := [], 0, 0, 0;
    }

    method GetRef(key: string, now: real) returns (ref: Option<string>)
      modifies this
      ensures View() == Step(old(View()), Op.GetRef(key, now), max)
      ensures ref == if Holds(old(entries), key) then Some(SCHEME + key) else None
    {
      match Position(entries, key)
      case None =>
        misses := misses + 1;
        return None;
      case Some(i) =>
        hits := hits + 1;
        entries := entries[i := entries[i].(lastAccess := now)];
        return Some(SCHEME + key);
    }

    method FetchBytes(ref: string) returns (r: Result<Bytes>)
      ensures SCHEME <= ref ==>
        r == match DataAt(entries, ref[|SCHEME|..]) case None => Err("cache miss") case Some(data) => Ok(data)
      ensures !(SCHEME <= ref) ==>
        r == if INLINE <= ref then Ok(decodeBase64(ref[|INLINE|..])) else Err("unknown data_ref")
    {
      if SCHEME <= ref {
        var key := ref[|SCHEME|..];
        match Position(entries, key) {
          case None => return Err("cache miss");
          case Some(i) => return Ok(entries[i].data);
        }
      }
      if INLINE <= ref {
        return Ok(decodeBase64(ref[|INLINE|..]));
      }
      return Err("unknown data_ref");
    }

    method Put(key: string, data: Bytes, now: real) returns (ref: string)
      modifies this
      ensures View() == Step(old(View()), Op.Put(key, data, now), max)
      ensures ref == SCHEME + key
    {
      while total + |data| > max && entries != []
        invariant MakeRoom(View(), |data|, max) == MakeRoom(old(View()), |data|, max)
        decreases |entries|
      {
        EvictLru();
      }
      entries := Assigned(entries, Entry(key, data, now));
      total := total + |data|;
      return SCHEME + key;
    }

    method EvictLru()
      modifies this
      ensures old(entries) == [] ==> View() == old(View())
      ensures old(entries) != [] ==> View() == WithoutOldest(old(View()))
    {
      if entries == [] {
        return;
      }
      var i := 0;
      var j := 1;
      while j < |entries|
        invariant 0 <= i < j <= |entries|
        invariant forall k :: 0 <= k < j ==> entries[i].lastAccess <= entries[k].lastAccess
        invariant forall k :: 0 <= k < i ==> entries[i].lastAccess < entries[k].lastAccess
      {
        if entries[j].lastAccess < entries[i].lastAccess {
          i := j;
        }
        j := j + 1;
      }
      assert i == Oldest(entries);
      total := total - |entries[i].data|;
      entries := Dropped(entries, i);
    }

    method Invalidate(key: string)
      modifies this
      ensures View() == Step(old(View()), Op.Invalidate(key), max)
    {
      match Position(entries, key)
      case None =>
      case Some(i) =>
        total := total - |entries[i].data|;
        entries := Dropped(entries, i);
    }

    method Clear()
      modifies this
      ensures View() == Step(old(View()), Op.Clear, max) == EMPTY
    {
      entries, total, hits, misses := [], 0, 0, 0;
    }
  }
}
