// Data prefetch of the dispatcher: which bytes accompany an assignment, and
// when they are the bytes an uncached lookup would have produced.
module Prefetch {
  import opened Protocol
  import opened Seqs
  import DataCache

  /** The surroundings of the dispatcher: the hash of the cache key, the codec, the storage
      service (None there is Missing here) and the cache bound in bytes. */
  datatype Env = Env(
    digest: string -> string,
    encode: Data -> Bytes,
    decode: Bytes -> Data,
    storage: DataSpec -> Data,
    max: int)

  ghost predicate Lossless(env: Env) {
    forall d :: env.decode(env.encode(d)) == d
  }

  // ---------------------------------------------------------------- the cache key

  predicate LexLeq(a: string, b: string) {
    if a == "" then true
    else if b == "" then false
    else a[0] < b[0] || (a[0] == b[0] && LexLeq(a[1..], b[1..]))
  }

  function InsertSorted(sorted: seq<string>, x: string): seq<string> {
    if sorted == [] || LexLeq(x, sorted[0]) then [x] + sorted
    else [sorted[0]] + InsertSorted(sorted[1..], x)
  }

  function Sort(xs: seq<string>): seq<string> {
    if xs == [] then [] else InsertSorted(Sort(xs[1..]), xs[0])
  }

  function OrEmpty(s: Option<string>): string {
    match s case None => "" case Some(v) => v
  }

  function RawKey(d: DataSpec): string {
    Join(KeyFields(d), "|")
  }

  /** The fields that the cache key joins. */
  function KeyFields(d: DataSpec): seq<string> {
    [Join(Sort(d.symbols), ","), d.timeframe, OrEmpty(d.start), OrEmpty(d.end), OrEmpty(d.source)]
  }

  function CacheKey(env: Env, d: DataSpec): string {
    env.digest(RawKey(d))
  }

  ghost predicate Ordered(xs: seq<string>) {
    forall i, j :: 0 <= i < j < |xs| ==> LexLeq(xs[i], xs[j])
  }

  lemma {:induction false} LexTotal(a: string, b: string)
    ensures LexLeq(a, b) || LexLeq(b, a)
    ensures LexLeq(a, b) && LexLeq(b, a) ==> a == b
  {
    if a != "" && b != "" && a[0] == b[0] {
      LexTotal(a[1..], b[1..]);
      assert a == [a[0]] + a[1..];
      assert b == [b[0]] + b[1..];
    }
  }

  lemma {:induction false} LexTransitive(a: string, b: string, c: string)
    requires LexLeq(a, b) && LexLeq(b, c)
    ensures LexLeq(a, c)
  {
    if a != "" && a[0] == b[0] == c[0] {
      LexTransitive(a[1..], b[1..], c[1..]);
    }
  }

  lemma {:induction false} InsertSortedFacts(sorted: seq<string>, x: string)
    requires Ordered(sorted)
    ensures Ordered(InsertSorted(sorted, x))
    ensures multiset(InsertSorted(sorted, x)) == multiset(sorted) + multiset{x}
  {
    if sorted == [] {
    } else if LexLeq(x, sorted[0]) {
      forall i | 0 <= i < |sorted|
        ensures LexLeq(x, sorted[i])
      {
        if i > 0 {
          LexTransitive(x, sorted[0], sorted[i]);
        }
      }
      OrderedFront(x, sorted);
    } else {
      InsertSortedFacts(sorted[1..], x);
      assert sorted == [sorted[0]] + sorted[1..];
      var rest := InsertSorted(sorted[1..], x);
      LexTotal(x, sorted[0]);
      forall i | 0 <= i < |rest|
        ensures LexLeq(sorted[0], rest[i])
      {
        FromInsert(sorted, x, rest, i);
      }
      OrderedFront(sorted[0], rest);
    }
  }

  lemma OrderedFront(x: string, xs: seq<string>)
    requires Ordered(xs) && forall i :: 0 <= i < |xs| ==> LexLeq(x, xs[i])
    ensures Ordered([x] + xs)
  {
  }

  lemma FromInsert(sorted: seq<string>, x: string, rest: seq<string>, i: nat)
    requires Ordered(sorted) && sorted != [] && multiset(rest) == multiset(sorted[1..]) + multiset{x}
    requires i < |rest| && LexLeq(sorted[0], x)
    ensures LexLeq(sorted[0], rest[i])
  {
    assert rest[i] in multiset(rest);
    if rest[i] != x {
      assert rest[i] in sorted[1..];
      var j :| 0 <= j < |sorted[1..]| && sorted[1..][j] == rest[i];
      assert sorted[j + 1] == rest[i];
    }
  }

  lemma {:induction false} SortFacts(xs: seq<string>)
    ensures Ordered(Sort(xs)) && multiset(Sort(xs)) == multiset(xs)
  {
    if xs != [] {
      SortFacts(xs[1..]);
      InsertSortedFacts(Sort(xs[1..]), xs[0]);
      assert xs == [xs[0]] + xs[1..];
    }
  }

  lemma {:induction false} OrderedUnique(a: seq<string>, b: seq<string>)
    requires Ordered(a) && Ordered(b) && multiset(a) == multiset(b)
    ensures a == b
  {
    assert |multiset(a)| == |a| && |multiset(b)| == |b|;
    if a != [] {
      SameFirst(a, b);
      assert a == [a[0]] + a[1..] && b == [b[0]] + b[1..];
      assert multiset(a[1..]) == multiset(a) - multiset{a[0]};
      assert multiset(b[1..]) == multiset(b) - multiset{b[0]};
      OrderedUnique(a[1..], b[1..]);
    }
  }

  lemma SameFirst(a: seq<string>, b: seq<string>)
    requires Ordered(a) && Ordered(b) && multiset(a) == multiset(b) && a != [] && b != []
    ensures a[0] == b[0]
  {
    assert a[0] in multiset(b) && b[0] in multiset(a);
    var i :| 0 <= i < |b| && b[i] == a[0];
    var j :| 0 <= j < |a| && a[j] == b[0];
    LexTotal(a[0], b[0]);
  }

  /** The cache key forgets the order of the symbols. */
  lemma KeyIgnoresSymbolOrder(env: Env, d: DataSpec, symbols: seq<string>)
    requires multiset(symbols) == multiset(d.symbols)
    ensures CacheKey(env, d.(symbols := symbols)) == CacheKey(env, d)
  {
    SortFacts(symbols);
    SortFacts(d.symbols);
    OrderedUnique(Sort(symbols), Sort(d.symbols));
  }

  // ---------------------------------------------------------------- what a cache key tells

  /** The text can be a field of a cache key without being mistaken for two. */
  predicate Plain(text: string) {
    ',' !in text && '|' !in text
  }

  /** No field contains a separator, and every symbol has a name. */
  predicate PlainFields(d: DataSpec) {
    && Plain(d.timeframe) && Plain(OrEmpty(d.start)) && Plain(OrEmpty(d.end)) && Plain(OrEmpty(d.source))
    && forall s :: s in d.symbols ==> s != "" && Plain(s)
  }

  /** Texts without the separator are told apart by what precedes and follows it. */
  lemma FirstField(a: string, rest: string, a': string, rest': string, c: char)
    requires c !in a && c !in a' && a + [c] + rest == a' + [c] + rest'
    ensures a == a' && rest == rest'
  {
    var whole := a + [c] + rest;
    assert whole[|a|] == c && whole[|a'|] == c;
    assert forall i :: 0 <= i < |a| ==> whole[i] == a[i];
    assert forall i :: 0 <= i < |a'| ==> whole[i] == a'[i];
    assert a == whole[..|a|] == a';
    assert rest == whole[|a| + 1..] == rest';
  }

  lemma Unjoined(parts: seq<string>, c: char)
    requires forall p :: p in parts ==> c !in p
    ensures |parts| <= 1 <==> c !in Join(parts, [c])
  {
    if |parts| > 1 {
      assert Join(parts, [c])[|parts[0]|] == c;
    }
  }

  /** Joined texts without the separator are told apart. */
  lemma {:induction false} JoinTells(a: seq<string>, b: seq<string>, c: char)
    requires a != [] && b != [] && (forall p :: p in a ==> c !in p) && (forall p :: p in b ==> c !in p)
    requires Join(a, [c]) == Join(b, [c])
    ensures a == b
  {
    Unjoined(a, c);
    Unjoined(b, c);
    if |a| > 1 {
      FirstField(a[0], Join(a[1..], [c]), b[0], Join(b[1..], [c]), c);
      JoinTells(a[1..], b[1..], c);
      assert a == [a[0]] + a[1..] && b == [b[0]] + b[1..];
    } else {
      assert a == [a[0]] && b == [b[0]];
    }
  }

  lemma {:induction false} JoinAvoids(parts: seq<string>, separator: string, c: char)
    requires c !in separator && forall p :: p in parts ==> c !in p
    ensures c !in Join(parts, separator)
  {
    if |parts| > 1 {
      JoinAvoids(parts[1..], separator, c);
    }
  }

  lemma SortMembers(xs: seq<string>)
    ensures forall x :: x in Sort(xs) <==> x in xs
  {
    SortFacts(xs);
    assert forall x :: x in xs <==> x in multiset(xs);
    assert forall x :: x in Sort(xs) <==> x in multiset(Sort(xs));
  }

  /** Named symbols without commas are told apart by their sorted list. */
  lemma SymbolsTold(symbols: seq<string>, symbols': seq<string>)
    requires forall s :: s in symbols || s in symbols' ==> s != "" && ',' !in s
    requires Join(Sort(symbols), ",") == Join(Sort(symbols'), ",")
    ensures multiset(symbols) == multiset(symbols')
  {
    var a, b := Sort(symbols), Sort(symbols');
    SortMembers(symbols);
    SortMembers(symbols');
    SortFacts(symbols);
    SortFacts(symbols');
    assert a == [] <==> Join(a, ",") == "" by { if a != [] { assert a[0] in a; } }
    assert b == [] <==> Join(b, ",") == "" by { if b != [] { assert b[0] in b; } }
    if a != [] {
      JoinTells(a, b, ',');
    }
  }

  lemma KeyFieldsPlain(d: DataSpec)
    requires PlainFields(d)
    ensures forall p :: p in KeyFields(d) ==> '|' !in p
  {
    SortMembers(d.symbols);
    JoinAvoids(Sort(d.symbols), ",", '|');
  }

  /** Requests without separators in their fields are keyed alike exactly when they ask for the same
      symbols, however ordered, over the same time frame and range from the same source, where an
      absent range end or source is the same as an empty one. */
  lemma KeyTellsIff(d: DataSpec, d': DataSpec)
    requires PlainFields(d) && PlainFields(d')
    ensures RawKey(d) == RawKey(d') <==>
      && multiset(d.symbols) == multiset(d'.symbols) && d.timeframe == d'.timeframe
      && OrEmpty(d.start) == OrEmpty(d'.start) && OrEmpty(d.end) == OrEmpty(d'.end)
      && OrEmpty(d.source) == OrEmpty(d'.source)
  {
    var a, b := KeyFields(d), KeyFields(d');
    if RawKey(d) == RawKey(d') {
      KeyFieldsPlain(d);
      KeyFieldsPlain(d');
      JoinTells(a, b, '|');
      assert a[0] == b[0] && a[1] == b[1] && a[2] == b[2] && a[3] == b[3] && a[4] == b[4];
      SymbolsTold(d.symbols, d'.symbols);
    }
    if multiset(d.symbols) == multiset(d'.symbols) {
      SortFacts(d.symbols);
      SortFacts(d'.symbols);
      OrderedUnique(Sort(d.symbols), Sort(d'.symbols));
    }
  }

  // ---------------------------------------------------------------- serving a request

  /** What an assignment should carry: inline data first, then storage, then nothing. */
  function Lookup(env: Env, spec: TaskSpec): Data {
    if spec.computeSpec.inlineData != Missing then spec.computeSpec.inlineData
    else if spec.computeSpec.inlineDataB64 != Missing then spec.computeSpec.inlineDataB64
    else if spec.dataSpec.symbols != [] then env.storage(spec.dataSpec)
    else Missing
  }

  /** A spec to be assigned, with the clock readings of its cache accesses. */
  datatype Request = Request(spec: TaskSpec, now: real, later: real)

  /** The cache after prefetching for one spec. */
  function Prefetched(env: Env, c: DataCache.Cache, r: Request): DataCache.Cache {
    var key := CacheKey(env, r.spec.dataSpec);
    var c' := DataCache.Step(c, DataCache.GetRef(key, r.now), env.max);
    if DataCache.Holds(c.entries, key) then c'
    else DataCache.Step(c', DataCache.Put(key, env.encode(Lookup(env, r.spec)), r.later), env.max)
  }

  /** The bytes fetched for one spec right after its prefetch; None is a raised cache miss. */
  function Served(env: Env, c: DataCache.Cache, r: Request): Option<Bytes> {
    DataCache.DataAt(Prefetched(env, c, r).entries, CacheKey(env, r.spec.dataSpec))
  }

  /** Requests served one after the other. */
  function ServedAll(env: Env, c: DataCache.Cache, rs: seq<Request>): (bytes: seq<Option<Bytes>>)
    ensures |bytes| == |rs|
    decreases rs
  {
    if rs == [] then [] else [Served(env, c, rs[0])] + ServedAll(env, Prefetched(env, c, rs[0]), rs[1..])
  }

  lemma {:induction false} AssignedFacts(entries: seq<DataCache.Entry>, e: DataCache.Entry, key: string)
    ensures DataCache.DataAt(DataCache.Assigned(entries, e), key)
         == if key == e.key then Some(e.data) else DataCache.DataAt(entries, key)
  {
    if entries != [] && entries[0].key != e.key {
      AssignedFacts(entries[1..], e, key);
      assert DataCache.Assigned(entries, e) == [entries[0]] + DataCache.Assigned(entries[1..], e);
      assert (DataCache.Assigned(entries, e))[1..] == DataCache.Assigned(entries[1..], e);
    } else if entries != [] {
      assert DataCache.Assigned(entries, e)[1..] == entries[1..];
    }
  }

  lemma {:induction false} TouchFacts(entries: seq<DataCache.Entry>, i: nat, now: real, key: string)
    requires i < |entries|
    ensures DataCache.DataAt(entries[i := entries[i].(lastAccess := now)], key) == DataCache.DataAt(entries, key)
  {
    var touched := entries[i := entries[i].(lastAccess := now)];
    if i > 0 {
      TouchFacts(entries[1..], i - 1, now, key);
      assert touched[1..] == entries[1..][i - 1 := entries[1..][i - 1].(lastAccess := now)];
    } else {
      assert touched[1..] == entries[1..];
    }
  }

  /** Every cached datum is one that some function of the key prescribes. */
  ghost predicate Agrees(c: DataCache.Cache, expected: string -> Option<Bytes>) {
    forall i :: 0 <= i < |c.entries| ==> expected(c.entries[i].key) == Some(c.entries[i].data)
  }

  lemma {:induction false} MakeRoomAgrees(c: DataCache.Cache, size: nat, max: int, expected: string -> Option<Bytes>)
    requires Agrees(c, expected)
    ensures Agrees(DataCache.MakeRoom(c, size, max), expected)
    decreases |c.entries|
  {
    if !(c.total + size <= max || c.entries == []) {
      MakeRoomAgrees(DataCache.WithoutOldest(c), size, max, expected);
    }
  }

  /** Whatever the cache held and evicted, fetching right after prefetching finds the data. */
  lemma FetchAfterPrefetchNeverRaises(env: Env, c: DataCache.Cache, r: Request)
    ensures Served(env, c, r).Some?
    ensures Served(env, c, r) == match DataCache.DataAt(c.entries, CacheKey(env, r.spec.dataSpec))
                                 case Some(cached) => Some(cached)
                                 case None => Some(env.encode(Lookup(env, r.spec)))
  {
    var key := CacheKey(env, r.spec.dataSpec);
    match DataCache.Position(c.entries, key)
    case Some(i) => TouchFacts(c.entries, i, r.now, key);
    case None =>
      var data := env.encode(Lookup(env, r.spec));
      var c' := DataCache.Step(c, DataCache.GetRef(key, r.now), env.max);
      AssignedFacts(DataCache.MakeRoom(c', |data|, env.max).entries, DataCache.Entry(key, data, r.later), key);
  }

  lemma PrefetchedAgrees(env: Env, c: DataCache.Cache, r: Request, expected: string -> Option<Bytes>)
    requires Agrees(c, expected)
    requires expected(CacheKey(env, r.spec.dataSpec)) == Some(env.encode(Lookup(env, r.spec)))
    ensures Agrees(Prefetched(env, c, r), expected)
  {
    var key := CacheKey(env, r.spec.dataSpec);
    if !DataCache.Holds(c.entries, key) {
      var c' := DataCache.Step(c, DataCache.GetRef(key, r.now), env.max);
      MakeRoomAgrees(c', |env.encode(Lookup(env, r.spec))|, env.max, expected);
    }
  }

  lemma {:induction false} ServedAsExpected(env: Env, c: DataCache.Cache, rs: seq<Request>,
      expected: string -> Option<Bytes>)
    requires Agrees(c, expected)
    requires forall i :: 0 <= i < |rs| ==>
      expected(CacheKey(env, rs[i].spec.dataSpec)) == Some(env.encode(Lookup(env, rs[i].spec)))
    ensures forall i :: 0 <= i < |rs| ==> ServedAll(env, c, rs)[i] == Some(env.encode(Lookup(env, rs[i].spec)))
    decreases rs
  {
    if rs != [] {
      FetchAfterPrefetchNeverRaises(env, c, rs[0]);
      PrefetchedAgrees(env, c, rs[0], expected);
      assert rs[0] in rs;
      ServedAsExpected(env, Prefetched(env, c, rs[0]), rs[1..], expected);
      forall i | 0 <= i < |rs|
        ensures ServedAll(env, c, rs)[i] == Some(env.encode(Lookup(env, rs[i].spec)))
      {
        if i > 0 {
          assert rs[i] == rs[1..][i - 1];
        }
      }
    }
  }

  /** Specs that share a cache key ask for the same data. */
  ghost predicate KeyDetermines(env: Env, specs: set<TaskSpec>) {
    forall s, s' :: s in specs && s' in specs && CacheKey(env, s.dataSpec) == CacheKey(env, s'.dataSpec) ==>
      Lookup(env, s) == Lookup(env, s')
  }

  ghost predicate RequestsFor(rs: seq<Request>, specs: set<TaskSpec>) {
    forall i :: 0 <= i < |rs| ==> rs[i].spec in specs
  }

  ghost predicate Transparent(env: Env, rs: seq<Request>) {
    forall i :: 0 <= i < |rs| ==>
      ServedAll(env, DataCache.EMPTY, rs)[i] == Some(env.encode(Lookup(env, rs[i].spec)))
  }

  ghost function Prescribed(env: Env, specs: set<TaskSpec>, key: string): Option<Bytes> {
    if s :| s in specs && CacheKey(env, s.dataSpec) == key then Some(env.encode(Lookup(env, s))) else None
  }

  /** The cache is invisible in every run over these specs exactly when no two of them share
      a key while asking for different data. */
  lemma PrefetchTransparentIff(env: Env, specs: set<TaskSpec>)
    requires Lossless(env)
    ensures KeyDetermines(env, specs) <==> forall rs :: RequestsFor(rs, specs) ==> Transparent(env, rs)
  {
    if KeyDetermines(env, specs) {
      var expected := key => Prescribed(env, specs, key);
      forall rs | RequestsFor(rs, specs)
        ensures Transparent(env, rs)
      {
        ServedAsExpected(env, DataCache.EMPTY, rs, expected);
      }
    } else {
      var s, s' :| s in specs && s' in specs &&
        CacheKey(env, s.dataSpec) == CacheKey(env, s'.dataSpec) && Lookup(env, s) != Lookup(env, s');
      var r, r' := Request(s, 0.0, 1.0), Request(s', 2.0, 3.0);
      var rs := [r, r'];
      assert RequestsFor(rs, specs);
      var c := Prefetched(env, DataCache.EMPTY, r);
      FetchAfterPrefetchNeverRaises(env, DataCache.EMPTY, r);
      FetchAfterPrefetchNeverRaises(env, c, r');
      assert rs[1..] == [r'];
      assert ServedAll(env, c, [r'])[0] == Served(env, c, r');
      assert ServedAll(env, DataCache.EMPTY, rs)[1] == Some(env.encode(Lookup(env, s)));
      assert env.decode(env.encode(Lookup(env, s))) != env.decode(env.encode(Lookup(env, s')));
      assert !Transparent(env, rs);
    }
  }

  // ---------------------------------------------------------------- interleaved assignments

  function KeyOf(env: Env, r: Request): string {
    CacheKey(env, r.spec.dataSpec)
  }

  function Encoded(env: Env, r: Request): Bytes {
    env.encode(Lookup(env, r.spec))
  }

  /** The clock readings of the request are later than all accesses so far. */
  predicate Later(c: DataCache.Cache, r: Request) {
    forall i :: 0 <= i < |c.entries| ==> c.entries[i].lastAccess < r.now && c.entries[i].lastAccess < r.later
  }

  lemma {:induction false} MakeRoomLater(c: DataCache.Cache, size: nat, max: int, r: Request)
    requires Later(c, r)
    ensures Later(DataCache.MakeRoom(c, size, max), r)
    decreases |c.entries|
  {
    if !(c.total + size <= max || c.entries == []) {
      MakeRoomLater(DataCache.WithoutOldest(c), size, max, r);
    }
  }

  lemma PrefetchedDistinct(env: Env, c: DataCache.Cache, r: Request)
    requires DataCache.DistinctKeys(c.entries)
    ensures DataCache.DistinctKeys(Prefetched(env, c, r).entries)
    ensures DataCache.Holds(Prefetched(env, c, r).entries, KeyOf(env, r))
  {
    var key, data := KeyOf(env, r), Encoded(env, r);
    FetchAfterPrefetchNeverRaises(env, c, r);
    if !DataCache.Holds(c.entries, key) {
      var c' := DataCache.Step(c, DataCache.GetRef(key, r.now), env.max);
      DataCache.MakeRoomDistinct(c', |data|, env.max);
      DataCache.AssignedAccount(DataCache.MakeRoom(c', |data|, env.max).entries, DataCache.Entry(key, data, r.later));
    }
  }

  /** After its prefetch a request's data are the newest entry. */
  lemma PrefetchedNewest(env: Env, c: DataCache.Cache, r: Request)
    requires DataCache.DistinctKeys(c.entries) && Later(c, r)
    ensures var entries := Prefetched(env, c, r).entries;
            DataCache.Holds(entries, KeyOf(env, r)) &&
            DataCache.Newest(entries, DataCache.Position(entries, KeyOf(env, r)).value)
  {
    var key, data := KeyOf(env, r), Encoded(env, r);
    PrefetchedDistinct(env, c, r);
    if !DataCache.Holds(c.entries, key) {
      var c' := DataCache.Step(c, DataCache.GetRef(key, r.now), env.max);
      MakeRoomLater(c', |data|, env.max, r);
      DataCache.MakeRoomMisses(c', |data|, env.max, key);
    }
  }

  lemma SurvivesIsHeld(c: DataCache.Cache, size: nat, max: int, key: string)
    ensures DataCache.Survives(c, size, max, key) <==>
      DataCache.DataAt(DataCache.MakeRoom(c, size, max).entries, key).Some?
  {
  }

  /** What prefetching for r' does to an entry. */
  lemma EntryLostIff(env: Env, c: DataCache.Cache, i: nat, r': Request)
    requires DataCache.DistinctKeys(c.entries) && i < |c.entries|
    ensures DataCache.DataAt(Prefetched(env, c, r').entries, c.entries[i].key) == None <==>
      && !DataCache.Holds(c.entries, KeyOf(env, r'))
      && c.total - DataCache.BytesBefore(c.entries, c.entries[i].lastAccess, i) + |Encoded(env, r')| > env.max
  {
    var key, key', data' := c.entries[i].key, KeyOf(env, r'), Encoded(env, r');
    match DataCache.Position(c.entries, key')
    case Some(j) =>
      TouchFacts(c.entries, j, r'.now, key);
    case None =>
      var c' := DataCache.Step(c, DataCache.GetRef(key', r'.now), env.max);
      DataCache.SurvivesIff(c', |data'|, env.max, i);
      SurvivesIsHeld(c', |data'|, env.max, key);
      AssignedFacts(DataCache.MakeRoom(c', |data'|, env.max).entries, DataCache.Entry(key', data', r'.later), key);
  }

  /** Two assignments that interleave are not protected. From any cache and for any clock readings,
      prefetching for r' before fetching for r loses the data of r if and only if the keys differ, the
      data of r' are not cached, and by the running count they do not fit even when everything before
      the data of r in the order of eviction is gone. */
  lemma InterleavedPrefetchRaisesIff(env: Env, c: DataCache.Cache, r: Request, r': Request)
    requires DataCache.DistinctKeys(c.entries)
    ensures var first := Prefetched(env, c, r);
            var both := Prefetched(env, first, r');
            && DataCache.Holds(first.entries, KeyOf(env, r))
            && (DataCache.DataAt(both.entries, KeyOf(env, r)) == None <==>
                && KeyOf(env, r) != KeyOf(env, r') && !DataCache.Holds(first.entries, KeyOf(env, r'))
                && var i := DataCache.Position(first.entries, KeyOf(env, r)).value;
                   first.total - DataCache.BytesBefore(first.entries, first.entries[i].lastAccess, i) +
                     |Encoded(env, r')| > env.max)
  {
    PrefetchedDistinct(env, c, r);
    var first := Prefetched(env, c, r);
    EntryLostIff(env, first, DataCache.Position(first.entries, KeyOf(env, r)).value, r');
  }

  /** When the clock readings of r are later than all accesses before, that is everything else. */
  lemma InterleavedPrefetchAloneIff(env: Env, c: DataCache.Cache, r: Request, r': Request)
    requires DataCache.DistinctKeys(c.entries) && Later(c, r)
    ensures var first := Prefetched(env, c, r);
            var both := Prefetched(env, first, r');
            && DataCache.DataAt(first.entries, KeyOf(env, r)).Some?
            && (DataCache.DataAt(both.entries, KeyOf(env, r)) == None <==>
                && KeyOf(env, r) != KeyOf(env, r') && !DataCache.Holds(first.entries, KeyOf(env, r'))
                && var data := DataCache.DataAt(first.entries, KeyOf(env, r)).value;
                   first.total - (DataCache.Held(first.entries) - |data|) + |Encoded(env, r')| > env.max)
  {
    InterleavedPrefetchRaisesIff(env, c, r, r');
    PrefetchedNewest(env, c, r);
    var first := Prefetched(env, c, r);
    DataCache.NewestBefore(first.entries, DataCache.Position(first.entries, KeyOf(env, r)).value);
  }

  /** From an empty cache: exactly when the keys differ and the two data exceed the bound. */
  lemma InterleavedPrefetchMayRaise(env: Env, r: Request, r': Request)
    ensures var both := Prefetched(env, Prefetched(env, DataCache.EMPTY, r), r');
            DataCache.DataAt(both.entries, KeyOf(env, r)) == None <==>
              KeyOf(env, r) != KeyOf(env, r') && |Encoded(env, r)| + |Encoded(env, r')| > env.max
  {
    InterleavedPrefetchAloneIff(env, DataCache.EMPTY, r, r');
    var first := Prefetched(env, DataCache.EMPTY, r);
    assert first.entries == [DataCache.Entry(KeyOf(env, r), Encoded(env, r), r.later)];
    assert first.total == |Encoded(env, r)| == DataCache.Held(first.entries);
  }

  // ---------------------------------------------------------------- byte accounting of requests

  /** The cache after requests served one after the other. */
  function PrefetchedAll(env: Env, c: DataCache.Cache, rs: seq<Request>): DataCache.Cache
    decreases rs
  {
    if rs == [] then c else PrefetchedAll(env, Prefetched(env, c, rs[0]), rs[1..])
  }

  lemma PrefetchedAccount(env: Env, c: DataCache.Cache, r: Request)
    requires DataCache.DistinctKeys(c.entries) && c.total == DataCache.Held(c.entries)
    ensures DataCache.DistinctKeys(Prefetched(env, c, r).entries)
    ensures Prefetched(env, c, r).total == DataCache.Held(Prefetched(env, c, r).entries)
  {
    var key := KeyOf(env, r);
    DataCache.AccountStep(c, DataCache.GetRef(key, r.now), env.max, 0);
    if !DataCache.Holds(c.entries, key) {
      var c' := DataCache.Step(c, DataCache.GetRef(key, r.now), env.max);
      DataCache.AccountStep(c', DataCache.Put(key, Encoded(env, r), r.later), env.max, 0);
      DataCache.MakeRoomMisses(c', |Encoded(env, r)|, env.max, key);
    }
  }

  /** Assignments served one after the other put data into the cache only on misses, so that its
      running count is the number of bytes held in every run. */
  lemma {:induction false} SequentialCountExact(env: Env, c: DataCache.Cache, rs: seq<Request>)
    requires DataCache.DistinctKeys(c.entries) && c.total == DataCache.Held(c.entries)
    ensures PrefetchedAll(env, c, rs).total == DataCache.Held(PrefetchedAll(env, c, rs).entries)
    decreases rs
  {
    if rs != [] {
      PrefetchedAccount(env, c, rs[0]);
      SequentialCountExact(env, Prefetched(env, c, rs[0]), rs[1..]);
    }
  }
}
