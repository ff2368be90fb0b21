// Screenshot metadata and the label-relaxing search for recent ones
// (api/screenshot/model.go).
module Screenshots {
  import opened Wrappers
  import opened Strings
  import opened Collections

  const MAX_ITEMS_IN_RESPONSE := 10000

  // The stored entity.
  datatype Record = Record(digest: string, hashMethod: string, labels: set<string>, counter: nat, lastUsed: int)

  function Hash(r: Record): string {
    r.hashMethod + ":" + r.digest
  }

  function Key(digest: string, hashMethod: string): string {
    digest + ":" + hashMethod
  }

  type Stored = map<string, Record>

  // What Store keeps true of the Datastore, given that hash methods have no colon
  // ("sha1" is the only one supported).
  ghost predicate ValidStore(store: Stored) {
    forall k | k in store :: k == Key(store[k].digest, store[k].hashMethod) && ':' !in store[k].hashMethod
  }

  ghost function Records(store: Stored): set<Record> {
    set k | k in store :: store[k]
  }

  // Without a colon in the method the two halves of a hash can be told apart.
  lemma HashIsInjective(r: Record, r': Record)
    requires ':' !in r.hashMethod && ':' !in r'.hashMethod && Hash(r) == Hash(r')
    ensures r.hashMethod == r'.hashMethod && r.digest == r'.digest
  {
    SplitCons(r.hashMethod, ':', r.digest);
    SplitCons(r'.hashMethod, ':', r'.digest);
    assert [r.hashMethod] <= Split(Hash(r), ':') && [r'.hashMethod] <= Split(Hash(r'), ':');
    assert [r.hashMethod][0] == [r'.hashMethod][0];
    assert Hash(r)[|r.hashMethod| + 1..] == r.digest && Hash(r')[|r'.hashMethod| + 1..] == r'.digest;
  }

  // Records of methods m and m' can have one hash.
  ghost predicate MayClash(m: string, m': string) {
    exists r: Record, r': Record :: r.hashMethod == m && r'.hashMethod == m' && Hash(r) == Hash(r')
  }

  // In general two methods can be confused exactly when one begins with the other
  // and a colon; none does that beside "sha1", the only one SetHashFromFile takes.
  lemma HashesClashIff(m: string, m': string)
    requires m != m'
    ensures MayClash(m, m') <==> HasPrefix(m, m' + ":") || HasPrefix(m', m + ":")
  {
    if MayClash(m, m') {
      var r: Record, r': Record :| r.hashMethod == m && r'.hashMethod == m' && Hash(r) == Hash(r');
      if |m| <= |m'| {
        LongerMethodContinues(r, r');
      } else {
        LongerMethodContinues(r', r);
      }
    }
    if HasPrefix(m', m + ":") {
      Clash(m, m');
    }
    if HasPrefix(m, m' + ":") {
      Clash(m', m);
    }
  }

  lemma LongerMethodContinues(r: Record, r': Record)
    requires Hash(r) == Hash(r') && r.hashMethod != r'.hashMethod && |r.hashMethod| <= |r'.hashMethod|
    ensures HasPrefix(r'.hashMethod, r.hashMethod + ":")
  {
    var m, m' := r.hashMethod, r'.hashMethod;
    assert Hash(r)[..|m|] == m && Hash(r')[..|m'|] == m';
    var start := m'[..|m|];
    assert start == Hash(r)[..|m|];
    assert |start| == |m'| ==> start == m';
    assert Hash(r)[|m|] == ':';
  }

  lemma Clash(m: string, m': string)
    requires HasPrefix(m', m + ":")
    ensures MayClash(m, m') && MayClash(m', m)
  {
    var r := Record(m'[|m| + 1..] + ":", m, {}, 0, 0);
    var r' := Record("", m', {}, 0, 0);
    assert m' == m + ":" + m'[|m| + 1..];
    assert Hash(r) == Hash(r');
  }

  lemma DistinctRecordsDistinctHashes(store: Stored, r: Record, r': Record)
    requires ValidStore(store) && r in Records(store) && r' in Records(store) && Hash(r) == Hash(r')
    ensures r == r'
  {
    var k :| k in store && store[k] == r;
    var k' :| k' in store && store[k'] == r';
    HashIsInjective(r, r');
  }

  // ---- storing ----

  class Datastore {
    var screenshots: Stored

    constructor ()
      ensures screenshots == map[]
    {
      screenshots := map[];
    }
  }

  datatype StoreError = InvalidHash

  class Screenshot {
    var hashDigest: string
    var hashMethod: string
    var labels: seq<string>
    var counter: nat
    var lastUsed: int

    // NewScreenshot: empty labels are omitted.
    constructor (labels: seq<string>)
      ensures this.labels == NonEmpty(labels) && hashDigest == "" && hashMethod == "" && counter == 0
    {
      hashDigest, hashMethod, counter, lastUsed := "", "", 0, 0;
      var kept := OmitEmpty(labels);
      this.labels := kept;
    }

    // Store.
    method Store(ds: Datastore, now: int) returns (err: Option<StoreError>)
      modifies this`labels, this`counter, this`lastUsed, ds
      ensures err == if hashDigest == "" || hashMethod == "" then Some(InvalidHash) else None
      ensures err.Some? ==> ds.screenshots == old(ds.screenshots)
      ensures err.None? ==>
        ds.screenshots == old(ds.screenshots)[Key(hashDigest, hashMethod) :=
          StoredOver(old(ds.screenshots), hashDigest, hashMethod, old(SetOf(labels)), old(counter), now)]
      ensures err.None? ==>
        var key := hashDigest + ":" + hashMethod;
        && key in ds.screenshots && ds.screenshots[key].digest == hashDigest
        && ds.screenshots[key].hashMethod == hashMethod && ds.screenshots[key].lastUsed == now
        && (key !in old(ds.screenshots) ==>
              ds.screenshots[key].labels == old(SetOf(labels)) && ds.screenshots[key].counter == old(counter))
        && (key in old(ds.screenshots) ==>
              && ds.screenshots[key].labels == old(SetOf(labels)) + old(ds.screenshots)[key].labels
              && ds.screenshots[key].counter == old(ds.screenshots)[key].counter + 1)
      ensures old(ValidStore(ds.screenshots)) && ':' !in hashMethod ==> ValidStore(ds.screenshots)
    {
      if hashDigest == "" || hashMethod == "" {
        return Some(InvalidHash);
      }
      var key := Key(hashDigest, hashMethod);
      if key in ds.screenshots {
        var oldS := ds.screenshots[key];
        counter := oldS.counter + 1;
        var all := SetOf(labels) + oldS.labels;
        labels := ListSet(all);
      }
      lastUsed := now;
      ds.screenshots := ds.screenshots[key := Record(hashDigest, hashMethod, SetOf(labels), counter, lastUsed)];
      return None;
    }
  }

  function NonEmpty(labels: seq<string>): seq<string> {
    if labels == [] then [] else
      var last := labels[|labels| - 1];
      NonEmpty(labels[..|labels| - 1]) + (if last == "" then [] else [last])
  }

  method OmitEmpty(labels: seq<string>) returns (kept: seq<string>)
    ensures kept == NonEmpty(labels)
  {
    kept := [];
    for i := 0 to |labels|
      invariant kept == NonEmpty(labels[..i])
    {
      assert labels[..i + 1][..i] == labels[..i];
      if labels[i] != "" {
        kept := kept + [labels[i]];
      }
    }
    assert labels[..|labels|] == labels;
  }

  // The entity written over an existing one: labels accumulate and uses are counted.
  function StoredOver(
      store: Stored, digest: string, hashMethod: string, labels: set<string>, counter: nat, now: int): Record
  {
    var key := Key(digest, hashMethod);
    if key in store then Record(digest, hashMethod, labels + store[key].labels, store[key].counter + 1, now)
    else Record(digest, hashMethod, labels, counter, now)
  }

  // ---- searching ----

  // Query filters "Labels =".
  predicate Matches(r: Record, labels: seq<string>) {
    forall l | l in labels :: l in r.labels
  }

  lemma SuffixMatches(r: Record, labels: seq<string>, i: nat, j: nat)
    requires i <= j <= |labels| && Matches(r, labels[i..])
    ensures Matches(r, labels[j..])
  {
    assert labels[j..] == labels[i..][j - i..];
  }

  // No two records at different places of a list are the same.
  ghost predicate Distinct(hits: seq<Record>) {
    forall i, j | 0 <= i < j < |hits| :: hits[i] != hits[j]
  }

  ghost predicate Newest(hits: seq<Record>, rest: set<Record>) {
    && (forall i, j | 0 <= i < j < |hits| :: hits[i].lastUsed >= hits[j].lastUsed)
    && (forall i, r | 0 <= i < |hits| && r in rest :: hits[i].lastUsed >= r.lastUsed)
  }

  // What a query with these filters, newest first and limited, may return; records
  // of the same age come in any order.
  ghost predicate Answers(hits: seq<Record>, records: set<Record>, labels: seq<string>, limit: nat) {
    var matching := set r | r in records && Matches(r, labels);
    && Distinct(hits) && SetOf(hits) <= matching
    && (|hits| == limit || (|hits| < limit && SetOf(hits) == matching))
    && Newest(hits, matching - SetOf(hits))
  }

  // Level i of the search asks for labels[i..]. The records found so far are kept
  // to at most limit, and a matching record is missing only when the result is
  // full of records matching at that level, the last of them at least as recent.
  ghost predicate LevelServed(records: set<Record>, labels: seq<string>, limit: nat, chosen: set<Record>, i: nat)
    requires i <= |labels|
  {
    forall r | r in records && Matches(r, labels[i..]) && r !in chosen ::
      && |chosen| == limit
      && forall c | c in chosen ::
           Matches(c, labels[i..]) && (c.lastUsed >= r.lastUsed || (i > 0 && Matches(c, labels[i - 1..])))
  }

  ghost predicate Greedy(records: set<Record>, labels: seq<string>, limit: nat, chosen: set<Record>) {
    && chosen <= records
    && |chosen| == (if |records| < limit then |records| else limit)
    && forall i: nat | i <= |labels| :: LevelServed(records, labels, limit, chosen, i)
  }

  // The same of the hashes returned: they are distinct, as many as possible, and
  // whatever is missing at a level is missing for its labels or its age.
  ghost predicate GreedyHashes(records: set<Record>, labels: seq<string>, limit: nat, hashes: seq<string>) {
    && (forall h | h in hashes :: exists r :: r in records && Hash(r) == h)
    && |hashes| == |SetOf(hashes)| == (if |records| < limit then |records| else limit)
    && forall i: nat | i <= |labels| :: LevelListed(records, labels, limit, hashes, i)
  }

  ghost predicate LevelListed(records: set<Record>, labels: seq<string>, limit: nat, hashes: seq<string>, i: nat)
    requires i <= |labels|
  {
    forall r | r in records && Matches(r, labels[i..]) && Hash(r) !in hashes ::
      && |hashes| == limit
      && forall c | c in records && Hash(c) in hashes ::
           Matches(c, labels[i..]) && (c.lastUsed >= r.lastUsed || (i > 0 && Matches(c, labels[i - 1..])))
  }

  // A screenshot with all the labels wanted, empty ones aside, is missing only from
  // a full result whose members all have them, and are at least as recent or have
  // more.
  ghost predicate Prefers(records: set<Record>, hashes: seq<string>, limit: nat, wanted: set<string>,
                          more: Option<set<string>>)
  {
    forall r | r in records && wanted - {""} <= r.labels && Hash(r) !in hashes ::
      && |hashes| == limit
      && forall c | c in records && Hash(c) in hashes ::
           && wanted - {""} <= c.labels
           && (c.lastUsed >= r.lastUsed || (more.Some? && more.value - {""} <= c.labels))
  }

  // ---- one query ----

  lemma SetOfAppend(hits: seq<Record>, r: Record)
    ensures SetOf(hits + [r]) == SetOf(hits) + {r}
  {
    assert (hits + [r])[|hits|] == r;
    assert forall x :: x in hits + [r] <==> x in hits || x == r;
  }

  lemma InPrefix(hits: seq<Record>, n: nat, j: nat)
    requires n <= |hits| && j < |hits|
    ensures j < n ==> hits[j] in SetOf(hits[..n])
  {
    assert j < n ==> hits[..n][j] == hits[j];
  }

  // A newest record.
  method Newer(records: set<Record>) returns (newest: Record)
    requires records != {}
    ensures newest in records && forall r | r in records :: newest.lastUsed >= r.lastUsed
  {
    newest :| newest in records;
    var todo := records - {newest};
    while todo != {}
      invariant todo <= records && newest in records
      invariant forall r | r in records - todo :: newest.lastUsed >= r.lastUsed
      decreases todo
    {
      var r :| r in todo;
      if r.lastUsed > newest.lastUsed {
        newest := r;
      }
      todo := todo - {r};
    }
  }

  // GetAll of the filtered, ordered and limited query.
  method GetAll(records: set<Record>, labels: seq<string>, limit: nat) returns (hits: seq<Record>)
    ensures Answers(hits, records, labels, limit)
  {
    var matching := set r | r in records && Matches(r, labels);
    var left := matching;
    hits := [];
    while left != {} && |hits| < limit
      invariant left <= matching && SetOf(hits) == matching - left && |hits| <= limit
      invariant Distinct(hits) && Newest(hits, left)
      decreases left
    {
      var r := Newer(left);
      SetOfAppend(hits, r);
      hits, left := hits + [r], left - {r};
    }
    assert matching - SetOf(hits) == left;
  }

  // ---- the search ----

  // The records chosen before level i all match at the last level asked.
  ghost predicate MatchBefore(labels: seq<string>, chosen: set<Record>, i: nat)
    requires i <= |labels| + 1
  {
    if i == 0 then chosen == {} else forall r | r in chosen :: Matches(r, labels[i - 1..])
  }

  // What the search keeps when it is about to ask at level i.
  ghost predicate Searching(records: set<Record>, labels: seq<string>, limit: nat, chosen: set<Record>, i: nat)
    requires i <= |labels| + 1
  {
    && chosen <= records && |chosen| <= limit && MatchBefore(labels, chosen, i)
    && forall j: nat | j < i :: LevelServed(records, labels, limit, chosen, j)
  }

  // Taking the first n hits of level i.
  ghost predicate Takes(hits: seq<Record>, n: nat, limit: nat, was: set<Record>, chosen: set<Record>)
    requires n <= |hits|
  {
    chosen == was + SetOf(hits[..n]) && |chosen| <= limit && (n == |hits| || |chosen| == limit)
  }

  lemma {:induction false} DistinctSize(hits: seq<Record>)
    requires Distinct(hits)
    ensures |SetOf(hits)| == |hits|
  {
    if hits != [] {
      var front, last := hits[..|hits| - 1], hits[|hits| - 1];
      DistinctSize(front);
      assert SetOf(hits) == SetOf(front) + {last};
      assert last !in SetOf(front);
    }
  }

  // A record that was not taken from the hits of its level is no newer than any
  // that was, and then the result is full.
  lemma NotTaken(records: set<Record>, labels: seq<string>, limit: nat, hits: seq<Record>, n: nat,
                 was: set<Record>, chosen: set<Record>, r: Record)
    requires Answers(hits, records, labels, limit) && n <= |hits| && Takes(hits, n, limit, was, chosen)
    requires r in records && Matches(r, labels) && r !in chosen
    ensures |chosen| == limit
    ensures forall c | c in SetOf(hits[..n]) :: c.lastUsed >= r.lastUsed
  {
    if n == |hits| {
      assert hits[..n] == hits;
      assert r !in SetOf(hits);
      DistinctSize(hits);
      SubsetSize(SetOf(hits), chosen);
    }
    forall c | c in SetOf(hits[..n]) ensures c.lastUsed >= r.lastUsed {
      var i :| 0 <= i < n && hits[i] == c;
      if r in hits {
        var j :| 0 <= j < |hits| && hits[j] == r;
        InPrefix(hits, n, j);
      }
    }
  }

  lemma ServesLevel(records: set<Record>, labels: seq<string>, limit: nat, hits: seq<Record>, n: nat,
                    was: set<Record>, chosen: set<Record>, i: nat)
    requires i <= |labels| && Answers(hits, records, labels[i..], limit)
    requires n <= |hits| && Takes(hits, n, limit, was, chosen) && MatchBefore(labels, was, i)
    ensures LevelServed(records, labels, limit, chosen, i)
    ensures MatchBefore(labels, chosen, i + 1)
  {
    forall c | c in chosen ensures Matches(c, labels[i..]) {
      if c in was {
        SuffixMatches(c, labels, i - 1, i);
      } else {
        assert c in SetOf(hits);
      }
    }
    forall r | r in records && Matches(r, labels[i..]) && r !in chosen
      ensures |chosen| == limit
      ensures forall c | c in chosen :: c.lastUsed >= r.lastUsed || (i > 0 && Matches(c, labels[i - 1..]))
    {
      NotTaken(records, labels[i..], limit, hits, n, was, chosen, r);
    }
  }

  lemma KeepsServing(
      records: set<Record>, labels: seq<string>, limit: nat, was: set<Record>, chosen: set<Record>, j: nat)
    requires j <= |labels| && LevelServed(records, labels, limit, was, j) && |was| < limit && was <= chosen
    ensures LevelServed(records, labels, limit, chosen, j)
  {
  }

  // Levels that were never asked are served because the result was full before.
  lemma NeverAsked(records: set<Record>, labels: seq<string>, limit: nat, chosen: set<Record>, i: nat, j: nat)
    requires i <= j <= |labels| && MatchBefore(labels, chosen, i) && |chosen| == limit
    ensures LevelServed(records, labels, limit, chosen, j)
  {
    if i > 0 {
      forall c | c in chosen ensures Matches(c, labels[j..]) && (j > 0 ==> Matches(c, labels[j - 1..])) {
        SuffixMatches(c, labels, i - 1, j);
        SuffixMatches(c, labels, i - 1, j - 1);
      }
    }
  }

  lemma SearchEnds(records: set<Record>, labels: seq<string>, limit: nat, chosen: set<Record>, i: nat)
    requires i <= |labels| + 1 && Searching(records, labels, limit, chosen, i)
    requires i == |labels| + 1 || |chosen| >= limit
    ensures Greedy(records, labels, limit, chosen)
  {
    forall j: nat | j <= |labels| ensures LevelServed(records, labels, limit, chosen, j) {
      if j >= i {
        NeverAsked(records, labels, limit, chosen, i, j);
      }
    }
    SubsetSize(chosen, records);
    if |chosen| < limit {
      // The last level asks for nothing and misses nothing.
      assert labels[|labels|..] == [];
      assert LevelServed(records, labels, limit, chosen, |labels|);
      assert forall r | r in records :: Matches(r, labels[|labels|..]);
      assert chosen == records;
    }
  }

  lemma SearchStep(records: set<Record>, labels: seq<string>, limit: nat, hits: seq<Record>, n: nat,
                   was: set<Record>, chosen: set<Record>, i: nat)
    requires i <= |labels| && Searching(records, labels, limit, was, i) && |was| < limit
    requires Answers(hits, records, labels[i..], limit) && n <= |hits| && Takes(hits, n, limit, was, chosen)
    ensures Searching(records, labels, limit, chosen, i + 1)
  {
    hide Answers, LevelServed, MatchBefore;
    ServesLevel(records, labels, limit, hits, n, was, chosen, i);
    forall j: nat | j < i ensures LevelServed(records, labels, limit, chosen, j) {
      KeepsServing(records, labels, limit, was, chosen, j);
    }
    HitsAreRecords(records, labels[i..], limit, hits, n);
  }

  lemma SearchingRecords(records: set<Record>, labels: seq<string>, limit: nat, chosen: set<Record>, i: nat)
    requires i <= |labels| + 1 && Searching(records, labels, limit, chosen, i)
    ensures chosen <= records
  {
  }

  lemma HitsAreRecords(records: set<Record>, labels: seq<string>, limit: nat, hits: seq<Record>, n: nat)
    requires Answers(hits, records, labels, limit) && n <= |hits|
    ensures SetOf(hits[..n]) <= SetOf(hits) <= records
  {
  }

  ghost function Hashes(records: set<Record>): set<string> {
    set r | r in records :: Hash(r)
  }

  lemma {:induction false} HashesSize(store: Stored, records: set<Record>)
    requires ValidStore(store) && records <= Records(store)
    ensures |Hashes(records)| == |records|
  {
    if records != {} {
      var r :| r in records;
      HashesSize(store, records - {r});
      HashesGrow(records - {r}, r);
      assert records - {r} + {r} == records;
      forall r' | r' in records - {r} ensures Hash(r') != Hash(r) {
        if Hash(r') == Hash(r) {
          DistinctRecordsDistinctHashes(store, r, r');
        }
      }
      assert Hash(r) !in Hashes(records - {r});
    }
  }

  lemma HashesGrow(records: set<Record>, r: Record)
    ensures Hashes(records + {r}) == Hashes(records) + {Hash(r)}
  {
  }

  // A hash is listed exactly when its record was chosen.
  lemma HashesTell(store: Stored, chosen: set<Record>, hashes: seq<string>, r: Record)
    requires ValidStore(store) && chosen <= Records(store) && SetOf(hashes) == Hashes(chosen) && r in Records(store)
    ensures Hash(r) in hashes <==> r in chosen
  {
    hide ValidStore, Records, Hash;
    assert Hash(r) in hashes <==> Hash(r) in SetOf(hashes);
    if Hash(r) in Hashes(chosen) {
      var c :| c in chosen && Hash(c) == Hash(r);
      DistinctRecordsDistinctHashes(store, r, c);
    }
  }

  lemma HashesAreGreedy(store: Stored, labels: seq<string>, limit: nat, chosen: set<Record>, hashes: seq<string>)
    requires ValidStore(store) && Greedy(Records(store), labels, limit, chosen)
    requires SetOf(hashes) == Hashes(chosen) && |hashes| == |chosen|
    ensures GreedyHashes(Records(store), labels, limit, hashes)
  {
    hide ValidStore, Records, Hash, Matches;
    var records := Records(store);
    HashesSize(store, chosen);
    forall r | r in records ensures Hash(r) in hashes <==> r in chosen {
      HashesTell(store, chosen, hashes, r);
    }
    forall h | h in hashes ensures exists r :: r in records && Hash(r) == h {
      assert h in SetOf(hashes);
    }
    forall i: nat | i <= |labels| ensures LevelListed(records, labels, limit, hashes, i) {
      assert LevelServed(records, labels, limit, chosen, i);
    }
  }

  // The order is the source's: the least important label comes first.
  function SearchLabels(browser: string, browserVersion: string, os: string, osVersion: string): seq<string> {
    NonEmpty([osVersion, browserVersion, os, browser])
  }

  lemma {:induction false} NonEmptyAppend(a: seq<string>, b: seq<string>)
    ensures NonEmpty(a + b) == NonEmpty(a) + NonEmpty(b)
  {
    if b == [] {
      assert a + b == a;
    } else {
      NonEmptyAppend(a, b[..|b| - 1]);
      assert (a + b)[..|a + b| - 1] == a + b[..|b| - 1];
    }
  }

  lemma {:induction false} NonEmptyElements(labels: seq<string>)
    ensures SetOf(NonEmpty(labels)) == SetOf(labels) - {""}
  {
    if labels != [] {
      var front, last := labels[..|labels| - 1], labels[|labels| - 1];
      NonEmptyElements(front);
      assert labels == front + [last];
      assert forall x :: x in labels <==> x in front || x == last;
      assert forall x :: x in front <==> x in SetOf(front);
      assert forall x :: x in NonEmpty(front) <==> x in SetOf(NonEmpty(front));
      assert forall x :: x in NonEmpty(labels) <==> x in NonEmpty(front) || (x == last && last != "");
    }
  }

  // The levels of the search are the ends of the list of all labels.
  lemma LevelAt(raw: seq<string>, j: nat) returns (i: nat)
    requires j <= |raw|
    ensures i <= |NonEmpty(raw)| && NonEmpty(raw)[i..] == NonEmpty(raw[j..])
    ensures j > 0 && raw[j - 1] != "" ==> i > 0 && NonEmpty(raw)[i - 1..] == NonEmpty(raw[j - 1..])
  {
    i := |NonEmpty(raw[..j])|;
    NonEmptyAppend(raw[..j], raw[j..]);
    assert raw[..j] + raw[j..] == raw;
    if j > 0 && raw[j - 1] != "" {
      NonEmptyAppend(raw[..j - 1], raw[j - 1..]);
      assert raw[..j - 1] + raw[j - 1..] == raw;
      assert raw[..j][..j - 1] == raw[..j - 1];
    }
  }

  lemma MatchesSet(r: Record, labels: seq<string>)
    ensures Matches(r, NonEmpty(labels)) <==> SetOf(labels) - {""} <= r.labels
  {
    NonEmptyElements(labels);
    assert Matches(r, NonEmpty(labels)) <==> SetOf(NonEmpty(labels)) <= r.labels;
  }

  lemma PrefersAt(records: set<Record>, raw: seq<string>, limit: nat, hashes: seq<string>, j: nat)
    requires j <= |raw| && GreedyHashes(records, NonEmpty(raw), limit, hashes)
    ensures Prefers(records, hashes, limit, SetOf(raw[j..]), if j == 0 then None else Some(SetOf(raw[j - 1..])))
  {
    hide Hash, Matches, NonEmpty;
    var i := LevelAt(raw, j);
    assert LevelListed(records, NonEmpty(raw), limit, hashes, i);
    forall r | r in records
      ensures Matches(r, NonEmpty(raw[j..])) <==> SetOf(raw[j..]) - {""} <= r.labels
      ensures j > 0 ==> (Matches(r, NonEmpty(raw[j - 1..])) <==> SetOf(raw[j - 1..]) - {""} <= r.labels)
    {
      MatchesSet(r, raw[j..]);
      if j > 0 {
        MatchesSet(r, raw[j - 1..]);
      }
    }
    if j > 0 {
      assert raw[j - 1..] == [raw[j - 1]] + raw[j..];
      assert raw[j - 1] == "" ==> SetOf(raw[j - 1..]) - {""} == SetOf(raw[j..]) - {""};
    }
    hide NonEmpty;
    NoneAtFirst(records, raw, limit, hashes, i, j);
  }

  lemma NoneAtFirst(records: set<Record>, raw: seq<string>, limit: nat, hashes: seq<string>, i: nat, j: nat)
    requires j <= |raw|
    ensures j == 0 && i <= |NonEmpty(raw)| && NonEmpty(raw)[i..] == NonEmpty(raw[j..]) ==> i == 0
  {
    assert raw[0..] == raw;
  }

  lemma LabelLevels(browser: string, browserVersion: string, os: string, osVersion: string)
    ensures var raw := [osVersion, browserVersion, os, browser];
      && SetOf(raw[4..]) == {} && SetOf(raw[3..]) == {browser} && SetOf(raw[2..]) == {browser, os}
      && SetOf(raw[1..]) == {browser, os, browserVersion}
      && SetOf(raw[0..]) == {browser, os, browserVersion, osVersion}
  {
    var raw := [osVersion, browserVersion, os, browser];
    assert raw[4..] == [] && raw[3..] == [browser] && raw[2..] == [os, browser];
    assert raw[1..] == [browserVersion, os, browser] && raw[0..] == raw;
  }

  // In terms of the arguments: the browser is given up last, then the operating
  // system, then the browser's version, and the system's version first.
  lemma PrefersByArguments(records: set<Record>, browser: string, browserVersion: string, os: string,
                           osVersion: string, limit: nat, hashes: seq<string>)
    requires GreedyHashes(records, SearchLabels(browser, browserVersion, os, osVersion), limit, hashes)
    ensures Prefers(records, hashes, limit, {}, Some({browser}))
    ensures Prefers(records, hashes, limit, {browser}, Some({browser, os}))
    ensures Prefers(records, hashes, limit, {browser, os}, Some({browser, os, browserVersion}))
    ensures Prefers(records, hashes, limit, {browser, os, browserVersion},
                    Some({browser, os, browserVersion, osVersion}))
    ensures Prefers(records, hashes, limit, {browser, os, browserVersion, osVersion}, None)
  {
    hide Prefers, GreedyHashes, SetOf, NonEmpty;
    var raw := [osVersion, browserVersion, os, browser];
    LabelLevels(browser, browserVersion, os, osVersion);
    PrefersAt(records, raw, limit, hashes, 4);
    PrefersAt(records, raw, limit, hashes, 3);
    PrefersAt(records, raw, limit, hashes, 2);
    PrefersAt(records, raw, limit, hashes, 1);
    PrefersAt(records, raw, limit, hashes, 0);
  }

  function TotalLimit(limit: Option<int>): int {
    limit.GetOr(MAX_ITEMS_IN_RESPONSE)
  }

  // A negative limit asks for nothing.
  function AtLeastZero(n: int): nat {
    if n < 0 then 0 else n
  }

  lemma NothingChosen(records: set<Record>, labels: seq<string>, limit: nat)
    ensures Searching(records, labels, limit, {}, 0) && Hashes({}) == {}
  {
  }

  // The loop over the hits of one query.
  method TakeHits(store: Stored, hits: seq<Record>, totalLimit: nat, before: set<string>, ghost was: set<Record>)
    returns (all: set<string>, ghost chosen: set<Record>, ghost n: nat)
    requires ValidStore(store) && was <= Records(store) && SetOf(hits) <= Records(store)
    requires before == Hashes(was) && |before| == |was| && |before| < totalLimit
    ensures n <= |hits| && Takes(hits, n, totalLimit, was, chosen)
    ensures all == Hashes(chosen) && |all| == |chosen|
  {
    hide Hash, ValidStore, Hashes, Records;
    all, chosen, n := before, was, 0;
    assert was + SetOf(hits[..0]) == was;
    var i := 0;
    while i < |hits|
      invariant i == n <= |hits| && chosen == was + SetOf(hits[..n]) && chosen <= Records(store)
      invariant all == Hashes(chosen) && |all| == |chosen| && |all| < totalLimit
    {
      TakeOne(store, was, hits, i);
      all := all + {Hash(hits[i])};
      chosen, n := chosen + {hits[i]}, n + 1;
      i := i + 1;
      HashesSize(store, chosen);
      if |all| == totalLimit {
        break;
      }
    }
  }

  lemma TakeOne(store: Stored, was: set<Record>, hits: seq<Record>, n: nat)
    requires n < |hits| && was <= Records(store) && SetOf(hits) <= Records(store)
    ensures var chosen := was + SetOf(hits[..n]);
      && chosen + {hits[n]} == was + SetOf(hits[..n + 1])
      && chosen + {hits[n]} <= Records(store)
      && Hashes(chosen + {hits[n]}) == Hashes(chosen) + {Hash(hits[n])}
      && |chosen + {hits[n]}| <= |chosen| + 1
  {
    assert hits[..n + 1] == hits[..n] + [hits[n]];
    SetOfAppend(hits[..n], hits[n]);
    assert hits[n] in SetOf(hits);
    assert forall x | x in hits[..n] :: x in SetOf(hits);
  }

  // RecentScreenshotHashes: the hashes of the records chosen greedily.
  method RecentScreenshotHashes(
      store: Stored, browser: string, browserVersion: string, os: string, osVersion: string, limit: Option<int>)
    returns (hashes: seq<string>)
    requires ValidStore(store)
    ensures GreedyHashes(Records(store), SearchLabels(browser, browserVersion, os, osVersion),
                         AtLeastZero(TotalLimit(limit)), hashes)
    ensures var n := if limit.None? then 10000 else if limit.value < 0 then 0 else limit.value;
      && |hashes| == |SetOf(hashes)| == (if |Records(store)| < n then |Records(store)| else n)
      && Prefers(Records(store), hashes, n, {}, Some({browser}))
      && Prefers(Records(store), hashes, n, {browser}, Some({browser, os}))
      && Prefers(Records(store), hashes, n, {browser, os}, Some({browser, os, browserVersion}))
      && Prefers(Records(store), hashes, n, {browser, os, browserVersion},
                 Some({browser, os, browserVersion, osVersion}))
      && Prefers(Records(store), hashes, n, {browser, os, browserVersion, osVersion}, None)
  {
    hide Prefers, SetOf;
    hide Greedy, GreedyHashes, Searching, Takes, Hash, ValidStore, Matches, Newest, Distinct;
    var totalLimit := TotalLimit(limit);
    var rawLabels := [osVersion, browserVersion, os, browser];
    var labels := OmitEmpty(rawLabels);
    ghost var full := labels;
    var records := set k | k in store :: store[k];
    var all: set<string> := {};
    var i := 0;
    ghost var chosen: set<Record> := {};
    NothingChosen(records, full, AtLeastZero(totalLimit));
    while |all| < totalLimit
      invariant i <= |full| && labels == full[i..]
      invariant Searching(records, full, AtLeastZero(totalLimit), chosen, i)
      invariant all == Hashes(chosen) && |all| == |chosen|
      decreases |full| - i
    {
      var hits := GetAll(records, labels, totalLimit);
      ghost var was, n := chosen, 0;
      SearchingRecords(records, full, totalLimit, chosen, i);
      all, chosen, n := TakeHits(store, hits, totalLimit, all, chosen);
      SearchStep(records, full, totalLimit, hits, n, was, chosen, i);
      i := i + 1;
      if |labels| == 0 {
        break;
      }
      labels := labels[1..];
    }
    SearchEnds(records, full, AtLeastZero(totalLimit), chosen, i);
    hashes := ListSet(all);
    HashesAreGreedy(store, full, AtLeastZero(totalLimit), chosen, hashes);
    PrefersByArguments(records, browser, browserVersion, os, osVersion, AtLeastZero(totalLimit), hashes);
    GreedyCount(records, full, AtLeastZero(totalLimit), hashes);
  }

  lemma GreedyCount(records: set<Record>, labels: seq<string>, limit: nat, hashes: seq<string>)
    requires GreedyHashes(records, labels, limit, hashes)
    ensures |hashes| == |SetOf(hashes)| == (if |records| < limit then |records| else limit)
  {
  }
}
