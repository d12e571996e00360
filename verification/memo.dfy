/** The hash-bucketed memo of configurations already met. */
module Memo {
  import opened Linearizability
  import opened Words
  import opened Bitsets
  import opened Search

  /** `words` is what the bitset held when the entry was made. */
  datatype CacheEntry<S> = CacheEntry(linearized: array<Word>, state: S, ghost words: seq<Word>)

  type Cache<S> = map<nat, seq<CacheEntry<S>>>

  function Bucket<S>(cache: Cache<S>, hash: nat): seq<CacheEntry<S>> {
    if hash in cache then cache[hash] else []
  }

  ghost function ConfigOf<S>(e: CacheEntry<S>): Config<S> {
    (Members(e.words), e.state)
  }

  ghost function Arrays<S>(entries: set<CacheEntry<S>>): set<array<Word>> {
    set e | e in entries :: e.linearized
  }

  /** No stored bitset has changed since it was stored. */
  ghost predicate Intact<S(!new)>(entries: set<CacheEntry<S>>)
    reads Arrays(entries)
  {
    forall e :: e in entries ==> e.linearized in Arrays(entries) && e.linearized[..] == e.words
  }

  /** `entries` is everything inserted so far; each entry is in the bucket of its hash, and the
      buckets hold nothing else. */
  ghost predicate Filed<S(!new)>(cache: Cache<S>, entries: set<CacheEntry<S>>, words: nat) {
    && (forall e :: e in entries ==> |e.words| == words && e in Bucket(cache, HashOf(e.words)))
    && (forall hash, e :: hash in cache && e in cache[hash] ==> e in entries)
  }

  /** The configurations of the inserted entries. */
  ghost function MemoOf<S(!new)>(entries: set<CacheEntry<S>>): set<Config<S>> {
    set e | e in entries :: ConfigOf(e)
  }

  ghost predicate Matches<S, I, O>(m: Model<S, I, O>, entry: CacheEntry<S>, e: CacheEntry<S>) {
    e.words == entry.words && m.equal(entry.state, e.state)
  }

  ghost predicate MatchIn<S, I, O>(m: Model<S, I, O>, bucket: seq<CacheEntry<S>>, entry: CacheEntry<S>) {
    exists e :: e in bucket && Matches(m, entry, e)
  }

  /** The configuration `(D, s)` is in `memo`, up to the model's equality of states. */
  ghost predicate Known<S(!new), I, O>(m: Model<S, I, O>, memo: set<Config<S>>, D: set<nat>, s: S) {
    exists c :: c in memo && c.0 == D && m.equal(s, c.1)
  }

  method ScanBucket<S, I, O>(m: Model<S, I, O>, bucket: seq<CacheEntry<S>>, entry: CacheEntry<S>) returns (found: bool)
    requires forall j :: 0 <= j < |bucket| ==> bucket[j].linearized[..] == bucket[j].words
    requires entry.linearized[..] == entry.words
    ensures found <==> MatchIn(m, bucket, entry)
  {
    for i := 0 to |bucket|
      invariant forall j :: 0 <= j < i ==> !Matches(m, entry, bucket[j])
    {
      var same := Equals(entry.linearized, bucket[i].linearized);
      if same && m.equal(entry.state, bucket[i].state) {
        assert Matches(m, entry, bucket[i]);
        return true;
      }
    }
    return false;
  }

  /** Scanning the bucket of its hash finds a configuration exactly if a scan of everything inserted would. */
  method CacheContains<S(!new), I, O>(m: Model<S, I, O>, cache: Cache<S>, entry: CacheEntry<S>,
      ghost entries: set<CacheEntry<S>>)
    returns (found: bool)
    requires Filed(cache, entries, |entry.words|) && Intact(entries)
    requires entry.linearized[..] == entry.words
    ensures found <==> Known(m, MemoOf(entries), Members(entry.words), entry.state)
  {
    var hash := Hash(entry.linearized);
    assert hash == HashOf(entry.words);
    BucketIntact(cache, entries, hash);
    var bucket := Bucket(cache, hash);
    found := ScanBucket(m, bucket, entry);
    BucketSuffices(m, cache, hash, entry, entries);
  }

  lemma BucketIntact<S(!new)>(cache: Cache<S>, entries: set<CacheEntry<S>>, hash: nat)
    requires forall hash, e :: hash in cache && e in cache[hash] ==> e in entries
    requires Intact(entries)
    ensures var bucket := Bucket(cache, hash);
            forall j :: 0 <= j < |bucket| ==> bucket[j].linearized[..] == bucket[j].words
  {
  }

  lemma BucketSuffices<S(!new), I, O>(m: Model<S, I, O>, cache: Cache<S>, hash: nat, entry: CacheEntry<S>,
      entries: set<CacheEntry<S>>)
    requires Filed(cache, entries, |entry.words|) && hash == HashOf(entry.words)
    ensures MatchIn(m, Bucket(cache, hash), entry) <==> Known(m, MemoOf(entries), Members(entry.words), entry.state)
  {
    if e :| e in Bucket(cache, hash) && Matches(m, entry, e) {
      assert e in entries;
      assert ConfigOf(e) in MemoOf(entries);
    }
    if c :| c in MemoOf(entries) && c.0 == Members(entry.words) && m.equal(entry.state, c.1) {
      var e :| e in entries && ConfigOf(e) == c;
      MembersInjective(entry.words, e.words);
      assert e in Bucket(cache, hash) && Matches(m, entry, e);
    }
  }

  function Insert<S>(cache: Cache<S>, hash: nat, entry: CacheEntry<S>): Cache<S> {
    cache[hash := Bucket(cache, hash) + [entry]]
  }

  lemma InsertFiled<S(!new)>(cache: Cache<S>, entries: set<CacheEntry<S>>, words: nat, entry: CacheEntry<S>)
    requires Filed(cache, entries, words) && |entry.words| == words
    ensures Filed(Insert(cache, HashOf(entry.words), entry), entries + {entry}, words)
  {
  }

  lemma InsertStored<S(!new)>(entries: set<CacheEntry<S>>, entry: CacheEntry<S>)
    ensures MemoOf(entries + {entry}) == MemoOf(entries) + {ConfigOf(entry)}
  {
  }
}
