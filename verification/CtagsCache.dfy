/**
  The two-level symbol cache: an in-memory least-recently-used map in front of one file per
  repository and commit. Lookups are stated against the index that ctags itself would give.
 */
module CtagsCache {
  import opened Text

  /** A repository id and a commit. */
  type Key = (string, string)

  datatype Tag = Tag(name: string, path: string, line: int, kind: string)

  /** What reading a cache file gives; an unreadable file reads as an empty list. */
  datatype CacheFile = Readable(tags: seq<Tag>) | Unreadable

  datatype Lookup =
    | Symbols(tags: seq<Tag>)
    | WorktreeMissing
    | UnsafeRepo
    | UnsafeCommit
    | CtagsFailed

  predicate SafeId(id: string)
  {
    && 1 <= |id| <= 128
    && forall i :: 0 <= i < |id| ==> SafeIdChar(id[i])
  }

  predicate SafeIdChar(c: char)
  {
    'A' <= c <= 'Z' || 'a' <= c <= 'z' || '0' <= c <= '9' || c == '.' || c == '_' || c == '-'
  }

  predicate SafeKey(k: Key)
  {
    SafeId(k.0) && SafeId(k.1)
  }

  const SUFFIX := ".tags.json"

  function PathOf(k: Key): string
  {
    k.0 + "/" + k.1 + SUFFIX
  }

  /** Which ids are accepted, and the file of a key. */
  lemma CacheFileOf(k: Key)
    ensures SafeKey(k) <==> forall id :: id in {k.0, k.1} ==>
      && 1 <= |id| <= 128
      && forall i :: 0 <= i < |id| ==>
           'A' <= id[i] <= 'Z' || 'a' <= id[i] <= 'z' || '0' <= id[i] <= '9' || id[i] in {'.', '_', '-'}
    ensures PathOf(k) == k.0 + "/" + k.1 + ".tags.json"
  {
  }

  /** Different keys never share a cache file. */
  lemma PathsDistinct(a: Key, b: Key)
    requires SafeKey(a) && SafeKey(b)
    requires PathOf(a) == PathOf(b)
    ensures a == b
  {
    hide SafeId;
    var p, q := PathOf(a), PathOf(b);
    assert p[|a.0|] == '/' && q[|b.0|] == '/';
    assert |a.0| < |b.0| ==> q[|a.0|] == b.0[|a.0|];
    assert |b.0| < |a.0| ==> p[|b.0|] == a.0[|b.0|];
    NoSlash(a.0);
    NoSlash(b.0);
    assert a.0 == p[..|a.0|] && b.0 == q[..|b.0|];
    assert a.1 == p[|a.0| + 1..|p| - |SUFFIX|] && b.1 == q[|b.0| + 1..|q| - |SUFFIX|];
  }

  lemma NoSlash(id: string)
    requires SafeId(id)
    ensures forall i :: 0 <= i < |id| ==> id[i] != '/'
  {
  }

  function Named(tags: seq<Tag>, symbol: string): seq<Tag>
  {
    Filter(tags, (t: Tag) => t.name == symbol)
  }

  /** The answer holds the tags of that name and no others, each as often as the index does, in its order. */
  ghost predicate JustNamed(answer: seq<Tag>, tags: seq<Tag>, symbol: string)
  {
    && (forall t :: multiset(answer)[t] == if t.name == symbol then multiset(tags)[t] else 0)
    && exists places :: Located(answer, tags, places)
  }

  /** The answer's tags stand at these places of the index, one after the other. */
  predicate Located(answer: seq<Tag>, tags: seq<Tag>, places: seq<nat>)
  {
    && |places| == |answer|
    && (forall i :: 0 <= i < |places| ==> places[i] < |tags| && answer[i] == tags[places[i]])
    && (forall i, j :: 0 <= i < j < |places| ==> places[i] < places[j])
  }

  lemma NamedExactly(tags: seq<Tag>, symbol: string)
    ensures JustNamed(Named(tags, symbol), tags, symbol)
  {
    hide Filter;
    NamedCounts(tags, symbol);
    var places := NamedPlaces(tags, symbol);
  }

  lemma {:induction false} NamedCounts(tags: seq<Tag>, symbol: string)
    ensures forall t :: multiset(Named(tags, symbol))[t] == if t.name == symbol then multiset(tags)[t] else 0
  {
    if |tags| > 0 {
      NamedCounts(tags[1..], symbol);
      assert tags == [tags[0]] + tags[1..];
    }
  }

  lemma {:induction false} NamedPlaces(tags: seq<Tag>, symbol: string) returns (places: seq<nat>)
    ensures Located(Named(tags, symbol), tags, places)
  {
    places := [];
    if |tags| > 0 {
      hide Named, Located;
      NamedCons(tags, symbol);
      places := NamedPlaces(tags[1..], symbol);
      places := LocatedFurther(Named(tags[1..], symbol), tags, places);
      if tags[0].name == symbol {
        LocatedFirst(Named(tags[1..], symbol), tags, places);
        places := [0] + places;
      } else {
        assert [] + Named(tags[1..], symbol) == Named(tags[1..], symbol);
      }
    }
  }

  lemma LocatedFurther(answer: seq<Tag>, tags: seq<Tag>, places: seq<nat>) returns (moved: seq<nat>)
    requires |tags| > 0 && Located(answer, tags[1..], places)
    ensures Located(answer, tags, moved) && forall i :: 0 <= i < |moved| ==> moved[i] > 0
  {
    moved := seq(|places|, i requires 0 <= i < |places| => places[i] + 1);
  }

  lemma LocatedFirst(answer: seq<Tag>, tags: seq<Tag>, places: seq<nat>)
    requires |tags| > 0 && Located(answer, tags, places) && forall i :: 0 <= i < |places| ==> places[i] > 0
    ensures Located([tags[0]] + answer, tags, [0] + places)
  {
  }

  lemma NamedCons(tags: seq<Tag>, symbol: string)
    requires |tags| > 0
    ensures Named(tags, symbol) == (if tags[0].name == symbol then [tags[0]] else []) + Named(tags[1..], symbol)
  {
  }

  // ----- recency -----

  function Without<T(==)>(s: seq<T>, x: T): seq<T>
  {
    Filter(s, y => y != x)
  }

  /** The keys of a history of uses, each once, the most recently used last. */
  function Recency<T(==)>(history: seq<T>): seq<T>
  {
    if |history| == 0 then []
    else
      var last := history[|history| - 1];
      Without(Recency(history[..|history| - 1]), last) + [last]
  }

  function LastFew<T>(s: seq<T>, n: nat): seq<T>
  {
    if |s| <= n then s else s[|s| - n..]
  }

  lemma {:induction false} WithoutAbsent<T>(s: seq<T>, x: T)
    requires x !in s
    ensures Without(s, x) == s
  {
    if |s| > 0 {
      WithoutAbsent(s[1..], x);
    }
  }

  lemma {:induction false} WithoutAt<T>(s: seq<T>, i: nat)
    requires Distinct(s) && i < |s|
    ensures Without(s, s[i]) == s[..i] + s[i + 1..]
  {
    if i == 0 {
      WithoutAbsent(s[1..], s[0]);
    } else {
      WithoutAt(s[1..], i - 1);
      assert s[1..][..i - 1] == s[1..i] && s[1..][i..] == s[i + 1..];
      assert s[..i] == [s[0]] + s[1..i];
    }
  }

  lemma IndexIn<T>(s: seq<T>, x: T) returns (i: nat)
    requires x in s
    ensures i < |s| && s[i] == x
  {
    i :| i < |s| && s[i] == x;
  }

  lemma MoveToEnd<T>(s: seq<T>, x: T)
    requires Distinct(s)
    ensures Distinct(Without(s, x) + [x])
    ensures forall k :: k in Without(s, x) + [x] <==> k in s || k == x
  {
    hide Without;
    if x in s {
      var i := IndexIn(s, x);
      WithoutAt(s, i);
      assert s == s[..i] + [x] + s[i + 1..];
      assert Without(s, x) + [x] == s[..i] + s[i + 1..] + [x];
    } else {
      WithoutAbsent(s, x);
    }
  }

  lemma RecencyUnfold<T>(history: seq<T>, k: T)
    ensures Recency(history + [k]) == Without(Recency(history), k) + [k]
  {
    assert (history + [k])[..|history|] == history;
  }

  /** Each key used occurs once in the recency list, and nothing else does. */
  lemma {:induction false} RecencyKeys<T>(history: seq<T>)
    ensures Distinct(Recency(history))
    ensures forall k :: k in Recency(history) <==> k in history
  {
    hide Without;
    if |history| > 0 {
      var n := |history| - 1;
      RecencyKeys(history[..n]);
      MoveToEnd(Recency(history[..n]), history[n]);
      assert history == history[..n] + [history[n]];
    }
  }

  /** The keys used after the last use of `k`. */
  ghost function UsedSince<T>(history: seq<T>, k: T): set<T>
    requires k in history
  {
    var n := |history| - 1;
    if history[n] == k then {} else UsedSince(history[..n], k) + {history[n]}
  }

  /** The keys that stand behind `k` in a list without repetitions. */
  ghost function Behind<T>(s: seq<T>, k: T): set<T>
    requires k in s
  {
    var i :| 0 <= i < |s| && s[i] == k;
    Elements(s[i + 1..])
  }

  lemma BehindAt<T>(s: seq<T>, i: nat)
    requires Distinct(s) && i < |s|
    ensures Behind(s, s[i]) == Elements(s[i + 1..])
  {
  }

  lemma BehindMoved<T>(s: seq<T>, x: T, k: T)
    requires Distinct(s) && k in s && k != x
    ensures k in Without(s, x) + [x] && Behind(Without(s, x) + [x], k) == Behind(s, k) + {x}
  {
    hide Without, Behind, Distinct;
    MoveToEnd(s, x);
    var moved := Without(s, x) + [x];
    var i := IndexIn(s, k);
    var i' := i;
    if x in s {
      var j := IndexIn(s, x);
      WithoutAt(s, j);
      if i < j {
        assert s[i + 1..] == s[i + 1..j] + [x] + s[j + 1..];
        assert moved[i + 1..] == s[i + 1..j] + s[j + 1..] + [x];
      } else {
        i' := i - 1;
        assert moved[i' + 1..] == s[i + 1..] + [x];
      }
    } else {
      WithoutAbsent(s, x);
      assert moved[i' + 1..] == s[i + 1..] + [x];
    }
    assert moved[i'] == k;
    BehindAt(s, i);
    BehindAt(moved, i');
  }

  /** What stands behind a key in the recency list is exactly what was used since its last use. */
  lemma {:induction false} RecencyOrder<T>(history: seq<T>, k: T)
    requires k in history
    ensures k in Recency(history) && Behind(Recency(history), k) == UsedSince(history, k)
  {
    hide Without;
    RecencyKeys(history);
    var n := |history| - 1;
    var before, last := Recency(history[..n]), history[n];
    if last == k {
      assert Recency(history)[|Recency(history)| - 1] == k;
    } else {
      RecencyKeys(history[..n]);
      assert k in history[..n];
      RecencyOrder(history[..n], k);
      BehindMoved(before, last, k);
    }
  }

  /** A key is among the `limit` most recent exactly when fewer than `limit` others were used since. */
  lemma HeldIffRecent<T>(history: seq<T>, limit: nat, k: T)
    requires k in history
    ensures k in LastFew(Recency(history), limit) <==> |UsedSince(history, k)| < limit
  {
    hide Recency, UsedSince;
    RecencyKeys(history);
    RecencyOrder(history, k);
    var r := Recency(history);
    var i :| 0 <= i < |r| && r[i] == k;
    DistinctSize(r[i + 1..]);
    if |r| > limit && i >= |r| - limit {
      assert r[|r| - limit..][i - (|r| - limit)] == k;
    }
  }

  lemma LastFewIsTail<T>(s: seq<T>, n: nat)
    ensures LastFew(s, n) == s[if |s| <= n then 0 else |s| - n..]
  {
  }

  lemma FirstIsGone<T>(s: seq<T>)
    requires Distinct(s) && |s| > 0
    ensures s[0] !in s[1..]
  {
  }

  lemma TailDistinct<T>(s: seq<T>, d: nat)
    requires Distinct(s) && d <= |s|
    ensures Distinct(s[d..])
  {
  }

  /** Moving one element of a tail to the end gives the tail of the moved list. */
  lemma MoveInTail(r: seq<Key>, d: nat, i: nat, k: Key)
    requires d + i < |r|
    ensures r[d..][..i] + r[d..][i + 1..] + [k] == (r[..d + i] + r[d + i + 1..] + [k])[d..]
  {
    assert r[..d + i] == r[..d] + r[d..][..i];
    assert r[d + i + 1..] == r[d..][i + 1..];
  }

  /** Touching a held key, in the recency list and in its tail. */
  lemma TouchHeld(r: seq<Key>, limit: nat, k: Key)
    requires Distinct(r) && k in LastFew(r, limit)
    ensures Without(LastFew(r, limit), k) + [k] == LastFew(Without(r, k) + [k], limit)
  {
    hide Without, Distinct, LastFew;
    var d := if |r| <= limit then 0 else |r| - limit;
    LastFewIsTail(r, limit);
    var i := IndexIn(r[d..], k);
    TailDistinct(r, d);
    WithoutAt(r[d..], i);
    WithoutAt(r, d + i);
    MoveInTail(r, d, i, k);
    LastFewIsTail(r[..d + i] + r[d + i + 1..] + [k], limit);
  }

  /** Adding a key that is not held, then dropping the oldest beyond the limit. */
  lemma TouchNew(r: seq<Key>, limit: nat, k: Key)
    requires Distinct(r) && k !in LastFew(r, limit)
    ensures LastFew(LastFew(r, limit) + [k], limit) == LastFew(Without(r, k) + [k], limit)
  {
    hide Without;
    var held := LastFew(r, limit);
    var d := |r| - |held|;
    if k in r {
      var i := IndexIn(r, k);
      assert i < d by {
        assert forall j :: d <= j < |r| ==> r[j] == held[j - d];
      }
      WithoutAt(r, i);
      assert r[i + 1..] == r[i + 1..d] + held;
      Assoc(r[..i], r[i + 1..d], held);
      LastOfLonger(r[..i] + r[i + 1..d], held, k, limit);
    } else {
      WithoutAbsent(r, k);
      assert r == r[..d] + held;
      LastOfLonger(r[..d], held, k, limit);
    }
  }

  lemma LastOfLonger(before: seq<Key>, held: seq<Key>, k: Key, limit: nat)
    requires |held| == limit || |before| == 0
    ensures LastFew(held + [k], limit) == LastFew(before + held + [k], limit)
  {
    assert |before| == 0 ==> before + held == held;
  }

  // ----- the client -----

  /** The entries a cache file yields. */
  function Contents(f: CacheFile): seq<Tag>
  {
    if f.Readable? then f.tags else []
  }

  class CtagsClient {
    /** `_mem`: the keys in recency order, oldest first, and their entries. */
    var order: seq<Key>
    var mem: map<Key, seq<Tag>>
    /** The cache directory. */
    var disk: map<string, CacheFile>
    const limit: nat

    /** The keys of all lookups that loaded or built their entries, in order. */
    ghost var history: seq<Key>
    /** The keys for which ctags ran with success, in order. */
    ghost var builds: seq<Key>

    ghost predicate Valid()
      reads this
    {
      && order == LastFew(Recency(history), limit)
      && (forall k :: k in order <==> k in mem)
      && (forall k :: k in mem ==> SafeKey(k) && PathOf(k) in disk && mem[k] == Contents(disk[PathOf(k)]))
      && (forall k :: k in builds ==> PathOf(k) in disk)
      && Distinct(builds)
    }

    /** Whatever is cached for safe keys is what ctags gives for them. */
    ghost predicate Faithful(index: Key -> seq<Tag>)
      reads this
    {
      forall k :: SafeKey(k) && PathOf(k) in disk ==> Contents(disk[PathOf(k)]) == index(k)
    }

    constructor (directory: map<string, CacheFile>, limit: nat)
      ensures Valid() && history == [] && builds == []
      ensures disk == directory && this.limit == limit
    {
      this.order, this.mem, this.disk, this.limit := [], map[], directory, limit;
      this.history, this.builds := [], [];
    }

    ghost predicate Coherent()
      reads this
    {
      && Distinct(order)
      && (forall k :: k in order <==> k in mem)
      && (forall k :: k in mem ==> SafeKey(k) && PathOf(k) in disk && mem[k] == Contents(disk[PathOf(k)]))
    }

    /** Drops the oldest keys beyond the limit. */
    method Evict()
      requires Coherent()
      modifies this`order, this`mem
      ensures Coherent() && |order| <= limit && order == LastFew(old(order), limit)
    {
      hide SafeKey, PathOf, Coherent;
      while |order| > limit
        invariant Coherent() && LastFew(order, limit) == LastFew(old(order), limit)
        decreases |order|
      {
        DropOldest();
      }
    }

    method DropOldest()
      requires Coherent() && |order| > 0
      modifies this`order, this`mem
      ensures Coherent() && order == old(order)[1..]
    {
      hide SafeKey, PathOf, Contents, Distinct;
      TailDistinct(order, 1);
      assert order[0] !in order[1..] by {
        FirstIsGone(order);
      }
      assert order == [order[0]] + order[1..];
      mem, order := mem - {order[0]}, order[1..];
    }

    /** Moves a key to the recent end of the in-memory map, adding it when it is new. */
    method Touch(k: Key, tags: seq<Tag>)
      requires Valid() && SafeKey(k) && PathOf(k) in disk && tags == Contents(disk[PathOf(k)])
      modifies this`order, this`mem, this`history
      ensures Valid() && history == old(history) + [k]
    {
      hide SafeKey, PathOf, Recency, Without, LastFew, Contents, Distinct;
      RecencyUnfold(history, k);
      ghost var r := Recency(history);
      OrderDistinct();
      MoveToEnd(order, k);
      if k in mem {
        TouchHeld(r, limit, k);
        ghost var was := order;
        order := Without(order, k) + [k];
        assert forall k' :: k' in order <==> k' in was || k' == k;
      } else {
        TouchNew(r, limit, k);
        WithoutAbsent(order, k);
        order, mem := order + [k], mem[k := tags];
        Evict();
      }
      history := history + [k];
    }

    /**
      `output`: what ctags prints for the worktree now, or None when it fails or times out.
     */
    method LoadOrBuild(k: Key, output: Option<seq<Tag>>) returns (r: Option<seq<Tag>>)
      requires Valid() && SafeKey(k)
      modifies this
      ensures Valid()
      // the answer depends on the cache directory alone: memory is invisible
      ensures r == if PathOf(k) in old(disk) then Some(Contents(old(disk)[PathOf(k)])) else output
      ensures disk == if PathOf(k) !in old(disk) && output.Some? then old(disk)[PathOf(k) := Readable(output.value)]
                      else old(disk)
      ensures history == if r.Some? then old(history) + [k] else old(history)
      ensures r.None? ==> order == old(order) && mem == old(mem)
      // ctags runs only for a key without a cache file
      ensures builds == if PathOf(k) !in old(disk) && output.Some? then old(builds) + [k] else old(builds)
    {
      hide SafeKey, PathOf, Recency, Without;
      var file := PathOf(k);
      if k in mem {
        r := Some(mem[k]);
      } else if file in disk {
        r := Some(Contents(disk[file]));
      } else {
        r := output;
        if output.None? {
          return;
        }
        forall k' | k' in mem ensures PathOf(k') != file {
        }
        disk := disk[file := Readable(output.value)];
        builds := builds + [k];
      }
      Touch(k, r.value);
    }

    method FindSymbols(worktree: bool, repo: string, commit: string, symbol: string, output: Option<seq<Tag>>,
        ghost index: Key -> seq<Tag>)
      returns (r: Lookup)
      requires Valid()
      modifies this
      ensures Valid() && |mem| <= limit
      // the errors, in the order the arguments are checked
      ensures r.WorktreeMissing? <==> !worktree
      ensures r.UnsafeRepo? <==> worktree && !SafeId(repo)
      ensures r.UnsafeCommit? <==> worktree && SafeId(repo) && !SafeId(commit)
      ensures r.CtagsFailed? <==>
          worktree && SafeKey((repo, commit)) && PathOf((repo, commit)) !in old(disk) && output.None?
      ensures !r.Symbols? ==> order == old(order) && mem == old(mem) && disk == old(disk) && builds == old(builds)
      ensures history == if r.Symbols? then old(history) + [(repo, commit)] else old(history)
      ensures forall p :: p in old(disk) ==> p in disk && disk[p] == old(disk)[p]
      ensures var file := PathOf((repo, commit));
        r.Symbols? && file in old(disk) ==> r.tags == Named(Contents(old(disk)[file]), symbol)
      ensures r.Symbols? && PathOf((repo, commit)) !in old(disk) ==>
          output.Some? && r.tags == Named(output.value, symbol)
      ensures r.Symbols? ==>
        var file := PathOf((repo, commit));
        if file in old(disk) then JustNamed(r.tags, Contents(old(disk)[file]), symbol)
        else JustNamed(r.tags, output.value, symbol)
      ensures disk == if r.Symbols? && PathOf((repo, commit)) !in old(disk)
                      then old(disk)[PathOf((repo, commit)) := Readable(output.value)] else old(disk)
      // the answer is the direct index filtered by name, and stays so for every later lookup
      ensures old(Faithful(index)) && (output.Some? ==> output.value == index((repo, commit))) ==>
                Faithful(index) && (r.Symbols? ==> r.tags == Named(index((repo, commit)), symbol))
    {
      hide Named, JustNamed, Filter;
      MemSize();
      if !worktree {
        r := WorktreeMissing;
      } else if !SafeId(repo) {
        r := UnsafeRepo;
      } else if !SafeId(commit) {
        r := UnsafeCommit;
      } else {
        var k := (repo, commit);
        var loaded := LoadOrBuild(k, output);
        MemSize();
        if loaded.None? {
          r := CtagsFailed;
        } else {
          NamedExactly(loaded.value, symbol);
          r := Symbols(Named(loaded.value, symbol));
        }
        forall k' | SafeKey(k') && PathOf(k') in disk && PathOf(k') !in old(disk) ensures k' == k {
          PathsDistinct(k, k');
        }
      }
    }

    lemma OrderDistinct()
      requires Valid()
      ensures Distinct(Recency(history)) && Distinct(order)
    {
      hide SafeKey, PathOf, Recency;
      RecencyKeys(history);
    }

    lemma MemSize()
      requires Valid()
      ensures |mem| <= limit
    {
      hide SafeKey, PathOf, Recency;
      OrderDistinct();
      DistinctSize(order);
      assert mem.Keys == set k | k in order;
    }
  }

  // ----- runs -----

  /** One lookup, and what ctags would print at that moment. */
  datatype Call = Call(worktree: bool, repo: string, commit: string, symbol: string, output: Option<seq<Tag>>)
  {
    function Key(): (string, string) { (repo, commit) }
    predicate Proper() { worktree && SafeKey(Key()) }
  }

  /** Whenever ctags succeeds it prints the index of the repository and commit. */
  ghost predicate Honest(calls: seq<Call>, index: Key -> seq<Tag>)
  {
    forall c :: c in calls && c.output.Some? ==> c.output.value == index(c.Key())
  }

  /** What a lookup gives in a run that began with the directory: a file that was there decides, and otherwise
      the index does. */
  ghost predicate Answers(directory: map<string, CacheFile>, index: Key -> seq<Tag>, c: Call, r: Lookup)
  {
    var file := PathOf(c.Key());
    if file in directory then r == Symbols(Named(Contents(directory[file]), c.symbol))
    else r.CtagsFailed? || r == Symbols(Named(index(c.Key()), c.symbol))
  }

  /** Everything written since then holds the index of its key. */
  ghost predicate OnlyIndexed(directory: map<string, CacheFile>, disk: map<string, CacheFile>, index: Key -> seq<Tag>)
  {
    && (forall p :: p in directory ==> p in disk && disk[p] == directory[p])
    && (forall k :: SafeKey(k) && PathOf(k) in disk && PathOf(k) !in directory ==>
        Contents(disk[PathOf(k)]) == index(k))
  }

  lemma StaysIndexed(directory: map<string, CacheFile>, disk: map<string, CacheFile>, index: Key -> seq<Tag>, k: Key,
                     tags: seq<Tag>)
    requires OnlyIndexed(directory, disk, index) && SafeKey(k) && PathOf(k) !in disk && tags == index(k)
    ensures OnlyIndexed(directory, disk[PathOf(k) := Readable(tags)], index)
  {
    hide SafeKey, PathOf;
    var disk' := disk[PathOf(k) := Readable(tags)];
    forall k' | SafeKey(k') && PathOf(k') in disk' && PathOf(k') !in directory
      ensures Contents(disk'[PathOf(k')]) == index(k')
    {
      if PathOf(k') == PathOf(k) {
        PathsDistinct(k, k');
      }
    }
  }

  /** Any run of lookups from any cache directory. */
  method LookUpAll(client: CtagsClient, calls: seq<Call>, ghost index: Key -> seq<Tag>) returns (results: seq<Lookup>)
    requires client.Valid() && Honest(calls, index)
    modifies client
    ensures client.Valid() && |results| == |calls|
    ensures forall i :: 0 <= i < |calls| && calls[i].Proper() ==> Answers(old(client.disk), index, calls[i], results[i])
    ensures forall i :: 0 <= i < |calls| && calls[i].Proper() ==>
              RightExactlyWhen(old(client.disk), index, calls[i], results[i])
    // what is left for a later client
    ensures OnlyIndexed(old(client.disk), client.disk, index)
  {
    hide RightExactlyWhen;
    hide SafeId, SafeKey, PathOf, Named, JustNamed, Contents, Answers, OnlyIndexed;
    hide CtagsClient.Valid, CtagsClient.Faithful;
    results := [];
    NothingNew(client.disk, index);
    for i := 0 to |calls|
      invariant client.Valid() && |results| == i
      invariant OnlyIndexed(old(client.disk), client.disk, index)
      invariant forall j :: 0 <= j < i && calls[j].Proper() ==> Answers(old(client.disk), index, calls[j], results[j])
      invariant forall j :: 0 <= j < i && calls[j].Proper() ==>
                  RightExactlyWhen(old(client.disk), index, calls[j], results[j])
    {
      var c := calls[i];
      assert c in calls;
      ghost var disk := client.disk;
      var r := client.FindSymbols(c.worktree, c.repo, c.commit, c.symbol, c.output, index);
      if c.Proper() {
        AnswerIs(old(client.disk), disk, index, c, r);
        TransparentWhen(old(client.disk), index, c, r);
        if r.Symbols? && PathOf(c.Key()) !in disk {
          StaysIndexed(old(client.disk), disk, index, c.Key(), c.output.value);
        }
      } else {
        NotProper(c, r);
      }
      results := results + [r];
    }
  }

  lemma NothingNew(disk: map<string, CacheFile>, index: Key -> seq<Tag>)
    ensures OnlyIndexed(disk, disk, index)
  {
  }

  lemma NotProper(c: Call, r: Lookup)
    requires !c.Proper()
    requires !c.worktree ==> r.WorktreeMissing?
    requires c.worktree && !SafeId(c.repo) ==> r.UnsafeRepo?
    requires c.worktree && SafeId(c.repo) && !SafeId(c.commit) ==> r.UnsafeCommit?
    ensures !r.Symbols?
  {
  }

  lemma AnswerIs(directory: map<string, CacheFile>, disk: map<string, CacheFile>, index: Key -> seq<Tag>, c: Call,
                 r: Lookup)
    requires OnlyIndexed(directory, disk, index) && c.Proper()
    requires c.output.Some? ==> c.output.value == index(c.Key())
    requires r.WorktreeMissing? ==> !c.worktree
    requires (r.UnsafeRepo? ==> !SafeId(c.repo)) && (r.UnsafeCommit? ==> !SafeId(c.commit))
    requires r.CtagsFailed? ==> PathOf(c.Key()) !in disk
    requires r.Symbols? && PathOf(c.Key()) in disk ==> r.tags == Named(Contents(disk[PathOf(c.Key())]), c.symbol)
    requires r.Symbols? && PathOf(c.Key()) !in disk ==> c.output.Some? && r.tags == Named(c.output.value, c.symbol)
    ensures Answers(directory, index, c, r)
  {
  }

  /** A lookup that succeeds is the direct index filtered by name if and only if the run began without a cache
      file for its key, or with one that agrees with the index on the name. */
  ghost predicate RightExactlyWhen(directory: map<string, CacheFile>, index: Key -> seq<Tag>, c: Call, r: Lookup)
  {
    r.Symbols? ==>
      (r.tags == Named(index(c.Key()), c.symbol) <==>
       var file := PathOf(c.Key());
       file !in directory || Named(Contents(directory[file]), c.symbol) == Named(index(c.Key()), c.symbol))
  }

  lemma TransparentWhen(directory: map<string, CacheFile>, index: Key -> seq<Tag>, c: Call, r: Lookup)
    requires Answers(directory, index, c, r)
    ensures RightExactlyWhen(directory, index, c, r)
  {
  }

  /** What a lookup of a run returns, tag by tag. */
  lemma AnswerJustNamed(directory: map<string, CacheFile>, index: Key -> seq<Tag>, c: Call, r: Lookup)
    requires Answers(directory, index, c, r) && r.Symbols?
    ensures var file := PathOf(c.Key());
      if file in directory && directory[file].Readable? then JustNamed(r.tags, directory[file].tags, c.symbol)
      else if file in directory then r.tags == []
      else JustNamed(r.tags, index(c.Key()), c.symbol)
  {
    hide Named, JustNamed, PathOf;
    var file := PathOf(c.Key());
    NamedExactly(if file in directory then Contents(directory[file]) else index(c.Key()), c.symbol);
    if file in directory && directory[file].Unreadable? {
      UnreadableHides(directory, index, c, r);
    }
  }

  /** Runs compose, with a restart in between or not: a run on the directory that an earlier one left answers as
      if it had begun with the earlier one's directory. */
  lemma AfterRestart(first: map<string, CacheFile>, second: map<string, CacheFile>, index: Key -> seq<Tag>, c: Call,
                     r: Lookup)
    requires OnlyIndexed(first, second, index) && c.Proper() && Answers(second, index, c, r)
    ensures Answers(first, index, c, r)
  {
    hide SafeKey, PathOf;
    var file := PathOf(c.Key());
    if file in second && file !in first {
      assert Contents(second[file]) == index(c.Key());
    }
  }

  /** The failing case: behind an unreadable file every lookup of the run finds nothing, so it is right exactly
      for names that do not occur. */
  lemma UnreadableHides(directory: map<string, CacheFile>, index: Key -> seq<Tag>, c: Call, r: Lookup)
    requires Answers(directory, index, c, r)
    requires PathOf(c.Key()) in directory && directory[PathOf(c.Key())].Unreadable?
    ensures r == Symbols([])
    ensures r.tags == Named(index(c.Key()), c.symbol) <==> forall t :: t in index(c.Key()) ==> t.name != c.symbol
  {
    var tags := index(c.Key());
    assert Named([], c.symbol) == [];
    if forall t :: t in tags ==> t.name != c.symbol {
      FilterAllDropped(tags, (t: Tag) => t.name == c.symbol);
    } else {
      var t :| t in tags && t.name == c.symbol;
      NamedHas(tags, t);
    }
  }

  lemma {:induction false} NamedHas(tags: seq<Tag>, t: Tag)
    requires t in tags
    ensures t in Named(tags, t.name)
  {
    if tags[0] != t {
      NamedHas(tags[1..], t);
    }
  }
}
