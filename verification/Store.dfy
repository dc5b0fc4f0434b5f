/** The content-addressed store: blobs named by their hash, which a write cut short can leave in part,
    and refs that change by compare-and-set (DirStore of vmm/store.go).

    The directory's files are maps.  A Put of one vCPU is several steps, between which the others' calls
    come: its file is created, grows, and is closed, or never is.  The hash is any function of a blob.
 */
module Store {
  import opened Wrappers
  import opened RefText

  type Bytes = seq<Byte>

  ghost predicate Injective(hash: Bytes -> Hash) {
    forall a, b :: hash(a) == hash(b) ==> a == b
  }

  /** A write of a ref's file: of so many of its 65 bytes. */
  datatype Attempt = Attempt(name: string, was: Option<Hash>, now: Hash, wrote: nat)

  /** What the last attempt left of a name. */
  function Latest(log: seq<Attempt>, name: string): Option<Hash> {
    if log == [] then None
    else
      var last := log[|log| - 1];
      if last.name != name then Latest(log[..|log| - 1], name)
      else if last.wrote >= 64 then Some(last.now)
      else None
  }

  lemma LatestGrows(log: seq<Attempt>, a: Attempt, name: string)
    ensures Latest(log + [a], name) ==
            if a.name != name then Latest(log, name) else if a.wrote >= 64 then Some(a.now) else None
  {
    assert (log + [a])[..|log|] == log;
  }

  /** The refs' files are as the log's last attempts left them. */
  ghost predicate AsLogged(log: seq<Attempt>, refs: map<string, string>) {
    forall name :: Latest(log, name) == if name in refs then RefOf(refs[name]) else None
  }

  lemma LatestWritten(log: seq<Attempt>, refs: map<string, string>, a: Attempt)
    requires a.wrote <= 65 && AsLogged(log, refs)
    ensures AsLogged(log + [a], refs[a.name := Text(a.now)[..a.wrote]])
  {
    TornRef(a.now, a.wrote);
    hide RefOf, Latest;
    forall x
      ensures Latest(log + [a], x) == if x == a.name then RefOf(Text(a.now)[..a.wrote]) else Latest(log, x)
    {
      LatestGrows(log, a, x);
    }
  }

  /** A compare-and-set's old is what the name was: zero if it was nothing. */
  predicate FollowsOn(log: seq<Attempt>, a: Attempt) {
    var before := Latest(log, a.name);
    || a.was.None?
    || (before.None? && a.was.value == Zero())
    || (before.Some? && a.was == before && before.value != Zero())
  }

  /** Every compare-and-set follows on the write before it. */
  predicate Chained(log: seq<Attempt>) {
    forall i :: 0 <= i < |log| ==> FollowsOn(log[..i], log[i])
  }

  lemma ChainGrows(log: seq<Attempt>, a: Attempt)
    requires Chained(log) && FollowsOn(log, a)
    ensures Chained(log + [a])
  {
    forall i | 0 <= i < |log + [a]|
      ensures FollowsOn((log + [a])[..i], (log + [a])[i])
    {
      if i < |log| {
        assert (log + [a])[..i] == log[..i];
      } else {
        assert (log + [a])[..i] == log;
      }
    }
  }

  /** Two writes of one name, the later a compare-and-set, and none of the name between: the one's new is
      the other's old, if it was written. */
  lemma {:induction false} LinksMeet(log: seq<Attempt>, i: nat, j: nat)
    requires Chained(log) && i < j < |log| && log[i].name == log[j].name && log[j].was.Some?
    requires forall k :: i < k < j ==> log[k].name != log[i].name
    ensures log[j].was.value == if log[i].wrote >= 64 then log[i].now else Zero()
  {
    LatestSkips(log, i, j);
    assert FollowsOn(log[..j], log[j]);
  }

  lemma {:induction false} LatestSkips(log: seq<Attempt>, i: nat, j: nat)
    requires i < j <= |log| && forall k :: i < k < j ==> log[k].name != log[i].name
    ensures Latest(log[..j], log[i].name) == if log[i].wrote >= 64 then Some(log[i].now) else None
  {
    assert log[..j][..j - 1] == log[..j - 1];
    if j > i + 1 {
      LatestSkips(log, i, j - 1);
    }
  }

  /** How a SetRef ends: the file not opened, or written in part, or done. */
  datatype SetResult = BadName | NoBlob | Conflict | Unopened | Failed | Done

  /** A blob that was served. */
  datatype Served = Served(h: Hash, data: Bytes)

  class DirStore {
    const hash: Bytes -> Hash
    var files: map<Hash, Bytes>      // blobs/HASH
    var refs: map<string, string>    // refs/NAME
    var cache: map<Hash, Bytes>
    var writing: map<Hash, Bytes>    // the blobs of the Puts that have their file open

    ghost var served: seq<Served>    // by this monitor
    ghost var log: seq<Attempt>      // of every monitor
    ghost var began: nat             // where this monitor's begins

    predicate Whole(h: Hash)
      reads this
    {
      h in files && hash(files[h]) == h
    }

    /** The cache holds what it names, and every blob served. */
    ghost predicate CacheGood()
      reads this
    {
      && (forall h :: h in cache ==> hash(cache[h]) == h)
      && (forall k :: 0 <= k < |served| ==> served[k].h in cache && cache[served[k].h] == served[k].data)
    }

    /** A file being written has part of what it is named for. */
    ghost predicate WritingGood()
      reads this
    {
      forall h :: h in writing ==> h in files && files[h] <= writing[h] && hash(writing[h]) == h
    }

    /** The refs' files are as the last writes left them. */
    ghost predicate RefsGood()
      reads this
    {
      Chained(log) && AsLogged(log, refs)
    }

    /** What is cached and what a ref names is whole on the disk, unless two blobs have one hash. */
    ghost predicate Kept()
      reads this
    {
      Injective(hash) ==>
        && (forall h :: h in cache ==> Whole(h))
        && (forall name :: Latest(log, name).Some? ==> Whole(Latest(log, name).value))
    }

    /** What this monitor has named is in its cache. */
    ghost predicate MineCached()
      reads this
    {
      began <= |log| && forall k :: began <= k < |log| ==> log[k].now in cache
    }

    ghost predicate Valid()
      reads this
    {
      CacheGood() && WritingGood() && RefsGood() && Kept() && MineCached()
    }

    constructor (hash: Bytes -> Hash)
      ensures Valid() && this.hash == hash && served == [] && log == []
    {
      this.hash := hash;
      files, refs, cache, writing := map[], map[], map[], map[];
      served, log, began := [], [], 0;
    }

    /** The monitor ends, whatever it was writing, and another has the directory. */
    method Restart()
      requires Valid()
      modifies this`cache, this`writing, this`served, this`began
      ensures Valid() && cache == map[] && writing == map[] && served == [] && began == |log|
    {
      hide Chained, AsLogged, FollowsOn, RefOf, Latest, Injective;
      cache, writing, served, began := map[], map[], [], |log|;
    }

    /** load: a blob that is whole, or was when it was first served. */
    method Load(h: Hash) returns (b: Option<Bytes>)
      requires Valid()
      modifies this`cache, this`served
      ensures Valid() && (b.Some? <==> h in old(cache) || Whole(h))
      ensures b.Some? ==> hash(b.value) == h && (h in old(cache) ==> b.value == old(cache)[h])
      ensures cache == if b.Some? then old(cache)[h := b.value] else old(cache)
      ensures served == if b.Some? then old(served) + [Served(h, b.value)] else old(served)
    {
      hide Chained, AsLogged, FollowsOn, RefOf, Latest, Injective;
      if h in cache {
        b := Some(cache[h]);
        served := served + [Served(h, cache[h])];
        assert cache[h := cache[h]] == cache;
        return;
      }
      if h !in files || hash(files[h]) != h {
        return None;
      }
      cache := cache[h := files[h]];
      b := Some(files[h]);
      served := served + [Served(h, files[h])];
    }

    // ----- Put, in its steps

    /** Put, to where its file is created: nothing to do for a blob that is there and whole; an error for
        one that is there and is not, or that cannot be created. */
    method PutOpen(data: Bytes, opens: bool) returns (h: Hash, ok: bool, open: bool)
      requires Valid()
      modifies this`cache, this`served, this`files, this`writing
      ensures Valid() && h == hash(data) && (open ==> ok)
      ensures ok && !open <==> h in old(cache) || old(Whole(h))
      ensures open <==> h !in old(cache) && h !in old(files) && opens
      ensures files == if open then old(files)[h := []] else old(files)
      ensures writing == if open then old(writing)[h := data] else old(writing)
      ensures old(cache).Keys <= cache.Keys && (ok && !open ==> h in cache)
      ensures forall x :: x in old(cache) ==> cache[x] == old(cache)[x]
    {
      hide Chained, AsLogged, FollowsOn, RefOf, Latest, Injective;
      h := hash(data);
      var b := Load(h);
      if b.Some? {
        return h, true, false;
      }
      if h in files || !opens {
        return h, false, false;
      }
      ghost var before := files;
      files := files[h := []];
      writing := writing[h := data];
      assert forall x :: x in before ==> x in files && files[x] == before[x];
      return h, true, true;
    }

    /** The kernel's write of an open Put, to its n-th byte. */
    method Write(h: Hash, n: nat)
      requires Valid() && h in writing && |files[h]| <= n <= |writing[h]|
      modifies this`files
      ensures Valid() && files == old(files)[h := writing[h][..n]]
    {
      ghost var before := files;
      if Injective(hash) && Whole(h) {
        assert files[h] == writing[h];
        assert writing[h][..n] == writing[h];
      }
      files := files[h := writing[h][..n]];
      assert forall x :: x in before && x != h ==> x in files && files[x] == before[x];
    }

    /** Its close: an error if the write was cut short. */
    method Close(h: Hash) returns (ok: bool)
      requires Valid() && h in writing
      modifies this`writing
      ensures Valid() && (ok <==> files[h] == old(writing)[h]) && (ok ==> Whole(h))
      ensures writing == old(writing) - {h}
    {
      ok := |files[h]| == |writing[h]|;
      writing := writing - {h};
    }

    /** Put by itself: all of the blob written, or its first `room` bytes. */
    method Put(data: Bytes, opens: bool, room: nat) returns (h: Hash, ok: bool)
      requires Valid()
      modifies this`cache, this`served, this`files, this`writing
      ensures Valid() && h == hash(data)
      ensures ok <==> h in old(cache) || old(Whole(h)) || (h !in old(files) && opens && |data| <= room)
      ensures ok ==> h in cache || Whole(h)
    {
      var open;
      h, ok, open := PutOpen(data, opens);
      if open {
        Write(h, if |data| <= room then |data| else room);
        ok := Close(h);
      }
    }

    // ----- reads

    method Size(h: Hash) returns (n: nat, ok: bool)
      requires Valid()
      modifies this`cache, this`served
      ensures Valid() && (ok <==> h in old(cache) || Whole(h))
      ensures ok ==> h in cache && n == |cache[h]|
      ensures !ok ==> n == 0
      ensures forall x :: x in old(cache) ==> x in cache && cache[x] == old(cache)[x]
    {
      var b := Load(h);
      ok := b.Some?;
      n := if b.Some? then |b.value| else 0;
    }

    /** Get, into a buffer of room bytes. */
    method Get(h: Hash, off: int, room: nat) returns (p: Bytes, ok: bool)
      requires Valid()
      modifies this`cache, this`served
      ensures Valid() && (ok <==> (h in old(cache) || Whole(h)) && off >= 0)
      ensures ok ==> h in cache && |p| <= room && (p == [] || off + |p| <= |cache[h]|)
      ensures ok ==> (|p| == room || off + |p| >= |cache[h]|) && forall k :: 0 <= k < |p| ==> p[k] == cache[h][off + k]
      ensures !ok ==> p == []
      ensures forall x :: x in old(cache) ==> x in cache && cache[x] == old(cache)[x]
    {
      var b := Load(h);
      if b.None? || off < 0 {
        return [], false;
      }
      if off >= |b.value| {
        return [], true;
      }
      var rest := b.value[off..];
      p := if |rest| <= room then rest else rest[..room];
      ok := true;
    }

    /** Gets one after another, each from where the last ended, with buffers of any sizes: they put the
        blob together, as far as they go. */
    method Reassemble(h: Hash, sizes: seq<nat>) returns (all: Bytes, ok: bool)
      requires Valid()
      modifies this`cache, this`served
      ensures Valid() && (ok <==> h in old(cache) || Whole(h) || sizes == [])
      ensures ok && sizes != [] ==>
                && h in cache && hash(cache[h]) == h && all <= cache[h]
                && |all| <= Total(sizes) && (|all| == Total(sizes) || all == cache[h])
    {
      hide RefsGood, Kept, WritingGood, MineCached, Injective;
      all, ok := [], true;
      for i := 0 to |sizes|
        invariant Valid() && (i > 0 ==> h in cache && all <= cache[h])
        invariant |all| <= Total(sizes[..i]) && (i > 0 ==> |all| == Total(sizes[..i]) || all == cache[h])
        invariant i == 0 ==> all == [] && cache == old(cache)
        invariant i > 0 ==> h in old(cache) || Whole(h)
      {
        var p, good := Get(h, |all|, sizes[i]);
        if !good {
          return all, false;
        }
        assert sizes[..i + 1][..i] == sizes[..i];
        assert p == cache[h][|all|..|all| + |p|];
        all := all + p;
      }
      assert sizes[..|sizes|] == sizes;
    }

    // ----- refs

    method Ref(name: string) returns (h: Option<Hash>)
      requires Valid()
      ensures h == if IsRefName(name) then Latest(log, name) else None
    {
      var ok := RefName(name);
      if !ok || name !in refs {
        return None;
      }
      h := RefOf(refs[name]);
    }

    /** os.WriteFile of a ref's file, to its first `wrote` bytes. */
    method WriteRef(name: string, h: Hash, was: Option<Hash>, wrote: nat)
      requires Valid() && wrote <= 65 && h in cache && FollowsOn(log, Attempt(name, was, h, wrote))
      modifies this`refs, this`log
      ensures Valid() && log == old(log) + [Attempt(name, was, h, wrote)]
    {
      ghost var a := Attempt(name, was, h, wrote);
      ChainGrows(log, a);
      LatestWritten(log, refs, a);
      hide Chained, AsLogged, FollowsOn, RefOf, Injective, Text;
      if Injective(hash) {
        forall x | Latest(log + [a], x).Some?
          ensures Whole(Latest(log + [a], x).value)
        {
          LatestGrows(log, a, x);
        }
      }
      hide Latest;
      refs := refs[name := Text(h)[..wrote]];
      log := log + [a];
    }

    /** SetRef: its file is opened, and `wrote` of its bytes are written, or it cannot be opened and stays as
        it is. */
    method SetRef(name: string, h: Hash, was: Option<Hash>, opens: bool, wrote: nat) returns (r: SetResult)
      requires Valid() && wrote <= 65
      modifies this`cache, this`served, this`refs, this`log
      ensures Valid() && (r.BadName? <==> !IsRefName(name))
      ensures r.NoBlob? <==> IsRefName(name) && h !in old(cache) && !Whole(h)
      ensures var a := Attempt(name, was, h, wrote);
              var able := IsRefName(name) && (h in old(cache) || Whole(h));
              && (r.Conflict? <==> able && !FollowsOn(old(log), a))
              && (r.Unopened? <==> able && FollowsOn(old(log), a) && !opens)
              && (r.Done? <==> able && FollowsOn(old(log), a) && opens && wrote == 65)
              && log == if r.Done? || r.Failed? then old(log) + [a] else old(log)
      ensures !r.Done? && !r.Failed? ==> refs == old(refs)
      ensures forall x :: x in old(cache) ==> x in cache && cache[x] == old(cache)[x]
    {
      hide Valid, Latest, CacheGood, RefsGood, Kept;
      var good := RefName(name);
      if !good {
        return BadName;
      }
      var b := Load(h);
      if b.None? {
        return NoBlob;
      }
      if was.Some? {
        var cur := Ref(name);
        if cur.Some? != (was.value != Zero()) || (cur.Some? && cur.value != was.value) {
          return Conflict;
        }
      }
      if !opens {
        return Unopened;
      }
      WriteRef(name, h, was, wrote);
      r := if wrote == 65 then Done else Failed;
    }
  }

  function Total(sizes: seq<nat>): nat {
    if sizes == [] then 0 else Total(sizes[..|sizes| - 1]) + sizes[|sizes| - 1]
  }

  /** What a Put has taken is what is read back, with buffers of any sizes, unless two blobs have one hash; and a
      blob is taken that no file is in the way of and for which there is room. */
  method PutReads(s: DirStore, data: Bytes, opens: bool, room: nat, sizes: seq<nat>) returns (ok: bool, all: Bytes)
    requires s.Valid() && sizes != [] && Total(sizes) >= |data|
    modifies s
    ensures s.Valid() && (ok && Injective(s.hash) ==> all == data)
    ensures old(s.hash(data) !in s.files) && opens && room >= |data| ==> ok
  {
    var h;
    all := [];
    h, ok := s.Put(data, opens, room);
    if ok {
      var good;
      all, good := s.Reassemble(h, sizes);
    }
  }

  // ----- whole runs

  /** A call of some vCPU, or a step of its Put, or the monitor's end. */
  datatype Event =
    | Opens(data: Bytes, opens: bool)
    | Writes(h: Hash, n: nat)
    | Closes(h: Hash)
    | Sizes(h: Hash)
    | Gets(h: Hash, off: int, room: nat)
    | Refs(name: string)
    | Sets(name: string, h: Hash, was: Option<Hash>, opens: bool, wrote: nat)
    | Restarts

  method Do(s: DirStore, e: Event)
    requires s.Valid()
    modifies s
    ensures s.Valid() && (s.log == old(s.log) || (e.Sets? && s.log == old(s.log) + [Attempt(e.name, e.was, e.h, e.wrote)]))
  {
    match e
    case Opens(data, opens) => var h, ok, open := s.PutOpen(data, opens);
    case Writes(h, n) =>
      if h in s.writing && |s.files[h]| <= n <= |s.writing[h]| {
        s.Write(h, n);
      }
    case Closes(h) =>
      if h in s.writing {
        var ok := s.Close(h);
      }
    case Sizes(h) => var n, ok := s.Size(h);
    case Gets(h, off, room) => var p, ok := s.Get(h, off, room);
    case Refs(name) => var h := s.Ref(name);
    case Sets(name, h, was, opens, wrote) =>
      if wrote <= 65 {
        var r := s.SetRef(name, h, was, opens, wrote);
      }
    case Restarts => s.Restart();
  }

  /** The store after any run: calls of any vCPUs with their Puts' steps interleaved, writes cut short
      anywhere, and monitors that end. */
  method AfterRun(hash: Bytes -> Hash, events: seq<Event>) returns (s: DirStore)
    ensures s.Valid() && Safe(s)
  {
    s := new DirStore(hash);
    for i := 0 to |events|
      invariant s.Valid() && fresh(s)
    {
      Do(s, events[i]);
    }
    ValidSafe(s);
  }

  /** Every blob served hashes to its name, and a monitor that has served one serves the same bytes ever
      after; a ref's compare-and-sets are a chain; what this monitor has made a ref name it can serve; and,
      of a hash without collisions, so can every later monitor. */
  ghost predicate Safe(s: DirStore)
    reads s
  {
    && (forall k :: 0 <= k < |s.served| ==> s.hash(s.served[k].data) == s.served[k].h)
    && (forall i, j :: 0 <= i < |s.served| && 0 <= j < |s.served| && s.served[i].h == s.served[j].h ==>
          s.served[i].data == s.served[j].data)
    && Chained(s.log)
    && s.began <= |s.log| && (forall k :: s.began <= k < |s.log| ==> s.log[k].now in s.cache)
    && (Injective(s.hash) ==> forall name :: name in s.refs && RefOf(s.refs[name]).Some? ==> s.Whole(RefOf(s.refs[name]).value))
  }

  lemma ValidSafe(s: DirStore)
    requires s.Valid()
    ensures Safe(s)
  {
    hide Chained, RefOf, Latest;
    forall name | name in s.refs
      ensures Latest(s.log, name) == RefOf(s.refs[name])
    {
    }
  }
}
