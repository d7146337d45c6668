/** Chunked upload of src/server/ChatServer.h: handlers interleave and overwrite each other's metadata. */
module Upload {
  import opened Bytes
  import opened Options
  import opened Pigeonhole

  const CHUNK := 1024 * 1024
  const MAX_FILE := 50 * 1024 * 1024

  datatype Meta = Meta(totalSize: nat, totalChunks: nat, uid: int, ext: string, received: seq<nat>, completed: bool)

  function TotalChunks(size: nat): nat {
    (size + CHUNK - 1) / CHUNK
  }

  function Min(a: nat, b: nat): nat {
    if a <= b then a else b
  }

  /** What the client sends as chunk i of its file. */
  function Slice(file: seq<Byte>, i: nat): seq<Byte>
    requires i < TotalChunks(|file|)
  {
    file[i * CHUNK..Min((i + 1) * CHUNK, |file|)]
  }

  /** What a write leaves that loses its last cut bytes. */
  function Shortened(body: seq<Byte>, cut: nat): seq<Byte> {
    if cut <= |body| then body[..|body| - cut] else []
  }

  /** Bytes written over the beginning of what another handler may have written meanwhile. */
  function Over(bytes: seq<Byte>, present: seq<Byte>): seq<Byte> {
    if |present| > |bytes| then bytes + present[|bytes|..] else bytes
  }

  function Recorded(m: Meta, idx: nat): Meta {
    if idx in m.received then m else m.(received := m.received + [idx])
  }

  // ----- one upload, many concurrent chunk handlers -----

  /** A chunk handler: metadata read and checked; file opened, hence truncated; file written. */
  datatype Handler = Loaded(idx: nat, meta: Meta) | Opened(idx: nat, meta: Meta) | Written(idx: nat, meta: Meta)

  datatype World = World(meta: Meta, disk: map<nat, seq<Byte>>, handlers: map<int, Handler>)

  datatype Event =
    | Load(h: int, idx: nat)
    | Open(h: int)
    | Write(h: int, cut: nat)          // nobody looks whether the last cut bytes got lost
    | Save(h: int, redisUp: bool)
    | Drop(h: int)
    | Die(h: int)                      // between truncating the file and writing it

  ghost predicate Enabled(file: seq<Byte>, w: World, e: Event) {
    match e
    case Load(h, idx) => h !in w.handlers && idx < w.meta.totalChunks
    case Open(h) => h in w.handlers && w.handlers[h].Loaded?
    case Write(h, _) =>
      h in w.handlers && w.handlers[h].Opened? && w.handlers[h].idx < TotalChunks(|file|) && w.handlers[h].idx in w.disk
    case Save(h, _) => h in w.handlers && w.handlers[h].Written?
    case Drop(h) => h in w.handlers && !w.handlers[h].Opened?
    case Die(h) => h in w.handlers && w.handlers[h].Opened?
  }

  ghost function Next(file: seq<Byte>, w: World, e: Event): World
    requires Enabled(file, w, e)
  {
    match e
    case Load(h, idx) => w.(handlers := w.handlers[h := Loaded(idx, w.meta)])
    case Open(h) =>
      var x := w.handlers[h];
      w.(disk := w.disk[x.idx := []], handlers := w.handlers[h := Opened(x.idx, x.meta)])
    case Write(h, cut) =>
      var x := w.handlers[h];
      w.(disk := w.disk[x.idx := Over(Shortened(Slice(file, x.idx), cut), w.disk[x.idx])], handlers := w.handlers[h := Written(x.idx, x.meta)])
    case Save(h, redisUp) =>
      var x := w.handlers[h];
      w.(meta := if redisUp then Recorded(x.meta, x.idx) else w.meta, handlers := w.handlers - {h})
    case Drop(h) => w.(handlers := w.handlers - {h})
    case Die(h) => w.(handlers := w.handlers - {h})
  }

  /** Everything listed as received is a distinct valid index with its chunk on disk. */
  ghost predicate MetaOk(file: seq<Byte>, disk: map<nat, seq<Byte>>, m: Meta) {
    && m.totalChunks == TotalChunks(|file|)
    && NoDuplicates(m.received) && Below(m.received, m.totalChunks)
    && forall i :: i in m.received ==> i in disk
  }

  ghost predicate BeingWritten(w: World, idx: nat) {
    exists h :: h in w.handlers && w.handlers[h].Opened? && w.handlers[h].idx == idx
  }

  ghost predicate HandlerOk(file: seq<Byte>, w: World, h: int)
    requires h in w.handlers
  {
    var x := w.handlers[h];
    && MetaOk(file, w.disk, x.meta) && x.idx < x.meta.totalChunks
    && (x.Written? ==> x.idx in w.disk)
  }

  ghost predicate Begins(file: seq<Byte>, i: nat, bytes: seq<Byte>)
    requires i < TotalChunks(|file|)
  {
    |bytes| <= |Slice(file, i)| && bytes == Slice(file, i)[..|bytes|]
  }

  ghost predicate Inv(file: seq<Byte>, w: World) {
    && MetaOk(file, w.disk, w.meta)
    && (forall h {:trigger HandlerOk(file, w, h)} :: h in w.handlers ==> HandlerOk(file, w, h))
    && (forall i :: i in w.disk ==> i < TotalChunks(|file|) && Begins(file, i, w.disk[i]))
  }

  lemma RecordedOk(file: seq<Byte>, disk: map<nat, seq<Byte>>, m: Meta, idx: nat)
    requires MetaOk(file, disk, m) && idx < m.totalChunks && idx in disk
    ensures MetaOk(file, disk, Recorded(m, idx))
  {
  }

  lemma OverBegins(file: seq<Byte>, i: nat, cut: nat, present: seq<Byte>)
    requires i < TotalChunks(|file|) && Begins(file, i, present)
    ensures Begins(file, i, Over(Shortened(Slice(file, i), cut), present))
    ensures cut == 0 ==> Over(Shortened(Slice(file, i), cut), present) == Slice(file, i)
  {
    var s := Slice(file, i);
    var n := |Shortened(s, cut)|;
    if |present| > n {
      assert s[..n] + s[..|present|][n..] == s[..|present|];
    }
  }

  lemma NextKeepsInv(file: seq<Byte>, w: World, e: Event)
    requires Inv(file, w) && Enabled(file, w, e)
    ensures Inv(file, Next(file, w, e))
  {
    var w' := Next(file, w, e);
    assert e.h in w.handlers ==> HandlerOk(file, w, e.h);
    if e.Save? {
      RecordedOk(file, w.disk, w.handlers[e.h].meta, w.handlers[e.h].idx);
    }
    if e.Write? {
      OverBegins(file, w.handlers[e.h].idx, e.cut, w.disk[w.handlers[e.h].idx]);
    }
    forall h | h in w'.handlers ensures HandlerOk(file, w', h) {
      assert h in w.handlers ==> HandlerOk(file, w, h);
    }
  }

  /** No handler dies with its file truncated, no write loses bytes. */
  predicate Full(e: Event) {
    !e.Die? && (e.Write? ==> e.cut == 0)
  }

  /** A file on disk is complete unless a handler is about to write it. */
  ghost predicate Whole(file: seq<Byte>, w: World) {
    forall i :: i in w.disk ==> i < TotalChunks(|file|) && (w.disk[i] == Slice(file, i) || BeingWritten(w, i))
  }

  lemma NextKeepsWhole(file: seq<Byte>, w: World, e: Event)
    requires Inv(file, w) && Whole(file, w) && Enabled(file, w, e) && Full(e)
    ensures Whole(file, Next(file, w, e))
  {
    var w' := Next(file, w, e);
    forall i | i in w'.disk ensures i < TotalChunks(|file|) && (w'.disk[i] == Slice(file, i) || BeingWritten(w', i)) {
      WritersKept(file, w, e, i);
    }
  }

  lemma WritersKept(file: seq<Byte>, w: World, e: Event, i: nat)
    requires Inv(file, w) && Whole(file, w) && Enabled(file, w, e) && Full(e)
    ensures var w' := Next(file, w, e);
            i in w'.disk ==> i < TotalChunks(|file|) && (w'.disk[i] == Slice(file, i) || BeingWritten(w', i))
  {
    var w' := Next(file, w, e);
    assert e.h in w.handlers ==> HandlerOk(file, w, e.h);
    if e.Open? && w.handlers[e.h].idx == i {
      assert w'.handlers[e.h].Opened?;
    } else if e.Write? && w.handlers[e.h].idx == i {
      OverBegins(file, i, e.cut, w.disk[i]);
    } else if BeingWritten(w, i) {
      var h :| h in w.handlers && w.handlers[h].Opened? && w.handlers[h].idx == i;
      assert h in w'.handlers && w'.handlers[h] == w.handlers[h];
    }
  }

  ghost predicate Run(file: seq<Byte>, w: World, es: seq<Event>, w': World)
    decreases |es|
  {
    if es == [] then w == w'
    else Enabled(file, w, es[0]) && Run(file, Next(file, w, es[0]), es[1..], w')
  }

  /** The state right after a successful init for this file. */
  function Fresh(uid: int, ext: string, size: nat): World {
    World(Meta(size, TotalChunks(size), uid, ext, [], false), map[], map[])
  }

  lemma {:induction false} RunKeepsInv(file: seq<Byte>, w: World, es: seq<Event>, w': World)
    requires Inv(file, w) && Run(file, w, es, w')
    ensures Inv(file, w')
    decreases |es|
  {
    if es != [] {
      NextKeepsInv(file, w, es[0]);
      RunKeepsInv(file, Next(file, w, es[0]), es[1..], w');
    }
  }

  lemma {:induction false} FullRunKeepsWhole(file: seq<Byte>, w: World, es: seq<Event>, w': World)
    requires Inv(file, w) && Whole(file, w) && Run(file, w, es, w') && forall e :: e in es ==> Full(e)
    ensures Whole(file, w')
    decreases |es|
  {
    if es != [] {
      NextKeepsInv(file, w, es[0]);
      NextKeepsWhole(file, w, es[0]);
      FullRunKeepsWhole(file, Next(file, w, es[0]), es[1..], w');
    }
  }

  /** What a handler that nobody interrupts does is a run of the interleaving model. */
  lemma UninterruptedHandler(file: seq<Byte>, w: World, h: int, idx: nat, cut: nat, redisUp: bool)
    requires Inv(file, w) && h !in w.handlers && idx < w.meta.totalChunks
    ensures var meta := if redisUp then Recorded(w.meta, idx) else w.meta;
            var w' := World(meta, w.disk[idx := Shortened(Slice(file, idx), cut)], w.handlers);
            Run(file, w, [Load(h, idx), Open(h), Write(h, cut), Save(h, redisUp)], w')
  {
    var es := [Load(h, idx), Open(h), Write(h, cut), Save(h, redisUp)];
    var w1 := Next(file, w, es[0]);
    var w2 := Next(file, w1, es[1]);
    var w3 := Next(file, w2, es[2]);
    var w4 := Next(file, w3, es[3]);
    assert w4.handlers == w.handlers;
    assert w4.disk == w.disk[idx := Shortened(Slice(file, idx), cut)];
    assert es[3..][1..] == [];
    assert Run(file, w3, es[3..], w4);
    assert es[2..][1..] == es[3..] && es[1..][1..] == es[2..];
    assert Run(file, w2, es[2..], w4);
    assert Run(file, w1, es[1..], w4);
  }

  // ----- completion -----

  datatype Completion = NotAllReceived | MissingChunk(i: nat) | Merged(bytes: seq<Byte>)

  predicate Prefixed(disk: map<nat, seq<Byte>>, n: nat) {
    forall i :: 0 <= i < n ==> i in disk
  }

  /** An empty chunk among the first n puts the output stream into its failed state. */
  predicate Stuck(disk: map<nat, seq<Byte>>, n: nat)
    requires Prefixed(disk, n)
  {
    exists i :: 0 <= i < n && disk[i] == []
  }

  /** Chunks 0 to n - 1, one after the other; after an empty one nothing more is written. */
  function Joined(disk: map<nat, seq<Byte>>, n: nat): seq<Byte>
    requires Prefixed(disk, n)
  {
    if n == 0 then [] else if Stuck(disk, n - 1) then Joined(disk, n - 1) else Joined(disk, n - 1) + disk[n - 1]
  }

  /** What completion answers for the given metadata and chunk directory. */
  ghost predicate Completes(m: Meta, disk: map<nat, seq<Byte>>, c: Completion) {
    if |m.received| != m.totalChunks then c == NotAllReceived
    else match c
         case NotAllReceived => false
         case MissingChunk(i) => i < m.totalChunks && i !in disk && Prefixed(disk, i)
         case Merged(bytes) => Prefixed(disk, m.totalChunks) && bytes == Joined(disk, m.totalChunks)
  }

  lemma CutEnds(size: nat, n: nat)
    requires 0 < n <= TotalChunks(size)
    ensures 0 <= (n - 1) * CHUNK < size
    ensures (n - 1) * CHUNK <= n * CHUNK
  {
    assert n * CHUNK <= TotalChunks(size) * CHUNK;
    assert TotalChunks(size) * CHUNK <= size + CHUNK - 1;
  }

  lemma LastCutReachesTheEnd(size: nat)
    ensures TotalChunks(size) * CHUNK >= size
  {
  }

  lemma Glue(file: seq<Byte>, a: nat, b: nat)
    requires a <= b <= |file|
    ensures file[..a] + file[a..b] == file[..b]
  {
  }

  lemma {:induction false} JoinedSlices(file: seq<Byte>, disk: map<nat, seq<Byte>>, n: nat)
    requires n <= TotalChunks(|file|)
    requires forall i :: 0 <= i < n ==> i in disk && disk[i] == Slice(file, i)
    ensures Joined(disk, n) == file[..Min(n * CHUNK, |file|)]
  {
    if n > 0 {
      JoinedSlices(file, disk, n - 1);
      forall i | 0 <= i < n - 1 ensures disk[i] != [] {
        CutEnds(|file|, i + 1);
        assert disk[i] == Slice(file, i);
      }
      CutEnds(|file|, n);
      assert n - 1 in disk && disk[n - 1] == Slice(file, n - 1);
      Glue(file, (n - 1) * CHUNK, Min(n * CHUNK, |file|));
    }
  }

  /** The count alone tells: as many indices as chunks means every chunk is listed. */
  lemma CountTellsAll(m: Meta)
    requires NoDuplicates(m.received) && Below(m.received, m.totalChunks)
    ensures |m.received| == m.totalChunks <==> forall i: nat :: i < m.totalChunks ==> i in m.received
  {
    if |m.received| == m.totalChunks {
      forall i: nat | i < m.totalChunks ensures i in m.received {
        Exhaustive(m.received, m.totalChunks, i);
      }
    } else {
      AtMost(m.received, m.totalChunks);
      if forall i: nat :: i < m.totalChunks ==> i in m.received {
        AtLeast(m.received, m.totalChunks);
      }
    }
  }

  ghost predicate NobodyWriting(w: World) {
    forall h :: h in w.handlers ==> !w.handlers[h].Opened?
  }

  /**
   * After any interleaving of chunk handlers that write in full, lost metadata updates included, completion either
   * refuses because an index is not listed or writes exactly the file; it never misses a chunk.
   */
  lemma UploadedFileIsRebuilt(file: seq<Byte>, uid: int, ext: string, es: seq<Event>, w: World, c: Completion)
    requires Run(file, Fresh(uid, ext, |file|), es, w) && NobodyWriting(w) && forall e :: e in es ==> Full(e)
    requires Completes(w.meta, w.disk, c)
    ensures c == Merged(file) || c == NotAllReceived
    ensures c == Merged(file) <==> forall i: nat :: i < TotalChunks(|file|) ==> i in w.meta.received
  {
    RunKeepsInv(file, Fresh(uid, ext, |file|), es, w);
    FullRunKeepsWhole(file, Fresh(uid, ext, |file|), es, w);
    CountTellsAll(w.meta);
    if |w.meta.received| == w.meta.totalChunks {
      forall i: nat | i < w.meta.totalChunks ensures i in w.disk && w.disk[i] == Slice(file, i) {
        assert i in w.meta.received;
        assert !BeingWritten(w, i);
      }
      JoinedSlices(file, w.disk, w.meta.totalChunks);
      LastCutReachesTheEnd(|file|);
      assert file[..|file|] == file;
    }
  }

  ghost predicate Cut(file: seq<Byte>, disk: map<nat, seq<Byte>>, i: nat)
    requires i < TotalChunks(|file|)
  {
    i !in disk || disk[i] != Slice(file, i)
  }

  /** Joining chunks that lack something gives less than the file. */
  lemma {:induction false} JoinedIsShorter(file: seq<Byte>, disk: map<nat, seq<Byte>>, n: nat)
    requires n <= TotalChunks(|file|) && Prefixed(disk, n)
    requires forall i: nat :: i < n ==> Begins(file, i, disk[i])
    ensures |Joined(disk, n)| <= Min(n * CHUNK, |file|)
    ensures (exists i: nat :: i < n && Cut(file, disk, i)) ==> |Joined(disk, n)| < Min(n * CHUNK, |file|)
  {
    if n > 0 {
      JoinedIsShorter(file, disk, n - 1);
      CutEnds(|file|, n);
      assert |Slice(file, n - 1)| == Min(n * CHUNK, |file|) - (n - 1) * CHUNK;
      assert Begins(file, n - 1, disk[n - 1]);
      if i: nat :| i < n && Cut(file, disk, i) {
        assert i < n - 1 || |disk[n - 1]| < |Slice(file, n - 1)|;
      }
    }
  }

  /** Each chunk is read in some world of a run, perhaps each in another one; view collects what was read. */
  ghost predicate ReadFrom(file: seq<Byte>, start: World, upTo: nat -> seq<Event>, at: nat -> World, view: map<nat, seq<Byte>>, n: nat) {
    forall i: nat {:trigger at(i)} :: i < n ==>
      Run(file, start, upTo(i), at(i)) && i in at(i).disk && i in view && view[i] == at(i).disk[i]
  }

  /** A merge that reads every chunk at its own time, while handlers write, die or lose bytes, rebuilds the file if and only
      if it catches each chunk complete. */
  lemma RebuiltIffNothingCut(file: seq<Byte>, uid: int, ext: string, upTo: nat -> seq<Event>, at: nat -> World, view: map<nat, seq<Byte>>)
    requires ReadFrom(file, Fresh(uid, ext, |file|), upTo, at, view, TotalChunks(|file|))
    ensures Prefixed(view, TotalChunks(|file|))
    ensures Joined(view, TotalChunks(|file|)) == file <==> forall i: nat :: i < TotalChunks(|file|) ==> !Cut(file, view, i)
  {
    var n, start := TotalChunks(|file|), Fresh(uid, ext, |file|);
    forall i: nat | i < n ensures i in view && Begins(file, i, view[i]) {
      var w := at(i);
      RunKeepsInv(file, start, upTo(i), w);
    }
    LastCutReachesTheEnd(|file|);
    if forall i: nat :: i < n ==> !Cut(file, view, i) {
      forall i | 0 <= i < n ensures i in view && view[i] == Slice(file, i) {
        assert !Cut(file, view, i);
      }
      JoinedSlices(file, view, n);
      assert file[..|file|] == file;
    } else {
      JoinedIsShorter(file, view, n);
    }
  }

  // ----- the handlers -----

  datatype InitReply = BadInit | MkdirFailed | Created(totalChunks: nat)
  datatype ChunkReply = BadIndex | NotFound | Forbidden | OutOfRange | TooLarge | WriteFailed | Stored(count: nat)
  datatype CompleteReply = NoUpload | NotYours | CannotCreate | Answer(completion: Completion)

  function WithoutKey<K, V>(m: map<K, V>, k: K): map<K, V> {
    map x | x in m && x != k :: m[x]
  }

  function Put(chunks: map<nat, seq<Byte>>, i: nat, body: seq<Byte>): map<nat, seq<Byte>> {
    chunks[i := body]
  }

  /** The chunks numbered n and up. */
  function From(chunks: map<nat, seq<Byte>>, n: nat): map<nat, seq<Byte>> {
    map i | i in chunks && i >= n :: chunks[i]
  }

  /** The chunk directory of one upload and its merged file. */
  datatype Files = Files(chunks: map<nat, seq<Byte>>, merged: Option<seq<Byte>>)

  ghost predicate CompletionStep(m: Meta, f: Files, c: Completion, f': Files) {
    && Completes(m, f.chunks, c)
    && match c
       case NotAllReceived => f' == f
       case MissingChunk(_) => f' == f.(merged := None)
       case Merged(bytes) => f' == Files(From(f.chunks, m.totalChunks), Some(bytes))
  }

  /** The metadata still lists every index, the chunks are gone: completing again deletes the merged file. */
  lemma SecondCompletionDeletes(m: Meta, f: Files, bytes: seq<Byte>, f1: Files, marked: bool, c: Completion, f2: Files)
    requires m.totalChunks > 0
    requires CompletionStep(m, f, Merged(bytes), f1) && CompletionStep(m.(completed := marked), f1, c, f2)
    ensures f1.merged == Some(bytes)
    ensures c == MissingChunk(0) && f2.merged == None
  {
    assert 0 !in f1.chunks;
  }

  class UploadHandlers {
    var redis: map<string, Meta>
    var tmp: map<string, map<nat, seq<Byte>>>
    var uploads: map<string, seq<Byte>>

    constructor ()
      ensures redis == map[] && tmp == map[] && uploads == map[]
    {
      redis, tmp, uploads := map[], map[], map[];
    }

    /** The upload as the interleaving model sees it, with the given handlers under way. */
    ghost function View(id: string, hs: map<int, Handler>): World
      requires id in redis && id in tmp
      reads this
    {
      World(redis[id], tmp[id], hs)
    }

    /** No directory reads like an empty one: opening any chunk fails. */
    function ChunksOf(id: string): map<nat, seq<Byte>>
      reads this
    {
      if id in tmp then tmp[id] else map[]
    }

    function FilesOf(id: string, name: string): Files
      reads this
    {
      Files(ChunksOf(id), if name in uploads then Some(uploads[name]) else None)
    }

    /** id is a fresh message id; mkdir also fails when the directory exists already. */
    method HandleUploadInit(uid: int, fileName: string, ext: string, extAllowed: bool, size: int, id: string, mkdirOk: bool, redisUp: bool)
      returns (reply: InitReply)
      modifies this
      ensures uploads == old(uploads)
      ensures reply.BadInit? <==> fileName == "" || !(0 < size <= 52428800) || !extAllowed
      ensures reply.MkdirFailed? <==> !reply.BadInit? && (!mkdirOk || id in old(tmp))
      ensures !reply.Created? ==> redis == old(redis) && tmp == old(tmp)
      ensures reply.Created? ==>
        && 1 <= reply.totalChunks <= 50 && (reply.totalChunks - 1) * 1048576 < size <= reply.totalChunks * 1048576
        && id !in old(tmp) && tmp == old(tmp)[id := map[]]
        && (!redisUp ==> redis == old(redis))
        && (redisUp ==> id in redis && redis == old(redis)[id := redis[id]] && View(id, map[]) == Fresh(uid, ext, size))
        && (redisUp ==> redis[id].totalSize == size && redis[id].totalChunks == reply.totalChunks && redis[id].uid == uid && redis[id].ext == ext)
        && (redisUp ==> redis[id].received == [] && !redis[id].completed)
    {
      if fileName == "" || size <= 0 || size > MAX_FILE || !extAllowed {
        return BadInit;
      }
      var total := (size + CHUNK - 1) / CHUNK;
      if !mkdirOk || id in tmp {
        return MkdirFailed;
      }
      tmp := tmp[id := map[]];
      if redisUp {
        redis := redis[id := Meta(size, total, uid, ext, [], false)];
      }
      return Created(total);
    }

    /** One handler without interruption; the source never compares the body with the slice length. */
    method HandleUploadChunk(uid: int, id: string, idx: int, body: seq<Byte>, redisAtRead: bool, opens: bool, cut: nat, redisAtWrite: bool)
      returns (reply: ChunkReply)
      modifies this
      ensures uploads == old(uploads)
      ensures !reply.Stored? ==> redis == old(redis) && tmp == old(tmp)
      ensures reply.Stored? <==>
        && id != "" && redisAtRead && id in old(redis) && old(redis)[id].uid == uid
        && 0 <= idx < old(redis)[id].totalChunks && |body| <= 1048576 && opens && id in old(tmp)
      ensures reply.BadIndex? <==> id == "" || idx < 0
      ensures reply.NotFound? <==> !reply.BadIndex? && (!redisAtRead || id !in old(redis))
      ensures reply.Forbidden? <==> !reply.BadIndex? && !reply.NotFound? && old(redis)[id].uid != uid
      ensures reply.OutOfRange? ==> idx >= old(redis)[id].totalChunks
      ensures reply.TooLarge? ==> idx < old(redis)[id].totalChunks && |body| > 1048576
      ensures reply.WriteFailed? ==> idx < old(redis)[id].totalChunks && |body| <= 1048576 && (!opens || id !in old(tmp))
      ensures reply.Stored? ==>
        && id in redis && redis == old(redis)[id := redis[id]]
        && id in tmp && tmp == old(tmp)[id := tmp[id]]
        && tmp[id] == Put(old(tmp)[id], idx, Shortened(body, cut))
        && (cut == 0 ==> idx in tmp[id] && tmp[id][idx] == body)
        && var received := old(redis)[id].received;
        && var received' := if idx in received then received else received + [idx];
        && reply.count == |received'|
        && redis[id] == if redisAtWrite then old(redis)[id].(received := received') else old(redis)[id]
    {
      if id == "" || idx < 0 {
        return BadIndex;
      }
      if !redisAtRead || id !in redis {
        return NotFound;
      }
      var meta := redis[id];
      if meta.uid != uid {
        return Forbidden;
      }
      if idx >= meta.totalChunks {
        return OutOfRange;
      }
      if |body| > CHUNK {
        return TooLarge;
      }
      if !opens || id !in tmp {
        return WriteFailed;
      }
      var chunk: nat := idx;
      tmp := tmp[id := Put(tmp[id], chunk, [])];
      tmp := tmp[id := Put(tmp[id], chunk, Shortened(body, cut))];
      var listed := false;
      var k := 0;
      while k < |meta.received| && !listed
        invariant k <= |meta.received|
        invariant listed <==> idx in meta.received[..k]
      {
        listed := meta.received[k] == chunk;
        k := k + 1;
      }
      assert listed <==> idx in meta.received;
      if !listed {
        meta := meta.(received := meta.received + [chunk]);
      }
      if redisAtWrite {
        redis := redis[id := meta];
      }
      return Stored(|meta.received|);
    }

    /** The merge loop: appends chunk after chunk to the open output file, gives it up at a missing one. */
    method Merge(chunks: map<nat, seq<Byte>>, name: string, total: nat) returns (c: Completion)
      requires name in uploads && uploads[name] == []
      modifies this`uploads
      ensures !c.NotAllReceived?
      ensures c.MissingChunk? ==> c.i < total && c.i !in chunks && Prefixed(chunks, c.i) && uploads == WithoutKey(old(uploads), name)
      ensures c.Merged? ==> Prefixed(chunks, total) && c.bytes == Joined(chunks, total) && uploads == old(uploads)[name := c.bytes]
    {
      var i, failed := 0, false;
      while i < total
        invariant i <= total && Prefixed(chunks, i) && (failed <==> Stuck(chunks, i))
        invariant uploads == old(uploads)[name := Joined(chunks, i)]
      {
        if i !in chunks {
          uploads := WithoutKey(uploads, name);
          return MissingChunk(i);
        }
        if !failed {
          uploads := uploads[name := uploads[name] + chunks[i]];
          failed := chunks[i] == [];
        }
        i := i + 1;
      }
      return Merged(uploads[name]);
    }

    /** Unlinks chunk 0 to total - 1, then the directory if nothing is left in it. */
    method CleanUp(id: string, total: nat)
      modifies this`tmp
      ensures ChunksOf(id) == From(old(ChunksOf(id)), total)
      ensures forall i :: i in ChunksOf(id) <==> i in old(ChunksOf(id)) && i >= total
      ensures id in tmp ==> tmp[id] != map[]
      ensures WithoutKey(tmp, id) == WithoutKey(old(tmp), id)
    {
      if id !in tmp {
        return;
      }
      var i := 0;
      while i < total
        invariant i <= total && id in tmp && tmp[id] == From(old(tmp)[id], i)
        invariant WithoutKey(tmp, id) == WithoutKey(old(tmp), id)
      {
        tmp := tmp[id := WithoutKey(tmp[id], i)];
        i := i + 1;
      }
      if tmp[id] == map[] {
        tmp := WithoutKey(tmp, id);
      }
    }

    method HandleUploadComplete(uid: int, id: string, redisUp: bool, creates: bool, redisAtEnd: bool) returns (reply: CompleteReply)
      modifies this
      ensures reply.NoUpload? <==> id == "" || !redisUp || id !in old(redis)
      ensures reply.NotYours? <==> !reply.NoUpload? && old(redis)[id].uid != uid
      ensures reply.CannotCreate? <==> !reply.NoUpload? && !reply.NotYours? && !creates && |old(redis)[id].received| == old(redis)[id].totalChunks
      ensures !reply.Answer? ==> uploads == old(uploads) && tmp == old(tmp)
      ensures redis == if reply.Answer? && reply.completion.Merged? && redisAtEnd
                       then old(redis)[id := old(redis)[id].(completed := true)] else old(redis)
      ensures reply.Answer? ==>
        && var name := id + old(redis)[id].ext;
        && CompletionStep(old(redis)[id], old(FilesOf(id, name)), reply.completion, FilesOf(id, name))
        && WithoutKey(tmp, id) == WithoutKey(old(tmp), id)
        && WithoutKey(uploads, name) == WithoutKey(old(uploads), name)
    {
      if id == "" || !redisUp || id !in redis {
        return NoUpload;
      }
      var meta := redis[id];
      if meta.uid != uid {
        return NotYours;
      }
      if |meta.received| != meta.totalChunks {
        return Answer(NotAllReceived);
      }
      if !creates {
        return CannotCreate;
      }
      var name := id + meta.ext;
      uploads := uploads[name := []];
      var c := Merge(ChunksOf(id), name, meta.totalChunks);
      if c.Merged? {
        CleanUp(id, meta.totalChunks);
        if redisAtEnd {
          redis := redis[id := meta.(completed := true)];
        }
      }
      return Answer(c);
    }
  }
}
