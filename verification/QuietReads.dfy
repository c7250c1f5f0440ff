/**
 * A handle with no write outstanding: exactly when all it answers from here on,
 * as long as no further write is accepted, is read from a given file.
 */
module QuietReads {
  import opened FlatFile
  import opened BufferedHandle
  import W = WriteBuffering
  import R = ReadCaching

  ghost predicate WriteFree(limits: Limits, h: Handle, h': Handle) {
    Step(limits, h, h') && !ClientWrite(limits, h, h')
  }

  ghost predicate Path(limits: Limits, path: seq<Handle>) {
    path != [] && forall i :: 0 <= i < |path| - 1 ==> WriteFree(limits, path[i], path[i + 1])
  }

  /** Some steps, none of them accepting a write, lead from h to h'. */
  ghost predicate Leads(limits: Limits, h: Handle, h': Handle) {
    exists path :: Path(limits, path) && path[0] == h && path[|path| - 1] == h'
  }

  ghost predicate Quiet(h: Handle) {
    h.pc.Idle? && h.w.queue == [] && h.w.bufferedSize == 0
  }

  /** The answers given since h are reads of the file. */
  ghost predicate AnswersRight(h: Handle, h': Handle, file: Bytes) {
    |h.answers| <= |h'.answers| && forall k :: |h.answers| <= k < |h'.answers| ==> ReadOf(h'.answers[k], file)
  }

  /** Whatever happens, short of a further write, all answers are reads of the file. */
  ghost predicate ReadsRight(limits: Limits, h: Handle, file: Bytes) {
    forall h' :: Leads(limits, h, h') ==> AnswersRight(h, h', file)
  }

  /** Nothing but bytes of the file can be served from the block once it is found in the cache. */
  ghost predicate Harmless(e: R.Entry, file: Bytes) {
    match e.status
    case Pending => !e.torn || e.requested == 0
    case Ready(data) => data <= ReadAt(file, e.offset, e.requested)
    case Broken(_) => true
  }

  ghost predicate AllHarmless(c: R.CacheState, file: Bytes) {
    forall i :: 0 <= i < |c.cache| && c.cache[i] < |c.entries| ==> Harmless(c.entries[c.cache[i]], file)
  }

  // ------------------------------------------------------------------------
  // A harmless cache stays harmless
  // ------------------------------------------------------------------------

  /** The block, once its data is there, serves the offset right. */
  ghost predicate WillServe(e: R.Entry, offset: nat, file: Bytes) {
    match e.status
    case Pending => !e.torn
    case Ready(data) =>
      && data <= ReadAt(file, e.offset, e.requested)
      && (offset < e.offset + |data| || data == ReadAt(file, e.offset, e.requested))
    case Broken(_) => true
  }

  ghost predicate Calm(limits: Limits, h0: Handle, h: Handle) {
    && Booked(h) && Cached(limits, h)
    && h.w.queue == [] && h.w.bufferedSize == 0 && h.file == h0.file
    && CalmCache(h, h0.file) && AnswersRight(h0, h, h0.file)
  }

  ghost predicate CalmCache(h: Handle, file: Bytes) {
    && (h.c.clear || AllHarmless(h.c, file))
    && (h.pc.Prefetching? ==>
          !h.c.clear && h.c.cache != [] && h.c.cache[0] < |h.c.entries|
          && WillServe(h.c.entries[h.c.cache[0]], h.pc.offset, file))
    && (h.pc.Waiting? ==> h.pc.id < |h.c.entries| && WillServe(h.c.entries[h.pc.id], h.pc.offset, file))
  }

  lemma FrontPartServes(data: Bytes, file: Bytes, start: nat, length: nat, k: nat, size: nat)
    requires data <= ReadAt(file, start, length) && k < |data|
    ensures ReadAt(data, k, size) <= ReadAt(file, start + k, size)
    ensures size > 0 ==> ReadAt(data, k, size) != []
  {
    var inner, outer := ReadAt(data, k, size), ReadAt(file, start + k, size);
    assert data == ReadAt(file, start, length)[..|data|];
    assert |inner| <= |outer| && forall i :: 0 <= i < |inner| ==> inner[i] == outer[i];
  }

  lemma ServedRight(e: R.Entry, file: Bytes, offset: nat, size: nat)
    requires R.Serves(e, offset, size) && WillServe(e, offset, file) && !e.status.Pending?
    ensures R.Serve(e, offset, size).Ok? ==>
              && R.Serve(e, offset, size).value <= ReadAt(file, offset, size)
              && (size > 0 && offset < |file| ==> R.Serve(e, offset, size).value != [])
  {
    if R.Faithful(e, file) {
      R.ServeIsPrefix(e, file, offset, size);
    } else {
      R.ServeSlices(e, offset, size);
      FrontPartServes(e.status.data, file, e.offset, e.requested, offset - e.offset, size);
      hide R.Serve;
    }
  }

  lemma StartReadCalm(limits: Limits, h: Handle, env: R.Circumstances, h': Handle, file: Bytes)
    requires CalmCache(h, file) && Cached(limits, h) && h.w.queue == [] && StartRead(limits, h, env, h')
    ensures CalmCache(h', file)
  {
    var offset, size := h.pc.next.offset, h.pc.next.size;
    R.LookupSound(limits.read, h.c, offset, size, env);
    R.LookupKeeps(limits.read, h.c, offset, size, env);
    R.LookupFront(limits.read, h.c, offset, size, env);
    hide R.Lookup, Cached;
    forall i | 0 <= i < |h'.c.cache| && h'.c.cache[i] < |h'.c.entries|
      ensures Harmless(h'.c.entries[h'.c.cache[i]], file)
    {
      var id := h'.c.cache[i];
      if id < |h.c.entries| {
        assert h'.c.entries[id] == h.c.entries[id];
      }
    }
    var e := h'.c.entries[h'.c.cache[0]];
    assert Harmless(e, file) && R.Sized(e);
  }

  lemma PrefetchCalm(h: Handle, h': Handle, file: Bytes)
    requires CalmCache(h, file) && h.w.queue == [] && PrefetchMore(h, h')
    ensures CalmCache(h', file)
  {
  }

  lemma ArriveCalm(h: Handle, id: nat, status: R.Status, h': Handle, file: Bytes)
    requires CalmCache(h, file) && h.file == file && FetchDone(h, id, status, h')
    ensures CalmCache(h', file)
  {
  }

  /** Nothing is written, and what is not a read leaves the cache alone or tells it to clear. */
  ghost predicate Idles(h: Handle, h': Handle) {
    && h'.w.queue == [] && h'.w.bufferedSize == 0 && h'.file == h.file && h'.answers == h.answers
    && (h' == h || (!Reading(h'.pc) && (h'.c == h.c || h'.c == h.c.(clear := true))))
  }

  lemma SyncIdles(h: Handle, h': Handle)
    requires Booked(h) && h.w.queue == [] && h.w.bufferedSize == 0 && ClientSync(h, h')
    ensures h'.w.queue == [] && h'.w.bufferedSize == 0 && h'.w.confirmations == [] && h'.c == h.c && Idles(h, h')
  {
    W.SyncExtends(h.w);
    W.SyncLeavesNothing(h.w);
    assert W.Push(h.w) == h.w;
    hide W.Accounted, W.Sync;
  }

  lemma OtherStepsIdle(limits: Limits, h: Handle, h': Handle)
    requires h.w.queue == [] && h.w.bufferedSize == 0 && WriteFree(limits, h, h')
    requires !ClientSync(h, h') && !(exists env :: StartRead(limits, h, env, h')) && !PrefetchMore(h, h')
    requires !ReadReturns(h, h') && !(exists id, status :: FetchDone(h, id, status, h'))
    ensures Idles(h, h')
  {
    hide ClientWrite, ClientSync, StartRead, PrefetchMore, ReadReturns, FetchDone;
  }

  lemma CalmStep(limits: Limits, h0: Handle, h: Handle, h': Handle)
    requires Calm(limits, h0, h) && WriteFree(limits, h, h')
    ensures Calm(limits, h0, h')
  {
    BookedStep(limits, h, h');
    CachedStep(limits, h, h');
    CalmStepCache(limits, h, h', h0);
  }

  lemma CalmStepCache(limits: Limits, h: Handle, h': Handle, h0: Handle)
    requires Calm(limits, h0, h) && WriteFree(limits, h, h')
    ensures h'.w.queue == [] && h'.w.bufferedSize == 0 && h'.file == h0.file
    ensures CalmCache(h', h0.file) && AnswersRight(h0, h', h0.file)
  {
    hide Booked, Cached, CalmCache, WriteFree, R.Lookup, R.Prefetch, R.Arrive, ReadOf;
    if ReadReturns(h, h') {
      ReturnCalm(limits, h0, h, h');
    } else if env :| StartRead(limits, h, env, h') {
      StartReadCalm(limits, h, env, h', h0.file);
    } else if PrefetchMore(h, h') {
      PrefetchCalm(h, h', h0.file);
    } else if id, status :| FetchDone(h, id, status, h') {
      ArriveCalm(h, id, status, h', h0.file);
    } else {
      if ClientSync(h, h') {
        SyncIdles(h, h');
      } else {
        OtherStepsIdle(limits, h, h');
      }
      IdlesCalm(h, h', h0.file);
    }
  }

  lemma IdlesCalm(h: Handle, h': Handle, file: Bytes)
    requires CalmCache(h, file) && Idles(h, h')
    ensures CalmCache(h', file)
  {
  }

  lemma ReturnCalm(limits: Limits, h0: Handle, h: Handle, h': Handle)
    requires Calm(limits, h0, h) && ReadReturns(h, h')
    ensures h'.w == h.w && h'.file == h0.file
    ensures CalmCache(h', h0.file) && AnswersRight(h0, h', h0.file)
  {
    ServedRight(h.c.entries[h.pc.id], h0.file, h.pc.offset, h.pc.size);
    hide R.Serve, WillServe, Booked, Cached;
  }

  lemma {:induction false} CalmPath(limits: Limits, path: seq<Handle>, i: nat)
    requires Path(limits, path) && i < |path| && Calm(limits, path[0], path[0])
    ensures Calm(limits, path[0], path[i])
  {
    if i == 0 {
    } else {
      CalmPath(limits, path, i - 1);
      assert WriteFree(limits, path[i - 1], path[i - 1 + 1]);
      hide Calm, WriteFree;
      CalmStep(limits, path[0], path[i - 1], path[i]);
    }
  }

  lemma HarmlessReadsRight(limits: Limits, h: Handle)
    requires Booked(h) && Cached(limits, h) && Quiet(h) && (h.c.clear || AllHarmless(h.c, h.file))
    ensures ReadsRight(limits, h, h.file)
  {
    forall h' | Leads(limits, h, h') ensures AnswersRight(h, h', h.file) {
      var path :| Path(limits, path) && path[0] == h && path[|path| - 1] == h';
      CalmPath(limits, path, |path| - 1);
    }
  }

  // ------------------------------------------------------------------------
  // Anything else is exposed by some read
  // ------------------------------------------------------------------------

  lemma LeadsSelf(limits: Limits, h: Handle)
    ensures Leads(limits, h, h)
  {
    assert Path(limits, [h]) && [h][|[h]| - 1] == h;
  }

  lemma LeadsOn(limits: Limits, h0: Handle, h: Handle, h': Handle)
    requires Leads(limits, h0, h) && Step(limits, h, h') && !h'.pc.Writing?
    ensures Leads(limits, h0, h')
  {
    hide Step;
    var path :| Path(limits, path) && path[0] == h0 && path[|path| - 1] == h;
    var longer := path + [h'];
    forall i | 0 <= i < |longer| - 1 ensures WriteFree(limits, longer[i], longer[i + 1]) {
      if i < |path| - 1 {
        assert WriteFree(limits, path[i], path[i + 1]);
      }
    }
    assert Path(limits, longer) && longer[|longer| - 1] == h';
  }

  ghost predicate SameFile(h: Handle, h': Handle) {
    h'.file == h.file && h'.answers == h.answers && h'.w.queue == [] && h'.w.bufferedSize == 0
  }

  ghost function Syncs(h: Handle, next: Next): Handle
    requires W.Accounted(h.w)
  {
    var (w', waits) := W.Sync(h.w);
    h.(w := w', c := Disturbed(h, w'), pc := Syncing(waits, next))
  }

  lemma SyncsOn(limits: Limits, h0: Handle, h: Handle, next: Next)
    requires Leads(limits, h0, h) && Booked(h) && Quiet(h)
    ensures var h' := Syncs(h, next);
            && Leads(limits, h0, h') && Booked(h') && SameFile(h, h') && h'.c == h.c
            && Confirmed(h', h'.pc.waits) && h'.w.confirmations == []
            && h'.pc.Syncing? && h'.pc.next == next && (h.w.confirmations == [] ==> h'.pc.waits == [])
  {
    var h' := Syncs(h, next);
    assert ClientSync(h, h');
    SyncBooked(h, h');
    SyncIdles(h, h');
    W.SyncExtends(h.w);
    hide W.Sync, W.Accounted, Step;
    assert Step(limits, h, h') by {
      StepSync(limits, h, h');
    }
    LeadsOn(limits, h0, h, h');
  }

  lemma StepSync(limits: Limits, h: Handle, h': Handle)
    requires ClientSync(h, h')
    ensures Step(limits, h, h')
  {
    hide ClientSync;
  }

  /** A client operation gets past its fsync, at the second attempt if an old failure is reported first. */
  lemma SyncReaches(limits: Limits, h0: Handle, h: Handle, next: Next) returns (h': Handle)
    requires Leads(limits, h0, h) && Booked(h) && Quiet(h)
    ensures Leads(limits, h0, h') && Synced(h') && h'.pc.next == next
    ensures Booked(h') && SameFile(h, h') && h'.c == h.c
  {
    SyncsOn(limits, h0, h, next);
    h' := Syncs(h, next);
    assert h'.pc.Syncing? && h'.pc.next == next;
    hide Booked, Leads, Syncs;
    if !Synced(h') {
      var again := h'.(pc := Idle);
      assert SyncFails(h', again);
      ReturnBooked(h', again);
      LeadsOn(limits, h0, h', again);
      SyncsOn(limits, h0, again, next);
      h' := Syncs(again, next);
    }
  }

  /** A read of one byte gets to wait for the block its lookup puts in front. */
  lemma ReadReaches(limits: Limits, h0: Handle, h: Handle, offset: nat) returns (h': Handle)
    requires Leads(limits, h0, h) && Synced(h) && h.pc.next == ThenRead(offset, 1, 1)
    requires Cached(limits, h) && h.w.queue == [] && h.w.bufferedSize == 0
    ensures Leads(limits, h0, h') && SameFile(h, h')
    ensures var c := R.Lookup(limits.read, h.c, offset, 1, R.UNHURRIED);
            && c.cache != [] && c.cache[0] < |c.entries| && h'.pc == Waiting(c.cache[0], offset, 1)
            && c.cache[0] < |h'.c.entries| && h'.c.entries[c.cache[0]] == c.entries[c.cache[0]]
  {
    var c := R.Lookup(limits.read, h.c, offset, 1, R.UNHURRIED);
    R.LookupSound(limits.read, h.c, offset, 1, R.UNHURRIED);
    var id := c.cache[0];
    if R.Hit(h.c, offset, R.UNHURRIED) {
      h' := h.(c := c, pc := Waiting(id, offset, 1));
      assert StartRead(limits, h, R.UNHURRIED, h');
      hide StartRead;
      LeadsOn(limits, h0, h, h');
    } else {
      var h1 := h.(c := c, pc := Prefetching(offset, 1, 1));
      assert StartRead(limits, h, R.UNHURRIED, h1);
      hide StartRead, R.Lookup, R.Hit;
      LeadsOn(limits, h0, h, h1);
      h' := PrefetchReaches(limits, h0, h1);
    }
  }

  lemma PrefetchReaches(limits: Limits, h0: Handle, h: Handle) returns (h': Handle)
    requires Leads(limits, h0, h) && h.pc.Prefetching? && h.c.InBounds() && h.c.cache != []
    ensures Leads(limits, h0, h') && h'.w == h.w && h'.file == h.file && h'.answers == h.answers
    ensures h'.pc == Waiting(h.c.cache[0], h.pc.offset, h.pc.size)
    ensures h.c.entries <= h'.c.entries
  {
    h' := h.(c := R.Prefetch(h.c, h.pc.offset, h.pc.continuous, h.w.queue != []),
             pc := Waiting(h.c.cache[0], h.pc.offset, h.pc.size));
    assert PrefetchMore(h, h');
    LeadsOn(limits, h0, h, h');
  }

  /** The fetch waited for ends with the data, if it may. */
  lemma FetchReaches(limits: Limits, h0: Handle, h: Handle, data: Bytes) returns (h': Handle)
    requires Leads(limits, h0, h) && h.pc.Waiting? && h.pc.id < |h.c.entries|
    requires var e := h.c.entries[h.pc.id];
             e.status.Pending? && |data| <= e.requested && (e.torn || data == ReadAt(h.file, e.offset, e.requested))
    ensures Leads(limits, h0, h') && h'.pc == h.pc && h'.file == h.file && h'.answers == h.answers
    ensures h'.pc.id < |h'.c.entries|
    ensures var e, e' := h.c.entries[h.pc.id], h'.c.entries[h.pc.id];
            e'.status == R.Ready(data) && e'.offset == e.offset
  {
    h' := h.(c := R.Arrive(h.c, h.pc.id, R.Ready(data)));
    assert FetchDone(h, h.pc.id, R.Ready(data), h');
    LeadsOn(limits, h0, h, h');
  }

  /** The answer to a read that waits for a block whose data is there. */
  lemma AnswerReaches(limits: Limits, h0: Handle, h: Handle, file: Bytes)
    requires Leads(limits, h0, h) && h.pc.Waiting? && h.pc.size == 1 && h.pc.id < |h.c.entries|
    requires |h0.answers| <= |h.answers|
    requires var e := h.c.entries[h.pc.id];
             && e.status.Ready? && e.offset <= h.pc.offset
             && var value := ReadAt(e.status.data, h.pc.offset - e.offset, 1);
                !(value <= ReadAt(file, h.pc.offset, 1)) || (h.pc.offset < |file| && value == [])
    ensures !ReadsRight(limits, h0, file)
  {
    var e := h.c.entries[h.pc.id];
    R.ServeSlices(e, h.pc.offset, 1);
    var value := R.Serve(e, h.pc.offset, 1);
    hide R.Serve;
    var a := Answer(h.pc.offset, 1, value, h.file, h.expected, h.failed, h.lost, h.tainted);
    var h' := h.(pc := Idle, answers := h.answers + [a]);
    assert ReadReturns(h, h');
    LeadsOn(limits, h0, h, h');
    assert h'.answers[|h.answers|] == a && !ReadOf(a, file);
    hide Leads, ReadOf;
    assert !AnswersRight(h0, h', file);
  }

  /** An fsync of the client tells the cache to clear. */
  lemma ClearReaches(limits: Limits, h: Handle) returns (h': Handle)
    requires Booked(h) && Quiet(h)
    ensures Leads(limits, h, h') && Booked(h') && Quiet(h') && SameFile(h, h')
    ensures h'.c == h.c.(clear := true)
  {
    LeadsSelf(limits, h);
    var h1 := SyncReaches(limits, h, h, ThenClear);
    h' := h1.(c := h1.c.(clear := true), tainted := false, pc := Idle);
    assert ClearCache(h1, h');
    ReturnBooked(h1, h');
    hide Booked;
    LeadsOn(limits, h, h1, h');
  }

  /** The block has the data, or its fetch may still end with it. */
  ghost predicate MayHold(e: R.Entry, data: Bytes, file: Bytes) {
    || e.status == R.Ready(data)
    || (e.status.Pending? && |data| <= e.requested && (e.torn || data == ReadAt(file, e.offset, e.requested)))
  }

  /** The byte served at the position from a block with the data is not the file's. */
  ghost predicate Wrong(e: R.Entry, data: Bytes, at: nat, file: Bytes) {
    && e.offset <= at
    && var value := ReadAt(data, at - e.offset, 1);
       !(value <= ReadAt(file, at, 1)) || (at < |file| && value == [])
  }

  /** A read of one byte is served from the block its lookup puts in front. */
  lemma FrontShows(limits: Limits, h0: Handle, h: Handle, at: nat, data: Bytes, file: Bytes)
    requires Leads(limits, h0, h) && Synced(h) && h.pc.next == ThenRead(at, 1, 1)
    requires Cached(limits, h) && h.w.queue == [] && h.w.bufferedSize == 0 && h.answers == h0.answers
    requires R.Possible(h.c, R.UNHURRIED) && h.c.coeff >= 0.0
    requires var c := R.Lookup(limits.read, h.c, at, 1, R.UNHURRIED);
             && c.cache != [] && c.cache[0] < |c.entries|
             && var e := c.entries[c.cache[0]]; MayHold(e, data, h.file) && Wrong(e, data, at, file)
    ensures !ReadsRight(limits, h0, file)
  {
    hide Cached, Leads, R.Lookup, ReadsRight, Synced, ReadAt;
    var h' := ReadReaches(limits, h0, h, at);
    if h'.c.entries[h'.pc.id].status.Pending? {
      h' := FetchReaches(limits, h0, h', data);
    }
    AnswerReaches(limits, h0, h', file);
  }

  /** The files agree before position k and not at it. */
  ghost predicate PartAt(f: Bytes, g: Bytes, k: nat) {
    && k <= |f| && k <= |g| && f[..k] == g[..k]
    && (if k < |f| && k < |g| then f[k] != g[k] else |f| != |g|)
  }

  lemma {:induction false} PartSomewhere(f: Bytes, g: Bytes, from: nat) returns (k: nat)
    requires f != g && from <= |f| && from <= |g| && f[..from] == g[..from]
    ensures PartAt(f, g, k)
    decreases |f| - from
  {
    assert f[..|f|] == f && g[..|g|] == g;
    if from < |f| && from < |g| && f[from] == g[from] {
      assert f[..from + 1] == f[..from] + [f[from]] && g[..from + 1] == g[..from] + [g[from]];
      k := PartSomewhere(f, g, from + 1);
    } else {
      k := from;
    }
  }

  /** If the underlying file is not the given one, a read past a clear shows it. */
  lemma OtherFileShows(limits: Limits, h: Handle, file: Bytes)
    requires Booked(h) && Cached(limits, h) && Quiet(h) && h.file != file
    ensures !ReadsRight(limits, h, file)
  {
    var k := PartSomewhere(h.file, file, 0);
    var data := ReadAt(h.file, k, 1);
    var h1 := ClearReaches(limits, h);
    var h2 := SyncReaches(limits, h, h1, ThenRead(k, 1, 1));
    assert Cached(limits, h2);
    R.LookupOfNothing(limits.read, h2.c, k, 1);
    var e := R.Entry(k, 1, 1, R.Pending, false);
    assert Wrong(e, data, k, file) by {
      PartingIsWrong(h.file, file, k);
    }
    assert MayHold(e, data, h2.file);
    hide Booked, Cached, Leads, R.Lookup, ReadsRight, ReadAt, Wrong, MayHold;
    FrontShows(limits, h, h2, k, data, file);
  }

  lemma PartingIsWrong(f: Bytes, g: Bytes, k: nat)
    requires PartAt(f, g, k)
    ensures Wrong(R.Entry(k, 1, 1, R.Pending, false), ReadAt(f, k, 1), k, g)
  {
    ByteRead(f, k);
    ByteRead(g, k);
    ByteRead(ReadAt(f, k, 1), 0);
  }

  lemma DataIsWrong(e: R.Entry, data: Bytes, file: Bytes) returns (k: nat)
    requires |data| <= e.requested && !(data <= ReadAt(file, e.offset, e.requested))
    ensures k < |data| && Wrong(e, data, e.offset + k, file)
  {
    var slice := ReadAt(file, e.offset, e.requested);
    k := PartSomewhere(data, slice, 0);
    assert data[..|data|] == data;
    assert k < |data|;
    ByteRead(data, k);
    ByteRead(file, e.offset + k);
    assert k < |slice| ==> slice[k] == file[e.offset + k];
  }

  lemma ByteRead(f: Bytes, k: nat)
    ensures ReadAt(f, k, 1) == if k < |f| then [f[k]] else []
  {
  }

  /** What is wrong with a harmful block: the data it has or may get, and where that is not the file's. */
  lemma HarmIsWrong(e: R.Entry, file: Bytes) returns (data: Bytes, at: nat)
    requires R.Sized(e) && !Harmless(e, file)
    ensures MayHold(e, data, file) && Wrong(e, data, at, file) && e.Reaches(at)
  {
    if e.status.Ready? {
      hide Wrong, ReadAt;
      data := e.status.data;
      var k := DataIsWrong(e, data, file);
      at := e.offset + k;
    } else {
      data, at := if e.offset < |file| then [] else [0], e.offset;
      ByteRead(data, 0);
    }
  }

  /** A harmful block in the cache is served to the read of one of its bytes. */
  lemma HarmfulBlockShows(limits: Limits, h: Handle, i: nat)
    requires Booked(h) && Cached(limits, h) && Quiet(h) && !h.c.clear
    requires i < |h.c.cache| && h.c.cache[i] < |h.c.entries| && !Harmless(h.c.entries[h.c.cache[i]], h.file)
    ensures !ReadsRight(limits, h, h.file)
  {
    var e := h.c.entries[h.c.cache[i]];
    assert R.Sized(e);
    hide MayHold, Wrong, Harmless, Leads, ReadsRight, Booked, R.Lookup;
    var data, at := HarmIsWrong(e, h.file);
    R.LookupFinds(limits.read, h.c, at, 1, R.UNHURRIED, i);
    LeadsSelf(limits, h);
    var h1 := SyncReaches(limits, h, h, ThenRead(at, 1, 1));
    assert Cached(limits, h1);
    hide Cached;
    FrontShows(limits, h, h1, at, data, h.file);
  }

  /**
   * From every reachable state with no write outstanding, all further answers are
   * reads of the given file exactly when the underlying file is that file and the
   * cache is about to be cleared or holds only harmless blocks. With the expected
   * file this says exactly when the client reads what it wrote; with the
   * underlying one, exactly when a failed batch has left stale blocks behind.
   */
  lemma ReadsRightExactly(limits: Limits, run: seq<Handle>, i: nat, file: Bytes)
    requires Run(limits, run) && i < |run| && Quiet(run[i])
    ensures ReadsRight(limits, run[i], file) <==>
            run[i].file == file && (run[i].c.clear || AllHarmless(run[i].c, file))
  {
    var h := run[i];
    RunInv(limits, run, i);
    hide Booked, Cached, Coherent, Answered, ReadsRight, Quiet, Harmless;
    if h.file != file {
      OtherFileShows(limits, h, file);
    } else if h.c.clear || AllHarmless(h.c, file) {
      HarmlessReadsRight(limits, h);
    } else {
      var j :| 0 <= j < |h.c.cache| && h.c.cache[j] < |h.c.entries| && !Harmless(h.c.entries[h.c.cache[j]], file);
      HarmfulBlockShows(limits, h, j);
    }
  }
}
