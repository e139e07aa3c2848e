/**
 * Private file replacement (deploy/platform-upgrade-windows.cs: `WritePrivate`, `Rename`): fill a temporary
 * file, flush it, rename it over the target.
 *
 * Any number of writers run against each other, any of them may die, and the machine may lose power after
 * any step.  A crash keeps flushed data and turns the rest into anything.  The directory is a log of entries
 * for each name; a crash rolls every name back, on its own, to any entry not older than the last one that
 * was written through.
 */
module PrivateFile {
  import opened Options

  type Bytes = seq<bv8>
  type Path = string
  type FileId = nat
  type WriterId = nat

  datatype File = File(data: Bytes, flushed: bool)

  /** What a file was created for. */
  datatype Purpose = Purpose(target: Path, content: Bytes)

  datatype Stage = Created | Filled | Flushed | Checked | Moved(entry: nat) | Finished(entry: nat)

  datatype Writer = Writer(target: Path, temporary: Path, content: Bytes, file: FileId, stage: Stage)

  datatype State = State(
    files: map<FileId, File>,
    purposes: map<FileId, Purpose>,
    log: map<Path, seq<Option<FileId>>>,  // the entries of a name so far, the last one current
    sure: map<Path, nat>,                 // the oldest entry a crash may leave
    temporaries: set<Path>,
    writers: map<WriterId, Writer>)

  datatype Event =
    | Create(w: WriterId, target: Path, temporary: Path, content: Bytes, file: FileId)
    | Write(w: WriterId, upTo: nat)  // a prefix of the content has reached the file
    | Flush(w: WriterId)
    | Reopen(w: WriterId)            // `Rename` opens the temporary file and flushes it again
    | Move(w: WriterId)              // MoveFileExW, replacing
    | WriteThrough(w: WriterId)      // the same call returns
    | Fail(w: WriterId)              // an error or the death of the writer
    | Delete(temporary: Path)        // cleaning up
    | Crash(keep: map<Path, nat>, garbage: map<FileId, Bytes>)

  function Current(s: State, p: Path): Option<FileId>
    requires p in s.log && |s.log[p]| > 0
  {
    s.log[p][|s.log[p]| - 1]
  }

  predicate Has(s: State, w: WriterId, stage: Stage) { w in s.writers && s.writers[w].stage == stage }

  predicate Enabled(s: State, e: Event) {
    match e
    case Create(w, target, temporary, _, file) =>
      // CREATE_NEW under a fresh name.
      && w !in s.writers && file !in s.files && temporary !in s.log
      && target in s.log && target !in s.temporaries
    case Write(w, upTo) => Has(s, w, Created) && upTo <= |s.writers[w].content|
    case Flush(w) => Has(s, w, Filled) && s.writers[w].file in s.files
    case Reopen(w) => Has(s, w, Flushed)
    case Move(w) =>
      && Has(s, w, Checked)
      && var x := s.writers[w];
      && x.target in s.log && x.temporary in s.log && |s.log[x.temporary]| > 0
      && Current(s, x.temporary).Some?
    case WriteThrough(w) => w in s.writers && s.writers[w].stage.Moved? && s.writers[w].target in s.sure
    case Fail(w) => w in s.writers
    case Delete(temporary) => temporary in s.temporaries && temporary in s.log
    case Crash(keep, _) =>
      && keep.Keys == s.log.Keys == s.sure.Keys
      && forall p :: p in keep ==> s.sure[p] <= keep[p] < |s.log[p]|
  }

  function Staged(s: State, w: WriterId, stage: Stage): State
    requires w in s.writers
  {
    s.(writers := s.writers[w := s.writers[w].(stage := stage)])
  }

  function Next(s: State, e: Event): State
    requires Enabled(s, e)
  {
    match e
    case Create(w, target, temporary, content, file) =>
      State(s.files[file := File([], false)], s.purposes[file := Purpose(target, content)],
            s.log[temporary := [None, Some(file)]], s.sure[temporary := 0], s.temporaries + {temporary},
            s.writers[w := Writer(target, temporary, content, file, Created)])
    case Write(w, upTo) =>
      var x := s.writers[w];
      Staged(s, w, if upTo == |x.content| then Filled else Created)
        .(files := s.files[x.file := File(x.content[..upTo], false)])
    case Flush(w) =>
      var x := s.writers[w];
      Staged(s, w, Flushed).(files := s.files[x.file := s.files[x.file].(flushed := true)])
    case Reopen(w) => Staged(s, w, Checked)
    case Move(w) =>
      var x := s.writers[w];
      Staged(s, w, Moved(|s.log[x.target]|))
        .(log := s.log[x.temporary := s.log[x.temporary] + [None]]
                      [x.target := s.log[x.target] + [Current(s, x.temporary)]])
    case WriteThrough(w) =>
      var x := s.writers[w];
      Staged(s, w, Finished(x.stage.entry))
        .(sure := s.sure[x.target := if s.sure[x.target] < x.stage.entry then x.stage.entry else s.sure[x.target]])
    case Fail(w) => s.(writers := s.writers - {w})
    case Delete(temporary) => s.(log := s.log[temporary := s.log[temporary] + [None]])
    case Crash(keep, garbage) =>
      s.(writers := map[],
         log := map p | p in s.log :: s.log[p][..keep[p] + 1],
         files := map f | f in s.files :: AfterCrash(s.files[f], f, garbage))
  }

  function AfterCrash(x: File, f: FileId, garbage: map<FileId, Bytes>): File {
    if x.flushed || f !in garbage then x.(flushed := true) else File(garbage[f], true)
  }

  function Run(s0: State, es: seq<Event>): Option<State> {
    if es == [] then Some(s0)
    else
      match Run(s0, es[..|es| - 1])
      case None => None
      case Some(s) => if Enabled(s, es[|es| - 1]) then Some(Next(s, es[|es| - 1])) else None
  }

  /** A machine at rest whose private paths are the keys of `initial`, absent ones mapped to `None`. */
  ghost predicate Booted(s: State, initial: map<Path, Option<Bytes>>) {
    && s.writers == map[] && s.temporaries == {}
    && s.log.Keys == s.sure.Keys == initial.Keys && s.files.Keys == s.purposes.Keys
    && (forall f :: f in s.purposes ==>
          s.purposes[f].target in initial && initial[s.purposes[f].target] == Some(s.purposes[f].content))
    && forall p :: p in initial ==>
         && s.sure[p] == 0 && |s.log[p]| == 1
         && (initial[p] == None <==> s.log[p][0] == None)
         && (initial[p].Some? ==> Settled(s, p, s.log[p][0].value))
  }

  /** A file fit to stand under a private path: flushed, and the whole of what it was created for. */
  predicate Settled(s: State, p: Path, f: FileId) {
    && f in s.files && f in s.purposes && s.purposes[f].target == p
    && s.files[f] == File(s.purposes[f].content, true)
  }

  predicate Unmoved(x: Writer) { !x.stage.Moved? && !x.stage.Finished? }

  ghost predicate LogInv(s: State) {
    && s.log.Keys == s.sure.Keys && s.files.Keys == s.purposes.Keys && s.temporaries <= s.log.Keys
    && (forall p :: p in s.log ==> s.sure[p] < |s.log[p]|)
    && (forall p, i :: p in s.log && p !in s.temporaries && 0 <= i < |s.log[p]| ==>
          (i > 0 ==> s.log[p][i].Some?) && (s.log[p][i].Some? ==> Settled(s, p, s.log[p][i].value)))
  }

  ghost predicate WriterInv(s: State, w: WriterId)
    requires w in s.writers
  {
    var x := s.writers[w];
    && x.file in s.files && x.file in s.purposes && s.purposes[x.file] == Purpose(x.target, x.content)
    && x.target in s.log && x.target !in s.temporaries && x.temporary in s.log && x.temporary in s.temporaries
    && (forall i :: 0 <= i < |s.log[x.temporary]| ==>
      s.log[x.temporary][i] == None || s.log[x.temporary][i] == Some(x.file))
    && (x.stage in {Filled, Flushed, Checked} ==> s.files[x.file].data == x.content)
    && (x.stage in {Flushed, Checked} ==> s.files[x.file].flushed)
    && (Unmoved(x) ==> NotYetPlaced(s, x.file))
    && (!Unmoved(x) ==> x.stage.entry < |s.log[x.target]| && s.log[x.target][x.stage.entry] == Some(x.file))
  }

  ghost predicate NotYetPlaced(s: State, f: FileId) {
    forall p, i :: p in s.log && p !in s.temporaries && 0 <= i < |s.log[p]| ==> s.log[p][i] != Some(f)
  }

  ghost predicate Inv(s: State) {
    && LogInv(s)
    && (forall w :: w in s.writers ==> WriterInv(s, w))
    && (forall v, w :: v in s.writers && w in s.writers && v != w ==> s.writers[v].file != s.writers[w].file)
  }

  lemma CreateKeepsInv(s: State, e: Event)
    requires Inv(s) && e.Create? && Enabled(s, e)
    ensures Inv(Next(s, e))
  {
    var t := Next(s, e);
    forall w | w in t.writers
      ensures WriterInv(t, w)
    {
      if w != e.w { assert WriterInv(s, w); }
    }
  }

  lemma WriteKeepsInv(s: State, e: Event)
    requires Inv(s) && e.Write? && Enabled(s, e)
    ensures Inv(Next(s, e))
  {
    var t := Next(s, e);
    assert WriterInv(s, e.w);
    forall w | w in t.writers
      ensures WriterInv(t, w)
    {
      assert WriterInv(s, w);
    }
  }

  lemma FlushKeepsInv(s: State, e: Event)
    requires Inv(s) && e.Flush? && Enabled(s, e)
    ensures Inv(Next(s, e))
  {
    var t := Next(s, e);
    assert WriterInv(s, e.w);
    forall w | w in t.writers
      ensures WriterInv(t, w)
    {
      assert WriterInv(s, w);
    }
  }

  lemma MoveKeepsInv(s: State, w: WriterId)
    requires Inv(s) && Enabled(s, Move(w))
    ensures Inv(Next(s, Move(w)))
  {
    var t := Next(s, Move(w));
    var x := s.writers[w];
    assert WriterInv(s, w);
    assert Current(s, x.temporary) == Some(x.file);
    assert Settled(t, x.target, x.file);
    forall v | v in t.writers
      ensures WriterInv(t, v)
    {
      assert WriterInv(s, v);
    }
  }

  lemma CrashKeepsInv(s: State, e: Event)
    requires Inv(s) && e.Crash? && Enabled(s, e)
    ensures Inv(Next(s, e))
  {
    var t := Next(s, e);
    forall p, i | p in t.log && p !in t.temporaries && 0 <= i < |t.log[p]|
      ensures (i > 0 ==> t.log[p][i].Some?) && (t.log[p][i].Some? ==> Settled(t, p, t.log[p][i].value))
    {
      assert t.log[p][i] == s.log[p][i];
    }
  }

  lemma DeleteKeepsInv(s: State, temporary: Path)
    requires Inv(s) && Enabled(s, Delete(temporary))
    ensures Inv(Next(s, Delete(temporary)))
  {
    var t := Next(s, Delete(temporary));
    forall w | w in t.writers
      ensures WriterInv(t, w)
    {
      assert WriterInv(s, w);
    }
  }

  lemma SameFilesKeepWriter(s: State, t: State, v: WriterId, w: WriterId)
    requires v in s.writers && WriterInv(s, v) && w in t.writers && t.writers[w] == s.writers[v]
    requires t.files == s.files && t.purposes == s.purposes && t.log == s.log && t.temporaries == s.temporaries
    ensures WriterInv(t, w)
  {
  }

  lemma FailKeepsInv(s: State, w: WriterId)
    requires Inv(s) && Enabled(s, Fail(w))
    ensures Inv(Next(s, Fail(w)))
  {
    var t := Next(s, Fail(w));
    forall v | v in t.writers ensures WriterInv(t, v) { SameFilesKeepWriter(s, t, v, v); }
  }

  lemma ReopenKeepsInv(s: State, w: WriterId)
    requires Inv(s) && Enabled(s, Reopen(w))
    ensures Inv(Next(s, Reopen(w)))
  {
    var t := Next(s, Reopen(w));
    assert WriterInv(s, w);
    assert NotYetPlaced(t, s.writers[w].file);
    forall v | v in t.writers && v != w ensures WriterInv(t, v) { SameFilesKeepWriter(s, t, v, v); }
  }

  lemma WriteThroughKeepsInv(s: State, w: WriterId)
    requires Inv(s) && Enabled(s, WriteThrough(w))
    ensures Inv(Next(s, WriteThrough(w)))
  {
    var t := Next(s, WriteThrough(w));
    assert WriterInv(s, w);
    forall v | v in t.writers && v != w ensures WriterInv(t, v) { SameFilesKeepWriter(s, t, v, v); }
  }

  lemma NextKeepsInv(s: State, e: Event)
    requires Inv(s) && Enabled(s, e)
    ensures Inv(Next(s, e))
  {
    if e.Create? {
      CreateKeepsInv(s, e);
    } else if e.Write? {
      WriteKeepsInv(s, e);
    } else if e.Flush? {
      FlushKeepsInv(s, e);
    } else if e.Move? {
      MoveKeepsInv(s, e.w);
    } else if e.Crash? {
      CrashKeepsInv(s, e);
    } else if e.Delete? {
      DeleteKeepsInv(s, e.temporary);
    } else if e.Reopen? {
      ReopenKeepsInv(s, e.w);
    } else if e.WriteThrough? {
      WriteThroughKeepsInv(s, e.w);
    } else {
      FailKeepsInv(s, e.w);
    }
  }

  lemma {:induction false} RunKeepsInv(s0: State, initial: map<Path, Option<Bytes>>, es: seq<Event>)
    requires Booted(s0, initial) && Run(s0, es).Some?
    ensures Inv(Run(s0, es).value)
  {
    if es != [] {
      RunKeepsInv(s0, initial, es[..|es| - 1]);
      NextKeepsInv(Run(s0, es[..|es| - 1]).value, es[|es| - 1]);
    }
  }

  /** `content` was handed to a `WritePrivate` of `p` during the run. */
  ghost predicate Written(es: seq<Event>, p: Path, content: Bytes) {
    exists k :: 0 <= k < |es| && es[k].Create? && es[k].target == p && es[k].content == content
  }

  /** Where the run stands against its start: first entries, names and purposes. */
  ghost predicate Accounted(s0: State, initial: map<Path, Option<Bytes>>, es: seq<Event>, s: State) {
    && s.temporaries !! initial.Keys
    && (forall p :: p in initial ==>
          p in s0.log && p in s.log && |s0.log[p]| > 0 && |s.log[p]| > 0 && s.log[p][0] == s0.log[p][0])
    && (forall f :: f in s0.purposes ==> f in s.purposes && s.purposes[f] == s0.purposes[f])
    && (forall f :: f in s.purposes && f !in s0.purposes ==> Written(es, s.purposes[f].target, s.purposes[f].content))
  }

  lemma {:induction false} RunAccounts(s0: State, initial: map<Path, Option<Bytes>>, es: seq<Event>)
    requires Booted(s0, initial) && Run(s0, es).Some?
    ensures Accounted(s0, initial, es, Run(s0, es).value)
  {
    if es != [] {
      var before, e := es[..|es| - 1], es[|es| - 1];
      RunAccounts(s0, initial, before);
      RunKeepsInv(s0, initial, before);
      var s := Run(s0, before).value;
      NextAccounts(s0, initial, before, s, e);
      assert before + [e] == es;
    }
  }

  lemma WrittenLater(es: seq<Event>, e: Event, p: Path, content: Bytes)
    ensures Written(es, p, content) ==> Written(es + [e], p, content)
    ensures e.Create? && e.target == p && e.content == content ==> Written(es + [e], p, content)
  {
    if Written(es, p, content) {
      var k :| 0 <= k < |es| && es[k].Create? && es[k].target == p && es[k].content == content;
      assert (es + [e])[k] == es[k];
    }
    assert (es + [e])[|es|] == e;
  }

  lemma NextAccounts(s0: State, initial: map<Path, Option<Bytes>>, es: seq<Event>, s: State, e: Event)
    requires Accounted(s0, initial, es, s) && Inv(s) && Enabled(s, e)
    ensures Accounted(s0, initial, es + [e], Next(s, e))
  {
    var t := Next(s, e);
    forall f | f in t.purposes && f !in s0.purposes
      ensures Written(es + [e], t.purposes[f].target, t.purposes[f].content)
    {
      WrittenLater(es, e, t.purposes[f].target, t.purposes[f].content);
    }
    FirstEntryStays(s, e);
  }

  lemma FirstEntryStays(s: State, e: Event)
    requires Inv(s) && Enabled(s, e)
    ensures var t := Next(s, e);
      forall p :: p in s.log ==> p in t.log && |t.log[p]| > 0 && t.log[p][0] == s.log[p][0]
  {
    forall p | p in s.log
      ensures p in Next(s, e).log && |Next(s, e).log[p]| > 0 && Next(s, e).log[p][0] == s.log[p][0]
    {
      FirstEntryOfStays(s, e, p);
    }
  }

  lemma FirstEntryOfStays(s: State, e: Event, p: Path)
    requires Inv(s) && Enabled(s, e) && p in s.log
    ensures var t := Next(s, e); p in t.log && |t.log[p]| > 0 && t.log[p][0] == s.log[p][0]
  {
    assert |s.log[p]| > 0;
    if e.Crash? { assert Next(s, e).log[p] == s.log[p][..e.keep[p] + 1]; }
  }

  lemma CurrentIsAccounted(s0: State, initial: map<Path, Option<Bytes>>, es: seq<Event>, s: State, p: Path)
    requires Booted(s0, initial) && Inv(s) && Accounted(s0, initial, es, s) && p in initial
    ensures match Current(s, p)
      case None => initial[p] == None
      case Some(f) =>
        && f in s.files && s.files[f].flushed
        && (initial[p] == Some(s.files[f].data) || Written(es, p, s.files[f].data))
  {
    var i := |s.log[p]| - 1;
    if s.log[p][i].Some? {
      var f := s.log[p][i].value;
      assert Settled(s, p, f);
      if f in s0.purposes {
        assert initial[s0.purposes[f].target] == Some(s0.purposes[f].content);
      }
    }
  }

  /**
   * Replacement is atomic: after any run, crashes included, a private path holds its initial content or the
   * complete content of some write of that path, on disk; it is absent only if it was absent at the start.
   */
  lemma ReplacementIsAtomic(s0: State, initial: map<Path, Option<Bytes>>, es: seq<Event>, p: Path)
    requires Booted(s0, initial) && Run(s0, es).Some? && p in initial
    ensures var s := Run(s0, es).value;
      && p in s.log && |s.log[p]| > 0
      && match Current(s, p)
         case None => initial[p] == None
         case Some(f) =>
           && f in s.files && s.files[f].flushed
           && (initial[p] == Some(s.files[f].data) || Written(es, p, s.files[f].data))
  {
    RunKeepsInv(s0, initial, es);
    RunAccounts(s0, initial, es);
    CurrentIsAccounted(s0, initial, es, Run(s0, es).value, p);
  }

  /** With a single content being written there is nothing but the old and the new, whole. */
  lemma OldOrNew(s0: State, initial: map<Path, Option<Bytes>>, es: seq<Event>, p: Path, replacement: Bytes)
    requires Booted(s0, initial) && Run(s0, es).Some? && p in initial
    requires forall k :: 0 <= k < |es| && es[k].Create? && es[k].target == p ==> es[k].content == replacement
    ensures var s := Run(s0, es).value;
      && p in s.log && |s.log[p]| > 0
      && match Current(s, p)
         case None => initial[p] == None
         case Some(f) => f in s.files && (Some(s.files[f].data) == initial[p] || s.files[f].data == replacement)
  {
    ReplacementIsAtomic(s0, initial, es, p);
  }

  /** What is sure stays: a step neither lowers the mark nor changes any entry up to it. */
  ghost predicate Extends(s: State, t: State, p: Path, entry: nat) {
    && p in s.log && p in t.log && p in s.sure && p in t.sure && p !in t.temporaries
    && entry < |s.log[p]| && entry < |t.log[p]|
    && entry <= t.sure[p] && t.log[p][entry] == s.log[p][entry]
  }

  lemma {:induction false} SureStays(s: State, p: Path, entry: nat, es: seq<Event>)
    requires Inv(s) && Run(s, es).Some? && p in s.log && p !in s.temporaries && entry <= s.sure[p]
    ensures Inv(Run(s, es).value) && Extends(s, Run(s, es).value, p, entry)
  {
    if es != [] {
      SureStays(s, p, entry, es[..|es| - 1]);
      NextKeepsInv(Run(s, es[..|es| - 1]).value, es[|es| - 1]);
    }
  }

  /**
   * A write that has returned survives everything: whatever happens next, its file stays the recorded entry
   * and the path holds that entry's file or one placed after it, whole and flushed.
   */
  lemma FinishedIsDurable(s0: State, initial: map<Path, Option<Bytes>>, es: seq<Event>, w: WriterId, later: seq<Event>)
    requires Booted(s0, initial) && Run(s0, es).Some? && w in Run(s0, es).value.writers
    requires Run(s0, es).value.writers[w].stage.Moved? && Run(s0, es + [WriteThrough(w)]).Some?
    requires Run(Run(s0, es + [WriteThrough(w)]).value, later).Some?
    ensures var x := Run(s0, es).value.writers[w];
      var t := Run(Run(s0, es + [WriteThrough(w)]).value, later).value;
      && x.target in t.log && x.stage.entry < |t.log[x.target]|
      && t.log[x.target][x.stage.entry] == Some(x.file)
      && x.file in t.files && t.files[x.file] == File(x.content, true)
      && Current(t, x.target).Some? && Settled(t, x.target, Current(t, x.target).value)
  {
    var all := es + [WriteThrough(w)];
    assert all[..|all| - 1] == es;
    RunKeepsInv(s0, initial, es);
    RunKeepsInv(s0, initial, all);
    var s, u := Run(s0, es).value, Run(s0, all).value;
    var x := s.writers[w];
    assert WriterInv(s, w);
    assert u == Next(s, WriteThrough(w));
    SureStays(u, x.target, x.stage.entry, later);
    var t := Run(u, later).value;
    assert Settled(t, x.target, t.log[x.target][x.stage.entry].value);
    PurposeStays(u, x.file, later);
    var last := |t.log[x.target]| - 1;
    assert last == x.stage.entry || t.log[x.target][last].Some?;
  }

  lemma {:induction false} PurposeStays(s: State, f: FileId, es: seq<Event>)
    requires Inv(s) && Run(s, es).Some? && f in s.purposes
    ensures Inv(Run(s, es).value)
    ensures f in Run(s, es).value.purposes && Run(s, es).value.purposes[f] == s.purposes[f]
  {
    if es != [] {
      PurposeStays(s, f, es[..|es| - 1]);
      NextKeepsInv(Run(s, es[..|es| - 1]).value, es[|es| - 1]);
    }
  }

  // ---------- A replacement from end to end ----------

  lemma OneMore(s0: State, es: seq<Event>, s: State, e: Event) returns (all: seq<Event>)
    requires Run(s0, es) == Some(s) && Enabled(s, e)
    ensures all == es + [e] && Run(s0, all) == Some(Next(s, e))
  {
    all := es + [e];
    assert all[..|all| - 1] == es;
  }

  /**
   * A write that nobody disturbs takes effect, from any state a run can reach: the path then holds exactly the
   * new content, on disk and written through, the temporary name is gone, and every other path is as it was.
   */
  lemma UndisturbedWrite(s0: State, initial: map<Path, Option<Bytes>>, es: seq<Event>, w: WriterId, target: Path,
    temporary: Path, content: Bytes, file: FileId) returns (all: seq<Event>)
    requires Booted(s0, initial) && Run(s0, es).Some? && target in initial
    requires Enabled(Run(s0, es).value, Create(w, target, temporary, content, file))
    ensures es <= all && Run(s0, all).Some?
    ensures var s, u := Run(s0, es).value, Run(s0, all).value;
      && target in u.log && u.log[target] == s.log[target] + [Some(file)]
      && file in u.files && u.files[file] == File(content, true)
      && target in u.sure && u.sure[target] == |s.log[target]|
      && temporary in u.log && |u.log[temporary]| > 0 && Current(u, temporary) == None
      && (forall p :: p in s.log && p != target ==> p in u.log && u.log[p] == s.log[p])
      && (forall f :: f in s.files ==> f in u.files && u.files[f] == s.files[f])
  {
    var s := Run(s0, es).value;
    RunKeepsInv(s0, initial, es);
    var x := Writer(target, temporary, content, file, Created);
    var create := Create(w, target, temporary, content, file);
    var s1 := Next(s, create);
    var es1 := OneMore(s0, es, s, create);
    var es2 := OneMore(s0, es1, s1, Write(w, |content|));
    var s2 := Next(s1, Write(w, |content|));
    assert content[..|content|] == content;
    var es3 := OneMore(s0, es2, s2, Flush(w));
    var s3 := Next(s2, Flush(w));
    var es4 := OneMore(s0, es3, s3, Reopen(w));
    var s4 := Next(s3, Reopen(w));
    all := MovesThrough(s0, es4, s4, w);
  }

  lemma MovesThrough(s0: State, es: seq<Event>, s: State, w: WriterId) returns (all: seq<Event>)
    requires Run(s0, es) == Some(s) && Has(s, w, Checked)
    requires var x := s.writers[w];
      && x.target != x.temporary && x.target in s.log && x.temporary in s.log && x.target in s.sure
      && s.log[x.temporary] == [None, Some(x.file)] && s.sure[x.target] < |s.log[x.target]|
    ensures es <= all && Run(s0, all).Some?
    ensures var x, u := s.writers[w], Run(s0, all).value;
      && u.files == s.files
      && u.log == s.log[x.temporary := [None, Some(x.file), None]][x.target := s.log[x.target] + [Some(x.file)]]
      && u.sure == s.sure[x.target := |s.log[x.target]|]
  {
    var es1 := OneMore(s0, es, s, Move(w));
    var s1 := Next(s, Move(w));
    all := OneMore(s0, es1, s1, WriteThrough(w));
    var x := s.writers[w];
    assert s.log[x.temporary] + [None] == [None, Some(x.file), None];
  }

  /** A writer that fails before its move, and cleans up, leaves no temporary name and no other trace. */
  lemma FailureLeavesNoTrace(s: State, w: WriterId)
    requires w in s.writers && s.writers[w].temporary in s.temporaries && s.writers[w].temporary in s.log
    ensures var x, failed := s.writers[w], Next(s, Fail(w));
      && Enabled(failed, Delete(x.temporary))
      && var t := Next(failed, Delete(x.temporary));
      && w !in t.writers && x.temporary in t.log && |t.log[x.temporary]| > 0 && Current(t, x.temporary) == None
      && (forall p :: p in s.log && p != x.temporary ==> p in t.log && t.log[p] == s.log[p])
      && t.files == s.files && t.sure == s.sure
  {
  }

  /**
   * How bad a crash can be: what was not flushed may come back as anything at all, and each name, on its own,
   * as any entry not older than the last one that was written through.
   */
  lemma CrashMayDoAnything(s: State, f: FileId, bytes: Bytes, p: Path, entry: nat)
    requires f in s.files && !s.files[f].flushed && s.log.Keys == s.sure.Keys
    requires (forall q :: q in s.log ==> s.sure[q] < |s.log[q]|) && p in s.log && s.sure[p] <= entry < |s.log[p]|
    ensures exists crash: Event ::
              crash.Crash? && Enabled(s, crash) && CrashedTo(s, Next(s, crash), f, bytes, p, entry)
  {
    var crash := Crash(map q | q in s.log :: if q == p then entry else |s.log[q]| - 1, map[f := bytes]);
    assert CrashedTo(s, Next(s, crash), f, bytes, p, entry);
  }

  /** The file came back with these bytes, the name with this entry; every other name is as it was, and so is
      everything that was flushed; no writer is left. */
  predicate CrashedTo(s: State, t: State, f: FileId, bytes: Bytes, p: Path, entry: nat) {
    && f in t.files && t.files[f] == File(bytes, true)
    && p in t.log && p in s.log && entry < |s.log[p]| && |t.log[p]| > 0 && Current(t, p) == s.log[p][entry]
    && (forall q :: q in s.log && q != p ==> q in t.log && t.log[q] == s.log[q])
    && (forall g :: g in s.files && s.files[g].flushed ==> g in t.files && t.files[g] == s.files[g])
    && t.writers == map[]
  }
}
