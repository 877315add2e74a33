/** The disk cache of relay/cache.go: Write copies to a temporary file and publishes it by rename,
    while readers open, the cleanup loop and purges remove files, and the process may die.

    Files are inodes: a name leads to one, an open descriptor stays with the one it was opened on. */
module DiskCaches {
  import opened Text
  import opened Signers

  /** A file in the channel's directory. */
  datatype Path = Path(slug: string, name: string)

  datatype Status = Copying | Published | Failed | Died

  /** One call of Write: `body` is what the upstream will send, `offset` how much of it is copied. */
  datatype Writer = Writer(slug: string, ref: string, body: string, inode: nat, offset: nat, status: Status)

  /** `author` is the call of Write that created or truncated the file last. */
  datatype File = File(content: string, author: nat)

  datatype Disk = Disk(names: map<Path, nat>, files: seq<File>, writers: seq<Writer>)

  const EMPTY := Disk(map[], [], [])

  datatype Step =
    | Begin(slug: string, ref: string, body: string)
    | Copy(writer: nat, length: nat)
    | Finish(writer: nat)
    | Fail(writer: nat)
    | Remove(path: Path)
    | Crash

  function Final(slug: string, ref: string): Path {
    Path(slug, ref)
  }

  function Temporary(slug: string, ref: string): Path {
    Path(slug, ref + ".tmp")
  }

  /** A write at an offset; a gap reads as zero bytes. */
  function WriteAt(content: string, offset: nat, data: string): string {
    if offset <= |content| then
      content[..offset] + data + (if offset + |data| <= |content| then content[offset + |data|..] else "")
    else
      content + seq(offset - |content|, _ => 0 as char) + data
  }

  predicate Busy(s: Disk, writer: nat) {
    writer < |s.writers| && s.writers[writer].status.Copying?
  }

  /** os.Create: an existing file is truncated, not replaced. */
  function Create(s: Disk, slug: string, ref: string, body: string): Disk {
    var tmp, w := Temporary(slug, ref), |s.writers|;
    if tmp in s.names && s.names[tmp] < |s.files| then
      Disk(s.names, s.files[s.names[tmp] := File("", w)],
        s.writers + [Writer(slug, ref, body, s.names[tmp], 0, Copying)])
    else
      Disk(s.names[tmp := |s.files|], s.files + [File("", w)],
        s.writers + [Writer(slug, ref, body, |s.files|, 0, Copying)])
  }

  function CopyChunk(s: Disk, writer: nat, length: nat): Disk {
    if !Busy(s, writer) || s.writers[writer].inode >= |s.files| then s
    else if s.writers[writer].offset + length > |s.writers[writer].body| then s
    else
      var w := s.writers[writer];
      var f := s.files[w.inode];
      Disk(s.names,
           s.files[w.inode := f.(content := WriteAt(f.content, w.offset, w.body[w.offset..w.offset + length]))],
           s.writers[writer := w.(offset := w.offset + length)])
  }

  /** Close and rename; the rename fails when the temporary file has been removed. */
  function Rename(s: Disk, writer: nat): Disk {
    if !Busy(s, writer) then s
    else
      var w := s.writers[writer];
      var tmp := Temporary(w.slug, w.ref);
      if tmp in s.names then
        Disk((s.names - {tmp})[Final(w.slug, w.ref) := s.names[tmp]], s.files,
          s.writers[writer := w.(status := Published)])
      else
        s.(writers := s.writers[writer := w.(status := Failed)])
  }

  function Discard(s: Disk, writer: nat): Disk {
    if !Busy(s, writer) then s
    else
      var w := s.writers[writer];
      Disk(s.names - {Temporary(w.slug, w.ref)}, s.files, s.writers[writer := w.(status := Failed)])
  }

  function Dead(w: Writer): Writer {
    if w.status.Copying? then w.(status := Died) else w
  }

  function Apply(s: Disk, step: Step): Disk {
    match step
    case Begin(slug, ref, body) => Create(s, slug, ref, body)
    case Copy(writer, length) => CopyChunk(s, writer, length)
    case Finish(writer) => Rename(s, writer)
    case Fail(writer) => Discard(s, writer)
    case Remove(path) => s.(names := s.names - {path})
    case Crash => s.(writers := seq(|s.writers|, i requires 0 <= i < |s.writers| => Dead(s.writers[i])))
  }

  function Run(s: Disk, steps: seq<Step>): Disk {
    if steps == [] then s else Apply(Run(s, steps[..|steps| - 1]), steps[|steps| - 1])
  }

  /** References are hashes, one call of Write per reference is under way at a time, and a copy ends
      without error only when the whole body has been copied. */
  ghost predicate Legal(s: Disk, step: Step) {
    match step
    case Begin(slug, ref, _) =>
      IsHex64(ref) && forall w | 0 <= w < |s.writers| && Busy(s, w) ::
        s.writers[w].slug != slug || s.writers[w].ref != ref
    case Finish(writer) => Busy(s, writer) ==> s.writers[writer].offset == |s.writers[writer].body|
    case _ => true
  }

  ghost predicate LegalRun(s: Disk, steps: seq<Step>) {
    steps == [] || (LegalRun(s, steps[..|steps| - 1]) && Legal(Run(s, steps[..|steps| - 1]), steps[|steps| - 1]))
  }

  // ---------------------------------------------------------------- the invariant

  /** Every name has a file of its own, and every file is the one of its author. */
  ghost predicate Linked(s: Disk) {
    && (forall p | p in s.names :: s.names[p] < |s.files|)
    && (forall p, q | p in s.names && q in s.names && s.names[p] == s.names[q] :: p == q)
    && (forall i | 0 <= i < |s.files| :: s.files[i].author < |s.writers| && s.writers[s.files[i].author].inode == i)
  }

  /** A call under way has copied a prefix of its body to its file, and its temporary name, while it
      exists, leads there. */
  ghost predicate CopiesPrefix(s: Disk, writer: nat)
    requires Busy(s, writer)
  {
    var w := s.writers[writer];
    && IsHex64(w.ref)
    && w.inode < |s.files| && s.files[w.inode].author == writer
    && w.offset <= |w.body| && s.files[w.inode].content == w.body[..w.offset]
    && (Temporary(w.slug, w.ref) in s.names ==> s.names[Temporary(w.slug, w.ref)] == w.inode)
  }

  ghost predicate SingleWriters(s: Disk) {
    forall v, w | 0 <= v < w < |s.writers| && Busy(s, v) && Busy(s, w) ::
      s.writers[v].slug != s.writers[w].slug || s.writers[v].ref != s.writers[w].ref
  }

  /** The file holds the whole body of a call that was published. */
  ghost predicate Complete(s: Disk, inode: nat) {
    inode < |s.files| && s.files[inode].author < |s.writers|
    && var w := s.writers[s.files[inode].author]; w.status.Published? && s.files[inode].content == w.body
  }

  /** What a name promises: a reference is published and complete under that very name, any other
      name is a temporary one that is not. */
  ghost predicate Kept(s: Disk, p: Path)
    requires p in s.names && s.names[p] < |s.files| && s.files[s.names[p]].author < |s.writers|
  {
    var w := s.writers[s.files[s.names[p]].author];
    && w.slug == p.slug
    && if IsHex64(p.name) then Complete(s, s.names[p]) && w.ref == p.name
       else !w.status.Published? && p.name == w.ref + ".tmp" && IsHex64(w.ref)
  }

  ghost predicate Sound(s: Disk) {
    && Linked(s)
    && (forall w: nat | Busy(s, w) :: CopiesPrefix(s, w))
    && SingleWriters(s)
    && (forall p | p in s.names :: Kept(s, p))
  }

  lemma TemporaryIsNoReference(ref: string)
    requires IsHex64(ref)
    ensures !IsHex64(ref + ".tmp")
  {
  }

  lemma OtherTemporary(slug: string, ref: string, slug': string, ref': string)
    requires slug != slug' || ref != ref'
    requires IsHex64(ref) && IsHex64(ref')
    ensures Temporary(slug, ref) != Temporary(slug', ref')
    ensures Temporary(slug', ref') != Final(slug, ref)
  {
    assert (ref + ".tmp")[..64] == ref && (ref' + ".tmp")[..64] == ref';
    TemporaryIsNoReference(ref');
  }

  lemma BeginCopies(s: Disk, slug: string, ref: string, body: string, w: nat)
    requires Sound(s) && Legal(s, Begin(slug, ref, body)) && Busy(Create(s, slug, ref, body), w)
    ensures CopiesPrefix(Create(s, slug, ref, body), w)
  {
    if w < |s.writers| {
      assert Busy(s, w) && CopiesPrefix(s, w);
      OtherTemporary(slug, ref, s.writers[w].slug, s.writers[w].ref);
    }
  }

  lemma BeginKeeps(s: Disk, slug: string, ref: string, body: string, p: Path)
    requires Sound(s) && IsHex64(ref) && Linked(Create(s, slug, ref, body)) && p in Create(s, slug, ref, body).names
    ensures Kept(Create(s, slug, ref, body), p)
  {
    TemporaryIsNoReference(ref);
    if p != Temporary(slug, ref) {
      assert p in s.names && Kept(s, p);
    }
  }

  lemma BeginIsSound(s: Disk, slug: string, ref: string, body: string)
    requires Sound(s) && Legal(s, Begin(slug, ref, body))
    ensures Sound(Create(s, slug, ref, body))
  {
    var t := Create(s, slug, ref, body);
    assert Linked(t);
    assert SingleWriters(t);
    forall w: nat | Busy(t, w)
      ensures CopiesPrefix(t, w)
    {
      BeginCopies(s, slug, ref, body, w);
    }
    forall p | p in t.names
      ensures Kept(t, p)
    {
      BeginKeeps(s, slug, ref, body, p);
    }
  }

  lemma CopyCopies(s: Disk, writer: nat, length: nat, v: nat)
    requires Sound(s) && Busy(CopyChunk(s, writer, length), v)
    ensures CopiesPrefix(CopyChunk(s, writer, length), v)
  {
    assert Busy(s, v) && CopiesPrefix(s, v);
    if CopyChunk(s, writer, length) != s {
      var w := s.writers[writer];
      assert CopiesPrefix(s, writer);
      assert w.body[..w.offset] + w.body[w.offset..w.offset + length] == w.body[..w.offset + length];
    }
  }

  lemma CopyKeeps(s: Disk, writer: nat, length: nat, p: Path)
    requires Sound(s) && p in s.names && Linked(CopyChunk(s, writer, length))
    ensures Kept(CopyChunk(s, writer, length), p)
  {
    assert Kept(s, p);
    if CopyChunk(s, writer, length) != s {
      assert CopiesPrefix(s, writer);
    }
  }

  lemma CopyIsSound(s: Disk, writer: nat, length: nat)
    requires Sound(s)
    ensures Sound(CopyChunk(s, writer, length))
  {
    var t := CopyChunk(s, writer, length);
    assert Linked(t);
    assert SingleWriters(t);
    forall v: nat | Busy(t, v)
      ensures CopiesPrefix(t, v)
    {
      CopyCopies(s, writer, length, v);
    }
    forall p | p in t.names
      ensures Kept(t, p)
    {
      CopyKeeps(s, writer, length, p);
    }
  }

  lemma FinishCopies(s: Disk, writer: nat, v: nat)
    requires Sound(s) && Busy(s, writer) && Busy(Rename(s, writer), v)
    ensures CopiesPrefix(Rename(s, writer), v)
  {
    var w := s.writers[writer];
    assert CopiesPrefix(s, writer);
    assert Busy(s, v) && CopiesPrefix(s, v);
    OtherTemporary(w.slug, w.ref, s.writers[v].slug, s.writers[v].ref);
  }

  lemma FinishKeeps(s: Disk, writer: nat, p: Path)
    requires Sound(s) && Busy(s, writer) && s.writers[writer].offset == |s.writers[writer].body|
    requires Linked(Rename(s, writer)) && p in Rename(s, writer).names
    ensures Kept(Rename(s, writer), p)
  {
    assert CopiesPrefix(s, writer);
    TemporaryIsNoReference(s.writers[writer].ref);
    if p in s.names {
      assert Kept(s, p);
    }
  }

  lemma FinishIsSound(s: Disk, writer: nat)
    requires Sound(s) && Legal(s, Finish(writer))
    ensures Sound(Rename(s, writer))
  {
    var t := Rename(s, writer);
    if Busy(s, writer) {
      assert Linked(t);
      assert SingleWriters(t);
      forall v: nat | Busy(t, v)
        ensures CopiesPrefix(t, v)
      {
        FinishCopies(s, writer, v);
      }
      forall p | p in t.names
        ensures Kept(t, p)
      {
        FinishKeeps(s, writer, p);
      }
    }
  }

  lemma FailIsSound(s: Disk, writer: nat)
    requires Sound(s)
    ensures Sound(Discard(s, writer))
  {
    var t := Discard(s, writer);
    forall v: nat | Busy(t, v)
      ensures CopiesPrefix(t, v)
    {
      assert Busy(s, v) && CopiesPrefix(s, v);
    }
    forall p | p in t.names
      ensures Kept(t, p)
    {
      assert Kept(s, p);
    }
  }

  lemma CrashIsSound(s: Disk)
    requires Sound(s)
    ensures Sound(Apply(s, Crash))
  {
    var t := Apply(s, Crash);
    forall p | p in t.names
      ensures Kept(t, p)
    {
      assert Kept(s, p);
    }
  }

  lemma RemoveIsSound(s: Disk, path: Path)
    requires Sound(s)
    ensures Sound(Apply(s, Remove(path)))
  {
    var t := Apply(s, Remove(path));
    forall v: nat | Busy(t, v)
      ensures CopiesPrefix(t, v)
    {
      assert Busy(s, v) && CopiesPrefix(s, v);
    }
    forall p | p in t.names
      ensures Kept(t, p)
    {
      assert Kept(s, p);
    }
  }

  lemma StepIsSound(s: Disk, step: Step)
    requires Sound(s) && Legal(s, step)
    ensures Sound(Apply(s, step))
  {
    match step
    case Begin(slug, ref, body) => BeginIsSound(s, slug, ref, body);
    case Copy(writer, length) => CopyIsSound(s, writer, length);
    case Finish(writer) => FinishIsSound(s, writer);
    case Fail(writer) => FailIsSound(s, writer);
    case Remove(path) => RemoveIsSound(s, path);
    case Crash => CrashIsSound(s);
  }

  lemma {:induction false} RunsAreSound(s: Disk, steps: seq<Step>)
    requires Sound(s) && LegalRun(s, steps)
    ensures Sound(Run(s, steps))
  {
    if steps != [] {
      RunsAreSound(s, steps[..|steps| - 1]);
      StepIsSound(Run(s, steps[..|steps| - 1]), steps[|steps| - 1]);
    }
  }

  // ---------------------------------------------------------------- what readers see

  /** What Open finds under a reference. */
  function Visible(s: Disk, slug: string, ref: string): Option<nat> {
    if Final(slug, ref) in s.names then Some(s.names[Final(slug, ref)]) else None
  }

  lemma CompleteStays(s: Disk, step: Step, inode: nat)
    requires Sound(s) && Legal(s, step) && Complete(s, inode)
    ensures Complete(Apply(s, step), inode) && Apply(s, step).files[inode].content == s.files[inode].content
  {
    match step
    case Begin(slug, ref, body) =>
      var tmp := Temporary(slug, ref);
      if tmp in s.names {
        TemporaryIsNoReference(ref);
        assert Kept(s, tmp);
      }
    case Copy(writer, _) =>
      if Busy(s, writer) {
        assert CopiesPrefix(s, writer);
      }
    case _ =>
  }

  lemma {:induction false} CompleteForever(s: Disk, steps: seq<Step>, inode: nat)
    requires Sound(s) && LegalRun(s, steps) && Complete(s, inode)
    ensures Complete(Run(s, steps), inode) && Run(s, steps).files[inode].content == s.files[inode].content
  {
    if steps != [] {
      var before := steps[..|steps| - 1];
      CompleteForever(s, before, inode);
      RunsAreSound(s, before);
      CompleteStays(Run(s, before), steps[|steps| - 1], inode);
    }
  }

  /** In every run, what a reader opens under a reference is the whole body of one successful copy
      for that reference, and it stays that for as long as the reader keeps it open, whatever is
      written, published, removed or interrupted meanwhile. */
  lemma OpenedIsCompleteForever(steps: seq<Step>, more: seq<Step>, slug: string, ref: string)
    requires LegalRun(EMPTY, steps) && LegalRun(Run(EMPTY, steps), more) && IsHex64(ref)
    requires Visible(Run(EMPTY, steps), slug, ref).Some?
    ensures var s := Run(EMPTY, steps);
            var inode := Visible(s, slug, ref).value;
            && inode < |s.files|
            && (exists w | 0 <= w < |s.writers| ::
                  && s.writers[w].status.Published? && s.writers[w].slug == slug && s.writers[w].ref == ref
                  && s.files[inode].content == s.writers[w].body)
            && inode < |Run(s, more).files|
            && Run(s, more).files[inode].content == s.files[inode].content
  {
    var s := Run(EMPTY, steps);
    RunsAreSound(EMPTY, steps);
    assert Kept(s, Final(slug, ref));
    CompleteForever(s, more, Visible(s, slug, ref).value);
  }

  /** The steps that may change what a reference shows: its removal, and a rename that succeeds because
      the temporary file is still there. */
  predicate Touches(s: Disk, step: Step, slug: string, ref: string) {
    || step == Remove(Final(slug, ref))
    || (step.Finish? && Busy(s, step.writer) && Temporary(slug, ref) in s.names
        && s.writers[step.writer].slug == slug && s.writers[step.writer].ref == ref)
  }

  ghost predicate Untouched(s: Disk, steps: seq<Step>, slug: string, ref: string) {
    steps == []
    || (Untouched(s, steps[..|steps| - 1], slug, ref)
        && !Touches(Run(s, steps[..|steps| - 1]), steps[|steps| - 1], slug, ref))
  }

  lemma StepShowsSame(s: Disk, step: Step, slug: string, ref: string)
    requires Sound(s) && Legal(s, step) && IsHex64(ref) && !Touches(s, step, slug, ref)
    ensures Visible(Apply(s, step), slug, ref) == Visible(s, slug, ref)
  {
    match step
    case Begin(_, ref', _) => TemporaryIsNoReference(ref');
    case Finish(writer) =>
      if Busy(s, writer) {
        assert CopiesPrefix(s, writer);
        TemporaryIsNoReference(s.writers[writer].ref);
      }
    case Fail(writer) =>
      if Busy(s, writer) {
        assert CopiesPrefix(s, writer);
        TemporaryIsNoReference(s.writers[writer].ref);
      }
    case _ =>
  }

  /** A write shows nothing until it is published: from before it begins until after it has failed, be
      it at copying, at closing or at a rename whose temporary file has been removed, or has died,
      readers find the previous file with its previous content. */
  lemma {:induction false} UnpublishedIsInvisible(s: Disk, steps: seq<Step>, slug: string, ref: string)
    requires Sound(s) && LegalRun(s, steps) && IsHex64(ref) && Untouched(s, steps, slug, ref)
    ensures Visible(Run(s, steps), slug, ref) == Visible(s, slug, ref)
    ensures Visible(s, slug, ref).Some? ==>
              var inode := Visible(s, slug, ref).value;
              && inode < |s.files| && inode < |Run(s, steps).files|
              && Run(s, steps).files[inode].content == s.files[inode].content
  {
    if Visible(s, slug, ref).Some? {
      assert Kept(s, Final(slug, ref));
      CompleteForever(s, steps, Visible(s, slug, ref).value);
    }
    if steps != [] {
      var before := steps[..|steps| - 1];
      UnpublishedIsInvisible(s, before, slug, ref);
      RunsAreSound(s, before);
      StepShowsSame(Run(s, before), steps[|steps| - 1], slug, ref);
    }
  }

  // ---------------------------------------------------------------- one call

  lemma Begun(s: Disk, slug: string, ref: string, body: string)
    requires Sound(s) && IsHex64(ref)
    ensures var t, w := Create(s, slug, ref, body), |s.writers|;
            && Busy(t, w) && t.writers[w].slug == slug && t.writers[w].ref == ref
            && t.writers[w].body == body && t.writers[w].offset == 0
            && Temporary(slug, ref) in t.names
            && Visible(t, slug, ref) == Visible(s, slug, ref)
  {
    TemporaryIsNoReference(ref);
  }

  lemma Finished(s: Disk, writer: nat)
    requires Sound(s) && Busy(s, writer) && s.writers[writer].offset == |s.writers[writer].body|
    requires Temporary(s.writers[writer].slug, s.writers[writer].ref) in s.names
    ensures var t, w := Rename(s, writer), s.writers[writer];
            && Temporary(w.slug, w.ref) !in t.names
            && Visible(t, w.slug, w.ref) == Some(w.inode)
            && w.inode < |t.files| && t.files[w.inode].content == w.body
  {
  }

  lemma Discarded(s: Disk, writer: nat)
    requires Sound(s) && Busy(s, writer)
    ensures var t, w := Discard(s, writer), s.writers[writer];
            Temporary(w.slug, w.ref) !in t.names && Visible(t, w.slug, w.ref) == Visible(s, w.slug, w.ref)
  {
    assert CopiesPrefix(s, writer);
    TemporaryIsNoReference(s.writers[writer].ref);
  }

  lemma RunSnoc(s: Disk, steps: seq<Step>, step: Step)
    ensures Run(s, steps + [step]) == Apply(Run(s, steps), step)
  {
  }

  /** Both have the same names, on the same files, but for some. */
  ghost predicate SameBut(a: map<Path, nat>, b: map<Path, nat>, some: set<Path>) {
    forall p | p !in some :: (p in a <==> p in b) && (p in a ==> a[p] == b[p])
  }

  /** A call changes no names but its own two. */
  lemma OwnNames(s: Disk, slug: string, ref: string, body: string, t: Disk, writer: nat)
    requires t.names == Create(s, slug, ref, body).names
    requires Busy(t, writer) && t.writers[writer].slug == slug && t.writers[writer].ref == ref
    ensures var own := {Path(slug, ref), Path(slug, ref + ".tmp")};
            SameBut(Rename(t, writer).names, s.names, own) && SameBut(Discard(t, writer).names, s.names, own)
  {
  }

  /** The names outside the channel, and those of its names that are still to be removed. */
  function Left(names: map<Path, nat>, slug: string, todo: set<Path>): map<Path, nat> {
    map p | p in names && (p.slug != slug || p in todo) :: names[p]
  }

  lemma LeftStart(names: map<Path, nat>, slug: string)
    ensures Left(names, slug, names.Keys) == names
  {
  }

  lemma LeftStep(names: map<Path, nat>, slug: string, todo: set<Path>, p: Path)
    ensures Left(names, slug, todo - {p})
            == if p.slug == slug then Left(names, slug, todo) - {p} else Left(names, slug, todo)
  {
  }

  class DiskCache {
    var disk: Disk

    constructor ()
      ensures disk == EMPTY
    {
      disk := EMPTY;
    }

    method Open(slug: string, ref: string) returns (inode: Option<nat>)
      ensures inode == Visible(disk, slug, ref)
    {
      if Final(slug, ref) !in disk.names {
        return None;
      }
      inode := Some(disk.names[Final(slug, ref)]);
    }

    /** os.Remove of one file, as RemoveAll and Cleanup do it. */
    method RemoveFile(p: Path)
      requires Sound(disk)
      modifies this
      ensures Sound(disk) && disk == old(disk).(names := old(disk).names - {p})
    {
      RemoveIsSound(disk, p);
      disk := disk.(names := disk.names - {p});
    }

    method PurgeChannel(slug: string)
      requires Sound(disk)
      modifies this
      ensures Sound(disk)
      ensures disk == old(disk).(names := Left(old(disk).names, slug, {}))
      ensures forall p ::
                && (p in disk.names <==> p in old(disk).names && p.slug != slug)
                && (p in disk.names ==> disk.names[p] == old(disk).names[p])
    {
      var todo := disk.names.Keys;
      LeftStart(disk.names, slug);
      while todo != {}
        invariant Sound(disk)
        invariant disk == old(disk).(names := Left(old(disk).names, slug, todo))
      {
        var p :| p in todo;
        LeftStep(old(disk).names, slug, todo, p);
        todo := todo - {p};
        if p.slug == slug {
          RemoveFile(p);
        }
      }
    }

    /** io.Copy, the pieces arriving with the given lengths. */
    method CopyAll(writer: nat, lengths: seq<nat>) returns (written: nat)
      requires Sound(disk) && Busy(disk, writer) && disk.writers[writer].offset == 0
      requires Total(lengths) <= |disk.writers[writer].body|
      modifies this
      ensures Sound(disk) && disk.names == old(disk).names && written == Total(lengths)
      ensures Busy(disk, writer) && disk.writers[writer] == old(disk).writers[writer].(offset := written)
    {
      written := 0;
      var i := 0;
      while i < |lengths|
        invariant 0 <= i <= |lengths| && written == Total(lengths[..i])
        invariant Sound(disk) && disk.names == old(disk).names && Busy(disk, writer)
        invariant disk.writers[writer] == old(disk).writers[writer].(offset := written)
      {
        TotalGrows(lengths, i);
        assert CopiesPrefix(disk, writer);
        CopyIsSound(disk, writer, lengths[i]);
        disk := CopyChunk(disk, writer, lengths[i]);
        written := written + lengths[i];
        i := i + 1;
      }
      assert lengths[..i] == lengths;
    }

    /** Write, alone on the disk: `fails` says that the upstream breaks off after the given pieces. */
    method Write(slug: string, ref: string, body: string, lengths: seq<nat>, fails: bool)
      returns (ok: bool, written: nat)
      requires Sound(disk) && Legal(disk, Begin(slug, ref, body))
      requires Total(lengths) <= |body| && (!fails ==> Total(lengths) == |body|)
      modifies this
      ensures Sound(disk) && ok == !fails && written == Total(lengths)
      ensures ok ==>
                && Path(slug, ref) in disk.names && disk.names[Path(slug, ref)] < |disk.files|
                && disk.files[disk.names[Path(slug, ref)]].content == body
      ensures !ok ==> Visible(disk, slug, ref) == Visible(old(disk), slug, ref)
      ensures Path(slug, ref + ".tmp") !in disk.names
      ensures SameBut(disk.names, old(disk).names, {Path(slug, ref), Path(slug, ref + ".tmp")})
    {
      var writer := |disk.writers|;
      ghost var before := disk;
      BeginIsSound(disk, slug, ref, body);
      Begun(disk, slug, ref, body);
      disk := Create(disk, slug, ref, body);
      written := CopyAll(writer, lengths);
      if fails {
        FailIsSound(disk, writer);
        Discarded(disk, writer);
        OwnNames(before, slug, ref, body, disk, writer);
        disk := Discard(disk, writer);
        return false, written;
      }
      FinishIsSound(disk, writer);
      Finished(disk, writer);
      OwnNames(before, slug, ref, body, disk, writer);
      disk := Rename(disk, writer);
      return true, written;
    }
  }

  function Total(lengths: seq<nat>): nat {
    if lengths == [] then 0 else Total(lengths[..|lengths| - 1]) + lengths[|lengths| - 1]
  }

  lemma {:induction false} TotalGrows(lengths: seq<nat>, i: nat)
    requires i < |lengths|
    ensures Total(lengths[..i + 1]) == Total(lengths[..i]) + lengths[i] <= Total(lengths)
    decreases |lengths|
  {
    var n := |lengths| - 1;
    assert lengths[..i + 1][..i] == lengths[..i];
    if i < n {
      TotalGrows(lengths[..n], i);
      assert lengths[..n][..i + 1] == lengths[..i + 1] && lengths[..n][..i] == lengths[..i];
    } else {
      assert lengths[..i + 1] == lengths;
    }
  }

  lemma Appends(content: string, data: string)
    ensures WriteAt(content, |content|, data) == content + data
  {
    assert content[..|content|] == content;
  }

  /** A second call begins while a first one, of which everything has been copied, has not renamed yet. */
  lemma Overtaken(s: Disk, first: nat, body: string, k: nat)
    requires Sound(s) && Busy(s, first) && s.writers[first].offset == |s.writers[first].body| && k <= |body|
    requires Temporary(s.writers[first].slug, s.writers[first].ref) in s.names
    ensures var w, second := s.writers[first], |s.writers|;
            var t := CopyChunk(Create(s, w.slug, w.ref, body), second, k);
            && Busy(t, first) && t.writers[first] == w
            && Busy(t, second) && t.writers[second] == Writer(w.slug, w.ref, body, w.inode, k, Copying)
            && w.inode < |t.files| && t.files[w.inode].content == body[..k]
            && t.names == s.names && s.names[Temporary(w.slug, w.ref)] == w.inode
  {
    assert CopiesPrefix(s, first);
    Appends("", body[0..k]);
    assert "" + body[0..k] == body[..k];
  }

  /** If the second call has then copied k bytes of its body when the first one renames, the first one
      publishes these k bytes, and the second goes on writing to the published file.  So readers are
      right to rely on it exactly when the second call had copied its whole body. */
  lemma {:induction false} OverlapPublishesSecond(s: Disk, first: nat, body: string, k: nat)
    requires Sound(s) && Busy(s, first) && s.writers[first].offset == |s.writers[first].body| && k <= |body|
    requires Temporary(s.writers[first].slug, s.writers[first].ref) in s.names
    ensures var w, second := s.writers[first], |s.writers|;
            var t := Rename(CopyChunk(Create(s, w.slug, w.ref, body), second, k), first);
            && Visible(t, w.slug, w.ref) == Some(w.inode)
            && w.inode < |t.files| && t.files[w.inode].content == body[..k]
            && (forall m: nat | k + m <= |body| :: CopyChunk(t, second, m).files[w.inode].content == body[..k + m])
            && ((forall m: nat | k + m <= |body| :: CopyChunk(t, second, m).files[w.inode].content == body[..k])
                <==> k == |body|)
  {
    var w, second := s.writers[first], |s.writers|;
    Overtaken(s, first, body, k);
    var t := Rename(CopyChunk(Create(s, w.slug, w.ref, body), second, k), first);
    assert Busy(t, second) && t.writers[second].offset == k && t.files[w.inode].content == body[..k];
    forall m: nat | k + m <= |body|
      ensures CopyChunk(t, second, m).files[w.inode].content == body[..k + m]
    {
      Appends(body[..k], body[k..k + m]);
      assert body[..k] + body[k..k + m] == body[..k + m];
    }
    if k < |body| {
      assert CopyChunk(t, second, 1).files[w.inode].content == body[..k + 1] != body[..k];
    }
  }

  /** With two calls for one reference under way, as two overlapping prefetches can make them, the
      second truncates the file of the first, and the first publishes an incomplete file that still
      changes under its readers. */
  lemma TwoWritersBreakIt(slug: string, ref: string)
    requires IsHex64(ref)
    ensures var s := Run(EMPTY, [Begin(slug, ref, "ab"), Copy(0, 2), Begin(slug, ref, "c"), Finish(0)]);
            var inode := Visible(s, slug, ref);
            && inode == Some(0) && |s.files| == 1
            && s.files[0].content == ""
            && Apply(s, Copy(1, 1)).files[0].content == "c"
  {
    var begun := [Begin(slug, ref, "ab")];
    RunSnoc(EMPTY, [], Begin(slug, ref, "ab"));
    assert [] + begun == begun;
    RunSnoc(EMPTY, begun, Copy(0, 2));
    RunSnoc(EMPTY, begun + [Copy(0, 2)], Begin(slug, ref, "c"));
    RunSnoc(EMPTY, begun + [Copy(0, 2)] + [Begin(slug, ref, "c")], Finish(0));
    assert begun + [Copy(0, 2)] + [Begin(slug, ref, "c")] + [Finish(0)]
        == [Begin(slug, ref, "ab"), Copy(0, 2), Begin(slug, ref, "c"), Finish(0)];
  }
}
