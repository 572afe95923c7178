/** The builder that caches the system prompt; other programs may change files at every look it takes while building. */
module PromptBuilder {
  import opened Options
  import opened FileHistory
  import opened PromptCache
  import opened PromptLayout

  lemma StillBefore(hist: seq<Instant>, more: seq<Instant>, from: nat)
    requires hist <= more && from < |hist| && Still(more, from)
    ensures Still(hist, from) && Last(hist).files == Last(more).files
  {
    assert more[|hist|-1] == hist[|hist|-1];
  }

  lemma RecordedLater(c: Cache, hist: seq<Instant>, more: seq<Instant>, base: nat, readAt: map<Path, nat>,
      skills: seq<Path>)
    requires Recorded(c, hist, base, readAt, skills) && hist <= more
    ensures Recorded(c, more, base, readAt, skills)
  {
  }

  /** What has been read so far, each file at its own instant. */
  predicate ReadSoFar(parts: Parts, readAt: map<Path, nat>, hist: seq<Instant>, from: nat) {
    && parts.Keys <= readAt.Keys
    && forall p | p in readAt ::
         && from <= readAt[p] < |hist|
         && (p in parts <==> p in hist[readAt[p]].files)
         && (p in parts ==> parts[p] == hist[readAt[p]].files[p].content)
  }

  lemma ReadOneMore(parts: Parts, readAt: map<Path, nat>, hist: seq<Instant>, more: seq<Instant>, from: nat, p: Path)
    requires hist <= more && hist != [] && from < |hist| && ReadSoFar(parts, readAt, hist, from) && p !in readAt
    ensures ReadSoFar(if p in Last(more).files then parts[p := Last(more).files[p].content] else parts,
                      readAt[p := |more| - 1], more, from)
  {
  }

  /** A file is read, after others may have changed the files. */
  method ReadPart(fs: FileSystem, p: Path, parts: Parts, ghost readAt: map<Path, nat>, ghost from: nat)
    returns (next: Parts, ghost nextAt: map<Path, nat>)
    requires fs.Valid() && from < |fs.hist| && ReadSoFar(parts, readAt, fs.hist, from) && p !in readAt
    modifies fs
    ensures fs.Valid() && old(fs.hist) <= fs.hist
    ensures ReadSoFar(next, nextAt, fs.hist, from) && nextAt.Keys == readAt.Keys + {p}
    ensures forall q | q != p :: q in next <==> q in parts
  {
    ghost var hist := fs.hist;
    fs.OthersRun();
    ReadOneMore(parts, readAt, hist, fs.hist, from, p);
    next, nextAt := parts, readAt[p := |fs.hist| - 1];
    if p in fs.files {
      next := next[p := fs.files[p].content];
    }
  }

  /** What can be told from the files noted so far, if the files stand still. */
  predicate NotedSoFar(existed: map<Path, bool>, maxMtime: nat, files: Files, paths: seq<Path>) {
    && existed.Keys == (set p | p in paths)
    && forall p | p in existed :: existed[p] == (p in files) && (p in files ==> files[p].mtime <= maxMtime)
  }

  predicate WalkedSoFar(skillFiles: map<Path, nat>, maxMtime: nat, files: Files, skills: seq<Path>) {
    && skillFiles.Keys == (set p | p in skills && p in files)
    && forall p | p in skillFiles :: skillFiles[p] == files[p].mtime <= maxMtime
  }

  method NotePaths(fs: FileSystem, allPaths: seq<Path>) returns (existed: map<Path, bool>, maxMtime: nat)
    requires fs.Valid()
    modifies fs
    ensures fs.Valid() && old(fs.hist) <= fs.hist
    ensures existed.Keys == (set p | p in allPaths) && maxMtime <= fs.newest
    ensures Still(fs.hist, |old(fs.hist)| - 1) ==> NotedSoFar(existed, maxMtime, fs.files, allPaths)
  {
    existed, maxMtime := map[], 0;
    ghost var from := |fs.hist| - 1;
    for n := 0 to |allPaths|
      invariant fs.Valid() && old(fs.hist) <= fs.hist
      invariant existed.Keys == (set p | p in allPaths[..n]) && maxMtime <= fs.newest
      invariant Still(fs.hist, from) ==> NotedSoFar(existed, maxMtime, fs.files, allPaths[..n])
    {
      ghost var hist := fs.hist;
      existed, maxMtime := NotePath(fs, existed, maxMtime, allPaths[n], allPaths[..n]);
      assert allPaths[..n+1] == allPaths[..n] + [allPaths[n]];
      if Still(fs.hist, from) {
        StillBefore(hist, fs.hist, from);
      }
    }
    assert allPaths[..|allPaths|] == allPaths;
  }

  method NotePath(fs: FileSystem, existed: map<Path, bool>, maxMtime: nat, p: Path, ghost before: seq<Path>)
    returns (next: map<Path, bool>, nextMax: nat)
    requires fs.Valid() && maxMtime <= fs.newest
    modifies fs
    ensures fs.Valid() && old(fs.hist) <= fs.hist && nextMax <= fs.newest
    ensures next.Keys == existed.Keys + {p}
    ensures NotedSoFar(existed, maxMtime, fs.files, before) ==> NotedSoFar(next, nextMax, fs.files, before + [p])
  {
    fs.OthersRun();
    GrowsTo(old(fs.hist), fs.hist);
    NowIsDated(fs.hist);
    next, nextMax := existed[p := p in fs.files], maxMtime;
    if p in fs.files && fs.files[p].mtime > maxMtime {
      nextMax := fs.files[p].mtime;
    }
  }

  lemma GrowsTo(hist: seq<Instant>, more: seq<Instant>)
    requires WellTimed(more) && hist <= more && hist != []
    ensures Last(hist).newest <= Last(more).newest
  {
    NewestGrows(more, |hist| - 1, |more| - 1);
  }

  method WalkSkills(fs: FileSystem, skills: seq<Path>, maxMtime: nat) returns (skillFiles: map<Path, nat>, nextMax: nat)
    requires fs.Valid() && maxMtime <= fs.newest
    modifies fs
    ensures fs.Valid() && old(fs.hist) <= fs.hist
    ensures maxMtime <= nextMax <= fs.newest && (forall p | p in skillFiles :: p in skills && skillFiles[p] <= fs.newest)
    ensures Still(fs.hist, |old(fs.hist)| - 1) ==> WalkedSoFar(skillFiles, nextMax, fs.files, skills)
  {
    skillFiles, nextMax := map[], maxMtime;
    ghost var from := |fs.hist| - 1;
    for n := 0 to |skills|
      invariant fs.Valid() && old(fs.hist) <= fs.hist
      invariant maxMtime <= nextMax <= fs.newest && forall p | p in skillFiles :: p in skills && skillFiles[p] <= fs.newest
      invariant Still(fs.hist, from) ==> WalkedSoFar(skillFiles, nextMax, fs.files, skills[..n])
    {
      ghost var hist := fs.hist;
      skillFiles, nextMax := WalkSkill(fs, skills, n, skillFiles, nextMax);
      if Still(fs.hist, from) {
        StillBefore(hist, fs.hist, from);
      }
    }
    assert skills[..|skills|] == skills;
  }

  method WalkSkill(fs: FileSystem, skills: seq<Path>, n: nat, skillFiles: map<Path, nat>, maxMtime: nat)
    returns (next: map<Path, nat>, nextMax: nat)
    requires fs.Valid() && maxMtime <= fs.newest && n < |skills|
    requires forall p | p in skillFiles :: p in skills && skillFiles[p] <= fs.newest
    modifies fs
    ensures fs.Valid() && old(fs.hist) <= fs.hist && maxMtime <= nextMax <= fs.newest
    ensures forall p | p in next :: p in skills && next[p] <= fs.newest
    ensures WalkedSoFar(skillFiles, maxMtime, fs.files, skills[..n]) ==> WalkedSoFar(next, nextMax, fs.files, skills[..n+1])
  {
    fs.OthersRun();
    GrowsTo(old(fs.hist), fs.hist);
    NowIsDated(fs.hist);
    var path := skills[n];
    assert skills[..n+1] == skills[..n] + [path];
    next, nextMax := skillFiles, maxMtime;
    if path in fs.files {
      next := next[path := fs.files[path].mtime];
      if fs.files[path].mtime > maxMtime {
        nextMax := fs.files[path].mtime;
      }
    }
  }

  predicate NoRepeats(paths: seq<Path>) {
    forall i, j | 0 <= i < j < |paths| :: paths[i] != paths[j]
  }

  method ReadParts(fs: FileSystem, paths: seq<Path>, parts: Parts, ghost readAt: map<Path, nat>, ghost from: nat)
    returns (next: Parts, ghost nextAt: map<Path, nat>)
    requires fs.Valid() && from < |fs.hist| && ReadSoFar(parts, readAt, fs.hist, from)
    requires NoRepeats(paths) && forall p | p in paths :: p !in readAt
    modifies fs
    ensures fs.Valid() && old(fs.hist) <= fs.hist
    ensures ReadSoFar(next, nextAt, fs.hist, from) && nextAt.Keys == readAt.Keys + set p | p in paths
    ensures forall q | q !in paths :: q in next <==> q in parts
  {
    next, nextAt := parts, readAt;
    for n := 0 to |paths|
      invariant fs.Valid() && old(fs.hist) <= fs.hist && ReadSoFar(next, nextAt, fs.hist, from)
      invariant nextAt.Keys == readAt.Keys + set p | p in paths[..n]
      invariant forall q | q !in paths :: q in next <==> q in parts
    {
      assert paths[..n+1] == paths[..n] + [paths[n]];
      next, nextAt := ReadPart(fs, paths[n], next, nextAt, from);
    }
    assert paths[..|paths|] == paths;
  }

  /** What is read after AGENT.md: the older layout only where there is none. */
  function OtherParts(hasAgent: bool, skills: seq<Path>): (paths: seq<Path>)
    requires AreSkills(skills) && NoRepeats(skills)
    ensures NoRepeats(paths) && User !in paths && Agent !in paths
    ensures {User, Agent} + (set p | p in paths) == Sources(hasAgent, skills)
  {
    var head := if hasAgent then [Soul] else [Agents, Soul, Identity];
    NoRepeatsJoined(head, skills);
    NoRepeatsJoined(head + skills, [Memory]);
    head + skills + [Memory]
  }

  lemma NoRepeatsJoined(a: seq<Path>, b: seq<Path>)
    requires NoRepeats(a) && NoRepeats(b) && forall p | p in a :: p !in b
    ensures NoRepeats(a + b)
  {
    forall i, j | 0 <= i < j < |a + b| ensures (a + b)[i] != (a + b)[j] {
      if i < |a| <= j {
        assert a[i] in a && b[j - |a|] in b;
      }
    }
  }

  /** The prompt, each of its files read at some instant while it is built. */
  method BuildSystemPrompt(fs: FileSystem, skills: seq<Path>) returns (parts: Parts, ghost readAt: map<Path, nat>)
    requires fs.Valid() && AreSkills(skills) && NoRepeats(skills)
    modifies fs
    ensures fs.Valid() && old(fs.hist) <= fs.hist
    ensures ReadSince(parts, readAt, fs.hist, |old(fs.hist)| - 1, skills)
    ensures Still(fs.hist, |old(fs.hist)| - 1) ==> IsPromptOf(parts, fs.files, skills)
  {
    ghost var from := |fs.hist| - 1;
    parts, readAt := ReadParts(fs, [User, Agent], map[], map[], from);
    assert readAt.Keys == {User, Agent};
    parts, readAt := ReadParts(fs, OtherParts(Agent in parts, skills), parts, readAt, from);
    if Still(fs.hist, from) {
      StillReadIsRendered(parts, readAt, fs.hist, from, skills);
      RenderedIsPromptOf(parts, fs.files, skills);
    }
  }

  lemma StillReadIsRendered(parts: Parts, readAt: map<Path, nat>, hist: seq<Instant>, from: nat, skills: seq<Path>)
    requires ReadSince(parts, readAt, hist, from, skills) && Still(hist, from)
    ensures parts == Rendered(Last(hist).files, skills)
  {
    var files := Last(hist).files;
    assert Agent in readAt;
    forall p: Path
      ensures p in parts <==> p in Rendered(files, skills)
      ensures p in parts ==> parts[p] == files[p].content
    {
      assert p in readAt ==> hist[readAt[p]].files == files;
    }
  }

  /** What one look at every tracked file finds. */
  datatype Baseline = Baseline(existed: map<Path, bool>, skillFiles: map<Path, nat>, maxMtime: nat)

  lemma RebuiltWhileStill(before: seq<Instant>, based: seq<Instant>, hist: seq<Instant>, parts: Parts,
      readAt: map<Path, nat>,
                          b: Baseline, roots: seq<Path>, skills: seq<Path>)
    requires before != [] && before <= based <= hist && ReadSince(parts, readAt, hist, |based| - 1, skills)
    requires Still(based, |before| - 1) ==>
      Describes(Cache(map[], b.maxMtime, b.existed, b.skillFiles), Last(based).files, roots, skills)
    ensures Still(hist, |before| - 1) ==>
      && parts == Rendered(Last(hist).files, skills)
      && Describes(Cache(parts, b.maxMtime, b.existed, b.skillFiles), Last(hist).files, roots, skills)
  {
    if Still(hist, |before| - 1) {
      StillBefore(based, hist, |before| - 1);
      StillLater(before, based, hist);
      StillReadIsRendered(parts, readAt, hist, |based| - 1, skills);
    }
  }

  /** What one look at every tracked file finds, before anything is read. */
  method BuildCacheBaseline(fs: FileSystem, roots: seq<Path>, skills: seq<Path>) returns (b: Baseline)
    requires fs.Valid() && AreRoots(roots) && AreSkills(skills)
    modifies fs
    ensures fs.Valid() && old(fs.hist) <= fs.hist
    ensures DatedBy(b.maxMtime, b.skillFiles, fs.newest) && PathsAreTracked(b.existed, b.skillFiles, skills)
    ensures Still(fs.hist, |old(fs.hist)| - 1) ==>
      Describes(Cache(map[], b.maxMtime, b.existed, b.skillFiles), fs.files, roots, skills)
  {
    ghost var before := fs.hist;
    fs.OthersRun();
    ghost var listed := fs.hist;
    var allPaths := SourcePaths(Agent in fs.files) + roots;
    var existed, maxMtime := NotePaths(fs, allPaths);
    ghost var noted := fs.hist;
    var skillFiles;
    skillFiles, maxMtime := WalkSkills(fs, skills, maxMtime);
    if Still(fs.hist, |before| - 1) {
      StillBefore(noted, fs.hist, |before| - 1);
      StillBefore(listed, fs.hist, |before| - 1);
      StillLater(before, listed, fs.hist);
      StillLater(before, noted, fs.hist);
      StillLater(before, listed, noted);
    }
    NowIsDated(fs.hist);
    if maxMtime == 0 {
      maxMtime := UNIX_1;
    }
    b := Baseline(existed, skillFiles, maxMtime);
  }

  /** The baseline first and the prompt after it. */
  method BuildFresh(fs: FileSystem, roots: seq<Path>, skills: seq<Path>)
    returns (c: Cache, ghost base: nat, ghost readAt: map<Path, nat>)
    requires fs.Valid() && AreRoots(roots) && AreSkills(skills) && NoRepeats(skills)
    modifies fs
    ensures fs.Valid() && old(fs.hist) <= fs.hist && |old(fs.hist)| - 1 <= base
    ensures Recorded(c, fs.hist, base, readAt, skills)
    ensures Still(fs.hist, |old(fs.hist)| - 1) ==>
      c.parts == Rendered(fs.files, skills) && Describes(c, fs.files, roots, skills)
  {
    ghost var before := fs.hist;
    var b := BuildCacheBaseline(fs, roots, skills);
    ghost var based := fs.hist;
    base := |based| - 1;
    var prompt;
    prompt, readAt := BuildSystemPrompt(fs, skills);
    c := Cache(prompt, b.maxMtime, b.existed, b.skillFiles);
    RebuiltWhileStill(before, based, fs.hist, prompt, readAt, b, roots, skills);
  }

  /** Every path was found unchanged at an instant of the query. */
  ghost predicate AllUnchanged(c: Cache, hist: seq<Instant>, from: nat, paths: seq<Path>) {
    forall p | p in paths :: FoundUnchanged(c, hist, from, p)
  }

  ghost predicate AnyFoundChanged(c: Cache, hist: seq<Instant>, from: nat, paths: seq<Path>) {
    exists p :: p in paths && FoundChanged(c, hist, from, p)
  }

  ghost predicate Verdict(changed: bool, c: Cache, hist: seq<Instant>, from: nat, paths: seq<Path>) {
    if changed then AnyFoundChanged(c, hist, from, paths) else AllUnchanged(c, hist, from, paths)
  }

  lemma StaysUnchanged(c: Cache, hist: seq<Instant>, more: seq<Instant>, from: nat, paths: seq<Path>)
    requires hist <= more && AllUnchanged(c, hist, from, paths)
    ensures AllUnchanged(c, more, from, paths)
  {
    forall p | p in paths ensures FoundUnchanged(c, more, from, p) {
      var i :| from <= i < |hist| && !ChangedAt(c, hist[i].files, p);
      assert more[i] == hist[i];
    }
  }

  lemma ChangeIsAmong(c: Cache, hist: seq<Instant>, from: nat, some: seq<Path>, all: seq<Path>)
    requires AnyFoundChanged(c, hist, from, some) && forall p | p in some :: p in all
    ensures AnyFoundChanged(c, hist, from, all)
  {
  }

  /** One more look: what it finds is the verdict on the paths so far. */
  lemma Looking(c: Cache, hist: seq<Instant>, more: seq<Instant>, from: nat, paths: seq<Path>, n: nat, changed: bool)
    requires hist <= more && from < |hist| && n < |paths| && AllUnchanged(c, hist, from, paths[..n])
    requires changed == ChangedAt(c, Last(more).files, paths[n])
    ensures changed ==> AnyFoundChanged(c, more, from, paths)
    ensures !changed ==> AllUnchanged(c, more, from, paths[..n+1])
  {
    StaysUnchanged(c, hist, more, from, paths[..n]);
    assert paths[..n+1] == paths[..n] + [paths[n]];
    assert paths[n] in paths;
    var i := |more| - 1;
    assert more[i] == Last(more);
    assert changed ==> FoundChanged(c, more, from, paths[n]);
    assert !changed ==> FoundUnchanged(c, more, from, paths[n]);
  }

  class ContextBuilder {
    const fs: FileSystem
    const roots: seq<Path>
    /** Every file that may ever be found below the roots. */
    const skills: seq<Path>
    var cachedSystemPrompt: Option<Parts>
    var cachedAt: nat
    var existedAtCache: Option<map<Path, bool>>
    var skillFilesAtCache: Option<map<Path, nat>>
    /** When the baseline was complete, and when each file was read after it. */
    ghost var base: nat
    ghost var readAt: map<Path, nat>

    constructor (fs: FileSystem, roots: seq<Path>, skills: seq<Path>)
      requires fs.Valid() && AreRoots(roots) && AreSkills(skills) && NoRepeats(skills)
      ensures Valid() && this.fs == fs && this.roots == roots && this.skills == skills && cachedSystemPrompt.None?
    {
      this.fs, this.roots, this.skills := fs, roots, skills;
      cachedSystemPrompt, cachedAt, existedAtCache, skillFilesAtCache := None, 0, None, None;
      base, readAt := 0, map[];
    }

    predicate HasCache()
      reads this
    {
      cachedSystemPrompt.Some? && existedAtCache.Some? && skillFilesAtCache.Some?
    }

    function TheCache(): Cache
      requires HasCache()
      reads this
    {
      Cache(cachedSystemPrompt.value, cachedAt, existedAtCache.value, skillFilesAtCache.value)
    }

    ghost predicate Valid()
      reads this, fs
    {
      && fs.Valid() && AreRoots(roots) && AreSkills(skills) && NoRepeats(skills)
      && (cachedSystemPrompt.Some? ==> HasCache() && Recorded(TheCache(), fs.hist, base, readAt, skills))
    }

    /** What a query needs of its surroundings, and what others leave of them. */
    ghost predicate MayAsk()
      reads this, fs
    {
      HasCache() && fs.Valid() && AreRoots(roots) && AreSkills(skills)
      && PathsAreTracked(existedAtCache.value, skillFilesAtCache.value, skills)
    }

    /** One look at a path that is no skill file, after others may have changed the files. */
    method FileChangedSince(path: Path) returns (changed: bool)
      requires MayAsk()
      modifies fs
      ensures fs.Valid() && old(fs.hist) <= fs.hist
      ensures changed == PromptCache.FileChangedSince(TheCache(), fs.files, path)
    {
      fs.OthersRun();
      var existed := existedAtCache.value;
      var existedBefore := path in existed && existed[path];
      var existsNow := path in fs.files;
      if existedBefore != existsNow {
        return true;
      }
      if !existsNow {
        return false;
      }
      return fs.files[path].mtime > cachedAt;
    }

    method AnyChanged(paths: seq<Path>, ghost from: nat) returns (changed: bool)
      requires MayAsk() && from < |fs.hist| && forall p | p in paths :: !p.Skill?
      modifies fs
      ensures fs.Valid() && old(fs.hist) <= fs.hist
      ensures Verdict(changed, TheCache(), fs.hist, from, paths)
    {
      for n := 0 to |paths|
        invariant fs.Valid() && old(fs.hist) <= fs.hist
        invariant AllUnchanged(TheCache(), fs.hist, from, paths[..n])
      {
        ghost var hist := fs.hist;
        changed := FileChangedSince(paths[n]);
        assert !paths[n].Skill? by { assert paths[n] in paths; }
        Looking(TheCache(), hist, fs.hist, from, paths, n, changed);
        if changed {
          return;
        }
      }
      assert paths[..|paths|] == paths;
      return false;
    }

    /** One look at a skill file of the snapshot. */
    method SnapshotChanged(path: Path) returns (changed: bool)
      requires MayAsk() && path in skillFilesAtCache.value
      modifies fs
      ensures fs.Valid() && old(fs.hist) <= fs.hist
      ensures changed == ChangedAt(TheCache(), fs.files, path)
    {
      fs.OthersRun();
      assert path in skills;
      changed := path !in fs.files || fs.files[path].mtime != skillFilesAtCache.value[path];
    }

    /** The files of the snapshot, in any order. */
    method CachedFilesChanged(ghost from: nat) returns (changed: bool, ghost looked: seq<Path>)
      requires MayAsk() && from < |fs.hist|
      modifies fs
      ensures fs.Valid() && old(fs.hist) <= fs.hist && Verdict(changed, TheCache(), fs.hist, from, looked)
      ensures forall p | p in looked :: p in skillFilesAtCache.value
      ensures !changed ==> forall p | p in skillFilesAtCache.value :: p in looked
    {
      var filesAtCache := skillFilesAtCache.value;
      var left := filesAtCache.Keys;
      looked := [];
      while left != {}
        invariant fs.Valid() && old(fs.hist) <= fs.hist && left <= filesAtCache.Keys
        invariant AllUnchanged(TheCache(), fs.hist, from, looked)
        invariant forall p | p in looked :: p in filesAtCache
        invariant forall p | p in filesAtCache && p !in left :: p in looked
        decreases |left|
      {
        HasPath(left);
        var path :| path in left;
        ghost var hist, before := fs.hist, looked;
        changed := SnapshotChanged(path);
        looked := before + [path];
        assert looked[..|before|] == before && looked[..|before|+1] == looked;
        Looking(TheCache(), hist, fs.hist, from, looked, |before|, changed);
        if changed {
          return;
        }
        left := left - {path};
      }
      return false, looked;
    }

    /** One path of a walk below the roots: a file that the snapshot lacks is a change. */
    method WalkedInto(path: Path) returns (changed: bool)
      requires MayAsk() && path.Skill?
      modifies fs
      ensures fs.Valid() && old(fs.hist) <= fs.hist
      ensures path !in skillFilesAtCache.value ==> changed == ChangedAt(TheCache(), fs.files, path)
      ensures path in skillFilesAtCache.value ==> !changed
    {
      fs.OthersRun();
      return path in fs.files && path !in skillFilesAtCache.value;
    }

    /** The walk below the roots; it may fail anywhere, and then counts as a change. */
    method NewFiles(ghost from: nat, ghost looked: seq<Path>) returns (changed: bool, ghost failed: bool)
      requires MayAsk() && from < |fs.hist| && AllUnchanged(TheCache(), fs.hist, from, looked)
      requires forall p | p in skillFilesAtCache.value :: p in looked
      modifies fs
      ensures fs.Valid() && old(fs.hist) <= fs.hist && (failed ==> changed)
      ensures failed || Verdict(changed, TheCache(), fs.hist, from, skills)
    {
      for n := 0 to |skills|
        invariant fs.Valid() && old(fs.hist) <= fs.hist
        invariant AllUnchanged(TheCache(), fs.hist, from, looked)
        invariant AllUnchanged(TheCache(), fs.hist, from, skills[..n])
      {
        if * {
          return true, true;
        }
        ghost var hist := fs.hist;
        assert skills[n] in skills;
        changed := WalkedInto(skills[n]);
        StaysUnchanged(TheCache(), hist, fs.hist, from, looked);
        if skills[n] in skillFilesAtCache.value {
          assert skills[n] in looked;
          StaysUnchanged(TheCache(), hist, fs.hist, from, skills[..n]);
          assert skills[..n+1] == skills[..n] + [skills[n]];
        } else {
          Looking(TheCache(), hist, fs.hist, from, skills, n, changed);
          if changed {
            return true, false;
          }
        }
      }
      assert skills[..|skills|] == skills;
      return false, false;
    }

    method SkillFilesChangedSince(ghost from: nat) returns (changed: bool, ghost failed: bool)
      requires MayAsk() && from < |fs.hist|
      modifies fs
      ensures fs.Valid() && old(fs.hist) <= fs.hist && (failed ==> changed)
      ensures failed || Verdict(changed, TheCache(), fs.hist, from, skills)
    {
      ghost var looked;
      changed, looked := CachedFilesChanged(from);
      if changed {
        ChangeIsAmong(TheCache(), fs.hist, from, looked, skills);
        return true, false;
      }
      changed, failed := NewFiles(from, looked);
    }

    /** One query; others may change files before every look it takes. */
    method SourceFilesChangedLocked() returns (changed: bool, ghost failed: bool, ghost listed: nat)
      requires MayAsk()
      modifies fs
      ensures fs.Valid() && old(fs.hist) <= fs.hist && (failed ==> changed)
      ensures !changed ==> NothingFound(TheCache(), fs.hist, |old(fs.hist)| - 1, listed, roots, skills)
      ensures changed && !failed ==> SomethingFound(TheCache(), fs.hist, |old(fs.hist)| - 1, listed, roots, skills)
    {
      ghost var from := |fs.hist| - 1;
      failed, listed := false, from;
      if cachedAt == 0 {
        return true, false, from;
      }
      fs.OthersRun();
      listed := |fs.hist| - 1;
      ghost var files := fs.files;
      var sources := SourcePaths(Agent in fs.files);
      changed := AnyChanged(sources, from);
      if changed {
        ChangeIsAmong(TheCache(), fs.hist, from, sources, Looked(Agent in files, roots, skills));
        return;
      }
      ghost var hist := fs.hist;
      changed := AnyChanged(roots, from);
      StaysUnchanged(TheCache(), hist, fs.hist, from, sources);
      if changed {
        ChangeIsAmong(TheCache(), fs.hist, from, roots, Looked(Agent in files, roots, skills));
        return;
      }
      hist := fs.hist;
      changed, failed := SkillFilesChangedSince(from);
      StaysUnchanged(TheCache(), hist, fs.hist, from, sources);
      StaysUnchanged(TheCache(), hist, fs.hist, from, roots);
      if changed && !failed {
        ChangeIsAmong(TheCache(), fs.hist, from, skills, Looked(Agent in files, roots, skills));
      }
    }

    /** Builds the prompt and caches it, dated by what was there before the building began. */
    method Rebuild() returns (prompt: Parts)
      requires Valid()
      modifies this, fs
      ensures Valid() && old(fs.hist) <= fs.hist && cachedSystemPrompt == Some(prompt) && |old(fs.hist)| - 1 <= base
      ensures Still(fs.hist, |old(fs.hist)| - 1) ==>
        prompt == Rendered(fs.files, skills) && Describes(TheCache(), fs.files, roots, skills)
    {
      var c;
      c, base, readAt := BuildFresh(fs, roots, skills);
      prompt := c.parts;
      cachedSystemPrompt := Some(c.parts);
      cachedAt := c.at;
      existedAtCache := Some(c.existed);
      skillFilesAtCache := Some(c.skillFiles);
      assert TheCache() == c;
    }

    method InvalidateCache()
      requires Valid()
      modifies this
      ensures Valid() && cachedSystemPrompt.None?
    {
      cachedSystemPrompt, cachedAt, existedAtCache, skillFilesAtCache := None, 0, None, None;
    }

    /** Between giving back the read lock and getting the write lock, others change files, rebuild or invalidate. */
    method Interlude()
      requires Valid()
      modifies this, fs
      ensures Valid() && old(fs.hist) <= fs.hist
    {
      ghost var before := fs.hist;
      fs.OthersRun();
      if cachedSystemPrompt.Some? {
        RecordedLater(TheCache(), before, fs.hist, base, readAt, skills);
      }
      if * {
        InvalidateCache();
      }
      if * {
        var prompt := Rebuild();
      }
    }

    /** What a served prompt is worth, as long as the files stood still during the query that let it be served. */
    ghost predicate IsCurrentIfSeen()
      reads this, fs
    {
      HasCache() && (TheCache().parts == Rendered(fs.files, skills) <==> AllSeen(TheCache()))
    }

    /** Whether one query of the files as they are would find a change. */
    ghost predicate IsStale()
      reads this, fs
    {
      HasCache() && SourceFilesChanged(TheCache(), fs.files, roots, skills)
    }

    /** Asks whether the cache still stands, and keeps it; asked while files stand still, the answer is exact. */
    method Ask() returns (stands: bool, ghost failed: bool, ghost listed: nat)
      requires Valid()
      modifies fs
      ensures Valid() && old(fs.hist) <= fs.hist
      ensures stands ==> HasCache() && NothingFound(TheCache(), fs.hist, |old(fs.hist)| - 1, listed, roots, skills)
      ensures stands ==> ReadBefore(base, readAt, |old(fs.hist)| - 1)
      ensures stands && Still(fs.hist, |old(fs.hist)| - 1) ==> IsCurrentIfSeen()
      ensures HasCache() && !stands && !failed && Still(fs.hist, |old(fs.hist)| - 1) ==> IsStale()
    {
      if cachedSystemPrompt.None? {
        return false, false, 0;
      }
      ghost var before := fs.hist;
      var changed;
      changed, failed, listed := SourceFilesChangedLocked();
      stands := !changed;
      RecordedLater(TheCache(), before, fs.hist, base, readAt, skills);
      if Still(fs.hist, |before| - 1) {
        AskedWhileStill(stands, failed, |before| - 1, listed);
      }
    }

    lemma AskedWhileStill(stands: bool, failed: bool, asked: nat, listed: nat)
      requires Valid() && HasCache() && Still(fs.hist, asked)
      requires stands ==> NothingFound(TheCache(), fs.hist, asked, listed, roots, skills)
      requires !stands && !failed ==> SomethingFound(TheCache(), fs.hist, asked, listed, roots, skills)
      ensures stands ==> IsCurrentIfSeen()
      ensures !stands && !failed ==> IsStale()
    {
      if stands {
        NothingFoundWhileStill(TheCache(), fs.hist, asked, listed, roots, skills);
        ServedIsCurrentExactlyWhenSeen(TheCache(), fs.hist, base, readAt, roots, skills);
      } else if !failed {
        SomethingFoundWhileStill(TheCache(), fs.hist, asked, listed, roots, skills);
      }
    }

    /** Serves or rebuilds, once the first query has said no. */
    method AskAgainOrRebuild() returns (prompt: Parts, ghost served: bool, ghost asked: nat, ghost listed: nat)
      requires Valid()
      modifies this, fs
      ensures Valid() && old(fs.hist) <= fs.hist && cachedSystemPrompt == Some(prompt)
      ensures served ==>
        && |old(fs.hist)| - 1 <= asked < |fs.hist|
        && NothingFound(TheCache(), fs.hist, asked, listed, roots, skills) && ReadBefore(base, readAt, asked)
        && (Still(fs.hist, asked) ==> IsCurrentIfSeen())
      ensures !served ==>
        && |old(fs.hist)| - 1 <= base && ReadSince(prompt, readAt, fs.hist, base, skills)
        && (Still(fs.hist, |old(fs.hist)| - 1) ==>
             prompt == Rendered(fs.files, skills) && Describes(TheCache(), fs.files, roots, skills))
    {
      ghost var first := fs.hist;
      Interlude();
      asked := |fs.hist| - 1;
      var stands;
      ghost var failed;
      stands, failed, listed := Ask();
      if stands {
        return cachedSystemPrompt.value, true, asked, listed;
      }
      ghost var before := fs.hist;
      prompt := Rebuild();
      served := false;
      if Still(fs.hist, |first| - 1) {
        StillLater(first, before, fs.hist);
      }
    }

    /**
     * A prompt from the cache was let through by a query that found nothing changed, one look at a time; if the files
     * stood still meanwhile, it is the prompt of the current files exactly when the baseline saw every file it was
     * read from. Any other prompt was read during this call, from some instant of it on; if the files stood still, it
     * is the current one, with a cache that describes them. While the files stand still and no walk fails, a cache
     * that is not stale is served.
     */
    method BuildSystemPromptWithCache()
      returns (prompt: Parts, ghost served: bool, ghost asked: nat, ghost listed: nat, ghost failed: bool)
      requires Valid()
      modifies this, fs
      ensures Valid() && old(fs.hist) <= fs.hist && cachedSystemPrompt == Some(prompt)
      ensures served ==>
        && |old(fs.hist)| - 1 <= asked < |fs.hist|
        && NothingFound(TheCache(), fs.hist, asked, listed, roots, skills) && ReadBefore(base, readAt, asked)
        && (Still(fs.hist, asked) ==> IsCurrentIfSeen())
      ensures !served ==>
        && |old(fs.hist)| - 1 <= base && ReadSince(prompt, readAt, fs.hist, base, skills)
        && (Still(fs.hist, |old(fs.hist)| - 1) ==>
             prompt == Rendered(fs.files, skills) && Describes(TheCache(), fs.files, roots, skills))
      ensures old(HasCache() && !IsStale()) && Still(fs.hist, |old(fs.hist)| - 1) && !failed ==>
        served && Some(prompt) == old(cachedSystemPrompt)
    {
      ghost var first := fs.hist;
      asked := |fs.hist| - 1;
      var stands;
      stands, failed, listed := Ask();
      if stands {
        return cachedSystemPrompt.value, true, asked, listed, failed;
      }
      ghost var asking := fs.hist;
      prompt, served, asked, listed := AskAgainOrRebuild();
      if Still(fs.hist, |first| - 1) {
        StillBefore(asking, fs.hist, |first| - 1);
        StillBefore(first, asking, |first| - 1);
        StillLater(first, asking, fs.hist);
      }
    }
  }

  lemma StillLater(before: seq<Instant>, later: seq<Instant>, end: seq<Instant>)
    requires before <= later <= end && before != [] && Still(end, |before| - 1)
    ensures Still(end, |later| - 1)
  {
  }

  lemma HasPath(s: set<Path>)
    ensures s == {} || exists p :: p in s
  {
    if forall p :: p !in s {
      assert s == {};
    }
  }
}
