/** When the cached system prompt may be served: what the cache records, what a query compares, and what that is worth. */
module PromptCache {
  import opened FileHistory

  /** What the files contribute to the prompt: the content of each file that was there to read. */
  type Parts = map<Path, string>

  /** The files a prompt is made of; the older layout counts only without an AGENT.md. */
  function Sources(hasAgent: bool, skills: seq<Path>): set<Path> {
    {Agent, Soul, User, Memory} + (if hasAgent then {} else {Agents, Identity}) + set p | p in skills
  }

  /** The prompt of some files, all read at once. */
  function Rendered(files: Files, skills: seq<Path>): Parts {
    map p | p in Sources(Agent in files, skills) && p in files :: files[p].content
  }

  /** The cached parts, the time they are dated, and which files were there when that was decided. */
  datatype Cache = Cache(parts: Parts, at: nat, existed: map<Path, bool>, skillFiles: map<Path, nat>)

  predicate FileChangedSince(c: Cache, files: Files, p: Path) {
    var existedBefore := p in c.existed && c.existed[p];
    if existedBefore != (p in files) then true else p in files && files[p].mtime > c.at
  }

  predicate SkillFilesChangedSince(c: Cache, files: Files, skills: seq<Path>) {
    || (exists p | p in c.skillFiles :: p !in files || files[p].mtime != c.skillFiles[p])
    || (exists p | p in skills :: p in files && p !in c.skillFiles)
  }

  function SourcePaths(hasAgent: bool): seq<Path> {
    [Agent, Soul, User] + (if hasAgent then [] else [Agents, Identity]) + [Memory]
  }

  /** What a query finds, the files standing still while it looks. */
  predicate SourceFilesChanged(c: Cache, files: Files, roots: seq<Path>, skills: seq<Path>) {
    || c.at == 0
    || (exists p | p in SourcePaths(Agent in files) :: FileChangedSince(c, files, p))
    || (exists p | p in roots :: FileChangedSince(c, files, p))
    || SkillFilesChangedSince(c, files, skills)
  }

  predicate AreSkills(skills: seq<Path>) {
    forall p | p in skills :: p.Skill?
  }

  predicate AreRoots(roots: seq<Path>) {
    forall p | p in roots :: p.Root?
  }

  // ---------------------------------------------------------------- how the cache came about

  /** Every part was read at its own instant, from some instant on; what is not a part was not there to read. */
  predicate ReadSince(parts: Parts, readAt: map<Path, nat>, hist: seq<Instant>, from: nat, skills: seq<Path>) {
    && readAt.Keys == Sources(Agent in parts, skills)
    && parts.Keys <= readAt.Keys
    && forall p | p in readAt ::
         && from <= readAt[p] < |hist|
         && (p in parts <==> p in hist[readAt[p]].files)
         && (p in parts ==> parts[p] == hist[readAt[p]].files[p].content)
  }

  /** Dated no later than what had been written by an instant; so are the skill files noted. */
  predicate DatedBy(at: nat, skillFiles: map<Path, nat>, newest: nat) {
    0 < at <= newest && forall p | p in skillFiles :: skillFiles[p] <= newest
  }

  predicate PathsAreTracked(existed: map<Path, bool>, skillFiles: map<Path, nat>, skills: seq<Path>) {
    && (forall p | p in existed :: !p.Skill?)
    && (forall p | p in skillFiles :: p in skills)
  }

  /** The baseline was taken by some instant, and the parts were read after it. */
  predicate Recorded(c: Cache, hist: seq<Instant>, base: nat, readAt: map<Path, nat>, skills: seq<Path>) {
    && base < |hist|
    && DatedBy(c.at, c.skillFiles, hist[base].newest)
    && PathsAreTracked(c.existed, c.skillFiles, skills)
    && ReadSince(c.parts, readAt, hist, base, skills)
  }

  /** The baseline found the file. */
  predicate Seen(c: Cache, p: Path) {
    p in c.skillFiles || (p in c.existed && c.existed[p])
  }

  predicate AllSeen(c: Cache) {
    forall p | p in c.parts :: Seen(c, p)
  }

  // ---------------------------------------------------------------- what a query that finds no change is worth

  /** A file the query finds as it was recorded is the file that was read. */
  lemma FoundIsRead(c: Cache, hist: seq<Instant>, base: nat, readAt: map<Path, nat>, skills: seq<Path>, p: Path)
    requires WellTimed(hist) && Recorded(c, hist, base, readAt, skills)
    requires p in Last(hist).files && Last(hist).files[p].mtime <= hist[base].newest && p in readAt
    ensures p in c.parts && c.parts[p] == Last(hist).files[p].content
  {
    OldFilesAreUnchanged(hist, base, readAt[p], |hist| - 1, p);
  }

  /** What an unchanged source looks like. */
  lemma UnchangedSource(c: Cache, hist: seq<Instant>, base: nat, readAt: map<Path, nat>, roots: seq<Path>,
      skills: seq<Path>, p: Path)
    requires WellTimed(hist) && Recorded(c, hist, base, readAt, skills) && AreSkills(skills)
    requires !SourceFilesChanged(c, Last(hist).files, roots, skills)
    requires p in Sources(Agent in Last(hist).files, skills)
    ensures p in Last(hist).files <==> Seen(c, p)
    ensures p in Last(hist).files ==> Last(hist).files[p].mtime <= hist[base].newest
  {
    var files := Last(hist).files;
    if p.Skill? {
      assert p in skills;
    } else {
      assert p in SourcePaths(Agent in files);
      assert !FileChangedSince(c, files, p);
      assert p !in c.skillFiles;
    }
  }

  /** An unchanged query sees the layout the prompt was read in, once what was read had been seen. */
  lemma LayoutIsKept(c: Cache, hist: seq<Instant>, base: nat, readAt: map<Path, nat>, roots: seq<Path>,
      skills: seq<Path>)
    requires WellTimed(hist) && Recorded(c, hist, base, readAt, skills) && AreSkills(skills)
    requires !SourceFilesChanged(c, Last(hist).files, roots, skills)
    ensures Agent in Last(hist).files ==> Agent in c.parts
    ensures Agent in c.parts && Seen(c, Agent) ==> Agent in Last(hist).files
  {
    UnchangedSource(c, hist, base, readAt, roots, skills, Agent);
    if Agent in Last(hist).files {
      FoundIsRead(c, hist, base, readAt, skills, Agent);
    }
  }

  lemma SeenPartsAreCurrent(c: Cache, hist: seq<Instant>, base: nat, readAt: map<Path, nat>, roots: seq<Path>,
      skills: seq<Path>)
    requires WellTimed(hist) && Recorded(c, hist, base, readAt, skills) && AreSkills(skills)
    requires !SourceFilesChanged(c, Last(hist).files, roots, skills) && AllSeen(c)
    ensures c.parts == Rendered(Last(hist).files, skills)
  {
    var now := Rendered(Last(hist).files, skills);
    LayoutIsKept(c, hist, base, readAt, roots, skills);
    forall p: Path
      ensures p in c.parts <==> p in now
      ensures p in now ==> p in c.parts && c.parts[p] == now[p]
    {
      if p in Sources(Agent in Last(hist).files, skills) {
        UnchangedSource(c, hist, base, readAt, roots, skills, p);
        if p in now {
          FoundIsRead(c, hist, base, readAt, skills, p);
        }
      }
    }
  }

  /**
   * A prompt served from the cache is the prompt of the current files exactly when every file it was read from was
   * found by the baseline taken before the reading; files may change in any way while it is built and after.
   */
  lemma ServedIsCurrentExactlyWhenSeen(c: Cache, hist: seq<Instant>, base: nat, readAt: map<Path, nat>,
      roots: seq<Path>, skills: seq<Path>)
    requires WellTimed(hist) && Recorded(c, hist, base, readAt, skills) && AreSkills(skills)
    requires !SourceFilesChanged(c, Last(hist).files, roots, skills)
    ensures c.parts == Rendered(Last(hist).files, skills) <==> AllSeen(c)
  {
    if AllSeen(c) {
      SeenPartsAreCurrent(c, hist, base, readAt, roots, skills);
    } else {
      var p :| p in c.parts && !Seen(c, p);
      if p in Sources(Agent in Last(hist).files, skills) {
        UnchangedSource(c, hist, base, readAt, roots, skills, p);
      }
    }
  }

  /** A file that is there when the prompt is built, but neither before nor after, stays in the cached prompt. */
  lemma PassingFileIsServed(content: string) returns (c: Cache, hist: seq<Instant>)
    ensures WellTimed(hist) && Recorded(c, hist, 0, map p | p in Sources(false, []) :: 1, [])
    ensures !SourceFilesChanged(c, Last(hist).files, [], [])
    ensures Rendered(hist[0].files, []) == map[] == Rendered(Last(hist).files, [])
    ensures c.parts == map[User := content]
  {
    hist := [Instant(map[], 1, User), Instant(map[User := File(content, 2)], 2, User), Instant(map[], 2, User)];
    c := Cache(map[User := content], UNIX_1, map[Agent := false, Soul := false, User := false, Agents := false,
               Identity := false, Memory := false], map[]);
    assert hist[2].files == hist[1].files - {User};
  }

  // ---------------------------------------------------------------- the cache is of use

  /** The baseline describes these files. */
  predicate Describes(c: Cache, files: Files, roots: seq<Path>, skills: seq<Path>) {
    && c.at > 0
    && c.existed.Keys == (set p | p in SourcePaths(Agent in files)) + (set p | p in roots)
    && (forall p | p in c.existed :: c.existed[p] == (p in files) && (p in files ==> files[p].mtime <= c.at))
    && c.skillFiles.Keys == (set p | p in skills && p in files)
    && (forall p | p in c.skillFiles :: c.skillFiles[p] == files[p].mtime <= c.at)
  }

  lemma DescribedFilesAreUnchanged(c: Cache, files: Files, roots: seq<Path>, skills: seq<Path>)
    requires Describes(c, files, roots, skills)
    ensures !SourceFilesChanged(c, files, roots, skills)
  {
  }

  // ---------------------------------------------------------------- when files change between the looks of one query

  /** The files have been the same since some instant. */
  predicate Still(hist: seq<Instant>, from: nat) {
    from < |hist| && forall i | from <= i < |hist| :: hist[i].files == hist[from].files
  }

  /** What a query finds of one path: a skill file by its exact time, another path by its existence and time. */
  predicate ChangedAt(c: Cache, files: Files, p: Path) {
    if p.Skill? then (p in c.skillFiles) != (p in files) || (p in files && files[p].mtime != c.skillFiles[p])
    else FileChangedSince(c, files, p)
  }

  /** At some instant since the query began, the path was found as recorded. */
  ghost predicate FoundUnchanged(c: Cache, hist: seq<Instant>, from: nat, p: Path) {
    exists i :: from <= i < |hist| && !ChangedAt(c, hist[i].files, p)
  }

  ghost predicate FoundChanged(c: Cache, hist: seq<Instant>, from: nat, p: Path) {
    exists i :: from <= i < |hist| && ChangedAt(c, hist[i].files, p)
  }

  /** The paths a query looks at, once it has looked for AGENT.md. */
  function Looked(hasAgent: bool, roots: seq<Path>, skills: seq<Path>): seq<Path> {
    SourcePaths(hasAgent) + roots + skills
  }

  /** The prompt was built before the query began. */
  predicate ReadBefore(base: nat, readAt: map<Path, nat>, from: nat) {
    base <= from && forall q | q in readAt :: readAt[q] <= from
  }

  /** The query listed its paths at an instant and found each of them unchanged at another. */
  ghost predicate NothingFound(c: Cache, hist: seq<Instant>, from: nat, listed: nat,
      roots: seq<Path>, skills: seq<Path>)
  {
    && c.at > 0 && from <= listed < |hist|
    && forall p | p in Looked(Agent in hist[listed].files, roots, skills) :: FoundUnchanged(c, hist, from, p)
  }

  /** The query found one of its paths changed. */
  ghost predicate SomethingFound(c: Cache, hist: seq<Instant>, from: nat, listed: nat,
      roots: seq<Path>, skills: seq<Path>)
  {
    || c.at == 0
    || (&& from <= listed < |hist|
        && exists p :: p in Looked(Agent in hist[listed].files, roots, skills) && FoundChanged(c, hist, from, p))
  }

  /** All looks at files that stand still are one look. */
  lemma ChangedIsOneLook(c: Cache, files: Files, roots: seq<Path>, skills: seq<Path>)
    requires AreSkills(skills) && AreRoots(roots) && PathsAreTracked(c.existed, c.skillFiles, skills)
    ensures SourceFilesChanged(c, files, roots, skills) <==>
      c.at == 0 || exists p :: p in Looked(Agent in files, roots, skills) && ChangedAt(c, files, p)
  {
    var looked := Looked(Agent in files, roots, skills);
    forall p | p in SourcePaths(Agent in files) || p in roots
      ensures p in looked && ChangedAt(c, files, p) == FileChangedSince(c, files, p)
    {
    }
    forall p | p in skills ensures p in looked && p.Skill? {
    }
    if c.at > 0 && SkillFilesChangedSince(c, files, skills) {
      if p :| p in c.skillFiles && (p !in files || files[p].mtime != c.skillFiles[p]) {
        assert p in looked && ChangedAt(c, files, p);
      } else {
        var q :| q in skills && q in files && q !in c.skillFiles;
        assert q in looked && ChangedAt(c, files, q);
      }
    }
  }

  lemma NothingFoundWhileStill(c: Cache, hist: seq<Instant>, from: nat, listed: nat,
      roots: seq<Path>, skills: seq<Path>)
    requires AreSkills(skills) && AreRoots(roots) && PathsAreTracked(c.existed, c.skillFiles, skills)
    requires Still(hist, from) && NothingFound(c, hist, from, listed, roots, skills)
    ensures !SourceFilesChanged(c, Last(hist).files, roots, skills)
  {
    ChangedIsOneLook(c, Last(hist).files, roots, skills);
    forall p | p in Looked(Agent in Last(hist).files, roots, skills) ensures !ChangedAt(c, Last(hist).files, p) {
      assert FoundUnchanged(c, hist, from, p);
    }
  }

  lemma SomethingFoundWhileStill(c: Cache, hist: seq<Instant>, from: nat, listed: nat,
      roots: seq<Path>, skills: seq<Path>)
    requires AreSkills(skills) && AreRoots(roots) && PathsAreTracked(c.existed, c.skillFiles, skills)
    requires Still(hist, from) && SomethingFound(c, hist, from, listed, roots, skills)
    ensures SourceFilesChanged(c, Last(hist).files, roots, skills)
  {
    ChangedIsOneLook(c, Last(hist).files, roots, skills);
    if c.at > 0 {
      var p :| p in Looked(Agent in hist[listed].files, roots, skills) && FoundChanged(c, hist, from, p);
      assert ChangedAt(c, Last(hist).files, p);
    }
  }

  /**
   * When files do change between the looks: each path the query looked at was, at an instant of the query, there
   * exactly if the baseline had found it, and then with the content that was read if it was read at all.
   */
  lemma EachLookIsCurrent(c: Cache, hist: seq<Instant>, base: nat, readAt: map<Path, nat>, from: nat, listed: nat,
      roots: seq<Path>, skills: seq<Path>, p: Path) returns (i: nat)
    requires WellTimed(hist) && Recorded(c, hist, base, readAt, skills) && AreSkills(skills)
    requires ReadBefore(base, readAt, from)
    requires NothingFound(c, hist, from, listed, roots, skills)
    requires p in Looked(Agent in hist[listed].files, roots, skills)
    ensures from <= i < |hist| && (p in hist[i].files <==> Seen(c, p))
    ensures p in hist[i].files && p in readAt ==> p in c.parts && c.parts[p] == hist[i].files[p].content
  {
    assert FoundUnchanged(c, hist, from, p);
    i :| from <= i < |hist| && !ChangedAt(c, hist[i].files, p);
    if p in hist[i].files && p in readAt {
      OldFilesAreUnchanged(hist, base, readAt[p], i, p);
    }
  }
}
