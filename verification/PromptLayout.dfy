/** Which files make up the system prompt, and which changes a query finds, told by the files alone. */
module PromptLayout {
  import opened FileHistory
  import opened PromptCache

  /** AGENT.md, SOUL.md, USER.md and the memory always count; AGENTS.md and IDENTITY.md only where AGENT.md is missing. */
  predicate InLayout(files: Files, p: Path) {
    match p
    case Agent => true
    case Soul => true
    case User => true
    case Memory => true
    case Agents => Agent !in files
    case Identity => Agent !in files
    case _ => false
  }

  /** The paths a prompt is read from, found or not. */
  lemma SourcesAreTheLayout(files: Files, skills: seq<Path>, p: Path)
    ensures p in Sources(Agent in files, skills) <==> InLayout(files, p) || p in skills
  {
  }

  /** Every file that is there and counts, and every skill file, with its content; and nothing else. */
  predicate IsPromptOf(parts: Parts, files: Files, skills: seq<Path>) {
    && (forall p | p in files && (InLayout(files, p) || p in skills) :: p in parts && parts[p] == files[p].content)
    && (forall p | p in parts :: p in files && (InLayout(files, p) || p in skills))
  }

  /** The prompt of some files is determined by that. */
  lemma RenderedIsPromptOf(parts: Parts, files: Files, skills: seq<Path>)
    requires AreSkills(skills)
    ensures parts == Rendered(files, skills) <==> IsPromptOf(parts, files, skills)
  {
    var rendered := Rendered(files, skills);
    forall p ensures p in Sources(Agent in files, skills) <==> InLayout(files, p) || p in skills {
      SourcesAreTheLayout(files, skills, p);
    }
    if IsPromptOf(parts, files, skills) {
      forall p: Path
        ensures p in parts <==> p in rendered
        ensures p in rendered ==> p in parts && parts[p] == rendered[p]
      {
      }
    }
  }

  /** Only files of the older layout differ. */
  ghost predicate DifferInOlderLayoutOnly(a: Files, b: Files) {
    forall p: Path | p != Agents && p != Identity :: (p in a <==> p in b) && (p in a ==> a[p] == b[p])
  }

  /** With AGENT.md there, adding, changing or deleting AGENTS.md or IDENTITY.md leaves the prompt as it is. */
  lemma OlderLayoutIsIgnored(a: Files, b: Files, skills: seq<Path>)
    requires AreSkills(skills) && Agent in a && DifferInOlderLayoutOnly(a, b)
    ensures Rendered(a, skills) == Rendered(b, skills)
  {
    RenderedIsPromptOf(Rendered(a, skills), a, skills);
    assert Agent in b;
    forall p | p in b && (InLayout(b, p) || p in skills)
      ensures p in Rendered(a, skills) && Rendered(a, skills)[p] == b[p].content
    {
      assert p != Agents && p != Identity;
    }
    RenderedIsPromptOf(Rendered(a, skills), b, skills);
  }

  // ---------------------------------------------------------------- what a query finds

  predicate DifferAt(a: Files, b: Files, p: Path) {
    (p in a) != (p in b) || (p in a && a[p] != b[p])
  }

  /** Whatever was written since has a time newer than a cache dated then. */
  predicate WrittenSince(a: Files, b: Files, at: nat) {
    forall p | p in b && DifferAt(a, b, p) :: b[p].mtime > at
  }

  lemma SourceIsFound(c: Cache, a: Files, b: Files, roots: seq<Path>, skills: seq<Path>, p: Path)
    requires Describes(c, a, roots, skills) && AreRoots(roots) && WrittenSince(a, b, c.at)
    requires InLayout(b, p) && (DifferAt(a, b, Agent) ==> p == Agent)
    ensures p in SourcePaths(Agent in b) && (FileChangedSince(c, b, p) <==> DifferAt(a, b, p))
  {
    assert p in SourcePaths(Agent in b) && p in SourcePaths(Agent in a);
  }

  lemma RootIsFound(c: Cache, a: Files, b: Files, roots: seq<Path>, skills: seq<Path>, p: Path)
    requires Describes(c, a, roots, skills) && WrittenSince(a, b, c.at) && p in roots
    ensures FileChangedSince(c, b, p) <==> DifferAt(a, b, p)
  {
  }

  lemma SkillsAreFound(c: Cache, a: Files, b: Files, roots: seq<Path>, skills: seq<Path>)
    requires Describes(c, a, roots, skills) && WrittenSince(a, b, c.at)
    ensures SkillFilesChangedSince(c, b, skills) <==> exists p :: p in skills && DifferAt(a, b, p)
  {
    if p :| p in skills && DifferAt(a, b, p) {
      if p in a {
        assert p in c.skillFiles && (p !in b || b[p].mtime != c.skillFiles[p]);
      } else {
        assert p in b && p !in c.skillFiles;
      }
    } else {
      forall p | p in c.skillFiles ensures p in b && b[p].mtime == c.skillFiles[p] {
        assert p in skills && !DifferAt(a, b, p);
      }
      forall p | p in skills && p in b ensures p in c.skillFiles {
        assert !DifferAt(a, b, p);
      }
    }
  }

  lemma OnlyLayoutIsAsked(c: Cache, files: Files, hasAgent: bool, p: Path)
    requires p in SourcePaths(hasAgent) && hasAgent == (Agent in files)
    ensures InLayout(files, p)
  {
  }

  /**
   * Once a cache describes the files, a query finds a change exactly if a file of the layout in force by then, a root
   * or a skill file was written, created or deleted since.
   */
  lemma QueryFindsExactlyTheChanges(c: Cache, a: Files, b: Files, roots: seq<Path>, skills: seq<Path>)
    requires Describes(c, a, roots, skills) && WrittenSince(a, b, c.at)
    requires AreRoots(roots) && AreSkills(skills)
    ensures SourceFilesChanged(c, b, roots, skills) <==>
      exists p :: (InLayout(b, p) || p in roots || p in skills) && DifferAt(a, b, p)
  {
    SkillsAreFound(c, a, b, roots, skills);
    forall p | p in roots ensures FileChangedSince(c, b, p) <==> DifferAt(a, b, p) {
      RootIsFound(c, a, b, roots, skills, p);
    }
    SourceIsFound(c, a, b, roots, skills, Agent);
    if !DifferAt(a, b, Agent) {
      forall p | InLayout(b, p)
        ensures p in SourcePaths(Agent in b) && (FileChangedSince(c, b, p) <==> DifferAt(a, b, p))
      {
        SourceIsFound(c, a, b, roots, skills, p);
      }
      forall p | p in SourcePaths(Agent in b) ensures InLayout(b, p) {
        OnlyLayoutIsAsked(c, b, Agent in b, p);
      }
    } else {
      assert InLayout(b, Agent);
    }
  }
}
