/** Files with modification times, and how they change while a prompt is built. */
module FileHistory {

  /** The files of a workspace that feed the system prompt, and the directories that hold skills. */
  datatype Path = Agent | Agents | Soul | User | Identity | Memory | Root(name: string) | Skill(name: string)

  datatype File = File(content: string, mtime: nat)

  type Files = map<Path, File>

  /** The files at one instant, the newest modification time ever given, and the path the last change was about. */
  datatype Instant = Instant(files: Files, newest: nat, touched: Path)

  /** The oldest time a cache is dated: no file is that old. */
  const UNIX_1 := 1

  predicate FilesAreDated(i: Instant) {
    i.newest >= UNIX_1 && forall p | p in i.files :: UNIX_1 < i.files[p].mtime <= i.newest
  }

  /** One file is deleted, or written with a time newer than all earlier ones. */
  predicate Step(a: Instant, b: Instant) {
    || (b.files == a.files - {b.touched} && b.newest == a.newest)
    || (&& b.newest > a.newest
        && b.touched in b.files
        && b.files[b.touched].mtime == b.newest
        && b.files == a.files[b.touched := b.files[b.touched]])
  }

  predicate TimedAt(hist: seq<Instant>, i: nat)
    requires i < |hist|
  {
    FilesAreDated(hist[i]) && (i > 0 ==> Step(hist[i-1], hist[i]))
  }

  predicate WellTimed(hist: seq<Instant>) {
    forall i: nat | i < |hist| :: TimedAt(hist, i)
  }

  function Last(hist: seq<Instant>): Instant
    requires hist != []
  {
    hist[|hist|-1]
  }

  lemma NowIsDated(hist: seq<Instant>)
    requires WellTimed(hist) && hist != []
    ensures FilesAreDated(Last(hist))
  {
    assert TimedAt(hist, |hist| - 1);
  }

  lemma {:induction false} NewestGrows(hist: seq<Instant>, i: nat, j: nat)
    requires WellTimed(hist) && i <= j < |hist|
    ensures hist[i].newest <= hist[j].newest
    decreases j - i
  {
    if i < j {
      assert TimedAt(hist, j);
      NewestGrows(hist, i, j - 1);
    }
  }

  /** A file no newer than the newest of some earlier instant has not changed since that instant. */
  lemma {:induction false} OldFilesAreUnchanged(hist: seq<Instant>, i: nat, k: nat, j: nat, p: Path)
    requires WellTimed(hist) && i <= k <= j < |hist|
    requires p in hist[j].files && hist[j].files[p].mtime <= hist[i].newest
    ensures p in hist[k].files && hist[k].files[p] == hist[j].files[p]
    decreases j - k
  {
    if k < j {
      NewestGrows(hist, i, j - 1);
      assert TimedAt(hist, j);
      OldFilesAreUnchanged(hist, i, k, j - 1, p);
    }
  }

  lemma OneMoreInstant(hist: seq<Instant>, next: Instant)
    requires hist != [] && WellTimed(hist) && Step(Last(hist), next)
    ensures WellTimed(hist + [next])
  {
    assert TimedAt(hist, |hist| - 1);
    forall i: nat | i < |hist + [next]| ensures TimedAt(hist + [next], i) {
      if i < |hist| {
        assert TimedAt(hist, i);
      }
    }
  }

  class FileSystem {
    var files: Files
    var newest: nat
    ghost var hist: seq<Instant>

    ghost predicate Valid()
      reads this
    {
      hist != [] && WellTimed(hist) && Last(hist).files == files && Last(hist).newest == newest
    }

    constructor (files: Files, newest: nat)
      requires FilesAreDated(Instant(files, newest, Agent))
      ensures Valid() && hist == [Instant(files, newest, Agent)]
    {
      this.files, this.newest := files, newest;
      hist := [Instant(files, newest, Agent)];
    }

    method Write(p: Path, content: string, wait: nat)
      requires Valid()
      modifies this
      ensures Valid() && files == old(files)[p := File(content, newest)] && newest == old(newest) + 1 + wait
      ensures hist == old(hist) + [Instant(files, newest, p)]
    {
      newest := newest + 1 + wait;
      files := files[p := File(content, newest)];
      OneMoreInstant(hist, Instant(files, newest, p));
      hist := hist + [Instant(files, newest, p)];
    }

    method Delete(p: Path)
      requires Valid()
      modifies this
      ensures Valid() && files == old(files) - {p} && newest == old(newest)
      ensures hist == old(hist) + [Instant(files, newest, p)]
    {
      files := files - {p};
      OneMoreInstant(hist, Instant(files, newest, p));
      hist := hist + [Instant(files, newest, p)];
    }

    /** Other programs write and delete files, any number of times. */
    method OthersRun()
      requires Valid()
      modifies this
      ensures Valid() && old(hist) <= hist
    {
      var n: int := *;
      while n > 0
        invariant Valid() && old(hist) <= hist
      {
        var p: Path := *;
        if * {
          Delete(p);
        } else {
          var content: string := *;
          var wait: nat := *;
          Write(p, content, wait);
        }
        n := n - 1;
      }
    }
  }
}
