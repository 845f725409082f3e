/**
  The archiver (`archive_parquets.py`): moves every `.parquet` file of the
  source directory into the backup directory, in sorted order, renaming a
  file whose name is taken so that nothing in the backup is overwritten,
  and reports 0 (done), 1 (unusable source) or 2 (a move raised).
*/
module Archiver {
  import opened Text
  import opened Ordering

  /** A resolved path, as its parts (`Path.parts`), the root part first. */
  type Path = seq<string>

  type Blob = seq<bv8>

  /** The files directly inside one directory, by name. */
  type Dir = map<string, Blob>

  // ---------------------------------------------------------------------
  // Names
  // ---------------------------------------------------------------------

  /** `name.rfind(".")` */
  function LastDot(name: string): (i: int)
    ensures -1 <= i < |name|
    ensures i >= 0 ==> name[i] == '.'
    ensures forall j :: i < j < |name| ==> name[j] != '.'
  {
    if name == [] then -1
    else if name[|name| - 1] == '.' then |name| - 1
    else LastDot(name[..|name| - 1])
  }

  /** `Path.suffix` is not empty: the last dot is neither the first nor the last character. */
  predicate HasSuffix(name: string) {
    0 < LastDot(name) < |name| - 1
  }

  /** `Path.suffix` */
  function Suffix(name: string): (s: string)
    ensures s == [] <==> !HasSuffix(name)
    ensures s != [] ==> s[0] == '.' && |s| >= 2
  {
    if HasSuffix(name) then name[LastDot(name)..] else []
  }

  /** `Path.stem`: the name with its suffix cut off. */
  function Stem(name: string): (s: string)
    ensures s + Suffix(name) == name
  {
    if HasSuffix(name) then name[..LastDot(name)] else name
  }

  /** The suffix of a backed-up file is `.parquet` unless the whole name is `.parquet`. */
  lemma ParquetSuffix(name: string)
    requires IsParquetName(name) && |name| > 8
    ensures Suffix(name) == ".parquet" && Stem(name) == name[..|name| - 8]
  {
    var tail := name[|name| - 8..];
    assert tail == ".parquet";
    assert name[|name| - 8] == '.';
    assert forall j :: |name| - 8 < j < |name| ==> name[j] == tail[j - (|name| - 8)];
    assert LastDot(name) == |name| - 8;
  }

  /** The i-th name `safe_move` tries: the name itself, then `stem__i` followed by the suffix. */
  function Candidate(name: string, i: nat): string {
    if i == 0 then name else Stem(name) + "__" + NatToString(i) + Suffix(name)
  }

  lemma CandidateLength(name: string, i: nat)
    ensures |Candidate(name, i)| == if i == 0 then |name| else |name| + 2 + |NatToString(i)|
  {
    assert |Stem(name)| + |Suffix(name)| == |name| by {
      assert Stem(name) + Suffix(name) == name;
    }
  }

  /** Different attempts try different names. */
  lemma CandidateInjective(name: string, i: nat, j: nat)
    requires Candidate(name, i) == Candidate(name, j)
    ensures i == j
  {
    CandidateLength(name, i);
    CandidateLength(name, j);
    if i > 0 && j > 0 {
      var ni, nj := NatToString(i), NatToString(j);
      var p := |Stem(name)| + 2;
      assert ni == Candidate(name, i)[p..p + |ni|];
      assert nj == Candidate(name, j)[p..p + |nj|];
      NatToStringInjective(i, j);
    }
  }

  /** The names of the first k attempts. */
  function Candidates(name: string, k: nat): set<string> {
    set i: nat | i < k :: Candidate(name, i)
  }

  lemma {:induction false} CandidatesCount(name: string, k: nat)
    ensures |Candidates(name, k)| == k
  {
    if k > 0 {
      CandidatesCount(name, k - 1);
      assert Candidates(name, k) == Candidates(name, k - 1) + {Candidate(name, k - 1)};
      forall i: nat | i < k - 1 ensures Candidate(name, i) != Candidate(name, k - 1) {
        if Candidate(name, i) == Candidate(name, k - 1) {
          CandidateInjective(name, i, k - 1);
        }
      }
    }
  }

  lemma SubsetCount(a: set<string>, b: set<string>)
    requires a <= b
    ensures |a| <= |b|
  {
    assert b == a + (b - a);
  }

  /** If the first k attempts all hit taken names, there are at least k taken names. */
  lemma Pigeonhole(taken: set<string>, name: string, k: nat)
    requires forall j: nat :: j < k ==> Candidate(name, j) in taken
    ensures k <= |taken|
  {
    CandidatesCount(name, k);
    SubsetCount(Candidates(name, k), taken);
  }

  /** The attempt the renaming loop ends on, searching from attempt i. */
  function SearchFrom(taken: set<string>, name: string, i: nat): (k: nat)
    requires i <= |taken|
    requires forall j: nat :: j < i ==> Candidate(name, j) in taken
    ensures i <= k <= |taken|
    ensures Candidate(name, k) !in taken
    ensures forall j: nat :: j < k ==> Candidate(name, j) in taken
    decreases |taken| - i
  {
    if Candidate(name, i) !in taken then i
    else
      Pigeonhole(taken, name, i + 1);
      SearchFrom(taken, name, i + 1)
  }

  /**
    The attempt `safe_move` settles on: the first whose name is free. It
    exists, and it is at most the number of taken names, so the loop ends.
  */
  function FreeIndex(taken: set<string>, name: string): (k: nat)
    ensures k <= |taken|
    ensures Candidate(name, k) !in taken
    ensures forall j: nat :: j < k ==> Candidate(name, j) in taken
  {
    SearchFrom(taken, name, 0)
  }

  lemma FreeIndexUnique(taken: set<string>, name: string, k: nat)
    requires Candidate(name, k) !in taken
    requires forall j: nat :: j < k ==> Candidate(name, j) in taken
    ensures FreeIndex(taken, name) == k
  {
  }

  // ---------------------------------------------------------------------
  // Moving one file
  // ---------------------------------------------------------------------

  /** `dst_dir.mkdir(parents=True, exist_ok=True)`: an existing directory is left as it is. */
  function MakeDir(dirs: map<Path, Dir>, d: Path): (r: map<Path, Dir>)
    ensures r.Keys == dirs.Keys + {d}
    ensures d !in dirs ==> r[d] == map[]
    ensures forall e :: e in dirs ==> r[e] == dirs[e]
  {
    if d in dirs then dirs else dirs[d := map[]]
  }

  /** What `safe_move` did: the name it chose in the backup, and whether the file went there. */
  datatype MoveResult = Moved(target: string) | Raised(target: string)

  /**
    `safe_move`: the directories afterwards. The backup directory is
    created; the first free name among the attempts is chosen; unless the
    move raises (the file is gone or the system refuses), the file leaves
    the source and appears under that name with the same content.
  */
  function SafeMoveSpec(dirs: map<Path, Dir>, stuck: set<(Path, string)>, src: Path, name: string, dst: Path): (r: (map<Path, Dir>, MoveResult))
    ensures r.1.target !in MakeDir(dirs, dst)[dst]
    ensures name !in MakeDir(dirs, dst)[dst] ==> r.1.target == name
    ensures r.1.Raised? <==> src !in dirs || name !in dirs[src] || (src, name) in stuck
    ensures r.1.Raised? ==> r.0 == MakeDir(dirs, dst)
    ensures r.1.Moved? ==>
      src in r.0 && name !in r.0[src] && dst in r.0
      && r.1.target in r.0[dst] && r.0[dst][r.1.target] == dirs[src][name]
  {
    var d1 := MakeDir(dirs, dst);
    var target := Candidate(name, FreeIndex(d1[dst].Keys, name));
    if src !in d1 || name !in d1[src] || (src, name) in stuck then (d1, Raised(target))
    else (Relocate(d1, src, name, dst, target), Moved(target))
  }

  /** `shutil.move` of an existing file to a free name: the file leaves `src` and reappears in `dst`. */
  function Relocate(dirs: map<Path, Dir>, src: Path, name: string, dst: Path, target: string): (r: map<Path, Dir>)
    requires src in dirs && name in dirs[src] && dst in dirs
    ensures r.Keys == dirs.Keys
    ensures target in r[dst] && r[dst][target] == dirs[src][name]
    ensures src != dst || target != name ==> name !in r[src]
    ensures forall d :: d in dirs && d != src && d != dst ==> r[d] == dirs[d]
  {
    var d2 := dirs[src := dirs[src] - {name}];
    d2[dst := d2[dst][target := dirs[src][name]]]
  }

  lemma RelocateKeepsOthers(dirs: map<Path, Dir>, src: Path, name: string, dst: Path, target: string)
    requires src in dirs && name in dirs[src] && dst in dirs && target !in dirs[dst]
    ensures KeepsExcept(dirs, Relocate(dirs, src, name, dst, target), src, [name])
  {
    var d2 := dirs[src := dirs[src] - {name}];
    forall d, n | d in dirs && n in Remaining(dirs, d, src, [name])
      ensures d in d2 && n in d2[d] && d2[d][n] == dirs[d][n]
    {
    }
  }

  lemma RelocateAddsOnlyTarget(dirs: map<Path, Dir>, src: Path, name: string, dst: Path, target: string)
    requires src in dirs && name in dirs[src] && dst in dirs
    ensures var r := Relocate(dirs, src, name, dst, target);
      forall d, n :: d in r && n in r[d] ==> (d in dirs && n in dirs[d]) || (d == dst && n == target)
  {
  }

  /** The names in directory `d` of `dirs`, leaving out the given names when `d` is `src`. */
  function Remaining(dirs: map<Path, Dir>, d: Path, src: Path, names: seq<string>): set<string>
    requires d in dirs
  {
    if d == src then set n | n in dirs[d] && n !in names else dirs[d].Keys
  }

  /**
    Every file of `a`, except the named ones in directory `src`, is in `b`
    under the same name with the same content.
  */
  predicate KeepsExcept(a: map<Path, Dir>, b: map<Path, Dir>, src: Path, names: seq<string>) {
    forall d, n :: d in a && n in Remaining(a, d, src, names) ==>
      d in b && n in b[d] && b[d][n] == a[d][n]
  }

  lemma KeepsExceptTrans(a: map<Path, Dir>, b: map<Path, Dir>, c: map<Path, Dir>, src: Path, names: seq<string>)
    requires names != []
    requires KeepsExcept(a, b, src, names[..1]) && KeepsExcept(b, c, src, names[1..])
    ensures KeepsExcept(a, c, src, names)
  {
    forall d, n | d in a && n in Remaining(a, d, src, names)
      ensures d in c && n in c[d] && c[d][n] == a[d][n]
    {
      assert n in names[..1] ==> n in names;
      assert n in names[1..] ==> n in names;
      assert n in Remaining(a, d, src, names[..1]);
      assert n in Remaining(b, d, src, names[1..]);
    }
  }

  /** Creating a directory keeps every file. */
  lemma MakeDirKeeps(dirs: map<Path, Dir>, dst: Path, src: Path, names: seq<string>)
    ensures KeepsExcept(dirs, MakeDir(dirs, dst), src, names)
  {
    var r := MakeDir(dirs, dst);
    forall d, n | d in dirs && n in Remaining(dirs, d, src, names)
      ensures d in r && n in r[d] && r[d][n] == dirs[d][n]
    {
    }
  }

  lemma KeepsExceptChain(a: map<Path, Dir>, b: map<Path, Dir>, c: map<Path, Dir>, src: Path, names: seq<string>)
    requires KeepsExcept(a, b, src, names) && KeepsExcept(b, c, src, names)
    ensures KeepsExcept(a, c, src, names)
  {
    forall d, n | d in a && n in Remaining(a, d, src, names)
      ensures d in c && n in c[d] && c[d][n] == a[d][n]
    {
      assert n in Remaining(b, d, src, names);
    }
  }

  /** `safe_move` never overwrites: every other file keeps its name and content. */
  lemma SafeMoveKeepsOthers(dirs: map<Path, Dir>, stuck: set<(Path, string)>, src: Path, name: string, dst: Path)
    ensures KeepsExcept(dirs, SafeMoveSpec(dirs, stuck, src, name, dst).0, src, [name])
  {
    var r := SafeMoveSpec(dirs, stuck, src, name, dst);
    var d1 := MakeDir(dirs, dst);
    MakeDirKeeps(dirs, dst, src, [name]);
    if r.1.Moved? {
      assert r.0 == Relocate(d1, src, name, dst, r.1.target);
      RelocateKeepsOthers(d1, src, name, dst, r.1.target);
      KeepsExceptChain(dirs, d1, r.0, src, [name]);
    } else {
      assert r.0 == d1;
    }
  }

  /** The only file `safe_move` can make appear is the one under the chosen name in the backup. */
  lemma SafeMoveAddsOnlyTarget(dirs: map<Path, Dir>, stuck: set<(Path, string)>, src: Path, name: string, dst: Path)
    ensures var r := SafeMoveSpec(dirs, stuck, src, name, dst);
      forall d, n :: d in r.0 && n in r.0[d] ==> (d in dirs && n in dirs[d]) || (d == dst && n == r.1.target)
  {
    var r := SafeMoveSpec(dirs, stuck, src, name, dst);
    if r.1.Moved? {
      RelocateAddsOnlyTarget(MakeDir(dirs, dst), src, name, dst, r.1.target);
    }
  }

  /** The name `safe_move` chooses when the plain name is taken: the smallest free `stem__i`. */
  lemma SafeMoveRenames(dirs: map<Path, Dir>, stuck: set<(Path, string)>, src: Path, name: string, dst: Path)
    requires name in MakeDir(dirs, dst)[dst]
    ensures var taken := MakeDir(dirs, dst)[dst].Keys;
      var t := SafeMoveSpec(dirs, stuck, src, name, dst).1.target;
      exists i :: 1 <= i <= |taken| && t == Stem(name) + "__" + NatToString(i) + Suffix(name)
        && forall j :: 1 <= j < i ==> Stem(name) + "__" + NatToString(j) + Suffix(name) in taken
  {
    var taken := MakeDir(dirs, dst)[dst].Keys;
    var k := FreeIndex(taken, name);
    assert k != 0;
    forall j | 1 <= j < k ensures Stem(name) + "__" + NatToString(j) + Suffix(name) in taken {
      assert Candidate(name, j) in taken;
    }
  }

  // ---------------------------------------------------------------------
  // Archiving a directory
  // ---------------------------------------------------------------------

  /** `sorted(source_dir.glob("*.parquet"))`, by name. */
  function ParquetFiles(dir: Dir): (r: seq<string>)
    ensures StrictlySorted(r)
    ensures forall n :: n in r <==> n in dir && IsParquetName(n)
  {
    ParquetListing(dir.Keys)
  }

  /** The return code of `archive_parquets` and its `moved_count`. */
  datatype Report = Report(code: int, processed: nat)

  /** The move loop from the given file on, with `moved` files already done. */
  function MoveFrom(dirs: map<Path, Dir>, stuck: set<(Path, string)>, src: Path, dst: Path, files: seq<string>, moved: nat): (r: (map<Path, Dir>, Report))
    ensures r.1.code == 0 || r.1.code == 2
    ensures moved <= r.1.processed <= moved + |files|
    ensures r.1.code == 0 ==> r.1.processed == moved + |files|
    decreases |files|
  {
    if files == [] then (dirs, Report(0, moved))
    else
      var step := SafeMoveSpec(dirs, stuck, src, files[0], dst);
      if step.1.Raised? then (step.0, Report(2, moved))
      else MoveFrom(step.0, stuck, src, dst, files[1..], moved + 1)
  }

  /** A regular file: the last part of the path names a file of the directory the rest names. */
  predicate IsFile(dirs: map<Path, Dir>, p: Path) {
    |p| > 0 && p[..|p| - 1] in dirs && p[|p| - 1] in dirs[p[..|p| - 1]]
  }

  /** `Path.exists()`: a directory or a regular file. */
  predicate Exists(dirs: map<Path, Dir>, p: Path) {
    p in dirs || IsFile(dirs, p)
  }

  /**
    `archive_parquets(source_dir, backup_dir, dry_run)`. A source that is
    a regular file passes the existence test, and `glob` finds nothing
    under it.
  */
  function ArchiveSpec(dirs: map<Path, Dir>, stuck: set<(Path, string)>, src: Path, dst: Path, dryRun: bool): (r: (map<Path, Dir>, Report))
    ensures r.1.code == 1 <==> !Exists(dirs, src) || |src| < 3
    ensures r.1.code == 1 ==> r.0 == dirs && r.1.processed == 0
    ensures dryRun ==> r.0 == dirs && r.1.code != 2
    ensures dryRun && src in dirs && |src| >= 3 ==> r.1.processed == |ParquetFiles(dirs[src])|
    ensures src !in dirs && IsFile(dirs, src) && |src| >= 3 ==> r == (dirs, Report(0, 0))
    ensures src in dirs && |src| >= 3 && ParquetFiles(dirs[src]) == [] ==> r == (dirs, Report(0, 0))
  {
    if !Exists(dirs, src) || |src| < 3 then (dirs, Report(1, 0))
    else if src !in dirs then (dirs, Report(0, 0))
    else
      var files := ParquetFiles(dirs[src]);
      if files == [] then (dirs, Report(0, 0))
      else if dryRun then (dirs, Report(0, |files|))
      else MoveFrom(dirs, stuck, src, dst, files, 0)
  }

  /** One turn of the move loop: file `i`, then, unless it raised, the files after it. */
  lemma MoveFromStep(dirs: map<Path, Dir>, stuck: set<(Path, string)>, src: Path, dst: Path, files: seq<string>, i: nat)
    requires i < |files|
    ensures var step := SafeMoveSpec(dirs, stuck, src, files[i], dst);
      MoveFrom(dirs, stuck, src, dst, files[i..], i)
        == if step.1.Raised? then (step.0, Report(2, i)) else MoveFrom(step.0, stuck, src, dst, files[i + 1..], i + 1)
  {
    assert files[i..][0] == files[i] && files[i..][1..] == files[i + 1..];
  }

  class FileSystem {
    var dirs: map<Path, Dir>
    /** Files the operating system refuses to move (locked, no permission). */
    const stuck: set<(Path, string)>

    constructor (dirs: map<Path, Dir>, stuck: set<(Path, string)>)
      ensures this.dirs == dirs && this.stuck == stuck
    {
      this.dirs := dirs;
      this.stuck := stuck;
    }

    /** `safe_move(src_dir / name, dst_dir)` */
    method SafeMove(src: Path, name: string, dst: Path) returns (m: MoveResult)
      modifies this
      ensures (dirs, m) == SafeMoveSpec(old(dirs), stuck, src, name, dst)
    {
      if dst !in dirs {
        dirs := dirs[dst := map[]];
      }
      var taken := dirs[dst].Keys;
      var candidate := name;
      if candidate in taken {
        var stem, suffix := Stem(name), Suffix(name);
        Pigeonhole(taken, name, 1);
        var i := 1;
        candidate := stem + "__" + NatToString(i) + suffix;
        while candidate in taken
          invariant 1 <= i <= |taken|
          invariant candidate == Candidate(name, i)
          invariant forall j: nat :: j < i ==> Candidate(name, j) in taken
          invariant dirs == MakeDir(old(dirs), dst)
          decreases |taken| - i
        {
          Pigeonhole(taken, name, i + 1);
          i := i + 1;
          candidate := stem + "__" + NatToString(i) + suffix;
        }
        FreeIndexUnique(taken, name, i);
      } else {
        FreeIndexUnique(taken, name, 0);
      }
      if src !in dirs || name !in dirs[src] || (src, name) in stuck {
        return Raised(candidate);
      }
      var blob := dirs[src][name];
      dirs := dirs[src := dirs[src] - {name}];
      dirs := dirs[dst := dirs[dst][candidate := blob]];
      return Moved(candidate);
    }

    /** `archive_parquets`: the return code and the number of files handled. */
    method Archive(src: Path, dst: Path, dryRun: bool) returns (code: int, processed: nat)
      modifies this
      ensures (dirs, Report(code, processed)) == ArchiveSpec(old(dirs), stuck, src, dst, dryRun)
    {
      if !Exists(dirs, src) {
        return 1, 0;
      }
      if |src| < 3 {
        return 1, 0;
      }
      if src !in dirs {
        // `glob` under a regular file finds nothing
        return 0, 0;
      }
      var files := ParquetFiles(dirs[src]);
      if |files| == 0 {
        return 0, 0;
      }
      if dryRun {
        // the loop only logs what it would move, and counts every file
        return 0, |files|;
      }
      code, processed := MoveAll(src, dst, files);
    }

    /** The loop of `archive_parquets` when it moves: each file in turn, stopping at the first that raises. */
    method MoveAll(src: Path, dst: Path, files: seq<string>) returns (code: int, processed: nat)
      modifies this
      ensures (dirs, Report(code, processed)) == MoveFrom(old(dirs), stuck, src, dst, files, 0)
    {
      processed := 0;
      for i := 0 to |files|
        invariant processed == i
        invariant MoveFrom(dirs, stuck, src, dst, files[i..], i) == MoveFrom(old(dirs), stuck, src, dst, files, 0)
      {
        MoveFromStep(dirs, stuck, src, dst, files, i);
        var m := SafeMove(src, files[i], dst);
        if m.Raised? {
          return 2, processed;
        }
        processed := processed + 1;
      }
      return 0, processed;
    }
  }

  // ---------------------------------------------------------------------
  // Properties of archiving
  // ---------------------------------------------------------------------

  /**
    Fail-fast: the loop over `a + b` is the loop over `a` followed, only
    if nothing raised, by the loop over `b`; moves already done stay done.
  */
  lemma {:induction false} MoveFromConcat(dirs: map<Path, Dir>, stuck: set<(Path, string)>, src: Path, dst: Path, a: seq<string>, b: seq<string>, moved: nat)
    ensures var r := MoveFrom(dirs, stuck, src, dst, a, moved);
      MoveFrom(dirs, stuck, src, dst, a + b, moved)
        == if r.1.code == 2 then r else MoveFrom(r.0, stuck, src, dst, b, r.1.processed)
    decreases |a|
  {
    if a == [] {
      assert a + b == b;
    } else {
      assert (a + b)[0] == a[0] && (a + b)[1..] == a[1..] + b;
      var step := SafeMoveSpec(dirs, stuck, src, a[0], dst);
      if step.1.Moved? {
        MoveFromConcat(step.0, stuck, src, dst, a[1..], b, moved + 1);
      }
    }
  }

  /**
    The loop never overwrites and loses nothing: every file except the
    listed ones in the source keeps its name and content.
  */
  lemma {:induction false} MoveFromKeepsOthers(dirs: map<Path, Dir>, stuck: set<(Path, string)>, src: Path, dst: Path, files: seq<string>, moved: nat)
    ensures KeepsExcept(dirs, MoveFrom(dirs, stuck, src, dst, files, moved).0, src, files)
    decreases |files|
  {
    if files != [] {
      var step := SafeMoveSpec(dirs, stuck, src, files[0], dst);
      SafeMoveKeepsOthers(dirs, stuck, src, files[0], dst);
      assert [files[0]] == files[..1];
      if step.1.Moved? {
        MoveFromKeepsOthers(step.0, stuck, src, dst, files[1..], moved + 1);
        KeepsExceptTrans(dirs, step.0, MoveFrom(step.0, stuck, src, dst, files[1..], moved + 1).0, src, files);
      } else {
        forall d, n | d in dirs && n in Remaining(dirs, d, src, files)
          ensures d in step.0 && n in step.0[d] && step.0[d][n] == dirs[d][n]
        {
          assert n in Remaining(dirs, d, src, [files[0]]);
        }
      }
    }
  }

  /** The loop creates files only in the backup directory. */
  lemma {:induction false} MoveFromAddsOnlyBackup(dirs: map<Path, Dir>, stuck: set<(Path, string)>, src: Path, dst: Path, files: seq<string>, moved: nat)
    ensures var r := MoveFrom(dirs, stuck, src, dst, files, moved).0;
      forall d, n :: d in r && n in r[d] && !(d in dirs && n in dirs[d]) ==> d == dst
    decreases |files|
  {
    if files != [] {
      var step := SafeMoveSpec(dirs, stuck, src, files[0], dst);
      SafeMoveAddsOnlyTarget(dirs, stuck, src, files[0], dst);
      if step.1.Moved? {
        MoveFromAddsOnlyBackup(step.0, stuck, src, dst, files[1..], moved + 1);
      }
    }
  }

  /**
    Whatever the outcome, archiving never overwrites or loses a file other
    than the source's `.parquet` files.
  */
  lemma ArchiveKeepsOthers(dirs: map<Path, Dir>, stuck: set<(Path, string)>, src: Path, dst: Path, dryRun: bool)
    requires src in dirs
    ensures KeepsExcept(dirs, ArchiveSpec(dirs, stuck, src, dst, dryRun).0, src, ParquetFiles(dirs[src]))
  {
    var files := ParquetFiles(dirs[src]);
    if |src| >= 3 && files != [] && !dryRun {
      MoveFromKeepsOthers(dirs, stuck, src, dst, files, 0);
    } else {
      forall d, n | d in dirs && n in Remaining(dirs, d, src, files)
        ensures d in dirs && n in dirs[d]
      {
      }
    }
  }

  /** Whatever the outcome, archiving creates files only in the backup directory. */
  lemma ArchiveAddsOnlyBackup(dirs: map<Path, Dir>, stuck: set<(Path, string)>, src: Path, dst: Path, dryRun: bool)
    ensures var r := ArchiveSpec(dirs, stuck, src, dst, dryRun).0;
      forall d, n :: d in r && n in r[d] && !(d in dirs && n in dirs[d]) ==> d == dst
  {
    var r := ArchiveSpec(dirs, stuck, src, dst, dryRun);
    if src in dirs && |src| >= 3 && ParquetFiles(dirs[src]) != [] && !dryRun {
      assert r == MoveFrom(dirs, stuck, src, dst, ParquetFiles(dirs[src]), 0);
      MoveFromAddsOnlyBackup(dirs, stuck, src, dst, ParquetFiles(dirs[src]), 0);
    } else {
      assert r.0 == dirs;
    }
  }

  /**
    When backup and source differ and nothing raises, every listed file
    leaves the source, which keeps all its other files, and the backup
    gains exactly one file per listed file, each listed file's content
    reappearing there under a name the backup did not have.
  */
  lemma {:induction false} MoveFromSuccess(dirs: map<Path, Dir>, stuck: set<(Path, string)>, src: Path, dst: Path, files: seq<string>, moved: nat)
    requires src != dst && files != []
    requires forall i, j :: 0 <= i < j < |files| ==> files[i] != files[j]
    ensures var r := MoveFrom(dirs, stuck, src, dst, files, moved);
      r.1.code == 0 ==>
        src in dirs && src in r.0 && dst in r.0
        && (forall n :: n in r.0[src] <==> n in dirs[src] && n !in files)
        && |r.0[dst]| == |MakeDir(dirs, dst)[dst]| + |files|
        && (forall f :: f in files ==>
              f in dirs[src] && exists n :: n in r.0[dst] && n !in MakeDir(dirs, dst)[dst] && r.0[dst][n] == dirs[src][f])
    decreases |files|
  {
    var step := SafeMoveSpec(dirs, stuck, src, files[0], dst);
    var r := MoveFrom(dirs, stuck, src, dst, files, moved);
    if step.1.Moved? {
      var d1 := step.0;
      var target := step.1.target;
      assert d1[src] == dirs[src] - {files[0]};
      assert d1[dst] == MakeDir(dirs, dst)[dst][target := dirs[src][files[0]]];
      assert |d1[dst]| == |MakeDir(dirs, dst)[dst]| + 1;
      if |files| > 1 {
        MoveFromSuccess(d1, stuck, src, dst, files[1..], moved + 1);
        if r.1.code == 0 {
          forall n ensures n in r.0[src] <==> n in dirs[src] && n !in files {
            assert n in files <==> n == files[0] || n in files[1..];
          }
          MoveFromKeepsOthers(d1, stuck, src, dst, files[1..], moved + 1);
          assert target in Remaining(d1, dst, src, files[1..]);
          forall f | f in files
            ensures f in dirs[src] && exists n :: n in r.0[dst] && n !in MakeDir(dirs, dst)[dst] && r.0[dst][n] == dirs[src][f]
          {
            if f == files[0] {
              assert target in r.0[dst] && r.0[dst][target] == dirs[src][f];
            } else {
              assert f in files[1..];
              var n :| n in r.0[dst] && n !in MakeDir(d1, dst)[dst] && r.0[dst][n] == d1[src][f];
              assert n !in MakeDir(dirs, dst)[dst];
            }
          }
        }
      } else {
        assert files == [files[0]];
        assert target in r.0[dst] && r.0[dst][target] == dirs[src][files[0]];
      }
    }
  }

  /**
    A successful real run leaves no `.parquet` file in the source, keeps
    its other files, adds one backup file per moved file, holding that
    file's content under a new name, and counts every file as processed.
  */
  lemma ArchiveSuccess(dirs: map<Path, Dir>, stuck: set<(Path, string)>, src: Path, dst: Path)
    requires src != dst
    ensures var r := ArchiveSpec(dirs, stuck, src, dst, false);
      r.1.code == 0 && src in dirs ==>
        var files := ParquetFiles(dirs[src]);
        r.1.processed == |files|
        && src in r.0 && ParquetFiles(r.0[src]) == []
        && (forall n :: n in dirs[src] && !IsParquetName(n) ==> n in r.0[src])
        && (files != [] ==> dst in r.0 && |r.0[dst]| == |MakeDir(dirs, dst)[dst]| + |files|)
        && (forall f :: f in files ==>
              exists n :: dst in r.0 && n in r.0[dst] && n !in MakeDir(dirs, dst)[dst] && r.0[dst][n] == dirs[src][f])
  {
    var r := ArchiveSpec(dirs, stuck, src, dst, false);
    if r.1.code == 0 && src in dirs {
      var files := ParquetFiles(dirs[src]);
      if files != [] {
        MoveFromSuccess(dirs, stuck, src, dst, files, 0);
      }
    }
  }
}
