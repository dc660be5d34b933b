/** The stand-ins for the Flysystem filesystems the replicator writes to: a
    filesystem (or a zip archive) is a finite map from relative path to file
    content, directories exist only as prefixes of file paths. Also the
    per-file status records, and a journal of the operations the pipeline
    performs, used to state in which order things happen. */
module Storage {
  import opened PhpStrings
  import opened OrderedArrays

  type Fs = map<string, string>

  datatype Option<T> = None | Some(value: T)

  /** `p` lies in the directory `dir`, at any depth. */
  predicate UnderDir(p: string, dir: string) {
    dir + "/" <= p
  }

  /** The files of the subtree `dir`; `listContents(dir)` is empty exactly
      when this set is. */
  function Subtree(fs: Fs, dir: string): set<string> {
    set p | p in fs && UnderDir(p, dir)
  }

  /** No file of `fs` has a path that begins with `name`. */
  ghost predicate Unused(fs: Fs, name: string) {
    forall p :: p in fs ==> !(name <= p)
  }

  /** `deleteDir(dir)`: removes the whole subtree and nothing else. */
  function RemoveDir(fs: Fs, dir: string): (r: Fs)
    ensures forall p :: p in r <==> p in fs && !UnderDir(p, dir)
    ensures forall p :: p in r ==> r[p] == fs[p]
    ensures Subtree(r, dir) == {}
  {
    map p | p in fs && !UnderDir(p, dir) :: fs[p]
  }

  /** Flysystem 1's `copy(src, dst)` asserts that `src` exists and that
      `dst` does not, and throws otherwise; when it goes through, the
      content of `src` also appears at `dst`. */
  predicate CopyOk(fs: Fs, src: string, dst: string) {
    src in fs && dst !in fs
  }

  /** Where a run of copies stands: the filesystem, how many copies were
      made, and whether the next one threw. */
  datatype Copies = Copies(fs: Fs, done: nat, failed: bool)

  /** The first `n` copies of a plan of (source, destination) pairs, made in
      order; a copy that throws ends the run, so nothing after it happens. */
  function CopyAll(fs: Fs, plan: seq<(string, string)>, n: nat): (r: Copies)
    requires n <= |plan|
    ensures r.done <= n && (!r.failed ==> r.done == n)
    decreases n
  {
    if n == 0 then Copies(fs, 0, false)
    else
      var c := CopyAll(fs, plan, n - 1);
      var (src, dst) := plan[n - 1];
      if c.failed then c
      else if CopyOk(c.fs, src, dst) then Copies(c.fs[dst := c.fs[src]], n, false)
      else Copies(c.fs, n - 1, true)
  }

  /** The copy loop of a backup: the copies in plan order, until one throws. */
  method CopyEach(fs: Fs, plan: seq<(string, string)>) returns (c: Copies)
    ensures c == CopyAll(fs, plan, |plan|)
  {
    var out := fs;
    var k, done, failed := 0, 0, false;
    while k < |plan| && !failed
      invariant 0 <= k <= |plan|
      invariant CopyAll(fs, plan, k) == Copies(out, done, failed)
    {
      var (src, dst) := plan[k];
      if src in out && dst !in out {
        out := out[dst := out[src]];
        done := done + 1;
      } else {
        failed := true;
      }
      k := k + 1;
    }
    if failed {
      CopyAllStops(fs, plan, k, |plan|);
    }
    c := Copies(out, done, failed);
  }

  /** One entry of a recursive `listContents`: its path and whether it is
      of type "file" (otherwise a directory). */
  datatype Entry = Entry(path: string, isFile: bool)

  /** The paths of the file entries among the first `n` entries of a
      listing, in listing order. */
  function FilePaths(listing: seq<Entry>, n: nat): (r: seq<string>)
    requires n <= |listing|
    ensures |r| <= n
    decreases n
  {
    if n == 0 then []
    else FilePaths(listing, n - 1) + (if listing[n - 1].isFile then [listing[n - 1].path] else [])
  }

  /** The file paths are exactly the paths of the entries of type "file". */
  lemma {:induction false} FilePathsMembers(listing: seq<Entry>, n: nat)
    requires n <= |listing|
    ensures forall p :: p in FilePaths(listing, n) <==> exists i :: 0 <= i < n && listing[i].isFile && listing[i].path == p
    decreases n
  {
    if n > 0 {
      FilePathsMembers(listing, n - 1);
    }
  }

  ghost predicate Distinct(s: seq<string>) {
    forall i, j :: 0 <= i < j < |s| ==> s[i] != s[j]
  }

  /** A recursive listing of `dir`: its file entries name every file of the
      subtree exactly once. */
  ghost predicate IsListing(fs: Fs, dir: string, listing: seq<Entry>) {
    var files := FilePaths(listing, |listing|);
    Distinct(files) && (forall p :: p in files <==> p in Subtree(fs, dir))
  }

  /** One record of `$this->status['local']` or `$this->status['zip']`. The
      local ledger of the first copy of the code carries no message. */
  datatype Record = Record(destination: string, partialPath: string, success: bool, message: Option<string>)

  /** `put(path, contents)` on every key of `files`, at `prefix + key`, in
      order; a put whose success flag is false leaves the map as it was. */
  function WriteAll(fs: Fs, prefix: string, files: OArray<string, string>, ok: string -> bool, n: nat): Fs
    requires files.Valid() && n <= |files.keys|
    decreases n
  {
    if n == 0 then fs
    else
      var key := files.keys[n - 1];
      var f := WriteAll(fs, prefix, files, ok, n - 1);
      if ok(prefix + key) then f[prefix + key := files.vals[key]] else f
  }

  /** The operations the pipeline performs, in a journal. */
  datatype Op =
    | Copied(from: string, to: string)   // a backup copy
    | DirDeleted(dir: string)            // deleteDir
    | Staged(path: string)               // an entry assigned into the in-memory file set
    | Wrote(path: string)                // a put on the destination filesystem
    | Zipped(path: string)               // a put into the archive
    | ZipClosed                          // the archive handle closed

  /** The phase each operation belongs to. */
  function Rank(op: Op): nat {
    match op
    case Copied(_, _) => 0
    case DirDeleted(_) => 1
    case Staged(_) => 2
    case Wrote(_) => 3
    case Zipped(_) => 4
    case ZipClosed => 5
  }

  /** The journal goes through the phases in order and never returns to an
      earlier one. */
  ghost predicate PhaseOrdered(j: seq<Op>) {
    forall i, k :: 0 <= i < k < |j| ==> Rank(j[i]) <= Rank(j[k])
  }

  /** Every operation of `j` belongs to a phase between `lo` and `hi`. */
  ghost predicate InPhases(j: seq<Op>, lo: nat, hi: nat) {
    forall i :: 0 <= i < |j| ==> lo <= Rank(j[i]) <= hi
  }

  function Count(j: seq<Op>, op: Op): nat {
    if j == [] then 0 else (if j[0] == op then 1 else 0) + Count(j[1..], op)
  }

  /** The journal `j` extended with the operations of the first `n` puts of
      `WriteAll`, one per key. */
  function PutOps(j: seq<Op>, prefix: string, files: OArray<string, string>, n: nat, zipped: bool): seq<Op>
    requires n <= |files.keys|
    decreases n
  {
    if n == 0 then j
    else
      var p := prefix + files.keys[n - 1];
      PutOps(j, prefix, files, n - 1, zipped) + [if zipped then Zipped(p) else Wrote(p)]
  }

  /** The journal `j` extended with the first `n` copies of a plan. */
  function CopyOps(j: seq<Op>, plan: seq<(string, string)>, n: nat): seq<Op>
    requires n <= |plan|
    decreases n
  {
    if n == 0 then j else CopyOps(j, plan, n - 1) + [Copied(plan[n - 1].0, plan[n - 1].1)]
  }

  // ---------------------------------------------------------------------
  // Facts

  /** Journals of ordered phases, one after another, stay ordered. */
  lemma OrderedAppend(a: seq<Op>, b: seq<Op>, m: nat)
    requires PhaseOrdered(a) && PhaseOrdered(b)
    requires InPhases(a, 0, m) && InPhases(b, m, 5)
    ensures PhaseOrdered(a + b)
  {
    forall i, k | 0 <= i < k < |a + b| ensures Rank((a + b)[i]) <= Rank((a + b)[k]) {
      if k < |a| {
        assert (a + b)[i] == a[i] && (a + b)[k] == a[k];
      } else if i >= |a| {
        assert (a + b)[i] == b[i - |a|] && (a + b)[k] == b[k - |a|];
      } else {
        assert (a + b)[i] == a[i] && (a + b)[k] == b[k - |a|];
      }
    }
  }

  lemma InPhasesAppend(a: seq<Op>, b: seq<Op>, lo: nat, hi: nat)
    requires InPhases(a, lo, hi) && InPhases(b, lo, hi)
    ensures InPhases(a + b, lo, hi)
  {
    assert forall i :: 0 <= i < |a + b| ==> (a + b)[i] == if i < |a| then a[i] else b[i - |a|];
  }

  /** A journal within some phases is within any wider range. */
  lemma InPhasesWiden(j: seq<Op>, lo: nat, hi: nat, lo2: nat, hi2: nat)
    requires InPhases(j, lo, hi) && lo2 <= lo && hi <= hi2
    ensures InPhases(j, lo2, hi2)
  {
  }

  /** A journal of one phase only is ordered. */
  lemma OnePhaseOrdered(j: seq<Op>, p: nat)
    requires InPhases(j, p, p)
    ensures PhaseOrdered(j)
  {
  }

  lemma {:induction false} CountAppend(a: seq<Op>, b: seq<Op>, op: Op)
    ensures Count(a + b, op) == Count(a, op) + Count(b, op)
    decreases |a|
  {
    if a == [] {
      assert a + b == b;
    } else {
      assert (a + b)[1..] == a[1..] + b;
      CountAppend(a[1..], b, op);
    }
  }

  lemma {:induction false} CountAbsent(j: seq<Op>, op: Op)
    requires forall i :: 0 <= i < |j| ==> j[i] != op
    ensures Count(j, op) == 0
    decreases |j|
  {
    if j != [] {
      CountAbsent(j[1..], op);
    }
  }

  /** A run of copies never overwrites or removes a file that was there
      before it, and every path it adds is the destination of a copy it
      made. */
  lemma {:induction false} CopyAllKeeps(fs: Fs, plan: seq<(string, string)>, n: nat)
    requires n <= |plan|
    ensures var c := CopyAll(fs, plan, n);
      && (forall p :: p in fs ==> p in c.fs && c.fs[p] == fs[p])
      && (forall p :: p in c.fs && p !in fs ==> exists i :: 0 <= i < c.done && plan[i].1 == p)
    decreases n
  {
    if n > 0 {
      CopyAllKeeps(fs, plan, n - 1);
      var c := CopyAll(fs, plan, n - 1);
      if !c.failed && CopyOk(c.fs, plan[n - 1].0, plan[n - 1].1) {
        var r := CopyAll(fs, plan, n);
        forall p | p in r.fs && p !in fs
          ensures exists i :: 0 <= i < r.done && plan[i].1 == p
        {
          if p != plan[n - 1].1 {
            var i :| 0 <= i < c.done && plan[i].1 == p;
          }
        }
      }
    }
  }

  /** Once a copy has thrown, the later copies of the plan are never made. */
  lemma {:induction false} CopyAllStops(fs: Fs, plan: seq<(string, string)>, k: nat, n: nat)
    requires k <= n <= |plan| && CopyAll(fs, plan, k).failed
    ensures CopyAll(fs, plan, n) == CopyAll(fs, plan, k)
    decreases n
  {
    if k < n {
      CopyAllStops(fs, plan, k, n - 1);
    }
  }

  /** When every source exists, no destination does, and the destinations
      are distinct, no copy throws and each destination ends up with the
      original content of its source. */
  lemma {:induction false} CopyAllLands(fs: Fs, plan: seq<(string, string)>, n: nat)
    requires n <= |plan|
    requires forall i :: 0 <= i < n ==> plan[i].0 in fs && plan[i].1 !in fs
    requires forall i, j :: 0 <= i < j < n ==> plan[i].1 != plan[j].1
    ensures var c := CopyAll(fs, plan, n);
      && !c.failed
      && forall i :: 0 <= i < n ==> plan[i].1 in c.fs && c.fs[plan[i].1] == fs[plan[i].0]
    decreases n
  {
    if n > 0 {
      CopyAllLands(fs, plan, n - 1);
      CopyAllKeeps(fs, plan, n - 1);
    }
  }

  /** The operations appended by `PutOps` do not depend on the journal they
      extend; there is one per put, all of one phase. */
  lemma {:induction false} PutOpsShift(j: seq<Op>, prefix: string, files: OArray<string, string>, n: nat, zipped: bool)
    requires n <= |files.keys|
    ensures PutOps(j, prefix, files, n, zipped) == j + PutOps([], prefix, files, n, zipped)
    ensures |PutOps([], prefix, files, n, zipped)| == n
    ensures InPhases(PutOps([], prefix, files, n, zipped), if zipped then 4 else 3, if zipped then 4 else 3)
    decreases n
  {
    if n > 0 {
      PutOpsShift(j, prefix, files, n - 1, zipped);
      var p := prefix + files.keys[n - 1];
      AppendAssoc(j, PutOps([], prefix, files, n - 1, zipped), [if zipped then Zipped(p) else Wrote(p)]);
    }
  }

  /** The same for the copies of a backup. */
  lemma {:induction false} CopyOpsShift(j: seq<Op>, plan: seq<(string, string)>, n: nat)
    requires n <= |plan|
    ensures CopyOps(j, plan, n) == j + CopyOps([], plan, n)
    ensures InPhases(CopyOps([], plan, n), 0, 0)
    decreases n
  {
    if n > 0 {
      CopyOpsShift(j, plan, n - 1);
      AppendAssoc(j, CopyOps([], plan, n - 1), [Copied(plan[n - 1].0, plan[n - 1].1)]);
    }
  }

  lemma AppendAssoc<T>(a: seq<T>, b: seq<T>, c: seq<T>)
    ensures a + b + c == a + (b + c)
  {
  }

  /** A path outside a directory stays outside after removing the directory,
      with the same content. */
  lemma RemoveDirKeeps(fs: Fs, dir: string, p: string)
    requires p in fs && !UnderDir(p, dir)
    ensures p in RemoveDir(fs, dir) && RemoveDir(fs, dir)[p] == fs[p]
  {
  }

  /** A successful put survives the later puts of `WriteAll`: with one
      prefix, distinct keys give distinct paths. */
  lemma {:induction false} WriteAllAt(fs: Fs, prefix: string, files: OArray<string, string>, ok: string -> bool, n: nat, i: nat)
    requires files.Valid() && i < n <= |files.keys|
    requires ok(prefix + files.keys[i])
    ensures prefix + files.keys[i] in WriteAll(fs, prefix, files, ok, n)
    ensures WriteAll(fs, prefix, files, ok, n)[prefix + files.keys[i]] == files.vals[files.keys[i]]
    decreases n
  {
    if i < n - 1 {
      WriteAllAt(fs, prefix, files, ok, n - 1, i);
      var a, b := prefix + files.keys[i], prefix + files.keys[n - 1];
      assert a[|prefix|..] == files.keys[i] && b[|prefix|..] == files.keys[n - 1];
    }
  }

  /** A path that no successful put of `WriteAll` names keeps its content. */
  lemma {:induction false} WriteAllElsewhere(fs: Fs, prefix: string, files: OArray<string, string>, ok: string -> bool, n: nat, p: string)
    requires files.Valid() && n <= |files.keys|
    requires forall i :: 0 <= i < n ==> p != prefix + files.keys[i] || !ok(p)
    ensures p in WriteAll(fs, prefix, files, ok, n) <==> p in fs
    ensures p in fs ==> WriteAll(fs, prefix, files, ok, n)[p] == fs[p]
    decreases n
  {
    if n > 0 {
      WriteAllElsewhere(fs, prefix, files, ok, n - 1, p);
    }
  }
}
