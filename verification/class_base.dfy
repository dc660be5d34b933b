/** The second copy of the pipeline, src/class-base.php: `run`, `exists`,
    `replicate`, `write`, `zip` and `set_type`. It shares the template rule,
    the rendering and the file-set building with src/Base.php and differs in
    the backup naming, the write ledger, an archive pass that `write`
    always makes, and the archive contents.

    The stand-ins are those of the first copy; `token` is the text after
    "backup_" of the one `uniqid` call of a backup. */
module ClassBase {
  import opened PhpStrings
  import opened OrderedArrays
  import opened Storage
  import Base

  /** `$this->types`: each accepted input names either a "map" (an alias)
      or a "slug" (the type itself). */
  const Types: map<string, map<string, string>> := map[
    "plugin" := map["map" := "plugins"],
    "plugins" := map["slug" := "plugins"],
    "theme" := map["map" := "themes"],
    "themes" := map["slug" := "themes"],
    "abspath" := map["slug" := "abspath"],
    "root" := map["map" := "abspath"],
    "package" := map["map" := "packages"],
    "packages" := map["slug" := "packages"],
    "wpcli" := map["map" := "packages"],
    "cmd" := map["map" := "packages"]
  ]

  /** The type `set_type` stores for an accepted input: the "map" value
      when there is one, else the "slug" value. */
  function TypeOf(input: string): string
    requires input in Types
  {
    if "map" in Types[input] then Types[input]["map"] else Types[input]["slug"]
  }

  /** Every accepted input resolves to one of the four directory keys, and
      a resolved type resolves to itself. */
  lemma TypeOfSpec(input: string)
    requires input in Types
    ensures TypeOf(input) in {"plugins", "themes", "abspath", "packages"}
    ensures TypeOf(input) in Types && TypeOf(TypeOf(input)) == TypeOf(input)
  {
    var t := TypeOf(input);
    assert t == "plugins" || t == "themes" || t == "abspath" || t == "packages";
    assert "map" !in Types[t] && Types[t]["slug"] == t;
  }

  /** The aliases agree with the alias table of the first copy; every
      other accepted input is a type already. */
  lemma TypeOfAgrees(input: string)
    requires input in Types
    ensures input in Base.TypeMaps ==> TypeOf(input) == Base.MappedType(input)
    ensures input !in Base.TypeMaps ==> TypeOf(input) == input
  {
    if input in Base.TypeMaps {
      assert "map" in Types[input] && Types[input]["map"] == Base.TypeMaps[input]["map"];
    } else {
      assert "map" !in Types[input] && Types[input]["slug"] == input;
    }
  }

  // ---------------------------------------------------------------------
  // exists

  /** The one backup directory name, built before the copy loop. */
  function BackupDir(slug: string, token: string): string {
    slug + "-backup_" + token
  }

  /** The copies the backup branch of `exists` plans for the first `n`
      entries of the listing: file entries only, every occurrence of the
      slug in the path replaced by the one backup directory name. */
  function SharedBackupPlan(slug: string, listing: seq<Entry>, token: string, n: nat): seq<(string, string)>
    requires n <= |listing|
    decreases n
  {
    if n == 0 then []
    else
      var e := listing[n - 1];
      SharedBackupPlan(slug, listing, token, n - 1) +
        (if e.isFile then [(e.path, ReplaceCI(e.path, slug, BackupDir(slug, token)))] else [])
  }

  /** The plan names the file entries in listing order, each with its backup path. */
  lemma {:induction false} SharedBackupPlanSpec(slug: string, listing: seq<Entry>, token: string, n: nat)
    requires n <= |listing|
    ensures var plan, files := SharedBackupPlan(slug, listing, token, n), FilePaths(listing, n);
      && |plan| == |files|
      && forall i :: 0 <= i < |plan| ==> plan[i] == (files[i], ReplaceCI(files[i], slug, BackupDir(slug, token)))
    decreases n
  {
    if n > 0 {
      SharedBackupPlanSpec(slug, listing, token, n - 1);
    }
  }

  /** `exists()` with the operator's choice and confirmation. */
  function ExistsResolution(fs: Fs, j: seq<Op>, slug: string, choice: string, confirmed: bool,
                  listing: seq<Entry>, token: string): Base.Resolution
  {
    if Subtree(fs, slug) == {} then Base.Proceed(fs, j)
    else if choice == "delete" then
      if confirmed then Base.Proceed(RemoveDir(fs, slug), j + [DirDeleted(slug)]) else Base.Abort
    else if choice == "backup" then
      var plan := SharedBackupPlan(slug, listing, token, |listing|);
      var c := CopyAll(fs, plan, |plan|);
      if c.failed then Base.Thrown(c.fs, CopyOps(j, plan, c.done))
      else Base.Proceed(RemoveDir(c.fs, slug), CopyOps(j, plan, |plan|) + [DirDeleted(slug)])
    else Base.Proceed(fs, j)
  }

  /** `exists` exits exactly when the slug directory has files, "delete"
      was chosen and not confirmed, and throws only in the backup of such a
      directory; an empty directory or "overwrite" changes nothing; a
      delete or a finished backup leaves no file under the slug; unless it
      exits, it keeps every file outside the slug directory with its
      content, and a backup that throws keeps every file. */
  lemma ExistsOutcome(fs: Fs, j: seq<Op>, slug: string, choice: string, confirmed: bool,
                      listing: seq<Entry>, token: string)
    ensures var r := ExistsResolution(fs, j, slug, choice, confirmed, listing, token);
      && (r.Abort? <==> Subtree(fs, slug) != {} && choice == "delete" && !confirmed)
      && (r.Thrown? ==> Subtree(fs, slug) != {} && choice == "backup")
      && (r.Proceed? && (Subtree(fs, slug) == {} || (choice != "delete" && choice != "backup")) ==>
          r.fs == fs && r.journal == j)
      && (r.Proceed? && (choice == "delete" || choice == "backup") ==> Subtree(r.fs, slug) == {})
      && (!r.Abort? ==> forall p :: p in fs && !UnderDir(p, slug) ==> p in r.fs && r.fs[p] == fs[p])
      && (r.Thrown? ==> forall p :: p in fs ==> p in r.fs && r.fs[p] == fs[p])
  {
    if Subtree(fs, slug) != {} && choice == "backup" {
      var plan := SharedBackupPlan(slug, listing, token, |listing|);
      CopyAllKeeps(fs, plan, |plan|);
    }
  }

  /** A backup's journal: the copies made, then the single deleteDir unless
      a copy threw. */
  lemma ExistsJournal(fs: Fs, j: seq<Op>, slug: string, confirmed: bool, listing: seq<Entry>, token: string)
    requires Subtree(fs, slug) != {}
    ensures var plan := SharedBackupPlan(slug, listing, token, |listing|);
      var c := CopyAll(fs, plan, |plan|);
      var b := CopyOps([], plan, c.done) + (if c.failed then [] else [DirDeleted(slug)]);
      && ExistsResolution(fs, j, slug, "backup", confirmed, listing, token).journal == j + b
      && PhaseOrdered(b) && Count(b, DirDeleted(slug)) == (if c.failed then 0 else 1)
      && (!c.failed ==> b[|b| - 1] == DirDeleted(slug))
  {
    var plan := SharedBackupPlan(slug, listing, token, |listing|);
    var c := CopyAll(fs, plan, |plan|);
    if c.failed {
      var copies := CopyOps([], plan, c.done);
      CopyOpsShift(j, plan, c.done);
      OnePhaseOrdered(copies, 0);
      CountAbsent(copies, DirDeleted(slug));
      assert copies + [] == copies;
    } else {
      Base.BackupJournal(j, plan, slug);
    }
  }

  /** A path in the slug directory, with a slug that does not begin with
      "/", is backed up inside the one backup directory. */
  lemma BackupInSharedDir(path: string, slug: string, token: string)
    requires slug != "" && slug[0] != '/' && UnderDir(path, slug)
    ensures UnderDir(ReplaceCI(path, slug, BackupDir(slug, token)), BackupDir(slug, token))
  {
    var dir := BackupDir(slug, token);
    var rest := path[|slug|..];
    assert path[..|slug|] == slug;
    assert rest[0] == '/';
    var tail := ReplaceCI(rest, slug, dir);
    if |rest| >= |slug| {
      assert ToLower(rest[..|slug|])[0] == '/';
      assert ToLower(slug)[0] == LowerChar(slug[0]) != '/';
      assert !EqualCI(rest[..|slug|], slug);
      assert tail == [rest[0]] + ReplaceCI(rest[1..], slug, dir);
    } else {
      assert tail == rest;
    }
    assert ReplaceCI(path, slug, dir) == dir + tail;
    assert (dir + "/") <= dir + tail;
  }

  /** With one token for the whole backup, two files whose names differ
      only in the case of a later occurrence of the slug get the same
      backup path, so the second copy finds its destination taken and
      throws: the command ends after one copy, with the slug directory
      still in place. */
  lemma SharedBackupCollides(token: string, j: seq<Op>, confirmed: bool)
    ensures ReplaceCI("a/A", "a", BackupDir("a", token)) == ReplaceCI("a/a", "a", BackupDir("a", token))
    ensures "a/A" != "a/a"
    ensures var fs := map["a/A" := "x", "a/a" := "y"];
      var r := ExistsResolution(fs, j, "a", "backup", confirmed, [Entry("a/A", true), Entry("a/a", true)], token);
      var q := ReplaceCI("a/A", "a", BackupDir("a", token));
      r == Base.Thrown(fs[q := "x"], j + [Copied("a/A", q)])
  {
    var dir := BackupDir("a", token);
    assert EqualCI("A", "a") by {
      assert ToLower("A") == [LowerChar('A')];
    }
    assert !EqualCI("/A"[..1], "a") && !EqualCI("/a"[..1], "a") by {
      assert "/A"[..1] == "/a"[..1] == "/";
      assert ToLower("/") == "/" && ToLower("a") == "a";
    }
    assert "/A"[1..] == "A" && "/a"[1..] == "a";
    assert ReplaceCI("/A", "a", dir) == "/" + ReplaceCI("A", "a", dir);
    assert ReplaceCI("/a", "a", dir) == "/" + ReplaceCI("a", "a", dir);
    assert ReplaceCI("A", "a", dir) == dir + ReplaceCI("", "a", dir);
    assert ReplaceCI("a", "a", dir) == dir + ReplaceCI("", "a", dir);
    assert ReplaceCI("a/A", "a", dir) == dir + ReplaceCI("/A", "a", dir);
    assert ReplaceCI("a/a", "a", dir) == dir + ReplaceCI("/a", "a", dir);
    var q := ReplaceCI("a/A", "a", dir);
    assert q[1] == '-';
    var fs := map["a/A" := "x", "a/a" := "y"];
    var listing := [Entry("a/A", true), Entry("a/a", true)];
    assert "a/A" in Subtree(fs, "a");
    assert SharedBackupPlan("a", listing, token, 2) == [("a/A", q), ("a/a", q)];
  }

  /** When the backup paths are distinct and nothing exists yet under the
      backup directory's name, a backup copies every file of the subtree to
      its path inside the backup directory, with its content, and leaves
      nothing under the slug. */
  lemma SharedBackupKeepsEveryFile(fs: Fs, j: seq<Op>, slug: string, confirmed: bool, listing: seq<Entry>, token: string)
    requires slug != "" && slug[0] != '/' && Subtree(fs, slug) != {} && IsListing(fs, slug, listing)
    requires Unused(fs, BackupDir(slug, token))
    requires var plan := SharedBackupPlan(slug, listing, token, |listing|);
      forall i, k :: 0 <= i < k < |plan| ==> plan[i].1 != plan[k].1
    ensures var r := ExistsResolution(fs, j, slug, "backup", confirmed, listing, token);
      && r.Proceed?
      && (forall p :: p in Subtree(fs, slug) ==>
            var q := ReplaceCI(p, slug, BackupDir(slug, token));
            UnderDir(q, BackupDir(slug, token)) && q in r.fs && r.fs[q] == fs[p])
      && Subtree(r.fs, slug) == {}
  {
    var dir := BackupDir(slug, token);
    var files := FilePaths(listing, |listing|);
    var plan := SharedBackupPlan(slug, listing, token, |listing|);
    SharedBackupPlanSpec(slug, listing, token, |listing|);
    forall i | 0 <= i < |plan|
      ensures plan[i].0 in fs && plan[i].1 !in fs && UnderDir(plan[i].1, dir) && !UnderDir(plan[i].1, slug)
    {
      assert files[i] in Subtree(fs, slug);
      BackupInSharedDir(files[i], slug, token);
      assert (dir + "/")[|slug|] == '-' && (slug + "/")[|slug|] == '/';
    }
    CopyAllLands(fs, plan, |plan|);
    var out := RemoveDir(CopyAll(fs, plan, |plan|).fs, slug);
    forall p | p in Subtree(fs, slug)
      ensures var q := ReplaceCI(p, slug, dir); UnderDir(q, dir) && q in out && out[q] == fs[p]
    {
      var i :| 0 <= i < |files| && files[i] == p;
    }
  }

  // ---------------------------------------------------------------------
  // write and zip

  /** The message of a `write` ledger record, chosen by `true === $response`. */
  function WriteMessage(ok: bool, file: string): string {
    if ok then "\U{2705} Successfully wrote: " + file else "\U{26A0}\U{FE0F} Failed to write: " + file
  }

  /** The ledger `base` extended with the records of `write` for the first
      `n` files: the partial path is the slug directory and the text after
      the last occurrence of the slug. */
  function WriteLedger(base: seq<Record>, slug: string, files: OArray<string, string>, ok: string -> bool, n: nat): seq<Record>
    requires n <= |files.keys|
    decreases n
  {
    if n == 0 then base
    else
      var key := files.keys[n - 1];
      var file := AfterLast(key, slug);
      var response := ok(TrailingSlashIt(slug) + key);
      WriteLedger(base, slug, files, ok, n - 1) +
        [Record(key, TrailingSlashIt(slug) + file, response, Some(WriteMessage(response, file)))]
  }

  /** One record per file, each naming the file, its success and the
      message that success selects. */
  lemma {:induction false} WriteLedgerSpec(base: seq<Record>, slug: string, files: OArray<string, string>, ok: string -> bool, n: nat)
    requires n <= |files.keys|
    ensures var l := WriteLedger(base, slug, files, ok, n);
      && |l| == |base| + n && l[..|base|] == base
      && forall i :: 0 <= i < n ==>
        var key := files.keys[i];
        && l[|base| + i].destination == key
        && l[|base| + i].partialPath == TrailingSlashIt(slug) + AfterLast(key, slug)
        && l[|base| + i].success == ok(TrailingSlashIt(slug) + key)
        && l[|base| + i].message == Some(WriteMessage(ok(TrailingSlashIt(slug) + key), AfterLast(key, slug)))
    decreases n
  {
    if n > 0 {
      WriteLedgerSpec(base, slug, files, ok, n - 1);
    }
  }

  /** The file set as `zip` puts it: the same paths, each with the null
      content of the unassigned `$contents`, written "". */
  function Blank(files: OArray<string, string>): (r: OArray<string, string>)
    requires files.Valid()
    ensures r.Valid() && r.keys == files.keys
    ensures forall k :: k in r.vals <==> k in files.vals
    ensures forall k :: k in r.vals ==> r.vals[k] == ""
  {
    OArray(files.keys, map k | k in files.vals :: "")
  }

  /** The archive after one `zip` pass: every file is there with empty
      content when its put succeeded, whatever its content in the set. */
  lemma ZipContentsEmpty(archive: Fs, files: OArray<string, string>, ok: string -> bool, i: nat)
    requires files.Valid() && i < |files.keys| && ok(files.keys[i])
    ensures var a := WriteAll(archive, "", Blank(files), ok, |files.keys|);
      files.keys[i] in a && a[files.keys[i]] == ""
  {
    var b := Blank(files);
    assert "" + files.keys[i] == files.keys[i];
    WriteAllAt(archive, "", b, ok, |b.keys|, i);
  }

  /** The journal of the staging, the local write and the archive pass of
      `write`, extending `j`. */
  ghost function WriteJournal(j: seq<Op>, slug: string, structure: OArray<string, string>, templates: map<string, string>,
                              files: OArray<string, string>): seq<Op>
    requires structure.Valid()
  {
    var staged := Base.StageOps(j, structure, |structure.keys|, templates);
    var written := PutOps(staged, TrailingSlashIt(slug), files, |files.keys|, false);
    PutOps(written, "", files, |files.keys|, true) + [ZipClosed]
  }

  /** The journal of everything `run` does after `exists`: `write` with its
      archive pass, and a second archive pass when the zip flag is set. */
  ghost function RunJournal(j: seq<Op>, slug: string, structure: OArray<string, string>, templates: map<string, string>,
                            files: OArray<string, string>, zip: bool): seq<Op>
    requires structure.Valid()
  {
    var w := WriteJournal(j, slug, structure, templates, files);
    if zip then PutOps(w, "", files, |files.keys|, true) + [ZipClosed] else w
  }

  /** The staging and local-put operations of `write`, after any journal. */
  lemma LocalShift(j: seq<Op>, slug: string, structure: OArray<string, string>, templates: map<string, string>,
                   files: OArray<string, string>)
    requires structure.Valid()
    ensures var l0 := PutOps(Base.StageOps([], structure, |structure.keys|, templates), TrailingSlashIt(slug), files, |files.keys|, false);
      && PutOps(Base.StageOps(j, structure, |structure.keys|, templates), TrailingSlashIt(slug), files, |files.keys|, false) == j + l0
      && PhaseOrdered(l0) && InPhases(l0, 2, 3)
  {
    var prefix, m := TrailingSlashIt(slug), |files.keys|;
    var stage := Base.StageOps([], structure, |structure.keys|, templates);
    Base.StageOpsShift(j, structure, |structure.keys|, templates);
    Base.StageOpsShift([], structure, |structure.keys|, templates);
    assert [] + stage == stage;
    PutOpsShift(j + stage, prefix, files, m, false);
    PutOpsShift(stage, prefix, files, m, false);
    var put := PutOps([], prefix, files, m, false);
    AppendAssoc(j, stage, put);
    OnePhaseOrdered(stage, 2);
    OnePhaseOrdered(put, 3);
    OrderedAppend(stage, put, 2);
    InPhasesWiden(stage, 2, 2, 2, 3);
    InPhasesWiden(put, 3, 3, 2, 3);
    InPhasesAppend(stage, put, 2, 3);
  }

  /** The operations of `write` do not depend on the journal they extend:
      staging, then the local puts, then the archive puts and one close. */
  lemma WriteJournalShift(j: seq<Op>, slug: string, structure: OArray<string, string>, templates: map<string, string>,
                          files: OArray<string, string>)
    requires structure.Valid()
    ensures var w0 := WriteJournal([], slug, structure, templates, files);
      && WriteJournal(j, slug, structure, templates, files) == j + w0
      && PhaseOrdered(w0) && InPhases(w0, 2, 5)
  {
    var l0 := PutOps(Base.StageOps([], structure, |structure.keys|, templates), TrailingSlashIt(slug), files, |files.keys|, false);
    LocalShift(j, slug, structure, templates, files);
    LocalShift([], slug, structure, templates, files);
    assert [] + l0 == l0;
    var z0 := PutOps([], "", files, |files.keys|, true) + [ZipClosed];
    Base.ZipJournalShift(j + l0, files);
    Base.ZipJournalShift(l0, files);
    AppendAssoc(j, l0, z0);
    OrderedAppend(l0, z0, 3);
    InPhasesWiden(l0, 2, 3, 2, 5);
    InPhasesWiden(z0, 4, 5, 2, 5);
    InPhasesAppend(l0, z0, 2, 5);
  }

  /** `write` closes the archive once. */
  lemma WriteJournalCloses(slug: string, structure: OArray<string, string>, templates: map<string, string>,
                           files: OArray<string, string>)
    requires structure.Valid()
    ensures Count(WriteJournal([], slug, structure, templates, files), ZipClosed) == 1
  {
    var l0 := PutOps(Base.StageOps([], structure, |structure.keys|, templates), TrailingSlashIt(slug), files, |files.keys|, false);
    var z0 := PutOps([], "", files, |files.keys|, true) + [ZipClosed];
    LocalShift([], slug, structure, templates, files);
    Base.ZipJournalShift(l0, files);
    ZipPassCloses(files);
    NoCloseBefore(l0, 3);
    CountAppend(l0, z0, ZipClosed);
  }

  /** A journal of phases before the close has no close. */
  lemma NoCloseBefore(j: seq<Op>, hi: nat)
    requires InPhases(j, 0, hi) && hi < 5
    ensures Count(j, ZipClosed) == 0
  {
    forall i | 0 <= i < |j|
      ensures j[i] != ZipClosed
    {
      assert Rank(j[i]) <= hi;
    }
    CountAbsent(j, ZipClosed);
  }

  /** One archive pass closes the archive once. */
  lemma ZipPassCloses(files: OArray<string, string>)
    ensures var z0 := PutOps([], "", files, |files.keys|, true) + [ZipClosed];
      Count(z0, ZipClosed) == 1
  {
    var puts := PutOps([], "", files, |files.keys|, true);
    PutOpsShift([], "", files, |files.keys|, true);
    assert forall i :: 0 <= i < |puts| ==> Rank(puts[i]) == 4;
    CountAbsent(puts, ZipClosed);
    CountAppend(puts, [ZipClosed], ZipClosed);
  }

  /** `run` after `exists` is `write`, with its own archive pass, followed
      by a second archive pass when the zip flag is set: the archive is
      closed once without the flag and twice with it, and everything up to
      the first close is in the order staging, local puts, archive puts. */
  lemma RunJournalSpec(j: seq<Op>, slug: string, structure: OArray<string, string>, templates: map<string, string>,
                       files: OArray<string, string>, zip: bool)
    requires structure.Valid()
    ensures var w := WriteJournal(j, slug, structure, templates, files);
      var r := RunJournal(j, slug, structure, templates, files, zip);
      && j <= w <= r && PhaseOrdered(w[|j|..])
      && Count(r[|j|..], ZipClosed) == if zip then 2 else 1
  {
    var w0 := WriteJournal([], slug, structure, templates, files);
    WriteJournalShift(j, slug, structure, templates, files);
    WriteJournalCloses(slug, structure, templates, files);
    var w := j + w0;
    assert w[|j|..] == w0;
    if zip {
      var z0 := PutOps([], "", files, |files.keys|, true) + [ZipClosed];
      Base.ZipJournalShift(w, files);
      ZipPassCloses(files);
      AppendAssoc(j, w0, z0);
      assert (j + (w0 + z0))[|j|..] == w0 + z0;
      CountAppend(w0, z0, ZipClosed);
    }
  }

  // ---------------------------------------------------------------------
  // The command object

  /** The fields of the class the pipeline reads and writes. */
  class Command {
    var fs: Fs                       // the destination filesystem, relative to $destination
    var archive: Fs                  // the archive $destination/$slug.zip
    var archiveCloses: nat           // calls of close() on the archive
    var files: OArray<string, string>        // $files
    var localStatus: seq<Record>     // $status['local']
    var zipStatus: seq<Record>       // $status['zip']
    ghost var journal: seq<Op>       // the operations performed so far
    const slug: string
    const data: Base.Data
    const structure: OArray<string, string>
    const templates: map<string, string>
    var typ: string                  // $type; null is ""
    var destination: string          // $destination; null is ""
    const wpDirs: map<string, string>
    const zip: bool

    ghost predicate Valid()
      reads this
    {
      files.Valid() && structure.Valid()
    }

    /** The object as the prompts leave it, before `run`. `archive` holds
        the entries of the `<slug>.zip` that `zip_init` will open in the
        destination: ZipArchive opens an existing archive with its entries,
        and map[] stands for no archive yet. */
    constructor (slug: string, data: Base.Data, files: OArray<string, string>, structure: OArray<string, string>,
                 templates: map<string, string>, typ: string, destination: string, wpDirs: map<string, string>,
                 fs: Fs, zip: bool, archive: Fs)
      requires files.Valid() && structure.Valid()
      ensures Valid()
      ensures this.slug == slug && this.data == data && this.files == files && this.structure == structure
      ensures this.templates == templates && this.typ == typ && this.destination == destination
      ensures this.wpDirs == wpDirs && this.fs == fs && this.zip == zip
      ensures localStatus == [] && zipStatus == [] && journal == [] && this.archive == archive && archiveCloses == 0
    {
      this.slug := slug;
      this.data := data;
      this.files := files;
      this.structure := structure;
      this.templates := templates;
      this.typ := typ;
      this.destination := destination;
      this.wpDirs := wpDirs;
      this.fs := fs;
      this.zip := zip;
      localStatus, zipStatus := [], [];
      this.archive, archiveCloses := archive, 0;
      journal := [];
    }

    /** `exists()`: `stopped` stands for `exit` or an exception thrown by a
        backup copy. The backup directory name is built once, before the
        copies. */
    method Exists(choice: string, confirmed: bool, listing: seq<Entry>, token: string) returns (stopped: bool)
      modifies this`fs, this`journal
      ensures var r := ExistsResolution(old(fs), old(journal), slug, choice, confirmed, listing, token);
        && stopped == !r.Proceed?
        && (r.Abort? ==> fs == old(fs) && journal == old(journal))
        && (!r.Abort? ==> fs == r.fs && journal == r.journal)
    {
      stopped := false;
      if Subtree(fs, slug) == {} {
        return;
      }
      if choice == "delete" {
        if confirmed {
          fs := RemoveDir(fs, slug);
          journal := journal + [DirDeleted(slug)];
        } else {
          stopped := true;
        }
      } else if choice == "backup" {
        var backupDir := BackupDir(slug, token);
        var plan: seq<(string, string)> := [];
        var i := 0;
        while i < |listing|
          invariant 0 <= i <= |listing|
          invariant plan == SharedBackupPlan(slug, listing, token, i)
        {
          if listing[i].isFile {
            plan := plan + [(listing[i].path, ReplaceCI(listing[i].path, slug, backupDir))];
          }
          i := i + 1;
        }
        var c := CopyEach(fs, plan);
        if c.failed {
          fs, journal := c.fs, CopyOps(journal, plan, c.done);
          stopped := true;
          return;
        }
        var out := c.fs;
        ghost var ops := CopyOps(journal, plan, |plan|);
        fs := RemoveDir(out, slug);
        journal := ops + [DirDeleted(slug)];
      }
    }

    /** `replicate()`: as the first copy, an entry enters the file set
        only when its template exists. */
    method Replicate(render: (string, Base.Data) -> string)
      requires Valid()
      modifies this`files, this`journal
      ensures Valid()
      ensures files == Base.Replicated(old(files), structure, |structure.keys|, templates, render, data)
      ensures journal == Base.StageOps(old(journal), structure, |structure.keys|, templates)
    {
      var f := files;
      ghost var ops := journal;
      var i := 0;
      while i < |structure.keys|
        invariant 0 <= i <= |structure.keys| && f.Valid()
        invariant f == Base.Replicated(old(files), structure, i, templates, render, data)
        invariant ops == Base.StageOps(old(journal), structure, i, templates)
      {
        var path := structure.keys[i];
        var contents := Base.ReplicateFileContents(templates, structure.vals[path], render, data);
        if contents.Some? {
          f := f.Put(path, contents.value);
          ops := ops + [Staged(path)];
        }
        i := i + 1;
      }
      files, journal := f, ops;
    }

    /** `write()`: one put per file at `<slug>/<path>`, one ledger record
        per file, then an archive pass whatever the zip flag. */
    method Write(putOk: string -> bool, zipOk: string -> bool)
      requires Valid()
      modifies this`fs, this`localStatus, this`zipStatus, this`archive, this`archiveCloses, this`journal
      ensures fs == WriteAll(old(fs), TrailingSlashIt(slug), files, putOk, |files.keys|)
      ensures localStatus == WriteLedger(old(localStatus), slug, files, putOk, |files.keys|)
      ensures archive == WriteAll(old(archive), "", Blank(files), HandleOk(old(archiveCloses), zipOk), |files.keys|)
      ensures zipStatus == Base.ZipLedger(old(zipStatus), slug, files, HandleOk(old(archiveCloses), zipOk), |files.keys|)
      ensures archiveCloses == old(archiveCloses) + 1
      ensures journal == PutOps(PutOps(old(journal), TrailingSlashIt(slug), files, |files.keys|, false),
                                "", files, |files.keys|, true) + [ZipClosed]
    {
      var prefix, keys, vals := TrailingSlashIt(slug), files.keys, files.vals;
      var out, ledger := fs, localStatus;
      ghost var ops := journal;
      var i := 0;
      while i < |keys|
        invariant 0 <= i <= |keys|
        invariant out == WriteAll(old(fs), prefix, files, putOk, i)
        invariant ledger == WriteLedger(old(localStatus), slug, files, putOk, i)
        invariant ops == PutOps(old(journal), prefix, files, i, false)
      {
        var destination := keys[i];
        var file := AfterLast(destination, slug);
        var response := putOk(prefix + destination);
        if response {
          out := out[prefix + destination := vals[destination]];
        }
        ops := ops + [Wrote(prefix + destination)];
        ledger := ledger + [Record(destination, prefix + file, response, Some(WriteMessage(response, file)))];
        i := i + 1;
      }
      fs, localStatus, journal := out, ledger, ops;
      Zip(zipOk);
    }

    /** `zip()`: one put per file at its bare path with empty content, one
        ledger record per file, and one close, even for an empty file set.
        The puts go through the handle `zip_init` built on the first call,
        so they fail once that archive has been closed. */
    method Zip(zipOk: string -> bool)
      requires Valid()
      modifies this`archive, this`zipStatus, this`archiveCloses, this`journal
      ensures archive == WriteAll(old(archive), "", Blank(files), HandleOk(old(archiveCloses), zipOk), |files.keys|)
      ensures zipStatus == Base.ZipLedger(old(zipStatus), slug, files, HandleOk(old(archiveCloses), zipOk), |files.keys|)
      ensures archiveCloses == old(archiveCloses) + 1
      ensures journal == PutOps(old(journal), "", files, |files.keys|, true) + [ZipClosed]
    {
      var keys, blank, ok := files.keys, Blank(files), HandleOk(archiveCloses, zipOk);
      var out, ledger := archive, zipStatus;
      ghost var ops := journal;
      var i := 0;
      while i < |keys|
        invariant 0 <= i <= |keys|
        invariant out == WriteAll(old(archive), "", blank, ok, i)
        invariant ledger == Base.ZipLedger(old(zipStatus), slug, files, ok, i)
        invariant ops == PutOps(old(journal), "", files, i, true)
      {
        var destination := keys[i];
        var file := AfterLast(destination, slug);
        var response := ok(destination);
        assert "" + destination == destination;
        if response {
          out := out[destination := ""];
        }
        ops := ops + [Zipped(destination)];
        ledger := ledger + [Record(destination, TrailingSlashIt(slug) + file, response, Some(Base.ZipMessage(response, file)))];
        i := i + 1;
      }
      archive, zipStatus, archiveCloses := out, ledger, archiveCloses + 1;
      journal := ops + [ZipClosed];
    }

    /** `write()` and, when the zip flag is set, the second archive pass
        of `run`. That pass puts into the archive the first pass closed, so
        it logs a failure per file and leaves the archive as it was. */
    method Publish(putOk: string -> bool, zipOk: string -> bool)
      requires Valid()
      modifies this`fs, this`localStatus, this`zipStatus, this`archive, this`archiveCloses, this`journal
      ensures fs == WriteAll(old(fs), TrailingSlashIt(slug), files, putOk, |files.keys|)
      ensures localStatus == WriteLedger(old(localStatus), slug, files, putOk, |files.keys|)
      ensures archive == WriteAll(old(archive), "", Blank(files), HandleOk(old(archiveCloses), zipOk), |files.keys|)
      ensures var once := Base.ZipLedger(old(zipStatus), slug, files, HandleOk(old(archiveCloses), zipOk), |files.keys|);
        zipStatus == if zip then Base.ZipLedger(once, slug, files, HandleOk(old(archiveCloses) + 1, zipOk), |files.keys|) else once
      ensures archiveCloses == old(archiveCloses) + if zip then 2 else 1
      ensures var w := PutOps(PutOps(old(journal), TrailingSlashIt(slug), files, |files.keys|, false),
                              "", files, |files.keys|, true) + [ZipClosed];
        journal == if zip then PutOps(w, "", files, |files.keys|, true) + [ZipClosed] else w
    {
      Write(putOk, zipOk);
      if zip {
        ghost var a, z, c := archive, zipStatus, archiveCloses;
        Zip(zipOk);
        ClosedPassLandsNothing(a, z, slug, files, c, zipOk);
      }
    }

    /** The steps of `run` after `exists`; `setup` has left the structure
        and `sideload` adds nothing. */
    method ReplicateAndWrite(render: (string, Base.Data) -> string, putOk: string -> bool, zipOk: string -> bool)
      requires Valid()
      modifies this`files, this`fs, this`localStatus, this`zipStatus, this`archive, this`archiveCloses, this`journal
      ensures Valid()
      ensures files == Base.Replicated(old(files), structure, |structure.keys|, templates, render, data)
      ensures fs == WriteAll(old(fs), TrailingSlashIt(slug), files, putOk, |files.keys|)
      ensures localStatus == WriteLedger(old(localStatus), slug, files, putOk, |files.keys|)
      ensures archive == WriteAll(old(archive), "", Blank(files), HandleOk(old(archiveCloses), zipOk), |files.keys|)
      ensures var once := Base.ZipLedger(old(zipStatus), slug, files, HandleOk(old(archiveCloses), zipOk), |files.keys|);
        zipStatus == if zip then Base.ZipLedger(once, slug, files, HandleOk(old(archiveCloses) + 1, zipOk), |files.keys|) else once
      ensures archiveCloses == old(archiveCloses) + if zip then 2 else 1
      ensures journal == RunJournal(old(journal), slug, structure, templates, files, zip)
    {
      Replicate(render);
      Publish(putOk, zipOk);
    }

    /** `run()`. An `exit` leaves everything as it was; an exception from a
        backup copy leaves the copies made before it. */
    method Run(choice: string, confirmed: bool, listing: seq<Entry>, token: string,
               render: (string, Base.Data) -> string, putOk: string -> bool, zipOk: string -> bool)
      returns (stopped: bool)
      requires Valid()
      modifies this`files, this`fs, this`localStatus, this`zipStatus, this`archive, this`archiveCloses, this`journal
      ensures Valid()
      ensures var r := ExistsResolution(old(fs), old(journal), slug, choice, confirmed, listing, token);
        && stopped == !r.Proceed?
        && (stopped ==>
          && files == old(files) && localStatus == old(localStatus) && zipStatus == old(zipStatus)
          && archive == old(archive) && archiveCloses == old(archiveCloses)
          && (r.Abort? ==> fs == old(fs) && journal == old(journal))
          && (r.Thrown? ==> fs == r.fs && journal == r.journal))
        && (!stopped ==>
          && files == Base.Replicated(old(files), structure, |structure.keys|, templates, render, data)
          && fs == WriteAll(r.fs, TrailingSlashIt(slug), files, putOk, |files.keys|)
          && localStatus == WriteLedger(old(localStatus), slug, files, putOk, |files.keys|)
          && archive == WriteAll(old(archive), "", Blank(files), HandleOk(old(archiveCloses), zipOk), |files.keys|)
          && (var once := Base.ZipLedger(old(zipStatus), slug, files, HandleOk(old(archiveCloses), zipOk), |files.keys|);
              zipStatus == if zip then Base.ZipLedger(once, slug, files, HandleOk(old(archiveCloses) + 1, zipOk), |files.keys|) else once)
          && archiveCloses == old(archiveCloses) + (if zip then 2 else 1)
          && journal == RunJournal(r.journal, slug, structure, templates, files, zip))
    {
      stopped := Exists(choice, confirmed, listing, token);
      if stopped {
        return;
      }
      ReplicateAndWrite(render, putOk, zipOk);
    }

    /** `set_type($input)`: None stands for the null of an empty input,
        Some(false) for the false every other input returns. An accepted
        input sets the type and, whenever `wp_dirs` has that type, the
        destination, even one already set. */
    method SetType(input: string) returns (r: Option<bool>)
      modifies this`typ, this`destination
      ensures Empty(input) <==> r == None
      ensures !Empty(input) ==> r == Some(false)
      ensures (Empty(input) || input !in Types) ==> typ == old(typ) && destination == old(destination)
      ensures !Empty(input) && input in Types ==>
        && typ == TypeOf(input)
        && destination == if TypeOf(input) in wpDirs then wpDirs[TypeOf(input)] else old(destination)
    {
      if Empty(input) {
        return None;
      }
      if input in Types {
        var setType := if "map" in Types[input] then Types[input]["map"] else Types[input]["slug"];
        typ := setType;
        if setType in wpDirs {
          destination := wpDirs[setType];
        }
      }
      return Some(false);
    }
  }

  /** Whether a put through the `zip_fs` handle lands. `zip_init` builds
      the handle only once, so after the first `close()` every later put
      goes to a closed archive, and ZipArchive refuses it. */
  function HandleOk(closes: nat, zipOk: string -> bool): string -> bool {
    if closes == 0 then zipOk else _ => false
  }

  /** A pass over the closed archive adds nothing to it, and every record it
      logs is a failure with the "Failed to write" message. */
  lemma ClosedPassLandsNothing(archive: Fs, zipped: seq<Record>, slug: string, files: OArray<string, string>,
                               closes: nat, zipOk: string -> bool)
    requires files.Valid() && closes > 0
    ensures WriteAll(archive, "", Blank(files), HandleOk(closes, zipOk), |files.keys|) == archive
    ensures var z := Base.ZipLedger(zipped, slug, files, HandleOk(closes, zipOk), |files.keys|);
      forall i :: 0 <= i < |files.keys| ==>
        && z[|zipped| + i].destination == files.keys[i]
        && !z[|zipped| + i].success
        && z[|zipped| + i].message == Some("Failed to write: " + AfterLast(files.keys[i], slug))
  {
    var b, ok := Blank(files), HandleOk(closes, zipOk);
    var a := WriteAll(archive, "", b, ok, |b.keys|);
    forall p
      ensures (p in a <==> p in archive) && (p in a ==> a[p] == archive[p])
    {
      WriteAllElsewhere(archive, "", b, ok, |b.keys|, p);
    }
    var z := Base.ZipLedger(zipped, slug, files, ok, |files.keys|);
    forall i | 0 <= i < |files.keys|
      ensures && z[|zipped| + i].destination == files.keys[i]
        && !z[|zipped| + i].success
        && z[|zipped| + i].message == Some("Failed to write: " + AfterLast(files.keys[i], slug))
    {
      Base.LedgerRecords([], zipped, slug, files, ok, ok, |files.keys|, i);
      assert !ok(files.keys[i]);
    }
  }
}
