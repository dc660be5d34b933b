/** The replication pipeline of src/Base.php: conflict resolution over an
    existing `<slug>` directory, rendering the structure map into the file
    set, the sideload step, the local write and the optional zip mirror,
    each with its status ledger; plus `setType` and the environment filter.

    Stand-ins: the destination filesystem and the zip archive are maps from
    path to content; the templates directory is a map from template file
    name to text; the Mustache engine is the parameter `render` and
    `json_encode` is the parameter `encode`; operator answers, `uniqid`
    results (`uniq(i)` is the text after "backup_" of the i-th call) and the
    success of each put are parameters too. */
module Base {
  import opened PhpStrings
  import opened OrderedArrays
  import opened Storage

  /** `$this->data`, the values injected into templates. */
  type Data = map<string, string>

  const TemplateSuffix := ".mustache"

  /** The template file name: ".mustache" is appended unless the name
      already contains it, in any case, anywhere. */
  function TemplateName(name: string): string {
    if ContainsCI(name, TemplateSuffix) then name else name + TemplateSuffix
  }

  /** The resolved name always contains the suffix, extends the given name,
      and equals it exactly when the suffix was already there. */
  lemma TemplateNameSpec(name: string)
    ensures ContainsCI(TemplateName(name), TemplateSuffix)
    ensures name <= TemplateName(name)
    ensures TemplateName(name) == name <==> ContainsCI(name, TemplateSuffix)
  {
    if !ContainsCI(name, TemplateSuffix) {
      ContainsCIAtEnd(name, TemplateSuffix);
    }
  }

  /** Resolving a resolved name changes nothing. */
  lemma TemplateNameIdempotent(name: string)
    ensures TemplateName(TemplateName(name)) == TemplateName(name)
  {
    TemplateNameSpec(name);
  }

  /** `renderMustacheTemplate`: the data passed in, or `$this->data` when none is. */
  function RenderMustacheTemplate(render: (string, Data) -> string, contents: string, data: Data, own: Data): (r: string)
    ensures data == map[] ==> r == render(contents, own)
    ensures data != map[] ==> r == render(contents, data)
  {
    render(contents, if data != map[] then data else own)
  }

  /** `replicateFileContents(name)`: the rendered template, or None (PHP's
      false) when the templates directory has no such file. */
  function ReplicateFileContents(templates: map<string, string>, name: string,
                                 render: (string, Data) -> string, own: Data): (r: Option<string>)
    ensures r.Some? <==> TemplateName(name) in templates
    ensures r.Some? ==> r.value == render(templates[TemplateName(name)], own)
  {
    var file := TemplateName(name);
    if file in templates then Some(RenderMustacheTemplate(render, templates[file], map[], own)) else None
  }

  /** One iteration of `replicateFromTemplates`: the entry `path => template`
      is assigned its rendered content when the template exists. */
  function ReplicateEntry(f: OArray<string, string>, path: string, template: string,
                          templates: map<string, string>, render: (string, Data) -> string, data: Data): (r: OArray<string, string>)
    requires f.Valid()
    ensures r.Valid() && f.keys <= r.keys
    ensures r.vals == if TemplateName(template) in templates
                      then f.vals[path := render(templates[TemplateName(template)], data)]
                      else f.vals
  {
    match ReplicateFileContents(templates, template, render, data)
    case Some(contents) => f.PutValid(path, contents); f.Put(path, contents)
    case None => f
  }

  /** The file set after the first `n` structure entries of
      `replicateFromTemplates`. */
  function Replicated(files: OArray<string, string>, structure: OArray<string, string>, n: nat,
                      templates: map<string, string>, render: (string, Data) -> string, data: Data): (r: OArray<string, string>)
    requires files.Valid() && structure.Valid() && n <= |structure.keys|
    ensures r.Valid() && files.keys <= r.keys
    decreases n
  {
    if n == 0 then files
    else
      var path := structure.keys[n - 1];
      ReplicateEntry(Replicated(files, structure, n - 1, templates, render, data),
                     path, structure.vals[path], templates, render, data)
  }

  /** The journal `j` extended with one staging operation per structure
      entry, among the first `n`, whose template exists. */
  function StageOps(j: seq<Op>, structure: OArray<string, string>, n: nat, templates: map<string, string>): seq<Op>
    requires structure.Valid() && n <= |structure.keys|
    decreases n
  {
    if n == 0 then j
    else
      var path := structure.keys[n - 1];
      StageOps(j, structure, n - 1, templates) +
        (if TemplateName(structure.vals[path]) in templates then [Staged(path)] else [])
  }

  /** `sideloadDynamicFiles`: the data file `<slug>-data.json` holds the
      encoded data; the default `customFileSideload` adds nothing. */
  function Sideloaded(files: OArray<string, string>, slug: string, encode: Data -> string, data: Data): (r: OArray<string, string>)
    requires files.Valid()
    ensures r.Valid() && files.keys <= r.keys
    ensures slug + "-data.json" in r.vals && r.vals[slug + "-data.json"] == encode(data)
    ensures forall k :: k != slug + "-data.json" ==> (k in r.vals <==> k in files.vals)
    ensures forall k :: k in files.vals && k != slug + "-data.json" ==> r.vals[k] == files.vals[k]
  {
    files.PutValid(slug + "-data.json", encode(data));
    files.Put(slug + "-data.json", encode(data))
  }

  /** The ledger `base` extended with the records of `writeToDestination`
      for the first `n` files. */
  function LocalLedger(base: seq<Record>, slug: string, files: OArray<string, string>, ok: string -> bool, n: nat): (r: seq<Record>)
    requires n <= |files.keys|
    ensures |r| == |base| + n
    decreases n
  {
    if n == 0 then base
    else
      var key := files.keys[n - 1];
      var partial := TrailingSlashIt(slug) + key;
      LocalLedger(base, slug, files, ok, n - 1) + [Record(key, partial, ok(partial), None)]
  }

  /** The message of a zip ledger record. */
  function ZipMessage(ok: bool, file: string): string {
    if ok then "Successfully wrote: " + file else "Failed to write: " + file
  }

  /** The ledger `base` extended with the records of `generateZipArchive`
      for the first `n` files; the shown file is the text after the last
      occurrence of the slug. */
  function ZipLedger(base: seq<Record>, slug: string, files: OArray<string, string>, ok: string -> bool, n: nat): (r: seq<Record>)
    requires n <= |files.keys|
    ensures |r| == |base| + n
    decreases n
  {
    if n == 0 then base
    else
      var key := files.keys[n - 1];
      var file := AfterLast(key, slug);
      ZipLedger(base, slug, files, ok, n - 1) +
        [Record(key, TrailingSlashIt(slug) + file, ok(key), Some(ZipMessage(ok(key), file)))]
  }

  // ---------------------------------------------------------------------
  // Conflict resolution (destinationDirExists)

  /** The outcome of the conflict check: go on with a new filesystem and
      journal, `exit`, or an exception from a backup copy, which ends the
      command with the filesystem and journal as they stand. */
  datatype Resolution = Proceed(fs: Fs, journal: seq<Op>) | Abort | Thrown(fs: Fs, journal: seq<Op>)

  /** The backup name of one file: every case-insensitive occurrence of the
      slug becomes `<slug>-backup_<token>`. */
  function BackupPath(path: string, slug: string, token: string): string {
    ReplaceCI(path, slug, slug + "-backup_" + token)
  }

  /** The copies of a backup, one per file, each with a fresh `uniqid`. */
  function BackupPlan(slug: string, files: seq<string>, uniq: nat -> string): (r: seq<(string, string)>)
    ensures |r| == |files|
    ensures forall i :: 0 <= i < |files| ==> r[i] == (files[i], BackupPath(files[i], slug, uniq(i)))
  {
    seq(|files|, i requires 0 <= i < |files| => (files[i], BackupPath(files[i], slug, uniq(i))))
  }

  /** The first loop of the backup branch of `destinationDirExists`: one
      copy per file entry of the listing, in listing order, each target
      named with the next `uniqid`. */
  method CollectBackups(slug: string, listing: seq<Entry>, uniq: nat -> string) returns (backups: seq<(string, string)>)
    ensures backups == BackupPlan(slug, FilePaths(listing, |listing|), uniq)
  {
    backups := [];
    var i := 0;
    while i < |listing|
      invariant 0 <= i <= |listing|
      invariant backups == BackupPlan(slug, FilePaths(listing, i), uniq)
    {
      if listing[i].isFile {
        BackupPlanSnoc(slug, FilePaths(listing, i), listing[i].path, uniq);
        backups := backups + [(listing[i].path, BackupPath(listing[i].path, slug, uniq(|backups|)))];
      }
      i := i + 1;
    }
  }

  /** `destinationDirExists` with the operator's choice and confirmation,
      from the filesystem `fs` and the journal `j`. */
  function Resolve(fs: Fs, j: seq<Op>, slug: string, choice: string, confirmed: bool,
                   listing: seq<Entry>, uniq: nat -> string): Resolution
  {
    if Subtree(fs, slug) == {} then Proceed(fs, j)
    else if choice == "delete" then
      if confirmed then Proceed(RemoveDir(fs, slug), j + [DirDeleted(slug)]) else Abort
    else if choice == "backup" then
      var plan := BackupPlan(slug, FilePaths(listing, |listing|), uniq);
      var c := CopyAll(fs, plan, |plan|);
      if c.failed then Thrown(c.fs, CopyOps(j, plan, c.done))
      else Proceed(RemoveDir(c.fs, slug), CopyOps(j, plan, |plan|) + [DirDeleted(slug)])
    else Proceed(fs, j)
  }

  /** The conflict check exits exactly when the slug directory has files,
      "delete" was chosen and not confirmed, and throws only in the backup
      of such a directory; an empty directory or another answer changes
      nothing; a delete or a finished backup leaves the directory empty;
      unless it exits, it keeps every file outside the directory with its
      content, and a backup that throws keeps every file. */
  lemma ResolveOutcome(fs: Fs, j: seq<Op>, slug: string, choice: string, confirmed: bool,
                       listing: seq<Entry>, uniq: nat -> string)
    ensures var r := Resolve(fs, j, slug, choice, confirmed, listing, uniq);
      && (r.Abort? <==> Subtree(fs, slug) != {} && choice == "delete" && !confirmed)
      && (r.Thrown? ==> Subtree(fs, slug) != {} && choice == "backup")
      && (r.Proceed? && (Subtree(fs, slug) == {} || (choice != "delete" && choice != "backup")) ==>
          r.fs == fs && r.journal == j)
      && (r.Proceed? && (choice == "delete" || choice == "backup") ==> Subtree(r.fs, slug) == {})
      && (!r.Abort? ==> forall p :: p in fs && !UnderDir(p, slug) ==> p in r.fs && r.fs[p] == fs[p])
      && (r.Thrown? ==> forall p :: p in fs ==> p in r.fs && r.fs[p] == fs[p])
  {
    if Subtree(fs, slug) != {} && choice == "backup" {
      var plan := BackupPlan(slug, FilePaths(listing, |listing|), uniq);
      CopyAllKeeps(fs, plan, |plan|);
    }
  }

  // ---------------------------------------------------------------------
  // setType and the environment filter

  /** `$this->typeMaps`: the aliases of a product type. */
  const TypeMaps: map<string, map<string, string>> := map[
    "plugin" := map["map" := "plugins"],
    "theme" := map["map" := "themes"],
    "root" := map["map" := "abspath"],
    "package" := map["map" := "packages"],
    "wpcli" := map["map" := "packages"],
    "cmd" := map["map" := "packages"]
  ]

  /** The type after `setType`'s alias step. */
  function MappedType(t: string): (r: string)
    ensures t in {"plugin", "theme", "root", "package", "wpcli", "cmd"} <==> r != t
    ensures t == "plugin" ==> r == "plugins"
    ensures t == "theme" ==> r == "themes"
    ensures t == "root" ==> r == "abspath"
    ensures t in {"package", "wpcli", "cmd"} ==> r == "packages"
    ensures r !in TypeMaps
  {
    if t in TypeMaps && "map" in TypeMaps[t] then TypeMaps[t]["map"] else t
  }

  const EnvPrefix := "REPLICATOR_"

  /** Whether one environment variable enters `$this->env`. */
  predicate EnvKept(key: string, value: string) {
    ContainsCI(key, EnvPrefix) && !Empty(value)
  }

  /** The key an environment variable is stored under. */
  function CleanedKey(key: string): string {
    ReplaceCI(key, EnvPrefix, "")
  }

  /** `$this->env` after the filtering loop of `loadEnvionmentVariables` has
      seen the variables `vars`, in order. */
  function FilteredEnv(env: map<string, string>, vars: seq<(string, string)>): (r: map<string, string>)
    ensures forall k :: k in r && k !in env ==> exists i :: 0 <= i < |vars| && EnvKept(vars[i].0, vars[i].1) && CleanedKey(vars[i].0) == k
    decreases |vars|
  {
    if vars == [] then env
    else
      var f := FilteredEnv(env, vars[..|vars| - 1]);
      var v := vars[|vars| - 1];
      if EnvKept(v.0, v.1) then f[CleanedKey(v.0) := v.1] else f
  }

  // ---------------------------------------------------------------------
  // Properties of the pipeline

  /** One entry leaves every other key as it was. */
  lemma ReplicateEntryKeeps(f: OArray<string, string>, path: string, template: string,
                            templates: map<string, string>, render: (string, Data) -> string, data: Data, k: string)
    requires f.Valid() && k != path
    ensures var r := ReplicateEntry(f, path, template, templates, render, data);
      (k in r.vals <==> k in f.vals) && (k in f.vals ==> r.vals[k] == f.vals[k])
  {
  }

  /** Each structure entry with a template holds its rendered content; the
      keys are distinct, so no later entry overwrites it. */
  lemma {:induction false} ReplicatedAt(files: OArray<string, string>, structure: OArray<string, string>, n: nat,
                                         templates: map<string, string>, render: (string, Data) -> string, data: Data, i: nat)
    requires files.Valid() && structure.Valid() && i < n <= |structure.keys|
    requires TemplateName(structure.vals[structure.keys[i]]) in templates
    ensures var r := Replicated(files, structure, n, templates, render, data);
      var path := structure.keys[i];
      path in r.vals && r.vals[path] == render(templates[TemplateName(structure.vals[path])], data)
    decreases n
  {
    if i < n - 1 {
      var prev := Replicated(files, structure, n - 1, templates, render, data);
      var last, path := structure.keys[n - 1], structure.keys[i];
      ReplicatedAt(files, structure, n - 1, templates, render, data, i);
      ReplicateEntryKeeps(prev, last, structure.vals[last], templates, render, data, path);
    }
  }

  /** A key that no entry with an existing template names keeps what the file
      set had: a missing template adds nothing, other keys survive. */
  lemma {:induction false} ReplicatedElsewhere(files: OArray<string, string>, structure: OArray<string, string>, n: nat,
                                               templates: map<string, string>, render: (string, Data) -> string, data: Data, k: string)
    requires files.Valid() && structure.Valid() && n <= |structure.keys|
    requires forall i :: 0 <= i < n && structure.keys[i] == k ==> TemplateName(structure.vals[k]) !in templates
    ensures var r := Replicated(files, structure, n, templates, render, data);
      (k in r.vals <==> k in files.vals) && (k in files.vals ==> r.vals[k] == files.vals[k])
    decreases n
  {
    if n > 0 {
      var prev := Replicated(files, structure, n - 1, templates, render, data);
      var last := structure.keys[n - 1];
      ReplicatedElsewhere(files, structure, n - 1, templates, render, data, k);
      if last != k {
        ReplicateEntryKeeps(prev, last, structure.vals[last], templates, render, data, k);
      } else {
        assert TemplateName(structure.vals[last]) !in templates;
      }
    }
  }

  /** The staging operations do not depend on the journal they extend, and
      all belong to the staging phase. */
  lemma {:induction false} StageOpsShift(j: seq<Op>, structure: OArray<string, string>, n: nat, templates: map<string, string>)
    requires structure.Valid() && n <= |structure.keys|
    ensures StageOps(j, structure, n, templates) == j + StageOps([], structure, n, templates)
    ensures InPhases(StageOps([], structure, n, templates), 2, 2)
    decreases n
  {
    if n > 0 {
      var path := structure.keys[n - 1];
      var last: seq<Op> := if TemplateName(structure.vals[path]) in templates then [Staged(path)] else [];
      StageOpsShift(j, structure, n - 1, templates);
      AppendAssoc(j, StageOps([], structure, n - 1, templates), last);
      InPhasesAppend(StageOps([], structure, n - 1, templates), last, 2, 2);
    }
  }

  /** The i-th records of the two ledgers. */
  lemma {:induction false} LedgerRecords(local: seq<Record>, zipped: seq<Record>, slug: string, files: OArray<string, string>,
                                         putOk: string -> bool, zipOk: string -> bool, n: nat, i: nat)
    requires i < n <= |files.keys|
    ensures var key := files.keys[i];
      LocalLedger(local, slug, files, putOk, n)[|local| + i] == Record(key, TrailingSlashIt(slug) + key, putOk(TrailingSlashIt(slug) + key), None)
    ensures var key := files.keys[i]; var file := AfterLast(key, slug);
      ZipLedger(zipped, slug, files, zipOk, n)[|zipped| + i] == Record(key, TrailingSlashIt(slug) + file, zipOk(key), Some(ZipMessage(zipOk(key), file)))
    decreases n
  {
    if i < n - 1 {
      LedgerRecords(local, zipped, slug, files, putOk, zipOk, n - 1, i);
    }
  }

  /** The write and zip ledgers get one record per file each, name the same
      files in the same order, and each record is a success exactly when
      its put succeeded. */
  lemma LedgerParity(local: seq<Record>, zipped: seq<Record>, slug: string, files: OArray<string, string>,
                     putOk: string -> bool, zipOk: string -> bool)
    ensures var l, z, n := LocalLedger(local, slug, files, putOk, |files.keys|), ZipLedger(zipped, slug, files, zipOk, |files.keys|), |files.keys|;
      && |l| == |local| + n && |z| == |zipped| + n
      && forall i :: 0 <= i < n ==>
        && l[|local| + i].destination == z[|zipped| + i].destination == files.keys[i]
        && l[|local| + i].success == putOk(TrailingSlashIt(slug) + files.keys[i])
        && z[|zipped| + i].success == zipOk(files.keys[i])
  {
    forall i | 0 <= i < |files.keys| {
      LedgerRecords(local, zipped, slug, files, putOk, zipOk, |files.keys|, i);
    }
  }

  /** Extending a file list by one path extends its backup plan by one copy. */
  lemma BackupPlanSnoc(slug: string, files: seq<string>, p: string, uniq: nat -> string)
    ensures BackupPlan(slug, files + [p], uniq) == BackupPlan(slug, files, uniq) + [(p, BackupPath(p, slug, uniq(|files|)))]
  {
    assert forall i :: 0 <= i < |files| ==> (files + [p])[i] == files[i];
  }

  /** The journal of the conflict check extends the journal it is given by
      operations that do not depend on it: none when the filesystem is left
      alone, the single deleteDir for a delete, and for a backup one copy
      per file followed by the single deleteDir. */
  lemma ResolveJournal(fs: Fs, j: seq<Op>, slug: string, choice: string, confirmed: bool,
                       listing: seq<Entry>, uniq: nat -> string)
    requires Resolve(fs, j, slug, choice, confirmed, listing, uniq).Proceed?
    ensures var r, r0 := Resolve(fs, j, slug, choice, confirmed, listing, uniq), Resolve(fs, [], slug, choice, confirmed, listing, uniq);
      && r0.Proceed? && r.journal == j + r0.journal
      && PhaseOrdered(r0.journal) && InPhases(r0.journal, 0, 1)
      && Count(r0.journal, DirDeleted(slug)) == (if Subtree(fs, slug) != {} && choice in {"delete", "backup"} then 1 else 0)
  {
    if Subtree(fs, slug) != {} && choice == "backup" {
      var plan := BackupPlan(slug, FilePaths(listing, |listing|), uniq);
      BackupJournal(j, plan, slug);
    } else if Subtree(fs, slug) != {} && choice == "delete" {
      assert [] + [DirDeleted(slug)] == [DirDeleted(slug)];
    }
  }

  /** The journal of a backup: the copies, then the single deleteDir. */
  lemma BackupJournal(j: seq<Op>, plan: seq<(string, string)>, slug: string)
    ensures var b := CopyOps([], plan, |plan|) + [DirDeleted(slug)];
      && CopyOps(j, plan, |plan|) + [DirDeleted(slug)] == j + b
      && PhaseOrdered(b) && InPhases(b, 0, 1) && Count(b, DirDeleted(slug)) == 1
  {
    var copies := CopyOps([], plan, |plan|);
    CopyOpsShift(j, plan, |plan|);
    AppendAssoc(j, copies, [DirDeleted(slug)]);
    OnePhaseOrdered(copies, 0);
    OrderedAppend(copies, [DirDeleted(slug)], 1);
    InPhasesWiden(copies, 0, 0, 0, 1);
    InPhasesAppend(copies, [DirDeleted(slug)], 0, 1);
    CountAbsent(copies, DirDeleted(slug));
    CountAppend(copies, [DirDeleted(slug)], DirDeleted(slug));
  }

  /** The copy targets of a backup start with `<slug>-backup_<token>`, so
      they lie outside the slug directory. */
  lemma BackupTargetsOutside(slug: string, files: seq<string>, uniq: nat -> string)
    requires slug != ""
    requires forall i :: 0 <= i < |files| ==> UnderDir(files[i], slug)
    ensures var plan := BackupPlan(slug, files, uniq);
      forall i :: 0 <= i < |plan| ==> (slug + "-backup_" + uniq(i)) <= plan[i].1 && !UnderDir(plan[i].1, slug)
  {
    var plan := BackupPlan(slug, files, uniq);
    forall i | 0 <= i < |plan|
      ensures (slug + "-backup_" + uniq(i)) <= plan[i].1 && !UnderDir(plan[i].1, slug)
    {
      var pre := slug + "-backup_" + uniq(i);
      ReplaceCIAtStart(files[i], slug, pre);
      assert pre[|slug|] == '-';
      assert (slug + "/")[|slug|] == '/';
    }
  }

  /** Distinct `uniqid` tokens of one length give distinct backup paths. */
  lemma BackupTargetsDistinct(slug: string, files: seq<string>, uniq: nat -> string)
    requires slug != ""
    requires forall i :: 0 <= i < |files| ==> UnderDir(files[i], slug)
    requires forall i, k :: 0 <= i < k < |files| ==> uniq(i) != uniq(k)
    requires forall i :: 0 <= i < |files| ==> |uniq(i)| == 13
    ensures var plan := BackupPlan(slug, files, uniq);
      forall i, k :: 0 <= i < k < |plan| ==> plan[i].1 != plan[k].1
  {
    var plan := BackupPlan(slug, files, uniq);
    BackupTargetsOutside(slug, files, uniq);
    forall i, k | 0 <= i < k < |plan|
      ensures plan[i].1 != plan[k].1
    {
      var a, b := slug + "-backup_" + uniq(i), slug + "-backup_" + uniq(k);
      assert |a| == |b|;
      assert a[|slug| + 8..] == uniq(i) && b[|slug| + 8..] == uniq(k);
      assert plan[i].1[..|a|] == a && plan[k].1[..|b|] == b;
    }
  }

  /** The backup plan of a listing names every file of the subtree once. */
  lemma BackupPlanCovers(fs: Fs, slug: string, listing: seq<Entry>, uniq: nat -> string)
    requires IsListing(fs, slug, listing)
    ensures var plan := BackupPlan(slug, FilePaths(listing, |listing|), uniq);
      && |plan| == |Subtree(fs, slug)|
      && (forall p :: p in Subtree(fs, slug) <==> exists i :: 0 <= i < |plan| && plan[i].0 == p)
      && (forall i :: 0 <= i < |plan| ==> plan[i].0 in fs && UnderDir(plan[i].0, slug))
  {
    var files := FilePaths(listing, |listing|);
    var plan := BackupPlan(slug, files, uniq);
    DistinctCardinality(files);
    assert (set p | p in files) == Subtree(fs, slug);
    forall p | p in Subtree(fs, slug)
      ensures exists i :: 0 <= i < |plan| && plan[i].0 == p
    {
      var i :| 0 <= i < |files| && files[i] == p;
      assert plan[i].0 == p;
    }
    assert forall i :: 0 <= i < |files| ==> files[i] in Subtree(fs, slug);
  }

  /** A backup of a non-empty slug directory copies every file of the
      subtree, each to its own backup path with the same content, and leaves
      nothing under the slug. */
  lemma BackupKeepsEveryFile(fs: Fs, j: seq<Op>, slug: string, confirmed: bool, listing: seq<Entry>, uniq: nat -> string)
    requires slug != "" && Subtree(fs, slug) != {} && IsListing(fs, slug, listing)
    requires forall i, k :: 0 <= i < k < |FilePaths(listing, |listing|)| ==> uniq(i) != uniq(k)
    requires forall i :: 0 <= i < |FilePaths(listing, |listing|)| ==> |uniq(i)| == 13
    requires forall i :: 0 <= i < |FilePaths(listing, |listing|)| ==> Unused(fs, slug + "-backup_" + uniq(i))
    ensures var r := Resolve(fs, j, slug, "backup", confirmed, listing, uniq);
      var plan := BackupPlan(slug, FilePaths(listing, |listing|), uniq);
      && r.Proceed?
      && |plan| == |Subtree(fs, slug)|
      && (forall p :: p in Subtree(fs, slug) <==> exists i :: 0 <= i < |plan| && plan[i].0 == p)
      && (forall i :: 0 <= i < |plan| ==> plan[i].0 in fs)
      && (forall i :: 0 <= i < |plan| ==> plan[i].1 in r.fs && r.fs[plan[i].1] == fs[plan[i].0])
      && Subtree(r.fs, slug) == {}
  {
    var files := FilePaths(listing, |listing|);
    var plan := BackupPlan(slug, files, uniq);
    var copied := CopyAll(fs, plan, |plan|).fs;
    BackupPlanCovers(fs, slug, listing, uniq);
    BackupTargetsOutside(slug, files, uniq);
    BackupTargetsDistinct(slug, files, uniq);
    forall i | 0 <= i < |plan|
      ensures plan[i].1 !in fs
    {
      assert !((slug + "-backup_" + uniq(i)) <= plan[i].1 && plan[i].1 in fs);
    }
    CopyAllLands(fs, plan, |plan|);
    forall i | 0 <= i < |plan|
      ensures plan[i].1 in RemoveDir(copied, slug) && RemoveDir(copied, slug)[plan[i].1] == fs[plan[i].0]
    {
      RemoveDirKeeps(copied, slug, plan[i].1);
    }
  }

  /** The set of a sequence without repetitions has as many elements as the
      sequence. */
  lemma {:induction false} DistinctCardinality(s: seq<string>)
    requires Distinct(s)
    ensures |set x | x in s| == |s|
    decreases |s|
  {
    if s != [] {
      var init, last := s[..|s| - 1], s[|s| - 1];
      assert Distinct(init);
      DistinctCardinality(init);
      assert s == init + [last];
      assert (set x | x in s) == (set x | x in init) + {last};
      forall k | 0 <= k < |init|
        ensures init[k] != last
      {
        assert init[k] == s[k];
      }
      assert last !in (set x | x in init);
    }
  }

  /** The value kept for a cleaned key is that of the last variable that
      qualifies under it: a later key with the same cleaned name wins. */
  lemma {:induction false} FilteredEnvLastWins(env: map<string, string>, vars: seq<(string, string)>, i: nat)
    requires i < |vars| && EnvKept(vars[i].0, vars[i].1)
    requires forall j :: i < j < |vars| && EnvKept(vars[j].0, vars[j].1) ==> CleanedKey(vars[j].0) != CleanedKey(vars[i].0)
    ensures CleanedKey(vars[i].0) in FilteredEnv(env, vars)
    ensures FilteredEnv(env, vars)[CleanedKey(vars[i].0)] == vars[i].1
    decreases |vars|
  {
    if i < |vars| - 1 {
      var init := vars[..|vars| - 1];
      assert init[i] == vars[i];
      FilteredEnvLastWins(env, init, i);
    }
  }

  /** A variable whose key lacks "REPLICATOR_" or whose value is empty
      changes nothing. */
  lemma FilteredEnvSkips(env: map<string, string>, vars: seq<(string, string)>, key: string, value: string)
    requires !ContainsCI(key, EnvPrefix) || Empty(value)
    ensures FilteredEnv(env, vars + [(key, value)]) == FilteredEnv(env, vars)
  {
    assert (vars + [(key, value)])[..|vars|] == vars;
  }

  /** A key made of the prefix and a name without it is stored under the name. */
  lemma CleanedKeyOfPrefixed(name: string)
    requires !ContainsCI(name, EnvPrefix)
    ensures CleanedKey(EnvPrefix + name) == name
  {
    var key := EnvPrefix + name;
    assert key[..|EnvPrefix|] == EnvPrefix;
    assert key[|EnvPrefix|..] == name;
    ReplaceCIAbsent(name, EnvPrefix, "");
  }

  /** The journal of the staging and the local write of `runReplication`,
      extending `j`. */
  ghost function LocalJournal(j: seq<Op>, slug: string, structure: OArray<string, string>, templates: map<string, string>,
                              files: OArray<string, string>): seq<Op>
    requires structure.Valid()
  {
    var staged := StageOps(j, structure, |structure.keys|, templates) + [Staged(slug + "-data.json")];
    PutOps(staged, TrailingSlashIt(slug), files, |files.keys|, false)
  }

  /** The journal of everything after the conflict check in `runReplication`,
      extending `j`. */
  ghost function RunJournal(j: seq<Op>, slug: string, structure: OArray<string, string>, templates: map<string, string>,
                            files: OArray<string, string>, zip: bool): seq<Op>
    requires structure.Valid()
  {
    var written := LocalJournal(j, slug, structure, templates, files);
    if zip then PutOps(written, "", files, |files.keys|, true) + [ZipClosed] else written
  }

  /** The staging operations and the data file's, after any journal. */
  lemma StagedJournalShift(j: seq<Op>, slug: string, structure: OArray<string, string>, templates: map<string, string>)
    requires structure.Valid()
    ensures var data: seq<Op> := [Staged(slug + "-data.json")];
      var s0 := StageOps([], structure, |structure.keys|, templates) + data;
      StageOps(j, structure, |structure.keys|, templates) + data == j + s0 && InPhases(s0, 2, 2)
  {
    var data: seq<Op> := [Staged(slug + "-data.json")];
    var s0 := StageOps([], structure, |structure.keys|, templates);
    StageOpsShift(j, structure, |structure.keys|, templates);
    InPhasesAppend(s0, data, 2, 2);
    AppendAssoc(j, s0, data);
  }

  /** The staging and local-write operations do not depend on the journal
      they extend: staging first, then the puts. */
  lemma LocalJournalShift(j: seq<Op>, slug: string, structure: OArray<string, string>, templates: map<string, string>,
                          files: OArray<string, string>)
    requires structure.Valid()
    ensures var w0 := LocalJournal([], slug, structure, templates, files);
      LocalJournal(j, slug, structure, templates, files) == j + w0 && PhaseOrdered(w0) && InPhases(w0, 2, 3)
  {
    var m, prefix := |files.keys|, TrailingSlashIt(slug);
    var stage := StageOps([], structure, |structure.keys|, templates) + [Staged(slug + "-data.json")];
    StagedJournalShift(j, slug, structure, templates);
    StagedJournalShift([], slug, structure, templates);
    assert [] + stage == stage;
    PutOpsShift(j + stage, prefix, files, m, false);
    PutOpsShift(stage, prefix, files, m, false);
    var put := PutOps([], prefix, files, m, false);
    AppendAssoc(j, stage, put);
    OnePhaseOrdered(stage, 2);
    OnePhaseOrdered(put, 3);
    OrderedAppend(stage, put, 2);
    InPhasesWiden(stage, 2, 2, 2, 3);
    InPhasesWiden(put, 3, 3, 2, 3);
    InPhasesAppend(stage, put, 2, 3);
  }

  /** The zip puts and the close, after any journal. */
  lemma ZipJournalShift(w: seq<Op>, files: OArray<string, string>)
    ensures var z0 := PutOps([], "", files, |files.keys|, true) + [ZipClosed];
      PutOps(w, "", files, |files.keys|, true) + [ZipClosed] == w + z0 && PhaseOrdered(z0) && InPhases(z0, 4, 5)
  {
    var puts := PutOps([], "", files, |files.keys|, true);
    PutOpsShift(w, "", files, |files.keys|, true);
    AppendAssoc(w, puts, [ZipClosed]);
    OnePhaseOrdered(puts, 4);
    OrderedAppend(puts, [ZipClosed], 4);
    InPhasesAppend(puts, [ZipClosed], 4, 5);
  }

  /** The operations after the conflict check do not depend on the journal
      they extend; they are ordered and belong to the phases from staging
      to the archive's close. */
  lemma RunJournalShift(j: seq<Op>, slug: string, structure: OArray<string, string>, templates: map<string, string>,
                        files: OArray<string, string>, zip: bool)
    requires structure.Valid()
    ensures var r0 := RunJournal([], slug, structure, templates, files, zip);
      RunJournal(j, slug, structure, templates, files, zip) == j + r0 && PhaseOrdered(r0) && InPhases(r0, 1, 5)
  {
    var w0 := LocalJournal([], slug, structure, templates, files);
    LocalJournalShift(j, slug, structure, templates, files);
    if zip {
      var z0 := PutOps([], "", files, |files.keys|, true) + [ZipClosed];
      ZipJournalShift(j + w0, files);
      ZipJournalShift(w0, files);
      AppendAssoc(j, w0, z0);
      OrderedAppend(w0, z0, 3);
      InPhasesWiden(w0, 2, 3, 1, 5);
      InPhasesWiden(z0, 4, 5, 1, 5);
      InPhasesAppend(w0, z0, 1, 5);
    } else {
      InPhasesWiden(w0, 2, 3, 1, 5);
    }
  }

  /** The operations of a run that does not exit go through the phases in
      the order of `runReplication`: all backup copies, the deleteDir, all
      staging into the file set, every local put, then the zip puts and the
      single close. */
  lemma PipelineOrdered(fs: Fs, j: seq<Op>, slug: string, choice: string, confirmed: bool, listing: seq<Entry>,
                        uniq: nat -> string, structure: OArray<string, string>, templates: map<string, string>,
                        files: OArray<string, string>, zip: bool)
    requires structure.Valid()
    requires Resolve(fs, j, slug, choice, confirmed, listing, uniq).Proceed?
    ensures var all := RunJournal(Resolve(fs, j, slug, choice, confirmed, listing, uniq).journal, slug, structure, templates, files, zip);
      j <= all && PhaseOrdered(all[|j|..])
  {
    var res := Resolve(fs, [], slug, choice, confirmed, listing, uniq).journal;
    ResolveJournal(fs, j, slug, choice, confirmed, listing, uniq);
    var rest := RunJournal([], slug, structure, templates, files, zip);
    RunJournalShift(j + res, slug, structure, templates, files, zip);
    AppendAssoc(j, res, rest);
    OrderedAppend(res, rest, 1);
    assert (j + (res + rest))[|j|..] == res + rest;
  }

  // ---------------------------------------------------------------------
  // The command object

  /** The fields of `Base` the pipeline reads and writes. */
  class Command {
    var fs: Fs                       // the destination filesystem, relative to $destination
    var archive: Fs                  // the archive $destination/$slug.zip
    var archiveCloses: nat           // calls of close() on the archive
    var files: OArray<string, string>        // $files
    var localStatus: seq<Record>     // $status['local']
    var zipStatus: seq<Record>       // $status['zip']
    ghost var journal: seq<Op>       // the operations performed so far
    const slug: string
    const data: Data
    const structure: OArray<string, string>    // $structure: output path => template name
    const templates: map<string, string>
    var typ: string                  // $type; null is ""
    var destination: string          // $destination; null is ""
    var wpDirs: map<string, string>
    var env: map<string, string>
    const zip: bool

    ghost predicate Valid()
      reads this
    {
      files.Valid() && structure.Valid()
    }

    /** The object as the prompts leave it, before `runReplication`.
        `archive` holds the entries of the `<slug>.zip` that `zipInit`
        will open in the destination: ZipArchive opens an existing archive
        with its entries, and map[] stands for no archive yet. */
    constructor (slug: string, data: Data, files: OArray<string, string>, structure: OArray<string, string>,
                 templates: map<string, string>, destination: string, fs: Fs, zip: bool, archive: Fs)
      requires files.Valid() && structure.Valid()
      ensures Valid()
      ensures this.slug == slug && this.data == data && this.files == files && this.structure == structure
      ensures this.templates == templates && this.destination == destination && this.fs == fs && this.zip == zip
      ensures localStatus == [] && zipStatus == [] && journal == []
      ensures this.archive == archive && archiveCloses == 0 && typ == "" && wpDirs == map[] && env == map[]
    {
      this.slug := slug;
      this.data := data;
      this.files := files;
      this.structure := structure;
      this.templates := templates;
      this.destination := destination;
      this.fs := fs;
      this.zip := zip;
      localStatus, zipStatus := [], [];
      this.archive, archiveCloses := archive, 0;
      typ, wpDirs, env := "", map[], map[];
      journal := [];
    }

    /** `destinationDirExists`: `stopped` stands for `exit` or an exception
        thrown by a backup copy. */
    method DestinationDirExists(choice: string, confirmed: bool, listing: seq<Entry>, uniq: nat -> string)
      returns (stopped: bool)
      modifies this`fs, this`journal
      ensures var r := Resolve(old(fs), old(journal), slug, choice, confirmed, listing, uniq);
        && stopped == !r.Proceed?
        && (r.Abort? ==> fs == old(fs) && journal == old(journal))
        && (!r.Abort? ==> fs == r.fs && journal == r.journal)
    {
      stopped := false;
      if Subtree(fs, slug) == {} {
        return;
      }
      if choice == "delete" {
        if confirmed {
          fs := RemoveDir(fs, slug);
          journal := journal + [DirDeleted(slug)];
        } else {
          stopped := true;
        }
      } else if choice == "backup" {
        var backups := CollectBackups(slug, listing, uniq);
        var c := CopyEach(fs, backups);
        if c.failed {
          fs, journal := c.fs, CopyOps(journal, backups, c.done);
          stopped := true;
          return;
        }
        var out := c.fs;
        ghost var ops := CopyOps(journal, backups, |backups|);
        fs := RemoveDir(out, slug);
        journal := ops + [DirDeleted(slug)];
      }
    }

    /** `replicateFromTemplates` */
    method ReplicateFromTemplates(render: (string, Data) -> string)
      requires Valid()
      modifies this`files, this`journal
      ensures Valid()
      ensures files == Replicated(old(files), structure, |structure.keys|, templates, render, data)
      ensures journal == StageOps(old(journal), structure, |structure.keys|, templates)
    {
      var i := 0;
      while i < |structure.keys|
        invariant 0 <= i <= |structure.keys| && Valid()
        invariant files == Replicated(old(files), structure, i, templates, render, data)
        invariant journal == StageOps(old(journal), structure, i, templates)
      {
        var path := structure.keys[i];
        var contents := ReplicateFileContents(templates, structure.vals[path], render, data);
        if contents.Some? {
          files := files.Put(path, contents.value);
          journal := journal + [Staged(path)];
        }
        i := i + 1;
      }
    }

    /** `sideloadDynamicFiles` with the default `customFileSideload`. */
    method SideloadDynamicFiles(encode: Data -> string)
      requires Valid()
      modifies this`files, this`journal
      ensures Valid()
      ensures files == Sideloaded(old(files), slug, encode, data)
      ensures journal == old(journal) + [Staged(slug + "-data.json")]
    {
      files := files.Put(slug + "-data.json", encode(data));
      journal := journal + [Staged(slug + "-data.json")];
    }

    /** `writeToDestination`: one put per file at `<slug>/<path>` and one
        ledger record per file, whether or not the put succeeded. */
    method WriteToDestination(putOk: string -> bool)
      requires Valid()
      modifies this`fs, this`localStatus, this`journal
      ensures fs == WriteAll(old(fs), TrailingSlashIt(slug), files, putOk, |files.keys|)
      ensures localStatus == LocalLedger(old(localStatus), slug, files, putOk, |files.keys|)
      ensures journal == PutOps(old(journal), TrailingSlashIt(slug), files, |files.keys|, false)
    {
      var prefix, keys, vals := TrailingSlashIt(slug), files.keys, files.vals;
      var out, ledger := fs, localStatus;
      ghost var ops := journal;
      var i := 0;
      while i < |keys|
        invariant 0 <= i <= |keys|
        invariant out == WriteAll(old(fs), prefix, files, putOk, i)
        invariant ledger == LocalLedger(old(localStatus), slug, files, putOk, i)
        invariant ops == PutOps(old(journal), prefix, files, i, false)
      {
        var destination := keys[i];
        var partial := prefix + destination;
        var response := putOk(partial);
        if response {
          out := out[partial := vals[destination]];
        }
        ops := ops + [Wrote(partial)];
        ledger := ledger + [Record(destination, partial, response, None)];
        i := i + 1;
      }
      fs, localStatus, journal := out, ledger, ops;
    }

    /** `generateZipArchive`: one put per file at its bare path, one ledger
        record per file, and one close, even for an empty file set. */
    method GenerateZipArchive(zipOk: string -> bool)
      requires Valid()
      modifies this`archive, this`zipStatus, this`archiveCloses, this`journal
      ensures archive == WriteAll(old(archive), "", files, zipOk, |files.keys|)
      ensures zipStatus == ZipLedger(old(zipStatus), slug, files, zipOk, |files.keys|)
      ensures archiveCloses == old(archiveCloses) + 1
      ensures journal == PutOps(old(journal), "", files, |files.keys|, true) + [ZipClosed]
    {
      var keys, vals := files.keys, files.vals;
      var out, ledger := archive, zipStatus;
      ghost var ops := journal;
      var i := 0;
      while i < |keys|
        invariant 0 <= i <= |keys|
        invariant out == WriteAll(old(archive), "", files, zipOk, i)
        invariant ledger == ZipLedger(old(zipStatus), slug, files, zipOk, i)
        invariant ops == PutOps(old(journal), "", files, i, true)
      {
        var destination := keys[i];
        var file := AfterLast(destination, slug);
        var response := zipOk(destination);
        assert "" + destination == destination;
        if response {
          out := out[destination := vals[destination]];
        }
        ops := ops + [Zipped(destination)];
        ledger := ledger + [Record(destination, TrailingSlashIt(slug) + file, response, Some(ZipMessage(response, file)))];
        i := i + 1;
      }
      archive, zipStatus, archiveCloses := out, ledger, archiveCloses + 1;
      journal := ops + [ZipClosed];
    }

    /** The staging steps of `runReplication`: render the structure into
        the file set, then sideload the data file. */
    method StageFiles(render: (string, Data) -> string, encode: Data -> string)
      requires Valid()
      modifies this`files, this`journal
      ensures Valid()
      ensures files == Sideloaded(Replicated(old(files), structure, |structure.keys|, templates, render, data), slug, encode, data)
      ensures journal == StageOps(old(journal), structure, |structure.keys|, templates) + [Staged(slug + "-data.json")]
    {
      ReplicateFromTemplates(render);
      SideloadDynamicFiles(encode);
    }

    /** The output steps of `runReplication`: write locally, then mirror
        into the archive when requested. */
    method Publish(putOk: string -> bool, zipOk: string -> bool)
      requires Valid()
      modifies this`fs, this`localStatus, this`zipStatus, this`archive, this`archiveCloses, this`journal
      ensures fs == WriteAll(old(fs), TrailingSlashIt(slug), files, putOk, |files.keys|)
      ensures localStatus == LocalLedger(old(localStatus), slug, files, putOk, |files.keys|)
      ensures zipStatus == if zip then ZipLedger(old(zipStatus), slug, files, zipOk, |files.keys|) else old(zipStatus)
      ensures archive == if zip then WriteAll(old(archive), "", files, zipOk, |files.keys|) else old(archive)
      ensures archiveCloses == old(archiveCloses) + if zip then 1 else 0
      ensures var written := PutOps(old(journal), TrailingSlashIt(slug), files, |files.keys|, false);
        journal == if zip then PutOps(written, "", files, |files.keys|, true) + [ZipClosed] else written
    {
      WriteToDestination(putOk);
      if zip {
        GenerateZipArchive(zipOk);
      }
    }

    /** The steps of `runReplication` after the conflict check. */
    method ReplicateAndWrite(render: (string, Data) -> string, encode: Data -> string,
                             putOk: string -> bool, zipOk: string -> bool)
      requires Valid()
      modifies this`files, this`fs, this`localStatus, this`zipStatus, this`archive, this`archiveCloses, this`journal
      ensures Valid()
      ensures files == Sideloaded(Replicated(old(files), structure, |structure.keys|, templates, render, data), slug, encode, data)
      ensures fs == WriteAll(old(fs), TrailingSlashIt(slug), files, putOk, |files.keys|)
      ensures localStatus == LocalLedger(old(localStatus), slug, files, putOk, |files.keys|)
      ensures zipStatus == if zip then ZipLedger(old(zipStatus), slug, files, zipOk, |files.keys|) else old(zipStatus)
      ensures archive == if zip then WriteAll(old(archive), "", files, zipOk, |files.keys|) else old(archive)
      ensures archiveCloses == old(archiveCloses) + if zip then 1 else 0
      ensures journal == RunJournal(old(journal), slug, structure, templates, files, zip)
    {
      StageFiles(render, encode);
      Publish(putOk, zipOk);
    }

    /** `runReplication`. The structure is whatever `setupStructure` left in
        `structure`. An `exit` leaves everything as it was; an
        exception from a backup copy leaves the copies made before it. */
    method RunReplication(choice: string, confirmed: bool, listing: seq<Entry>, uniq: nat -> string,
                          render: (string, Data) -> string, encode: Data -> string,
                          putOk: string -> bool, zipOk: string -> bool)
      returns (stopped: bool)
      requires Valid()
      modifies this`files, this`fs, this`localStatus, this`zipStatus, this`archive, this`archiveCloses, this`journal
      ensures Valid()
      ensures var r := Resolve(old(fs), old(journal), slug, choice, confirmed, listing, uniq);
        && stopped == !r.Proceed?
        && (stopped ==>
          && files == old(files) && localStatus == old(localStatus) && zipStatus == old(zipStatus)
          && archive == old(archive) && archiveCloses == old(archiveCloses)
          && (r.Abort? ==> fs == old(fs) && journal == old(journal))
          && (r.Thrown? ==> fs == r.fs && journal == r.journal))
        && (!stopped ==>
          && files == Sideloaded(Replicated(old(files), structure, |structure.keys|, templates, render, data), slug, encode, data)
          && fs == WriteAll(r.fs, TrailingSlashIt(slug), files, putOk, |files.keys|)
          && localStatus == LocalLedger(old(localStatus), slug, files, putOk, |files.keys|)
          && zipStatus == (if zip then ZipLedger(old(zipStatus), slug, files, zipOk, |files.keys|) else old(zipStatus))
          && archive == (if zip then WriteAll(old(archive), "", files, zipOk, |files.keys|) else old(archive))
          && archiveCloses == old(archiveCloses) + (if zip then 1 else 0)
          && journal == RunJournal(r.journal, slug, structure, templates, files, zip))
    {
      stopped := DestinationDirExists(choice, confirmed, listing, uniq);
      if stopped {
        return;
      }
      ReplicateAndWrite(render, encode, putOk, zipOk);
    }

    /** `setType`: the alias step, then the destination from `$wpDirs` when
        none is set. */
    method SetType()
      modifies this`typ, this`destination
      ensures typ == MappedType(old(typ))
      ensures destination == if Empty(old(destination)) && typ in wpDirs then wpDirs[typ] else old(destination)
    {
      if typ in TypeMaps && "map" in TypeMaps[typ] {
        typ := TypeMaps[typ]["map"];
      }
      if Empty(destination) && typ in wpDirs {
        destination := wpDirs[typ];
      }
    }

    /** The filtering loop of `loadEnvionmentVariables` over `getenv()`. */
    method LoadEnvironmentVariables(vars: seq<(string, string)>)
      modifies this`env
      ensures env == FilteredEnv(old(env), vars)
    {
      var i := 0;
      while i < |vars|
        invariant 0 <= i <= |vars|
        invariant env == FilteredEnv(old(env), vars[..i])
      {
        assert vars[..i + 1][..i] == vars[..i];
        var (key, value) := vars[i];
        if ContainsCI(key, EnvPrefix) {
          var cleaned := ReplaceCI(key, EnvPrefix, "");
          if !Empty(value) {
            env := env[cleaned := value];
          }
        }
        i := i + 1;
      }
      assert vars[..i] == vars;
    }
  }
}
