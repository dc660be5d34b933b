# Replicator, modelled in Dafny

Replicator is a WP-CLI scaffolding framework. A command built on it asks
the user a series of questions: product name, slug, namespace, version,
license, author. It turns the answers into a `data` array and renders a
`structure` of Mustache templates with that array. It then deals with a
destination directory that already exists (backup, overwrite or delete).
It writes the rendered files under `<destination>/<slug>/` and can
optionally copy them into `<slug>.zip`, keeping a status ledger of every
write.

The repository holds two generations of the framework, and this project
models both:

- `src/Base.php` and `src/Common.php` are the current abstract base
  classes, modelled by the modules `Base` and `Common`.
- `src/class-base.php` and `src/class-common.php` are the earlier copies,
  modelled by the modules `ClassBase` and `ClassCommon`.

The modules share three helper modules:

- `PhpStrings`: PHP's string primitives, as the code uses them. These are
  `empty()`, `stripos`, `str_ireplace`, `strtolower`/`strtoupper`,
  `ucwords`, `rtrim`, WordPress's `trailingslashit`,
  `array_pop(explode())` and the slug `preg_replace`.
- `OrderedArrays`: a PHP ordered array, as a key sequence plus a map.
- `Storage`: the Flysystem destination and archive as a map from path to
  contents, directory listings, the status ledger's records, and a ghost
  journal of filesystem operations used to state their order. A copy
  follows Flysystem 1: it throws when its source is missing or its target
  already exists, and the exception ends the command.

What the model covers:

- The prompt logic is a set of pure functions of the answers. Each
  answer, confirmation, `uniqid()` result and put success flag is a
  parameter.
- The command objects are classes whose methods change the fields that
  the PHP methods change. Each method is proved against those functions.
- Lemmas state what the functions guarantee.
  - The derived slug and namespace recover each other.
  - `namespace_check` doubles backslashes and can be read back.
  - A backup keeps every file outside the slug directory and empties it.
  - The pipeline goes through its phases in order.
  - The JSON package files have the members the code assigns.

Several lemmas pin down behaviour of the code as written that its authors
evidently did not intend. The model keeps that behaviour rather than
correcting it:

- In `class-base.php`, one backup directory name is shared by every file.
  Two paths that differ only in the case of a later occurrence of the
  slug therefore get the same backup path. The second copy throws, so the
  command ends after one copy with the slug directory still in place
  (`ClassBase.SharedBackupCollides`).
- Its `zip()` puts empty contents, because it reads an undefined variable
  (`ClassBase.ZipContentsEmpty`).
- Its `write()` always zips, so `run()` with `$zip` set closes the archive
  twice (`ClassBase.RunJournalSpec`). `zip_init()` builds the archive
  handle only once, so the second pass puts into a closed archive: none of
  its puts lands and each is logged as a failure
  (`ClassBase.ClosedPassLandsNothing`).
- In `class-common.php`, a GPL choice drops both GPL entries and then
  looks up the bare "only"/"later" answer, so the license fields come out
  empty (`ClassCommon.GplSelectionLost`).
- Its `type_prompts` calls `Utils\get_flag_value`, but the file does not
  import `WP_CLI\Utils`. Whenever the type is still empty this is a call
  of an undefined function, a fatal error (`ClassCommon.Command.TypePrompts`).
  Even with the call resolved, it compares a string strictly against
  arrays and would never accept a type (`ClassCommon.TypeNeverAccepted`).
- `Common.php` declares `namespace Replicator\Core` and `class Common
  extends Base` without a `use` for `Base`, so its parent resolves to
  `Replicator\Core\Base`. `src/Base.php` declares
  `PressNitro\Replicator\Base`, and none of the four files modelled
  declares `Replicator\Core\Base`. As written, Common's parent is not
  found unless another file declares it. The model assumes it is
  `src/Base.php`'s class (`Common.Command.Replicator` builds a
  `Base.Command`).
- In `Common.php`, `licenseHandler` guards on the misspelt
  `DEFAULT_LICNESE` and `namingPrompts` reads the misspelt
  `DEFAULT_VERISON` (`Common.LicenseEnvironmentKeys`,
  `Common.NamingVersion`).

## Model

| member | source | states |
|---|---|---|
| PhpStrings.RtrimSpec | src/Common.php:210 | rtrim's result is a prefix of its input, never ends in a trimmed character, and only trimmed characters were removed |
| PhpStrings.AfterLastSuffix | src/Base.php:379 | `array_pop(explode($slug, $destination))` is a suffix of the destination and no longer than it |
| PhpStrings.KeepSlugSourceChars | src/Common.php:435 | the slug `preg_replace` keeps only digits, ASCII letters, '-' and ' ', and never lengthens its input |
| PhpStrings.ContainsCIAtEnd | src/Base.php:337 | a name that ends in ".mustache" is found by stripos |
| PhpStrings.ReplaceCIAbsent | src/Base.php:559 | str_ireplace leaves a string without the search text unchanged |
| PhpStrings.ReplaceCIAtStart | src/Base.php:271 | str_ireplace on a path that starts with the slug puts the replacement at the start |
| PhpStrings.ReplaceCISingleIsMap | src/Common.php:435 | str_ireplace of one non-letter character by another is a character-wise map |
| PhpStrings.ReplaceBackslashLength | src/Common.php:246 | doubling backslashes lengthens the string by its number of backslashes |
| Storage.RemoveDir | src/Base.php:260 | deleteDir removes exactly the files under the directory and keeps every other file's contents |
| Storage.FilePathsMembers | src/Base.php:267-272 | the backup loop collects exactly the paths of the listing's file entries, skipping directories |
| Storage.CopyAllLands | src/Base.php:275-277 | when every source exists, no target exists beforehand and the targets are distinct, no copy throws and each target ends up holding its source's contents |
| Storage.CopyAllKeeps | src/Base.php:275-277 | copies never change or remove a file that existed before, and every new path is the target of a copy that was made |
| Storage.CopyAllStops | src/Base.php:275-277 | once a copy has thrown, no later copy of the plan is made |
| Storage.CopyEach | src/Base.php:275-277 | the copy loop makes the plan's copies in order and stops at the first one that throws because its source is missing or its target exists |
| Storage.WriteAllAt | src/Base.php:378-386 | a put that succeeds stores the file's contents at the prefixed path |
| Storage.WriteAllElsewhere | src/Base.php:378-386 | paths that no successful put targets are left as they were |
| Base.TemplateNameSpec | src/Base.php:337 | the template name always contains ".mustache", extends the given name, and equals it exactly when it already contained the suffix (case-insensitively) |
| Base.TemplateNameIdempotent | src/Base.php:337 | resolving a template name twice gives the same name |
| Base.RenderMustacheTemplate | src/Base.php:318-320 | the engine is given the passed data when it is non-empty, otherwise the command's own data |
| Base.ReplicateFileContents | src/Base.php:329-346 | a result exists exactly when the resolved template file exists, and it is that template rendered with the command's data |
| Base.ReplicateEntry | src/Base.php:302-308 | one structure entry sets its path to the rendered template when the template exists, otherwise leaves the files as they were; existing keys keep their order |
| Base.ReplicatedAt | src/Base.php:290-309 | after replicateFromTemplates, every structure path whose template exists holds that template rendered with data |
| Base.ReplicatedElsewhere | src/Base.php:290-309 | paths that are not replicated keep their presence and contents |
| Base.ReplicateEntryKeeps | src/Base.php:302-308 | one entry changes no other path |
| Base.Replicated | src/Base.php:290-309 | replication keeps the file array valid and only adds keys |
| Base.Sideloaded | src/Base.php:353-357 | sideloading adds `<slug>-data.json` holding the encoded data and changes no other file |
| Base.LocalLedger | src/Base.php:394-398 | writeToDestination appends exactly one ledger record per file |
| Base.ZipLedger | src/Base.php:418-423 | generateZipArchive appends exactly one ledger record per file |
| Base.LedgerRecords | src/Base.php:378-424 | record i of the local ledger names file i, its slug-prefixed partial path and the put's success; record i of the zip ledger names file i, the text after the last slug, the zip put's success and the matching message |
| Base.LedgerParity | src/Base.php:378-424 | the local and zip ledgers list the same destinations in the same order, each with its own put's success |
| Base.BackupPlan | src/Base.php:267-273 | the backup plan has one copy per file, from its path to the path with the slug replaced by `<slug>-backup_<uniqid>`, with a fresh uniqid per file |
| Base.BackupPlanSnoc | src/Base.php:267-273 | a file appended to the listing appends its copy to the plan |
| Base.CollectBackups | src/Base.php:266-273 | the loop over the recursive listing returns the backup plan of its file entries |
| Base.ResolveOutcome | src/Base.php:234-285 | the run aborts exactly when the slug directory is non-empty and "delete" is chosen but not confirmed; a throw happens only in a backup of a non-empty directory and keeps every file; an empty directory or any other answer changes nothing; a delete or a completed backup empties the directory; a run that does not abort keeps every file outside the slug directory with its contents |
| Base.ResolveJournal | src/Base.php:234-285 | the existence check only copies and then deletes, in that order, and deletes the directory once exactly when it had files and "delete" or "backup" was chosen |
| Base.BackupJournal | src/Base.php:275-279 | the backup's copies all come before its single deleteDir |
| Base.BackupTargetsOutside | src/Base.php:271 | every backup target lies under `<slug>-backup_<uniqid>` and outside the slug directory |
| Base.BackupTargetsDistinct | src/Base.php:271 | when the uniqid values drawn for the listed files are distinct and 13 characters long, the files get distinct backup targets |
| Base.BackupPlanCovers | src/Base.php:267-273 | the plan copies every file of the slug directory exactly once, and nothing else |
| Base.BackupKeepsEveryFile | src/Base.php:264-279 | when the uniqid values drawn for the listed files are distinct, 13 characters long and name no existing file or directory, the backup does not throw: every file formerly under the slug exists at its backup path with its old contents, and the slug directory is empty |
| Base.DistinctCardinality | src/Base.php:274 | the number of files reported for backup is the number of distinct files |
| Base.MappedType | src/Base.php:158-165 | typeMaps changes exactly plugin, theme, root, package, wpcli and cmd, to plugins, themes, abspath and packages, and a mapped type is not mapped again |
| Base.FilteredEnv | src/Base.php:555-563 | every key added to `env` comes from a variable containing REPLICATOR_ (case-insensitively) with a non-empty value |
| Base.FilteredEnvLastWins | src/Base.php:555-563 | a kept variable's value is stored under its cleaned key unless a later kept variable has the same cleaned key |
| Base.FilteredEnvSkips | src/Base.php:556-560 | a variable without the prefix, or with an empty value, changes nothing |
| Base.CleanedKeyOfPrefixed | src/Base.php:559 | `REPLICATOR_<name>` is stored under `<name>` |
| Base.StageOpsShift | src/Base.php:290-309 | replication only stages files |
| Base.StagedJournalShift | src/Base.php:353-357 | staging ends with the data file and stays in the staging phase |
| Base.LocalJournalShift | src/Base.php:220-225 | staging and local writes come in phase order |
| Base.ZipJournalShift | src/Base.php:405-428 | zip puts come before the single archive close |
| Base.RunJournalShift | src/Base.php:220-229 | everything after the existence check runs in phase order |
| Base.PipelineOrdered | src/Base.php:220-229 | runReplication copies, deletes, stages, writes, zips and closes in that order and never returns to an earlier phase |
| Base.Command.constructor | src/Base.php:95-98 | a new command starts with empty status ledgers, no archive close yet, and the archive holding the entries of any `<slug>.zip` already in the destination, which zipInit reopens |
| Base.Command.DestinationDirExists | src/Base.php:234-285 | returns whether the run stops; an abort changes nothing; otherwise the filesystem and journal become the resolution's, including the copies made before a copy threw |
| Base.Command.ReplicateFromTemplates | src/Base.php:290-309 | the files become the replicated structure |
| Base.Command.SideloadDynamicFiles | src/Base.php:353-357 | the files gain the encoded data file |
| Base.Command.WriteToDestination | src/Base.php:369-400 | every file is put at `<slug>/<destination>` in order, and the local ledger records each put |
| Base.Command.GenerateZipArchive | src/Base.php:405-428 | every file is put into the archive under its own name, each put is recorded, and the archive is closed once |
| Base.Command.StageFiles | src/Base.php:223-224 | replication followed by sideloading |
| Base.Command.Publish | src/Base.php:225-228 | writing, then zipping only when `zip` is set |
| Base.Command.ReplicateAndWrite | src/Base.php:222-228 | the pipeline after the existence check, with its files, filesystem, ledgers, archive and ordered journal |
| Base.Command.RunReplication | src/Base.php:220-229 | the run stops exactly when the existence check aborts or throws, and then files, ledgers and archive are unchanged (a throw keeps the copies it made); otherwise the files are replicated and sideloaded and written over the resolved filesystem, the ledgers and archive follow, and the journal is in phase order |
| Base.Command.SetType | src/Base.php:518-528 | the type is mapped through typeMaps, and an empty destination is taken from wpDirs for the mapped type |
| Base.Command.LoadEnvironmentVariables | src/Base.php:555-563 | `env` gains the filtered REPLICATOR_ variables |
| Common.KeepSlugSourceCharsOfSlug | src/Common.php:435 | the slug filter leaves a string of allowed characters unchanged |
| Common.DefaultSlugIsMap | src/Common.php:435 | the default slug is the filtered title with spaces turned into '-', lower-cased |
| Common.DefaultSlugChars | src/Common.php:434-436 | a default slug holds only digits, lower-case letters and '-' |
| Common.DefaultSlugIdempotent | src/Common.php:434-436 | deriving a slug from a default slug gives it back |
| Common.NamespaceRecoversSlug | src/Common.php:438-440 | lower-casing the namespace derived from a slug and turning '_' back into '-' gives the slug |
| Common.ReplicateDefaultNamespaceRecoversSlug | src/Common.php:434-440 | the default namespace and the default slug of the same label recover each other |
| Common.ConstantPrefixSpec | src/Common.php:261 | `constant_prefix` is the slug with '-' as '_', upper-cased, character by character |
| Common.ConstantPrefixOfNamespace | src/Common.php:261 | `constant_prefix` is the upper-cased default namespace of the slug |
| Common.NamespaceCheckSpec | src/Common.php:246 | `namespace_check` doubles each backslash, and reading doubled backslashes back gives the namespace |
| Common.LabelTypeSpec | src/Common.php:210 | the label type is "Product" for an empty type; otherwise it is the ucwords'd type without its trailing 's' characters |
| Common.DefaultsTypeSpec | src/Common.php:180-203 | the defaults type ends in '_'; a user/org flag wins, then DEFAULTS_TYPE from env, then the prompt when some env key contains "org_" (case-insensitively), else USER_ |
| Common.GitUrlSpec | src/Common.php:300-302 | the git URL is `https://<host>.com/<username without trailing slashes>/<slug>` |
| Common.DefaultsValid | src/Common.php:417-423 | the defaults table is a valid ordered array (label, slug, namespace for commands) |
| Common.CopyIntoAt | src/Common.php:427-429 | copying the defaults sets each copied key to its default and keeps the others |
| Common.CopyIntoAll | src/Common.php:427-429 | the whole copy loop overrides data with the defaults |
| Common.DefaultsApplied | src/Common.php:417-432 | confirmed defaults set slug and namespace derived from the command label or data's label, which recover each other, and `$this->slug` follows data's slug |
| Common.DefaultsKeep | src/Common.php:417-432 | replicateDefaults touches no key besides label, slug and namespace |
| Common.NamingDerivations | src/Common.php:246-261 | `namespace_check` and `constant_prefix` are derived from the final namespace and slug, and `desc` is the answer |
| Common.NamingVersion | src/Common.php:251-259 | the version is DEFAULT_VERSION when ALWAYS_DEFAULTS is set, a set version is kept, else the prompt defaults to the misspelt DEFAULT_VERISON or "0.1.0", which is "" when only DEFAULT_VERSION is set |
| Common.NameStepKeeps | src/Common.php:217-231 | the name prompts touch only cmd_name, label, slug and namespace |
| Common.SlugStepKeeps | src/Common.php:233-244 | the slug and namespace prompts touch only slug and namespace |
| Common.NamingKeepsVersion | src/Common.php:217-244 | a version already set survives the name prompts |
| Common.NameStepWithDefaults | src/Common.php:224-231 | for non-commands, confirmed defaults derive slug and namespace from the (possibly prompted) label |
| Common.NameStepCommand | src/Common.php:217-222 | for commands, confirmed defaults set label "<Cmd> Command" and the slug and namespace derived from it |
| Common.NamingKeepsSetNames | src/Common.php:233-261 | a slug and namespace set before the prompts are kept, and `constant_prefix` follows that slug |
| Common.LicensedDataSpec | src/Common.php:324-342 | for "other" data is unchanged; otherwise data gains the selected license's spdx, label and url, gains license_readme_insert exactly when the readme template exists, and keeps every other key |
| Common.LicensedFilesSpec | src/Common.php:329-334 | LICENSE is added exactly when a license other than "other" has a template; other files are unchanged |
| Common.GplSelection | src/Common.php:315-319 | a GPL answer with a version installs the matching gplTypes entry and takes its spdx, label and url |
| Common.LicenseEnvironmentKeys | src/Common.php:311-321 | the guard reads DEFAULT_LICNESE: when it is empty the prompt decides; when it is set and DEFAULT_LICENSE is missing, all license fields are empty |
| Common.KeyNameInjective | src/Common.php:360-400 | distinct package members have distinct JSON names |
| Common.JsonFileSummary | src/Common.php:359-401 | the array replicateJSONFile builds equals the summary package file: its members in the order they are first assigned, each with its last assigned value |
| Common.AuthorStep | src/Common.php:366-377 | the author block appends "author" (name, email, url) for npm, or "authors" with one author whose url was unset for composer |
| Common.VendorStep | src/Common.php:379-381 | composer with a git username overwrites "name" in place with "<username>/<slug>"; otherwise nothing changes |
| Common.LicenseStep | src/Common.php:383-390 | the license block appends "license" (spdx, "proprietary" or "UNLICENSED"), and "private" for an unlicensed npm package |
| Common.LinksStep | src/Common.php:392-398 | npm with a git URL appends "bugs", "homepage" and "repository"; otherwise nothing changes |
| Common.AssignedSummary | src/Common.php:359-400 | the four blocks applied in order to the array literal end in the summary package file |
| OrderedArrays.PutValid | src/Common.php:373 | assigning a key keeps the array well formed |
| OrderedArrays.UnsetValid | src/Common.php:375 | unsetting a key keeps the array well formed: the remaining keys stay distinct, in order and in step with the values |
| Common.JsonValid | src/Common.php:359-401 | the generated package file is a valid ordered array |
| Common.JsonName | src/Common.php:360-381 | name, version and description come first; composer's name is `<git user>/<slug>` when a git username is set |
| Common.JsonAuthors | src/Common.php:366-377 | npm has an `author` object, composer an `authors` list with one author |
| Common.AuthorWithoutUrl | src/Common.php:366-376 | composer's author is npm's author without url, keeping name and email in order |
| Common.JsonLicense | src/Common.php:383-390 | the license is the spdx, else "proprietary" for composer and "UNLICENSED" with `private: true` for npm |
| Common.JsonLinks | src/Common.php:392-398 | npm gains bugs, homepage and repository exactly when a git URL is set |
| Common.Command.constructor | src/Common.php:56-77 | a new command starts with the declared license table and no files |
| Common.Command.ResolveDefaultsType | src/Common.php:180-203 | the defaults type follows the flag, env and prompt precedence |
| Common.Command.ReplicateDefaults | src/Common.php:417-432 | data and slug become the defaulted naming |
| Common.Command.NamingPrompts | src/Common.php:208-262 | the label type is set, and data and slug become the naming outcome of the answers |
| Common.Command.NamePrompts | src/Common.php:217-231 | data and slug after the command and label prompts |
| Common.Command.SlugPrompts | src/Common.php:233-244 | data and slug after the slug and namespace prompts |
| Common.Command.DeriveKeys | src/Common.php:246-261 | data after namespace_check, desc, version and constant_prefix |
| Common.Command.SetGitUrl | src/Common.php:300-302 | the git URL is set unless the git host is "none" |
| Common.Command.LicenseHandler | src/Common.php:310-343 | licenses, data and files after the license is selected and applied |
| Common.Command.SelectLicense | src/Common.php:311-322 | the selection and the installed GPL entry |
| Common.Command.ApplyLicense | src/Common.php:324-342 | data and files after the selected license is applied |
| Common.Command.HandleConfigFiles | src/Common.php:349-357 | composer and package data are the replicated JSON files, and composer.json and package.json hold their encodings |
| Common.Command.Replicator | src/Common.php:138-175 | the pipeline object receives this command's slug, data and files, and the entries of any existing `<slug>.zip` as its archive |
| ClassBase.TypeOfSpec | src/class-base.php:485-503 | set_type's result is plugins, themes, abspath or packages, and mapping it again gives it back |
| ClassBase.TypeOfAgrees | src/class-base.php:135-146 | the 'map' entries agree with Base's typeMaps, and 'slug' entries map a type to itself |
| ClassBase.SharedBackupPlanSpec | src/class-base.php:247-256 | each file of the listing is copied to its path with the slug replaced by the one shared backup directory name |
| ClassBase.ExistsOutcome | src/class-base.php:215-266 | the run aborts exactly on an unconfirmed delete of a non-empty directory; a throw happens only in a backup of a non-empty directory and keeps every file; an empty directory or any other answer changes nothing; a delete or a completed backup empties the directory; a run that does not abort keeps every file outside the slug directory with its contents |
| ClassBase.ExistsJournal | src/class-base.php:245-263 | a backup makes its copies in order and then deletes the directory once; when a copy throws, the journal ends with the copies made and nothing is deleted |
| ClassBase.BackupInSharedDir | src/class-base.php:254 | a file under the slug lands under the shared backup directory |
| ClassBase.SharedBackupCollides | src/class-base.php:248-263 | "a/A" and "a/a" get the same backup path, so the second copy throws: the run ends after one copy, with both originals still in place |
| ClassBase.SharedBackupKeepsEveryFile | src/class-base.php:245-263 | when no file yet uses the shared backup directory and the backup paths are distinct, the backup does not throw: each file of the slug directory lands under the backup directory with its contents, and the slug directory is empty |
| ClassBase.WriteLedgerSpec | src/class-base.php:352-369 | write appends one record per file with its destination, the partial path after the last slug, the put's success and its message |
| ClassBase.Blank | src/class-base.php:381-388 | what zip puts is every file name with empty contents |
| ClassBase.ZipContentsEmpty | src/class-base.php:381-388 | a successful zip put stores an empty file |
| ClassBase.LocalShift | src/class-base.php:271-369 | staging and local writes come in phase order |
| ClassBase.WriteJournalShift | src/class-base.php:344-372 | write's journal is in phase order |
| ClassBase.WriteJournalCloses | src/class-base.php:371 | write closes the archive once |
| ClassBase.NoCloseBefore | src/class-base.php:399 | the archive is only closed at the end of zip |
| ClassBase.ZipPassCloses | src/class-base.php:377-400 | one zip pass closes the archive once |
| ClassBase.RunJournalSpec | src/class-base.php:201-210 | run's journal is in phase order through write, and closes the archive twice when `zip` is set |
| ClassBase.ClosedPassLandsNothing | src/class-base.php:207-209 | a zip pass over the archive the first pass closed adds nothing to it, and each of its records is a failure reading "Failed to write: " and the file |
| ClassBase.Command.constructor | src/class-base.php:161-175 | a new command starts with empty ledgers, no archive close yet, and the archive holding the entries of any `<slug>.zip` already in the destination, which zip_init reopens |
| ClassBase.Command.Exists | src/class-base.php:215-266 | returns whether the run stops; an abort changes nothing; otherwise the filesystem and journal become the resolution's, including the copies made before a copy threw |
| ClassBase.Command.Replicate | src/class-base.php:271-293 | the files become the replicated structure |
| ClassBase.Command.Write | src/class-base.php:344-372 | every file is put under the slug and recorded, then zip runs through the archive handle |
| ClassBase.Command.Zip | src/class-base.php:377-400 | every file name is put into the archive with empty contents and recorded, and the archive is closed once; once the handle's archive has been closed no put lands |
| ClassBase.Command.Publish | src/class-base.php:206-209 | write then, with `zip`, a second pass into the closed archive: the archive is as the first pass left it and the ledger gains one failed record per file |
| ClassBase.Command.ReplicateAndWrite | src/class-base.php:203-209 | the pipeline after the existence check, with both zip passes' ledgers |
| ClassBase.Command.Run | src/class-base.php:201-210 | the run stops exactly when exists aborts or throws, and then files, ledgers and archive are unchanged (a throw keeps the copies it made); otherwise files are replicated and written over the resolved filesystem, the archive holds empty files from the first pass only, the zip ledger gains the first pass's records and, with `zip`, the failed records of the second, and the archive is closed once or twice |
| ClassBase.Command.SetType | src/class-base.php:485-507 | an empty input returns null and changes nothing; otherwise false, and a known input sets the mapped type and a destination from wpDirs when one exists |
| ClassCommon.CmdDataValid | src/class-common.php:114-117 | the command defaults are a valid ordered array |
| ClassCommon.CmdSlugSpec | src/class-common.php:116 | the command slug is the default slug of the command label, uses only slug characters, and is idempotent |
| ClassCommon.CmdNamespaceSpec | src/class-common.php:117 | the command namespace keeps the name's length and, for a non-empty name without tabs or line breaks, is the name with ' ' and '-' as '_' and its first letter upper-cased |
| ClassCommon.NamingGate | src/class-common.php:109-138 | a confirmed command run takes the command defaults, a declined one the prompted label, slug and namespace, and a non-command run keeps data unchanged |
| ClassCommon.GplSelectionLost | src/class-common.php:170-180 | a GPL answer removes both GPL entries and selects the bare "only"/"later", so spdx and label come out empty |
| ClassCommon.DeclaredHasNoVersionKeys | src/class-common.php:45-59 | the license table has no "only" or "later" entry |
| ClassCommon.LicensedDataSpec | src/class-common.php:178-191 | except for "other", data gains spdx and label, and a readme insert exactly when the readme template exists; no other key changes |
| ClassCommon.LicensedFilesSpec | src/class-common.php:182-185 | LICENSE is added exactly when a license other than "other" has a template |
| ClassCommon.TypeNeverAccepted | src/class-common.php:202-213 | even with `Utils\get_flag_value` resolved, no input passes the strict `in_array` test, so the type would never change |
| ClassCommon.Command.constructor | src/class-common.php:24-59 | a new command starts with the declared license table, no files and an empty slug |
| ClassCommon.Command.GenericPrompts | src/class-common.php:104-159 | slug, licenses, data and files after naming, description, author, license and README rendering |
| ClassCommon.Command.NamePrompts | src/class-common.php:109-140 | data is the named data and the slug is data's slug |
| ClassCommon.Command.CopyCmdData | src/class-common.php:124-128 | confirmed command defaults are copied into data |
| ClassCommon.Command.LicenseHandler | src/class-common.php:166-192 | licenses, data and files after the selection is applied |
| ClassCommon.Command.SelectLicense | src/class-common.php:167-176 | the selection and the pruned license table |
| ClassCommon.Command.ApplyLicense | src/class-common.php:178-191 | data and files after the selected license is applied |
| ClassCommon.Command.TypePrompts | src/class-common.php:202-213 | type_prompts fails with a fatal error exactly when the type is empty, because `Utils\get_flag_value` is not imported in its namespace; a set type is left as it is |
| ClassCommon.Command.Replicator | src/class-common.php:13 | the pipeline object receives this command's slug, data, files and type, and the entries of any existing `<slug>.zip` as its archive |

## Left out

- Terminal I/O through CLImate is not modelled. Messages, tables and `exit` after an unconfirmed delete become the abort outcome.
- The misspelt `sucess` call in `src/class-base.php:284` is assumed only to print.
- The Mustache engine and `json_encode` are function parameters; their output is not modelled.
- `trailingslashit` is modelled as WordPress defines it: trailing '/' and '\' removed, then one '/' added.
- Prompt answers, confirmations, `date('Y')`, `uniqid()` and the success of each Flysystem put are parameters.
  - An answer restricted by `accept()` is taken to be one of the accepted values.
  - The `'gplv3'` default of the license prompts is not an accepted key, so CLImate asks again.
- Loading `.env` files, `getenv()`, PHP constants and ABSPATH detection are not modelled.
  - `replicatorInit`/`replicator_init`, the PHP version check, `commonInit`/`common_init` and the Flysystem constructors are not modelled either.
  - The environment is a map or a list of variables.
  - `wpDirs`, the destination and the templates directory are given.
- `commonPrompts` is modelled only through the members it calls.
  - This leaves out its flag parsing, `handleCustomDir` (getcwd/realpath) and the WP-CLI hooks that run `scaffold plugin-tests`.
- `authorAndUrlPrompts` is modelled only for the git URL it builds (`Common.Command.SetGitUrl`). The prompt loop for author fields and the git host prompt are left out.
- `modifyConfigFiles` and `customFileSideload` are empty hooks, and `sideload()` in `src/class-base.php` is empty. None has a member.
- The templates-directory prompt in `replicateFileContents`/`replicate_file_contents` is left out. The templates are given as a map.
- Replicator's `null` values are modelled as "" (missing keys read as ""). `empty()` is modelled on strings as "" or "0".
- A put into a closed archive is modelled as PHP 7's ZipArchive behaves: the put returns false.
  - Under PHP 8 the first such call throws instead. That exception is not modelled.
  - Each archive close is counted in `archiveCloses` and in the journal.
  - While the archive is open, a put's success flag decides whether it lands.
- Base.Command.constructor, ClassBase.Command.constructor: the archive is kept apart from `fs`.
  - The starting archive is a parameter. It is not read from a `<slug>.zip` entry of `fs`.
  - The closed archive is not written back into `fs` as `<slug>.zip`.
- `generic_prompts` is modelled with these assumptions:
  - Its read of `/templates/README.md.mustache` is taken to be the same file as the checked `templates/README.md.mustache`.
  - The label-type prompt texts it builds are not modelled.
  - `$use_default` is an `Option`, because PHP leaves it undefined for non-command runs.
- `gpl_types` in `src/class-common.php` is never read by its code, so it has no counterpart.
- `replicateJSONFile`'s `$type` is a two-valued datatype; any other string is not modelled.
- PHP inheritance is modelled as two objects.
  - Common's parent is taken to be `src/Base.php`'s class, although the two files declare different namespaces.
  - The Common/ClassCommon prompt objects hold their own data and slug.
  - Their `Replicator` method builds the Base/ClassBase pipeline object from the final values.
- Several PHP methods are split into helper methods that each model one consecutive part of it, for proof size:
  - `namingPrompts` into NamePrompts/SlugPrompts/DeriveKeys;
  - `licenseHandler` and `license_handler` into SelectLicense/ApplyLicense;
  - `runReplication` into StageFiles/Publish/ReplicateAndWrite.
- Base.Replicated: its own contract says only that the array stays valid and gains keys. Its contents are stated by Base.ReplicatedAt and Base.ReplicatedElsewhere.
- Base.LocalLedger: its own contract gives only the ledger's length. The records are stated by Base.LedgerRecords.
- Base.ZipLedger: its own contract gives only the ledger's length. The records are stated by Base.LedgerRecords.
- Empty directories are not modelled: the filesystem holds files only. A slug directory that holds nothing but empty subdirectories therefore counts as absent (no prompt, no exit), whereas `listContents` would return those subdirectories and the prompt would run.
- An empty slug is not modelled faithfully. The model's directory "" holds only paths that start with '/', whereas `listContents('')` lists the whole destination and Flysystem refuses to delete the root.
- A Flysystem copy that throws ends the command in the model; the exception's class and message, and how WP-CLI reports it, are not modelled.
- Base.BackupKeepsEveryFile: it assumes that no file already uses a backup directory name, which `uniqid()` makes likely but does not promise. Without that assumption a copy can throw, as Base.ResolveOutcome states.
- ClassBase.SharedBackupKeepsEveryFile: it assumes the same of the shared backup directory, and also that the backup paths are distinct, which ClassBase.SharedBackupCollides shows can fail.
