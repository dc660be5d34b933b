/** The second copy of the prompt phase, src/class-common.php:
    `generic_prompts`, `license_handler` and `type_prompts`. Prompt answers
    are parameters; none of these prompts has a usable default. */
module ClassCommon {
  import opened PhpStrings
  import opened OrderedArrays
  import opened Storage
  import Base
  import Common
  import ClassBase

  /** `$this->licenses` as declared. */
  const Licenses: map<string, map<string, string>> := map[
    "gpl2" := map[],
    "gpl3" := map[],
    "mit" := map["label" := "MIT", "spdx" := "mit"],
    "private" := map["label" := "Private. Not for distribution.", "spdx" := ""],
    "other" := map["label" := "Other (don't handle license)"]
  ]

  // ---------------------------------------------------------------------
  // The command defaults

  /** `$cmd_data['label']` */
  function CmdLabel(cmdName: string): string {
    Ucwords(cmdName, WordDelimiters) + " Command"
  }

  /** `$cmd_data['slug']`: the label filtered to [0-9A-Za-z -], " " and then
      "_" turned into "-", lower-cased. */
  function CmdSlug(cmdName: string): string {
    ToLower(ReplaceCI(ReplaceCI(KeepSlugSourceChars(CmdLabel(cmdName)), " ", "-"), "_", "-"))
  }

  /** `$cmd_data['namespace']`: " " and then "-" turned into "_" in the
      command name, then ucwords with the default delimiters. */
  function CmdNamespace(cmdName: string): string {
    Ucwords(ReplaceCI(ReplaceCI(cmdName, " ", "_"), "-", "_"), WordDelimiters)
  }

  /** `$cmd_data`, in the order its keys are assigned. */
  function CmdData(cmdName: string): OArray<string, string> {
    OArray(["label", "slug", "namespace"],
           map["label" := CmdLabel(cmdName), "slug" := CmdSlug(cmdName), "namespace" := CmdNamespace(cmdName)])
  }

  lemma CmdDataValid(cmdName: string)
    ensures CmdData(cmdName).Valid()
  {
  }

  /** The command slug is the slug the first copy derives from the same
      label, so it is over [0-9a-z-], and deriving it again changes nothing. */
  lemma CmdSlugSpec(cmdName: string)
    ensures CmdSlug(cmdName) == Common.DefaultSlug(CmdLabel(cmdName))
    ensures forall i :: 0 <= i < |CmdSlug(cmdName)| ==> Common.SlugChar(CmdSlug(cmdName)[i])
    ensures Common.DefaultSlug(CmdSlug(cmdName)) == CmdSlug(cmdName)
  {
    Common.DefaultSlugChars(CmdLabel(cmdName));
    Common.DefaultSlugIdempotent(CmdLabel(cmdName));
  }

  /** The command namespace keeps the length of the command name and maps
      " " and "-" to "_"; when the name holds no other whitespace, only its
      first character can change case. */
  lemma CmdNamespaceSpec(cmdName: string)
    ensures var m := MapChar(MapChar(cmdName, ' ', '_'), '-', '_');
      && |CmdNamespace(cmdName)| == |cmdName|
      && (cmdName != [] && (forall i :: 0 <= i < |cmdName| ==> cmdName[i] !in WordDelimiters - {' '}) ==>
            CmdNamespace(cmdName) == [UpperChar(m[0])] + m[1..])
  {
    ReplaceCISingleIsMap(cmdName, ' ', '_');
    var m1 := MapChar(cmdName, ' ', '_');
    ReplaceCISingleIsMap(m1, '-', '_');
    var m := MapChar(m1, '-', '_');
    if cmdName != [] && (forall i :: 0 <= i < |cmdName| ==> cmdName[i] !in WordDelimiters - {' '}) {
      assert forall i :: 0 <= i < |m| ==> m[i] !in WordDelimiters;
      assert CmdNamespace(cmdName) == [UpperChar(m[0])] + m[1..];
    }
  }

  // ---------------------------------------------------------------------
  // generic_prompts

  /** The answers to the prompts of generic_prompts and license_handler. */
  datatype PromptAnswers = PromptAnswers(cmdName: string, useDefaults: bool, title: string, slug: string,
                                         namespace: string, desc: string, authorName: string, authorEmail: string,
                                         license: string, version: string)

  /** `$use_default`: the confirmation in a command run; otherwise the
      variable is never assigned and reads as null. */
  function UseDefault(cmd: bool, confirmed: bool): Option<bool> {
    if cmd then Some(confirmed) else None
  }

  /** `data` after the naming part of generic_prompts: for a command the
      command name and, when confirmed, the command defaults; the manual
      label, slug and namespace prompts only when `$use_default` is false. */
  function NamedData(data: Base.Data, cmd: bool, a: PromptAnswers): Base.Data {
    var d1 := if cmd then data["cmd_name" := a.cmdName] else data;
    var d2 := if cmd && a.useDefaults then d1 + CmdData(a.cmdName).vals else d1;
    if UseDefault(cmd, a.useDefaults) == Some(false) then
      d2["label" := a.title]["slug" := a.slug]["namespace" := a.namespace]
    else d2
  }

  /** Only a declined command run asks for label, slug and namespace; a
      confirmed one takes the command defaults, and every other run keeps
      the values it had, whatever they are. */
  lemma NamingGate(data: Base.Data, cmd: bool, a: PromptAnswers)
    ensures var d := NamedData(data, cmd, a);
      && (cmd ==> d["cmd_name"] == a.cmdName)
      && (!cmd ==> d == data)
      && (cmd && a.useDefaults ==>
            d["label"] == CmdLabel(a.cmdName) && d["slug"] == CmdSlug(a.cmdName) && d["namespace"] == CmdNamespace(a.cmdName))
      && (cmd && !a.useDefaults ==>
            d["label"] == a.title && d["slug"] == a.slug && d["namespace"] == a.namespace)
  {
  }

  /** `data` after the description and author prompts. */
  function DescribedData(data: Base.Data, a: PromptAnswers): Base.Data {
    data["desc" := a.desc]["author_name" := a.authorName]["author_email" := a.authorEmail]
  }

  // ---------------------------------------------------------------------
  // license_handler

  /** `$this->licenses` after license_handler: a GPL answer unsets both GPL
      entries; the union of the table with itself adds nothing. */
  function InstalledLicenses(licenses: map<string, map<string, string>>, answer: string): map<string, map<string, string>> {
    if answer == "gpl2" || answer == "gpl3" then
      var pruned := licenses - {"gpl2", "gpl3"};
      pruned + pruned
    else licenses
  }

  /** The selection license_handler settles on: a GPL answer is replaced by
      the bare answer to the version prompt. */
  function Selection(answer: string, version: string): string {
    if answer == "gpl2" || answer == "gpl3" then version else answer
  }

  /** `data` with the selected license's spdx and title. */
  function LicenseFields(data: Base.Data, licenses: map<string, map<string, string>>, selected: string): Base.Data {
    data["license_spdx" := Common.Field(licenses, selected, "spdx")]["license_label" := Common.Field(licenses, selected, "label")]
  }

  /** `data` after license_handler settles on `selected`. */
  function LicensedData(data: Base.Data, licenses: map<string, map<string, string>>, selected: string,
                        common: map<string, string>, render: (string, Base.Data) -> string): Base.Data {
    if selected == "other" then data
    else
      var fields := LicenseFields(data, licenses, selected);
      if Common.ReadmeTemplate(selected) in common then
        fields["license_readme_insert" := Base.RenderMustacheTemplate(render, common[Common.ReadmeTemplate(selected)], fields, fields)]
      else fields
  }

  /** The file set after license_handler settles on `selected`. */
  function LicensedFiles(files: OArray<string, string>, data: Base.Data, licenses: map<string, map<string, string>>,
                         selected: string, common: map<string, string>,
                         render: (string, Base.Data) -> string): OArray<string, string>
    requires files.Valid()
  {
    if selected != "other" && Common.LicenseTemplate(selected) in common then
      var fields := LicenseFields(data, licenses, selected);
      files.Put("LICENSE", Base.RenderMustacheTemplate(render, common[Common.LicenseTemplate(selected)], fields, fields))
    else files
  }

  /** A GPL answer removes both GPL entries and changes nothing else; the
      self-union is the identity. The selection becomes "only" or "later",
      which the declared table does not have, so spdx and title are copied
      as null, whatever version was chosen. */
  lemma GplSelectionLost(licenses: map<string, map<string, string>>, answer: string, version: string, data: Base.Data)
    requires answer == "gpl2" || answer == "gpl3"
    requires version == "only" || version == "later"
    requires "only" !in licenses && "later" !in licenses
    ensures var installed := InstalledLicenses(licenses, answer);
      && installed == licenses - {"gpl2", "gpl3"}
      && Selection(answer, version) !in installed
      && var d := LicenseFields(data, installed, Selection(answer, version));
        d["license_spdx"] == "" && d["license_label"] == ""
  {
    var pruned := licenses - {"gpl2", "gpl3"};
    assert pruned + pruned == pruned;
  }

  /** The declared table has neither "only" nor "later". */
  lemma DeclaredHasNoVersionKeys()
    ensures "only" !in Licenses && "later" !in Licenses
  {
  }

  /** Any other answer keeps the table; an answer other than "other" writes
      spdx and title, adds the readme insert exactly when its template
      exists, and keeps every other key. */
  lemma LicensedDataSpec(data: Base.Data, licenses: map<string, map<string, string>>, selected: string,
                         common: map<string, string>, render: (string, Base.Data) -> string, k: string)
    ensures selected == "other" ==> LicensedData(data, licenses, selected, common, render) == data
    ensures selected != "other" ==>
      var d := LicensedData(data, licenses, selected, common, render);
      && d["license_spdx"] == Common.Field(licenses, selected, "spdx")
      && d["license_label"] == Common.Field(licenses, selected, "label")
      && ("license_readme_insert" in d <==> Common.ReadmeTemplate(selected) in common || "license_readme_insert" in data)
      && (k != "license_spdx" && k != "license_label" && k != "license_readme_insert" ==> Common.Lookup(d, k) == Common.Lookup(data, k))
  {
  }

  /** LICENSE is written exactly when a selection other than "other" has a
      template; the file set stays well formed and loses nothing. */
  lemma LicensedFilesSpec(files: OArray<string, string>, data: Base.Data, licenses: map<string, map<string, string>>,
                          selected: string, common: map<string, string>, render: (string, Base.Data) -> string)
    requires files.Valid()
    ensures var f := LicensedFiles(files, data, licenses, selected, common, render);
      && f.Valid() && files.keys <= f.keys
      && ("LICENSE" in f.vals <==> "LICENSE" in files.vals || (selected != "other" && Common.LicenseTemplate(selected) in common))
      && (forall k :: k in files.vals && k != "LICENSE" ==> k in f.vals && f.vals[k] == files.vals[k])
  {
    if selected != "other" && Common.LicenseTemplate(selected) in common {
      var fields := LicenseFields(data, licenses, selected);
      files.PutValid("LICENSE", Base.RenderMustacheTemplate(render, common[Common.LicenseTemplate(selected)], fields, fields));
    }
  }

  // ---------------------------------------------------------------------
  // type_prompts

  /** A PHP value as `in_array` compares it: `$this->types` holds arrays. */
  datatype Value = Str(s: string) | Arr(m: map<string, string>)

  /** `in_array($input, $this->types, true)`: strict comparison with each value. */
  predicate InTypes(input: string) {
    exists k :: k in ClassBase.Types && Arr(ClassBase.Types[k]) == Str(input)
  }

  /** The type the rest of `type_prompts` would leave if its calls of
      `Utils\get_flag_value` resolved, with `flag` the `--type` value and
      `passed` the positional argument ("" when absent). */
  function TypeAfterPrompts(typ: string, flag: string, passed: string): string {
    if Empty(typ) && (!Empty(flag) || !Empty(passed)) then
      var input := if !Empty(passed) then passed else flag;
      if InTypes(input) then input else typ
    else typ
  }

  /** No string passes the strict test against the arrays of `$this->types`,
      so even with `Utils\get_flag_value` resolved, type_prompts would never
      change the type. */
  lemma TypeNeverAccepted(typ: string, flag: string, passed: string)
    ensures forall input :: !InTypes(input)
    ensures TypeAfterPrompts(typ, flag, passed) == typ
  {
  }

  /** The template the README is rendered from. */
  const ReadmeTemplatePath := "templates/README.md.mustache"

  // ---------------------------------------------------------------------
  // The prompt phase as an object

  /** The fields the prompt phase updates. */
  class Command {
    var data: Base.Data
    var slug: string
    var files: OArray<string, string>
    var licenses: map<string, map<string, string>>
    var typ: string                          // $type; null is ""
    const isWpcliCmd: bool
    const handleLicense: bool
    const common: map<string, string>        // the files of this package (common_fs)

    constructor (isWpcliCmd: bool, handleLicense: bool, common: map<string, string>, data: Base.Data, typ: string)
      ensures this.isWpcliCmd == isWpcliCmd && this.handleLicense == handleLicense && this.common == common
      ensures this.data == data && this.typ == typ
      ensures slug == "" && files == EmptyArray() && licenses == Licenses
    {
      this.isWpcliCmd := isWpcliCmd;
      this.handleLicense := handleLicense;
      this.common := common;
      this.data := data;
      this.typ := typ;
      slug := "";
      files := EmptyArray();
      licenses := Licenses;
    }

    /** `generic_prompts($is_cmd)`; `year` is `date('Y')`. */
    method GenericPrompts(isCmd: bool, a: PromptAnswers, year: string, render: (string, Base.Data) -> string)
      requires files.Valid()
      modifies this`data, this`slug, this`files, this`licenses
      ensures files.Valid()
      ensures var named := NamedData(old(data), isWpcliCmd || isCmd, a);
        var described := DescribedData(named, a);
        var before := if handleLicense then described["copyright_year" := year] else described;
        var sel := Selection(a.license, a.version);
        && slug == Common.Lookup(named, "slug")
        && licenses == (if handleLicense then InstalledLicenses(old(licenses), a.license) else old(licenses))
        && data == (if handleLicense then LicensedData(before, licenses, sel, common, render) else before)
        && var licensed := if handleLicense then LicensedFiles(old(files), before, licenses, sel, common, render) else old(files);
          files == (if ReadmeTemplatePath in common
                    then licensed.Put("README.md", Base.RenderMustacheTemplate(render, common[ReadmeTemplatePath], data, data))
                    else licensed)
    {
      NamePrompts(isWpcliCmd || isCmd, a);
      data := DescribedData(data, a);
      if handleLicense {
        data := data["copyright_year" := year];
        LicenseHandler(a.license, a.version, render);
      }
      if ReadmeTemplatePath in common {
        files.PutValid("README.md", Base.RenderMustacheTemplate(render, common[ReadmeTemplatePath], data, data));
        files := files.Put("README.md", Base.RenderMustacheTemplate(render, common[ReadmeTemplatePath], data, data));
      }
    }

    /** The naming part of generic_prompts, ending with `$this->slug`. */
    method NamePrompts(cmd: bool, a: PromptAnswers)
      modifies this`data, this`slug
      ensures data == NamedData(old(data), cmd, a)
      ensures slug == Common.Lookup(data, "slug")
    {
      var useDefault: Option<bool> := None;
      if cmd {
        data := data["cmd_name" := a.cmdName];
        useDefault := Some(a.useDefaults);
        if useDefault == Some(true) {
          CopyCmdData(data["cmd_name"]);
        }
      }
      if useDefault == Some(false) {
        data := data["label" := a.title];
        data := data["slug" := a.slug];
        data := data["namespace" := a.namespace];
      }
      slug := Common.Lookup(data, "slug");
    }

    /** The copy loop of generic_prompts: every key of `$cmd_data`, in
        order, is assigned into `data`. */
    method CopyCmdData(cmdName: string)
      modifies this`data
      ensures data == old(data) + CmdData(cmdName).vals
    {
      var cmdData := CmdData(cmdName);
      CmdDataValid(cmdName);
      var d := data;
      var i := 0;
      while i < |cmdData.keys|
        invariant 0 <= i <= |cmdData.keys|
        invariant d == Common.CopyInto(data, cmdData, i)
      {
        d := d[cmdData.keys[i] := cmdData.vals[cmdData.keys[i]]];
        i := i + 1;
      }
      Common.CopyIntoAll(data, cmdData);
      data := d;
    }

    /** `license_handler()`: `answer` and `version` answer the license and
        version prompts. */
    method LicenseHandler(answer: string, version: string, render: (string, Base.Data) -> string)
      requires files.Valid()
      modifies this`licenses, this`data, this`files
      ensures licenses == InstalledLicenses(old(licenses), answer)
      ensures data == LicensedData(old(data), licenses, Selection(answer, version), common, render)
      ensures files == LicensedFiles(old(files), old(data), licenses, Selection(answer, version), common, render)
    {
      var selected := SelectLicense(answer, version);
      ApplyLicense(selected, render);
    }

    /** The selection half of license_handler. */
    method SelectLicense(answer: string, version: string) returns (selected: string)
      modifies this`licenses
      ensures selected == Selection(answer, version)
      ensures licenses == InstalledLicenses(old(licenses), answer)
    {
      selected := answer;
      if selected == "gpl2" || selected == "gpl3" {
        licenses := licenses - {"gpl2"};
        licenses := licenses - {"gpl3"};
        licenses := licenses + licenses;
        selected := version;
      }
    }

    /** The half of license_handler that copies the selected license into
        `data` and renders its templates. */
    method ApplyLicense(selected: string, render: (string, Base.Data) -> string)
      requires files.Valid()
      modifies this`data, this`files
      ensures data == LicensedData(old(data), licenses, selected, common, render)
      ensures files == LicensedFiles(old(files), old(data), licenses, selected, common, render)
    {
      if selected != "other" {
        var d := LicenseFields(data, licenses, selected);
        if Common.LicenseTemplate(selected) in common {
          files := files.Put("LICENSE", Base.RenderMustacheTemplate(render, common[Common.LicenseTemplate(selected)], d, d));
        }
        if Common.ReadmeTemplate(selected) in common {
          d := d["license_readme_insert" := Base.RenderMustacheTemplate(render, common[Common.ReadmeTemplate(selected)], d, d)];
        }
        data := d;
      }
    }

    /** `type_prompts`. The file imports no `WP_CLI\Utils`, so inside its
        namespace `Utils\get_flag_value` names no function: when the type
        is empty the first operand of the `||` calls it and the command
        dies with a fatal error (`fatal`); with a type set the condition
        short-circuits and nothing happens. */
    method TypePrompts(flag: string, passed: string) returns (fatal: bool)
      ensures fatal <==> Empty(typ)
    {
      fatal := false;
      if Empty(typ) {
        fatal := true;
      }
    }

    /** The object as the prompts leave it, handed to `run`. */
    method Replicator(structure: OArray<string, string>, templates: map<string, string>, destination: string,
                      wpDirs: map<string, string>, fs: Fs, zip: bool, archive: Fs) returns (c: ClassBase.Command)
      requires files.Valid() && structure.Valid()
      ensures fresh(c) && c.Valid()
      ensures c.slug == slug && c.data == data && c.files == files && c.structure == structure && c.typ == typ
      ensures c.templates == templates && c.destination == destination && c.wpDirs == wpDirs && c.fs == fs && c.zip == zip
      ensures c.archive == archive && c.archiveCloses == 0
    {
      c := new ClassBase.Command(slug, data, files, structure, templates, typ, destination, wpDirs, fs, zip, archive);
    }
  }
}
