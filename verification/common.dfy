/** src/Common.php: the prompt phase that fills `$this->data`, `$this->slug`,
    `$this->licenses` and `$this->files` before `runReplication` is run.
    Prompt answers are parameters; an empty answer to a prompt that has a
    default takes the default. */
module Common {
  import opened PhpStrings
  import opened OrderedArrays
  import Storage
  import Base

  /** A missing key reads as null, which every string operation here sees as "". */
  function Lookup(m: map<string, string>, k: string): string {
    if k in m then m[k] else ""
  }

  /** CLImate's `defaultTo(default)->prompt()`: an empty answer takes the default. */
  function Prompted(answer: string, default: string): string {
    if answer == "" then default else answer
  }

  // ---------------------------------------------------------------------
  // Slug, namespace and the keys derived from them

  /** The characters a default slug is made of. */
  predicate SlugChar(c: char) {
    IsDigit(c) || IsLower(c) || c == '-'
  }

  /** The slug derived from a title: characters outside [0-9A-Za-z -]
      removed, " " and then "_" replaced by "-", lower-cased. */
  function DefaultSlug(title: string): string {
    ToLower(ReplaceCI(ReplaceCI(KeepSlugSourceChars(title), " ", "-"), "_", "-"))
  }

  /** `replicateDefaultSlug($label)`: an empty label falls back to `data['label']`. */
  function ReplicateDefaultSlug(title: string, data: Base.Data): string {
    DefaultSlug(if Empty(title) then Lookup(data, "label") else title)
  }

  /** The namespace derived from a slug: "-" replaced by "_", then every
      "_"-separated word capitalised. */
  function DefaultNamespace(slug: string): string {
    Ucwords(ReplaceCI(slug, "-", "_"), {'_'})
  }

  /** `replicateDefaultNamespace($label)` */
  function ReplicateDefaultNamespace(title: string, data: Base.Data): string {
    DefaultNamespace(ReplicateDefaultSlug(if Empty(title) then Lookup(data, "label") else title, data))
  }

  /** `constant_prefix`: "-" replaced by "_", upper-cased. */
  function ConstantPrefix(slug: string): string {
    ToUpper(ReplaceCI(slug, "-", "_"))
  }

  /** `namespace_check`: the namespace with every backslash doubled. */
  function NamespaceCheck(ns: string): string {
    ReplaceCI(ns, "\\", "\\\\")
  }

  /** Reads a doubled backslash as one; the reading of `namespace_check`. */
  function Undouble(s: string): string
    decreases |s|
  {
    if |s| >= 2 && s[0] == '\\' && s[1] == '\\' then "\\" + Undouble(s[2..])
    else if s == [] then []
    else [s[0]] + Undouble(s[1..])
  }

  /** `labelType`: the type with ucwords applied and trailing "s" removed,
      or "Product" for an empty type. */
  function LabelType(typ: string): string {
    if !Empty(typ) then Rtrim(Ucwords(typ, WordDelimiters), {'s'}) else "Product"
  }

  /** `resolveDefaultsType`: `flag` is the value of `--defaults` ("" when
      absent), `answer` the answer to the User/Org prompt. */
  function DefaultsType(flag: string, env: map<string, string>, answer: string): string {
    if !Empty(flag) && (flag == "user" || flag == "org") then ToUpper(flag) + "_"
    else if !Empty(Lookup(env, "DEFAULTS_TYPE")) then ToUpper(env["DEFAULTS_TYPE"]) + "_"
    else if exists k :: k in env && ContainsCI(k, "org_") then ToUpper(answer) + "_"
    else "USER_"
  }

  /** `creator_git_url` */
  function GitUrl(host: string, username: string, slug: string): string {
    "https://" + host + ".com/" + TrailingSlashIt(username) + slug
  }

  /** The version offered when none is set: the code reads the misspelt
      key `DEFAULT_VERISON` once `DEFAULT_VERSION` is non-empty. */
  function DefaultVersion(env: map<string, string>): string {
    if !Empty(Lookup(env, "DEFAULT_VERSION")) then Lookup(env, "DEFAULT_VERISON") else "0.1.0"
  }

  lemma {:induction false} KeepSlugSourceCharsOfSlug(s: string)
    requires forall i :: 0 <= i < |s| ==> SlugSourceChar(s[i])
    ensures KeepSlugSourceChars(s) == s
    decreases |s|
  {
    if s != [] {
      KeepSlugSourceCharsOfSlug(s[1..]);
      assert s == [s[0]] + s[1..];
    }
  }

  /** The "_" replacement of the slug never fires: the filter has already
      removed every underscore. */
  lemma DefaultSlugIsMap(title: string)
    ensures DefaultSlug(title) == ToLower(MapChar(KeepSlugSourceChars(title), ' ', '-'))
  {
    var k := KeepSlugSourceChars(title);
    ReplaceCISingleIsMap(k, ' ', '-');
    var m := MapChar(k, ' ', '-');
    ReplaceCISingleIsMap(m, '_', '-');
    assert MapChar(m, '_', '-') == m;
  }

  /** A default slug is over [0-9a-z-]. */
  lemma DefaultSlugChars(title: string)
    ensures forall i :: 0 <= i < |DefaultSlug(title)| ==> SlugChar(DefaultSlug(title)[i])
  {
    DefaultSlugIsMap(title);
  }

  /** Deriving a slug from a slug gives it back. */
  lemma DefaultSlugIdempotent(title: string)
    ensures DefaultSlug(DefaultSlug(title)) == DefaultSlug(title)
  {
    var s := DefaultSlug(title);
    DefaultSlugChars(title);
    KeepSlugSourceCharsOfSlug(s);
    DefaultSlugIsMap(s);
    assert MapChar(s, ' ', '-') == s;
    assert ToLower(s) == s;
  }

  /** Lower-casing a derived namespace and turning "_" back into "-" gives
      the slug it was derived from. */
  lemma NamespaceRecoversSlug(slug: string)
    requires forall i :: 0 <= i < |slug| ==> SlugChar(slug[i])
    ensures MapChar(ToLower(DefaultNamespace(slug)), '_', '-') == slug
  {
    ReplaceCISingleIsMap(slug, '-', '_');
    var m := MapChar(slug, '-', '_');
    var ns := Ucwords(m, {'_'});
    assert forall i :: 0 <= i < |m| ==> LowerChar(ns[i]) == m[i];
  }

  /** The same for the namespace and slug that replicateDefaults offers. */
  lemma ReplicateDefaultNamespaceRecoversSlug(title: string, data: Base.Data)
    ensures MapChar(ToLower(ReplicateDefaultNamespace(title, data)), '_', '-') == ReplicateDefaultSlug(title, data)
  {
    var slug := ReplicateDefaultSlug(title, data);
    assert ReplicateDefaultNamespace(title, data) == DefaultNamespace(slug);
    DefaultSlugChars(if Empty(title) then Lookup(data, "label") else title);
    NamespaceRecoversSlug(slug);
  }

  /** The constant prefix is the slug upper-cased with "-" turned into "_". */
  lemma ConstantPrefixSpec(slug: string)
    ensures |ConstantPrefix(slug)| == |slug|
    ensures forall i :: 0 <= i < |slug| ==>
      ConstantPrefix(slug)[i] == if slug[i] == '-' then '_' else UpperChar(slug[i])
  {
    ReplaceCISingleIsMap(slug, '-', '_');
  }

  /** The constant prefix is the namespace upper-cased. */
  lemma ConstantPrefixOfNamespace(slug: string)
    ensures ConstantPrefix(slug) == ToUpper(DefaultNamespace(slug))
  {
    ReplaceCISingleIsMap(slug, '-', '_');
    var m := MapChar(slug, '-', '_');
    assert forall i :: 0 <= i < |m| ==> UpperChar(UpperChar(m[i])) == UpperChar(m[i]);
  }

  /** Doubling adds one character per backslash, and reading the doubled
      backslashes as single ones gives the namespace back. */
  lemma {:induction false} NamespaceCheckSpec(ns: string)
    ensures |NamespaceCheck(ns)| == |ns| + CountChar(ns, '\\')
    ensures Undouble(NamespaceCheck(ns)) == ns
    decreases |ns|
  {
    ReplaceBackslashLength(ns);
    if ns != [] {
      EqualCISingle(ns[0], '\\');
      assert ns[..1] == [ns[0]];
      NamespaceCheckSpec(ns[1..]);
      var rest := NamespaceCheck(ns[1..]);
      if ns[0] == '\\' {
        assert NamespaceCheck(ns) == "\\\\" + rest;
        assert ("\\\\" + rest)[2..] == rest;
      } else {
        assert NamespaceCheck(ns) == [ns[0]] + rest;
        assert ([ns[0]] + rest)[1..] == rest;
      }
    }
  }

  /** The label type never ends in "s"; an empty type gives "Product";
      otherwise it is ucwords(type) less a run of trailing "s". */
  lemma LabelTypeSpec(typ: string)
    ensures LabelType(typ) == [] || LabelType(typ)[|LabelType(typ)| - 1] != 's'
    ensures Empty(typ) ==> LabelType(typ) == "Product"
    ensures !Empty(typ) ==> LabelType(typ) <= Ucwords(typ, WordDelimiters)
    ensures !Empty(typ) ==> forall i :: |LabelType(typ)| <= i < |typ| ==> Ucwords(typ, WordDelimiters)[i] == 's'
  {
    RtrimSpec(Ucwords(typ, WordDelimiters), {'s'});
  }

  /** The defaults type always ends in "_", and the flag, the environment
      and the prompt are consulted in that order: the prompt decides exactly
      when some environment key contains "org_" in any case, as
      `ORG_GIT_HOST` and `ORG_NAME` do. */
  lemma DefaultsTypeSpec(flag: string, env: map<string, string>, answer: string)
    ensures var r := DefaultsType(flag, env, answer); |r| > 0 && r[|r| - 1] == '_'
    ensures flag == "user" ==> DefaultsType(flag, env, answer) == "USER_"
    ensures flag == "org" ==> DefaultsType(flag, env, answer) == "ORG_"
    ensures flag != "user" && flag != "org" && !Empty(Lookup(env, "DEFAULTS_TYPE")) ==>
      DefaultsType(flag, env, answer) == ToUpper(env["DEFAULTS_TYPE"]) + "_"
    ensures (flag != "user" && flag != "org" && Empty(Lookup(env, "DEFAULTS_TYPE")) &&
             forall k :: k in env ==> !ContainsCI(k, "org_")) ==>
      DefaultsType(flag, env, answer) == "USER_"
    ensures (flag != "user" && flag != "org" && Empty(Lookup(env, "DEFAULTS_TYPE")) &&
             exists k :: k in env && ContainsCI(k, "org_")) ==>
      DefaultsType(flag, env, answer) == ToUpper(answer) + "_"
    ensures (flag != "user" && flag != "org" && Empty(Lookup(env, "DEFAULTS_TYPE")) &&
             ("ORG_GIT_HOST" in env || "ORG_NAME" in env)) ==>
      DefaultsType(flag, env, answer) == ToUpper(answer) + "_"
  {
    assert ToUpper("user") == "USER";
    assert ToUpper("org") == "ORG";
    ContainsCIAtEnd("", "org_");
    assert ContainsCI("ORG_GIT_HOST", "org_") by {
      assert EqualCI("ORG_GIT_HOST"[..4], "org_");
    }
    assert ContainsCI("ORG_NAME", "org_") by {
      assert EqualCI("ORG_NAME"[..4], "org_");
    }
  }

  /** The git URL starts with the host's https address, ends with "/" and
      the slug, and between them holds the username less its trailing
      slashes. */
  lemma GitUrlSpec(host: string, username: string, slug: string)
    ensures var u := Rtrim(username, {'/', '\\'});
      && u <= username
      && (u == [] || (u[|u| - 1] != '/' && u[|u| - 1] != '\\'))
      && GitUrl(host, username, slug) == "https://" + host + ".com/" + u + "/" + slug
  {
    RtrimSpec(username, {'/', '\\'});
  }

  // ---------------------------------------------------------------------
  // replicateDefaults

  /** The label replicateDefaults builds for a command: "<Cmd_name> Command". */
  function CommandLabel(data: Base.Data): string {
    Ucwords(Lookup(data, "cmd_name"), WordDelimiters) + " Command"
  }

  /** The table `replicateDefaults` offers: for commands the label built
      from `cmd_name`; otherwise no label, so slug and namespace fall back
      to `data['label']`. */
  function Defaults(cli: bool, data: Base.Data): OArray<string, string> {
    if cli then
      var title := CommandLabel(data);
      OArray(["label", "slug", "namespace"],
             map["label" := title, "slug" := ReplicateDefaultSlug(title, data),
                 "namespace" := ReplicateDefaultNamespace(title, data)])
    else
      OArray(["slug", "namespace"],
             map["slug" := ReplicateDefaultSlug("", data), "namespace" := ReplicateDefaultNamespace("", data)])
  }

  lemma DefaultsValid(cli: bool, data: Base.Data)
    ensures Defaults(cli, data).Valid()
  {
  }

  /** `data` after the first `n` entries of `defaults` are copied into it. */
  function CopyInto(data: Base.Data, defaults: OArray<string, string>, n: nat): Base.Data
    requires defaults.Valid() && n <= |defaults.keys|
  {
    if n == 0 then data
    else CopyInto(data, defaults, n - 1)[defaults.keys[n - 1] := defaults.vals[defaults.keys[n - 1]]]
  }

  lemma {:induction false} CopyIntoAt(data: Base.Data, defaults: OArray<string, string>, n: nat, k: string)
    requires defaults.Valid() && n <= |defaults.keys|
    ensures k in defaults.keys[..n] ==> k in CopyInto(data, defaults, n) && CopyInto(data, defaults, n)[k] == defaults.vals[k]
    ensures k !in defaults.keys[..n] ==> (k in CopyInto(data, defaults, n) <==> k in data)
    ensures k !in defaults.keys[..n] && k in data ==> CopyInto(data, defaults, n)[k] == data[k]
  {
    if n > 0 {
      CopyIntoAt(data, defaults, n - 1, k);
      assert defaults.keys[..n] == defaults.keys[..n - 1] + [defaults.keys[n - 1]];
    }
  }

  /** Copying every entry gives the union in which the defaults win. */
  lemma CopyIntoAll(data: Base.Data, defaults: OArray<string, string>)
    requires defaults.Valid()
    ensures CopyInto(data, defaults, |defaults.keys|) == data + defaults.vals
  {
    var r := CopyInto(data, defaults, |defaults.keys|);
    assert defaults.keys[..|defaults.keys|] == defaults.keys;
    forall k
      ensures (k in r <==> k in data + defaults.vals) && (k in r ==> r[k] == (data + defaults.vals)[k])
    {
      CopyIntoAt(data, defaults, |defaults.keys|, k);
    }
  }

  /** The prompt state that namingPrompts and replicateDefaults update. */
  datatype Naming = Naming(data: Base.Data, slug: string)

  /** The outcome of `replicateDefaults($cli)` with the confirmation answer. */
  function Defaulted(n: Naming, cli: bool, confirmed: bool): Naming {
    if confirmed then
      var d := n.data + Defaults(cli, n.data).vals;
      Naming(d, d["slug"])
    else n
  }

  /** What confirmed defaults put into `data`: the derived slug and
      namespace, which recover each other, and for commands the label. */
  lemma DefaultsApplied(n: Naming, cli: bool)
    ensures var title := if cli then CommandLabel(n.data) else "";
      var r := Defaulted(n, cli, true);
      && r.slug == r.data["slug"] == ReplicateDefaultSlug(title, n.data)
      && r.data["namespace"] == ReplicateDefaultNamespace(title, n.data)
      && MapChar(ToLower(r.data["namespace"]), '_', '-') == r.slug
      && Lookup(r.data, "label") == if cli then title else Lookup(n.data, "label")
  {
    var title := if cli then CommandLabel(n.data) else "";
    ReplicateDefaultNamespaceRecoversSlug(title, n.data);
  }

  /** replicateDefaults touches no key but label, slug and namespace. */
  lemma DefaultsKeep(n: Naming, cli: bool, confirmed: bool, k: string)
    requires k != "label" && k != "slug" && k != "namespace"
    ensures Lookup(Defaulted(n, cli, confirmed).data, k) == Lookup(n.data, k)
  {
  }

  // ---------------------------------------------------------------------
  // namingPrompts

  /** The answers to the prompts of namingPrompts. `useDefaults` answers
      the one confirmation of replicateDefaults that a run reaches. */
  datatype NamingAnswers = NamingAnswers(cmdName: string, useDefaults: bool, title: string,
                                         slug: string, namespace: string, desc: string, version: string)

  /** namingPrompts up to the slug prompt: for packages the command-name
      prompt and its defaults, the label prompt when no label is set, and
      for every other type the defaults derived from the label. */
  function NameStep(n0: Naming, typ: string, a: NamingAnswers): Naming {
    var n1 := if typ == "packages" then Defaulted(n0.(data := n0.data["cmd_name" := a.cmdName]), true, a.useDefaults) else n0;
    var n2 := if Empty(Lookup(n1.data, "label")) then n1.(data := n1.data["label" := a.title]) else n1;
    if typ != "packages" then Defaulted(n2, false, a.useDefaults) else n2
  }

  /** The slug and namespace prompts, asked only when those are empty. */
  function SlugStep(n: Naming, a: NamingAnswers): Naming {
    var n1 :=
      if Empty(Lookup(n.data, "slug")) then
        var s := Prompted(a.slug, ReplicateDefaultSlug("", n.data)); Naming(n.data["slug" := s], s)
      else n;
    if Empty(Lookup(n1.data, "namespace")) then
      n1.(data := n1.data["namespace" := Prompted(a.namespace, ReplicateDefaultNamespace("", n1.data))])
    else n1
  }

  /** The rest of namingPrompts: namespace_check, desc, version and constant_prefix. */
  function DeriveStep(d: Base.Data, env: map<string, string>, a: NamingAnswers): Base.Data {
    var d1 := d["namespace_check" := NamespaceCheck(Lookup(d, "namespace"))]["desc" := a.desc];
    var d2 :=
      if !Empty(Lookup(env, "DEFAULT_VERSION")) && !Empty(Lookup(env, "ALWAYS_DEFAULTS")) then d1["version" := env["DEFAULT_VERSION"]]
      else d1;
    var d3 := if Empty(Lookup(d2, "version")) then d2["version" := Prompted(a.version, DefaultVersion(env))] else d2;
    d3["constant_prefix" := ConstantPrefix(Lookup(d3, "slug"))]
  }

  /** `data` and `$this->slug` after namingPrompts. */
  function NamingOutcome(n0: Naming, typ: string, env: map<string, string>, a: NamingAnswers): Naming {
    var n := SlugStep(NameStep(n0, typ, a), a);
    Naming(DeriveStep(n.data, env, a), n.slug)
  }

  /** The keys namingPrompts derives last: `namespace_check` from the
      namespace, `constant_prefix` from the slug, and `desc`; slug and
      namespace themselves are left alone. */
  lemma NamingDerivations(d: Base.Data, env: map<string, string>, a: NamingAnswers)
    ensures var r := DeriveStep(d, env, a);
      && Lookup(r, "slug") == Lookup(d, "slug")
      && Lookup(r, "namespace") == Lookup(d, "namespace")
      && r["namespace_check"] == NamespaceCheck(Lookup(r, "namespace"))
      && r["constant_prefix"] == ConstantPrefix(Lookup(r, "slug"))
      && r["desc"] == a.desc
  {
  }

  /** The version rule: forced from the environment when defaults are
      always used, kept when already set, otherwise prompted for. When only
      `DEFAULT_VERSION` is set, the offered default is empty rather than
      that version, because the code reads `DEFAULT_VERISON`. */
  lemma NamingVersion(d: Base.Data, env: map<string, string>, a: NamingAnswers)
    ensures var v := DeriveStep(d, env, a)["version"];
      && (!Empty(Lookup(env, "DEFAULT_VERSION")) && !Empty(Lookup(env, "ALWAYS_DEFAULTS")) ==> v == env["DEFAULT_VERSION"])
      && (Empty(Lookup(env, "ALWAYS_DEFAULTS")) && !Empty(Lookup(d, "version")) ==> v == d["version"])
      && (Empty(Lookup(env, "ALWAYS_DEFAULTS")) && Empty(Lookup(d, "version")) ==> v == Prompted(a.version, DefaultVersion(env)))
      && ((!Empty(Lookup(env, "DEFAULT_VERSION")) && "DEFAULT_VERISON" !in env) ==> DefaultVersion(env) == "")
  {
  }

  /** The naming step touches only the command name, the label, the slug
      and the namespace. */
  lemma NameStepKeeps(n0: Naming, typ: string, a: NamingAnswers, k: string)
    requires k != "cmd_name" && k != "label" && k != "slug" && k != "namespace"
    ensures Lookup(NameStep(n0, typ, a).data, k) == Lookup(n0.data, k)
  {
    var m := n0.(data := n0.data["cmd_name" := a.cmdName]);
    DefaultsKeep(m, true, a.useDefaults, k);
    var n1 := if typ == "packages" then Defaulted(m, true, a.useDefaults) else n0;
    var n2 := if Empty(Lookup(n1.data, "label")) then n1.(data := n1.data["label" := a.title]) else n1;
    DefaultsKeep(n2, false, a.useDefaults, k);
  }

  /** The slug step touches only the slug and the namespace. */
  lemma SlugStepKeeps(n: Naming, a: NamingAnswers, k: string)
    requires k != "slug" && k != "namespace"
    ensures Lookup(SlugStep(n, a).data, k) == Lookup(n.data, k)
  {
  }

  /** The naming and slug steps leave the version as it was, so the
      version rule applies to the version the run started with. */
  lemma NamingKeepsVersion(n0: Naming, typ: string, a: NamingAnswers)
    ensures Lookup(SlugStep(NameStep(n0, typ, a), a).data, "version") == Lookup(n0.data, "version")
  {
    NameStepKeeps(n0, typ, a, "version");
    SlugStepKeeps(NameStep(n0, typ, a), a, "version");
  }

  /** A non-command run whose defaults are confirmed takes the slug and the
      namespace derived from its label. */
  lemma NameStepWithDefaults(n0: Naming, typ: string, a: NamingAnswers)
    requires typ != "packages" && a.useDefaults
    ensures var title := if Empty(Lookup(n0.data, "label")) then a.title else n0.data["label"];
      var r := NameStep(n0, typ, a);
      && r.slug == r.data["slug"] == DefaultSlug(title)
      && r.data["namespace"] == DefaultNamespace(DefaultSlug(title))
      && Lookup(r.data, "label") == title
  {
    var n2 := if Empty(Lookup(n0.data, "label")) then n0.(data := n0.data["label" := a.title]) else n0;
    DefaultsApplied(n2, false);
  }

  /** A command run whose defaults are confirmed is labelled
      "<Cmd_name> Command" and takes the slug derived from that label. */
  lemma NameStepCommand(n0: Naming, a: NamingAnswers)
    requires a.useDefaults
    ensures var title := Ucwords(a.cmdName, WordDelimiters) + " Command";
      var r := NameStep(n0, "packages", a);
      && Lookup(r.data, "cmd_name") == a.cmdName
      && Lookup(r.data, "label") == title
      && r.slug == r.data["slug"] == DefaultSlug(title)
      && r.data["namespace"] == DefaultNamespace(DefaultSlug(title))
  {
    var n1 := n0.(data := n0.data["cmd_name" := a.cmdName]);
    DefaultsApplied(n1, true);
    var title := Ucwords(a.cmdName, WordDelimiters) + " Command";
    assert title[|title| - 1] == 'd';
  }

  /** Slug and namespace that are already set survive the prompts, and
      the constant prefix follows the slug. */
  lemma NamingKeepsSetNames(n0: Naming, typ: string, env: map<string, string>, a: NamingAnswers)
    ensures var n := NameStep(n0, typ, a);
      var r := NamingOutcome(n0, typ, env, a);
      !Empty(Lookup(n.data, "slug")) && !Empty(Lookup(n.data, "namespace")) ==>
        && r.slug == n.slug
        && Lookup(r.data, "slug") == Lookup(n.data, "slug")
        && Lookup(r.data, "namespace") == Lookup(n.data, "namespace")
        && r.data["constant_prefix"] == ConstantPrefix(Lookup(n.data, "slug"))
  {
    var n := NameStep(n0, typ, a);
    NamingDerivations(SlugStep(n, a).data, env, a);
  }

  // ---------------------------------------------------------------------
  // Licenses and the package files

  /** `$licenses` as declared. */
  const Licenses: map<string, map<string, string>> := map[
    "apache2" := map["label" := "Apache 2.0", "spdx" := "Apache-2.0", "url" := "https://www.apache.org/licenses/LICENSE-2.0.txt"],
    "gpl2" := map[],
    "gpl3" := map[],
    "mit" := map["label" := "MIT", "spdx" := "mit", "url" := "https://opensource.org/licenses/MIT"],
    "private" := map["label" := "Private. Not for distribution.", "spdx" := "", "url" := ""],
    "other" := map["label" := "Other (don't handle license)"]
  ]

  /** `$gplTypes` */
  const GplTypes: map<string, map<string, string>> := map[
    "gpl2only" := map["spdx" := "GPL-2.0-only", "label" := "GNU General Public License v2.0 only",
                      "url" := "https://www.gnu.org/licenses/old-licenses/gpl-2.0.txt"],
    "gpl2later" := map["spdx" := "GPL-2.0-or-later", "label" := "GNU General Public License v2.0 or later",
                       "url" := "https://www.gnu.org/licenses/old-licenses/gpl-2.0.txt"],
    "gpl3only" := map["spdx" := "GPL-3.0-only", "label" := "GNU General Public License v3.0 only",
                      "url" := "https://www.gnu.org/licenses/gpl-3.0.txt"],
    "gpl3later" := map["spdx" := "GPL-3.0-or-later", "label" := "GNU General Public License v3.0 or later",
                       "url" := "https://www.gnu.org/licenses/gpl-3.0.txt"]
  ]

  /** `$table[$key][$field]`, null (here "") when either is missing. */
  function Field(table: map<string, map<string, string>>, key: string, field: string): string {
    if key in table then Lookup(table[key], field) else ""
  }

  /** The license licenseHandler settles on. Its guard reads the misspelt
      `DEFAULT_LICNESE`, its value `DEFAULT_LICENSE`. */
  function Selection(env: map<string, string>, answer: string, version: string): string {
    if Empty(Lookup(env, "DEFAULT_LICNESE")) then
      if answer == "gpl2" || answer == "gpl3" then answer + version else answer
    else Lookup(env, "DEFAULT_LICENSE")
  }

  /** `$licenses` after licenseHandler: a GPL choice installs its gplTypes entry. */
  function InstalledLicenses(licenses: map<string, map<string, string>>, env: map<string, string>,
                             answer: string, version: string): map<string, map<string, string>> {
    if Empty(Lookup(env, "DEFAULT_LICNESE")) && (answer == "gpl2" || answer == "gpl3") then
      var key := answer + version;
      licenses[key := if key in GplTypes then GplTypes[key] else map[]]
    else licenses
  }

  /** `data` with the selected license's spdx, title and url. */
  function LicenseFields(data: Base.Data, licenses: map<string, map<string, string>>, selected: string): Base.Data {
    data["license_spdx" := Field(licenses, selected, "spdx")]
        ["license_label" := Field(licenses, selected, "label")]
        ["license_url" := Field(licenses, selected, "url")]
  }

  function LicenseTemplate(selected: string): string { "licenses/" + selected + ".mustache" }
  function ReadmeTemplate(selected: string): string { "licenses/" + selected + "-readme.mustache" }

  /** `data` after licenseHandler settles on `selected`: unless it is
      "other", the license fields and, when the package has a readme
      template for it, the rendered readme insert. */
  function LicensedData(data: Base.Data, licenses: map<string, map<string, string>>, selected: string,
                        common: map<string, string>, render: (string, Base.Data) -> string): Base.Data {
    if selected == "other" then data
    else
      var fields := LicenseFields(data, licenses, selected);
      if ReadmeTemplate(selected) in common then
        fields["license_readme_insert" := Base.RenderMustacheTemplate(render, common[ReadmeTemplate(selected)], fields, fields)]
      else fields
  }

  /** The file set after licenseHandler: a LICENSE rendered from the
      license template over the license fields, when that template exists. */
  function LicensedFiles(files: OArray<string, string>, data: Base.Data, licenses: map<string, map<string, string>>,
                         selected: string, common: map<string, string>,
                         render: (string, Base.Data) -> string): OArray<string, string>
    requires files.Valid()
  {
    if selected != "other" && LicenseTemplate(selected) in common then
      var fields := LicenseFields(data, licenses, selected);
      files.Put("LICENSE", Base.RenderMustacheTemplate(render, common[LicenseTemplate(selected)], fields, fields))
    else files
  }

  /** "other" changes nothing. Any other selection writes the three license
      fields, adds the readme insert exactly when its template exists, and
      keeps every other key of `data`. */
  lemma LicensedDataSpec(data: Base.Data, licenses: map<string, map<string, string>>, selected: string,
                         common: map<string, string>, render: (string, Base.Data) -> string, k: string)
    ensures selected == "other" ==> LicensedData(data, licenses, selected, common, render) == data
    ensures selected != "other" ==>
      var d := LicensedData(data, licenses, selected, common, render);
      && d["license_spdx"] == Field(licenses, selected, "spdx")
      && d["license_label"] == Field(licenses, selected, "label")
      && d["license_url"] == Field(licenses, selected, "url")
      && ("license_readme_insert" in d <==> ReadmeTemplate(selected) in common || "license_readme_insert" in data)
      && (k != "license_spdx" && k != "license_label" && k != "license_url" && k != "license_readme_insert" ==>
            Lookup(d, k) == Lookup(data, k))
  {
  }

  /** LICENSE is written exactly when a selection other than "other" has a
      license template; the file set stays well formed and loses nothing. */
  lemma LicensedFilesSpec(files: OArray<string, string>, data: Base.Data, licenses: map<string, map<string, string>>,
                          selected: string, common: map<string, string>, render: (string, Base.Data) -> string)
    requires files.Valid()
    ensures var f := LicensedFiles(files, data, licenses, selected, common, render);
      && f.Valid() && files.keys <= f.keys
      && ("LICENSE" in f.vals <==> "LICENSE" in files.vals || (selected != "other" && LicenseTemplate(selected) in common))
      && (forall k :: k in files.vals && k != "LICENSE" ==> k in f.vals && f.vals[k] == files.vals[k])
  {
    if selected != "other" && LicenseTemplate(selected) in common {
      var fields := LicenseFields(data, licenses, selected);
      files.PutValid("LICENSE", Base.RenderMustacheTemplate(render, common[LicenseTemplate(selected)], fields, fields));
    }
  }

  /** A GPL answer with "only" or "later" selects and installs the matching
      gplTypes entry, whose spdx, title and url then enter `data`. */
  lemma GplSelection(licenses: map<string, map<string, string>>, env: map<string, string>,
                     answer: string, version: string, data: Base.Data)
    requires Empty(Lookup(env, "DEFAULT_LICNESE"))
    requires (answer == "gpl2" || answer == "gpl3") && (version == "only" || version == "later")
    ensures var sel := Selection(env, answer, version);
      var installed := InstalledLicenses(licenses, env, answer, version);
      var d := LicenseFields(data, installed, sel);
      && sel in GplTypes && installed[sel] == GplTypes[sel]
      && d["license_spdx"] == GplTypes[sel]["spdx"]
      && d["license_label"] == GplTypes[sel]["label"]
      && d["license_url"] == GplTypes[sel]["url"]
  {
    if answer == "gpl2" {
      if version == "only" { assert answer + version == "gpl2only"; } else { assert answer + version == "gpl2later"; }
    } else {
      if version == "only" { assert answer + version == "gpl3only"; } else { assert answer + version == "gpl3later"; }
    }
  }

  /** A `DEFAULT_LICENSE` in the environment is never used on its own: the
      selection comes from the prompt unless `DEFAULT_LICNESE` is set, and
      then a missing `DEFAULT_LICENSE` selects "", which copies empty
      license fields. */
  lemma LicenseEnvironmentKeys(licenses: map<string, map<string, string>>, env: map<string, string>,
                               answer: string, version: string, data: Base.Data)
    requires "" !in licenses
    ensures Empty(Lookup(env, "DEFAULT_LICNESE")) ==>
      Selection(env, answer, version) == Selection(map[], answer, version)
    ensures !Empty(Lookup(env, "DEFAULT_LICNESE")) && "DEFAULT_LICENSE" !in env ==>
      var d := LicenseFields(data, licenses, Selection(env, answer, version));
      d["license_spdx"] == d["license_label"] == d["license_url"] == ""
  {
  }

  /** The member names of the generated package files. */
  datatype Key = Name | Version | Description | Author | Authors | Email | Url
               | License | Private | Bugs | Homepage | Repository

  /** The name each member has in the JSON text. */
  function KeyName(k: Key): string {
    match k
    case Name => "name"
    case Version => "version"
    case Description => "description"
    case Author => "author"
    case Authors => "authors"
    case Email => "email"
    case Url => "url"
    case License => "license"
    case Private => "private"
    case Bugs => "bugs"
    case Homepage => "homepage"
    case Repository => "repository"
  }

  /** A JSON value of the generated package files. */
  datatype Json = Str(s: string) | Flag(b: bool) | Obj(fields: OArray<Key, string>) | List(items: seq<OArray<Key, string>>)

  /** The two package files replicateJSONFile is asked for. */
  datatype PackageType = Composer | Npm

  /** The values of `data` that replicateJSONFile reads. */
  datatype PackageMeta = PackageMeta(slug: string, version: string, desc: string,
                                     name: string, email: string, url: string,
                                     gitUsername: string, gitUrl: string, gitHost: string, spdx: string)

  function MetaOf(data: Base.Data): PackageMeta {
    PackageMeta(Lookup(data, "slug"), Lookup(data, "version"), Lookup(data, "desc"),
                Lookup(data, "creator_name"), Lookup(data, "creator_email"), Lookup(data, "creator_url"),
                Lookup(data, "creator_git_username"), Lookup(data, "creator_git_url"),
                Lookup(data, "creator_git_host"), Lookup(data, "license_spdx"))
  }

  /** `$author`; composer's copy has "url" unset, leaving name and email in order. */
  function AuthorOf(m: PackageMeta, withUrl: bool): OArray<Key, string> {
    if withUrl then OArray([Name, Email, Url], map[Name := m.name, Email := m.email, Url := m.url])
    else OArray([Name, Email], map[Name := m.name, Email := m.email])
  }

  /** A summary of replicateJSONFile, member by member: the members in
      the order they enter `$package` (composer's "username/slug" is
      written over "name" in place), ... */
  function Members(typ: PackageType, m: PackageMeta): seq<Key> {
    [Name, Version, Description]
    + (if typ == Npm then [Author] else [Authors])
    + (if !Empty(m.spdx) || typ == Composer then [License] else [License, Private])
    + (if typ == Npm && !Empty(m.gitUrl) then [Bugs, Homepage, Repository] else [])
  }

  /** ... and the last value assigned to each. */
  function Member(typ: PackageType, m: PackageMeta, k: Key): Json {
    match k
    case Name => Str(if typ == Composer && !Empty(m.gitUsername) then m.gitUsername + "/" + m.slug else m.slug)
    case Version => Str(m.version)
    case Description => Str(m.desc)
    case Author => Obj(AuthorOf(m, true))
    case Authors => List([AuthorOf(m, false)])
    case License => Str(if !Empty(m.spdx) then m.spdx else if typ == Composer then "proprietary" else "UNLICENSED")
    case Private => Flag(true)
    case Bugs => Str(TrailingSlashIt(m.gitUrl) + "bugs")
    case Homepage => Str(m.gitUrl)
    case Repository => Str(m.gitHost + ":" + m.gitUsername + "/" + m.slug)
    case Email => Str(m.email)
    case Url => Str(m.url)
  }

  /** The members of the summary, as a set. */
  function MemberSet(typ: PackageType, m: PackageMeta): set<Key>
  {
    {Name, Version, Description}
    + (if typ == Npm then {Author} else {Authors})
    + (if !Empty(m.spdx) || typ == Composer then {License} else {License, Private})
    + (if typ == Npm && !Empty(m.gitUrl) then {Bugs, Homepage, Repository} else {})
  }

  /** The package file the summary describes. */
  function PackageJson(typ: PackageType, m: PackageMeta): OArray<Key, Json> {
    OArray(Members(typ, m), map k | k in MemberSet(typ, m) :: Member(typ, m, k))
  }

  /** The body of `replicateJSONFile($type)` on the values it reads: the
      array literal, then its four `if` blocks in order. */
  function JsonFile(typ: PackageType, m: PackageMeta): OArray<Key, Json> {
    var package := OArray([Name, Version, Description],
                          map[Name := Str(m.slug), Version := Str(m.version), Description := Str(m.desc)]);
    WithLinks(typ, m, WithLicense(typ, m, WithVendorName(typ, m, WithAuthor(typ, m, package))))
  }

  /** `$author`, then `$package['author']` for npm, or "url" unset and
      `$package['authors']` for composer. */
  function WithAuthor(typ: PackageType, m: PackageMeta, package: OArray<Key, Json>): OArray<Key, Json> {
    var author := OArray([Name, Email, Url], map[Name := m.name, Email := m.email, Url := m.url]);
    if typ == Npm then package.Put(Author, Obj(author))
    else package.Put(Authors, List([author.Unset(Url)]))
  }

  /** Composer with a git username renames the package "username/slug". */
  function WithVendorName(typ: PackageType, m: PackageMeta, package: OArray<Key, Json>): OArray<Key, Json> {
    if typ == Composer && !Empty(m.gitUsername) then package.Put(Name, Str(m.gitUsername + "/" + m.slug))
    else package
  }

  /** The license, with "private" for an unlicensed npm package. */
  function WithLicense(typ: PackageType, m: PackageMeta, package: OArray<Key, Json>): OArray<Key, Json> {
    if !Empty(m.spdx) then package.Put(License, Str(m.spdx))
    else if typ == Composer then package.Put(License, Str("proprietary"))
    else package.Put(License, Str("UNLICENSED")).Put(Private, Flag(true))
  }

  /** npm with a git URL: "bugs", "homepage" and "repository". */
  function WithLinks(typ: PackageType, m: PackageMeta, package: OArray<Key, Json>): OArray<Key, Json> {
    if typ == Npm && !Empty(m.gitUrl) then
      package.Put(Bugs, Str(TrailingSlashIt(m.gitUrl) + "bugs"))
             .Put(Homepage, Str(m.gitUrl))
             .Put(Repository, Str(m.gitHost + ":" + m.gitUsername + "/" + m.slug))
    else package
  }

  /** `replicateJSONFile($type)` */
  function ReplicateJSONFile(typ: PackageType, data: Base.Data): OArray<Key, Json> {
    JsonFile(typ, MetaOf(data))
  }

  /** The code builds exactly the package file of the summary. */
  lemma JsonFileSummary(typ: PackageType, m: PackageMeta)
    ensures JsonFile(typ, m) == PackageJson(typ, m)
  {
    var p0 := OArray([Name, Version, Description],
                     map[Name := Str(m.slug), Version := Str(m.version), Description := Str(m.desc)]);
    var p1 := WithAuthor(typ, m, p0);
    var p2 := WithVendorName(typ, m, p1);
    var p3 := WithLicense(typ, m, p2);
    AuthorStep(typ, m, p0);
    VendorStep(typ, m, p1);
    LicenseStep(typ, m, p2);
    LinksStep(typ, m, p3);
    AssignedSummary(typ, m, p0, p1, p2, p3, WithLinks(typ, m, p3));
  }

  /** The author block appends "author" for npm, "authors" for composer;
      composer's author has lost "url". */
  lemma AuthorStep(typ: PackageType, m: PackageMeta, p: OArray<Key, Json>)
    requires Author !in p.vals && Authors !in p.vals
    ensures AuthorBlock(typ, m, p, WithAuthor(typ, m, p))
  {
    var author := OArray([Name, Email, Url], map[Name := m.name, Email := m.email, Url := m.url]);
    assert author.Unset(Url) == AuthorOf(m, false) by {
      assert Without(author.keys, Url, 1) == [Name];
      assert Without(author.keys, Url, 3) == Without(author.keys, Url, 2) == [Name, Email];
    }
  }

  /** The vendor block renames in place. */
  lemma VendorStep(typ: PackageType, m: PackageMeta, p: OArray<Key, Json>)
    requires Name in p.vals
    ensures VendorBlock(typ, m, p, WithVendorName(typ, m, p))
  {
  }

  /** The license block appends "license", and "private" for an unlicensed npm package. */
  lemma LicenseStep(typ: PackageType, m: PackageMeta, p: OArray<Key, Json>)
    requires License !in p.vals && Private !in p.vals
    ensures LicenseBlock(typ, m, p, WithLicense(typ, m, p))
  {
  }

  /** The links block appends "bugs", "homepage" and "repository" for npm with a git URL. */
  lemma LinksStep(typ: PackageType, m: PackageMeta, p: OArray<Key, Json>)
    requires Bugs !in p.vals && Homepage !in p.vals && Repository !in p.vals
    ensures LinksBlock(typ, m, p, WithLinks(typ, m, p))
  {
  }

  /** What the author block does to `p`, giving `q`: "author" for npm,
      "authors" for composer, appended. */
  ghost predicate AuthorBlock(typ: PackageType, m: PackageMeta, p: OArray<Key, Json>, q: OArray<Key, Json>) {
    && q.keys == p.keys + [if typ == Npm then Author else Authors]
    && q.vals == if typ == Npm then p.vals[Author := Obj(AuthorOf(m, true))]
                 else p.vals[Authors := List([AuthorOf(m, false)])]
  }

  /** The vendor block: "name" renamed in place for composer with a git username. */
  ghost predicate VendorBlock(typ: PackageType, m: PackageMeta, p: OArray<Key, Json>, q: OArray<Key, Json>) {
    && q.keys == p.keys
    && q.vals == if typ == Composer && !Empty(m.gitUsername) then p.vals[Name := Str(m.gitUsername + "/" + m.slug)]
                 else p.vals
  }

  /** The license block: "license", and "private" for an unlicensed npm package, appended. */
  ghost predicate LicenseBlock(typ: PackageType, m: PackageMeta, p: OArray<Key, Json>, q: OArray<Key, Json>) {
    var license := Str(if !Empty(m.spdx) then m.spdx else if typ == Composer then "proprietary" else "UNLICENSED");
    && q.keys == p.keys + (if !Empty(m.spdx) || typ == Composer then [License] else [License, Private])
    && q.vals == if !Empty(m.spdx) || typ == Composer then p.vals[License := license]
                 else p.vals[License := license][Private := Flag(true)]
  }

  /** The links block: "bugs", "homepage" and "repository" appended for npm with a git URL. */
  ghost predicate LinksBlock(typ: PackageType, m: PackageMeta, p: OArray<Key, Json>, q: OArray<Key, Json>) {
    && q.keys == p.keys + (if typ == Npm && !Empty(m.gitUrl) then [Bugs, Homepage, Repository] else [])
    && q.vals == if typ == Npm && !Empty(m.gitUrl) then
                   p.vals[Bugs := Str(TrailingSlashIt(m.gitUrl) + "bugs")][Homepage := Str(m.gitUrl)]
                     [Repository := Str(m.gitHost + ":" + m.gitUsername + "/" + m.slug)]
                 else p.vals
  }

  /** The arrays the four blocks leave, one after another, end in the
      package file of the summary. */
  lemma AssignedSummary(typ: PackageType, m: PackageMeta, p0: OArray<Key, Json>, p1: OArray<Key, Json>,
                        p2: OArray<Key, Json>, p3: OArray<Key, Json>, p4: OArray<Key, Json>)
    requires p0.keys == [Name, Version, Description]
    requires p0.vals == map[Name := Str(m.slug), Version := Str(m.version), Description := Str(m.desc)]
    requires AuthorBlock(typ, m, p0, p1) && VendorBlock(typ, m, p1, p2)
    requires LicenseBlock(typ, m, p2, p3) && LinksBlock(typ, m, p3, p4)
    ensures p4 == PackageJson(typ, m)
  {
    AssignedKeys(typ, m, p0.vals, p1.vals, p2.vals, p3.vals, p4.vals);
    AssignedValues(typ, m, p0.vals, p1.vals, p2.vals, p3.vals, p4.vals);
    assert p4.vals == PackageJson(typ, m).vals;
  }

  /** The maps the four blocks assign, one after another, hold exactly
      the summary's members ... */
  lemma AssignedKeys(typ: PackageType, m: PackageMeta, v0: map<Key, Json>, v1: map<Key, Json>,
                     v2: map<Key, Json>, v3: map<Key, Json>, v4: map<Key, Json>)
    requires v0 == map[Name := Str(m.slug), Version := Str(m.version), Description := Str(m.desc)]
    requires v1 == if typ == Npm then v0[Author := Obj(AuthorOf(m, true))] else v0[Authors := List([AuthorOf(m, false)])]
    requires v2 == if typ == Composer && !Empty(m.gitUsername) then v1[Name := Str(m.gitUsername + "/" + m.slug)] else v1
    requires var license := Str(if !Empty(m.spdx) then m.spdx else if typ == Composer then "proprietary" else "UNLICENSED");
      v3 == if !Empty(m.spdx) || typ == Composer then v2[License := license] else v2[License := license][Private := Flag(true)]
    requires v4 == if typ == Npm && !Empty(m.gitUrl) then
                     v3[Bugs := Str(TrailingSlashIt(m.gitUrl) + "bugs")][Homepage := Str(m.gitUrl)]
                       [Repository := Str(m.gitHost + ":" + m.gitUsername + "/" + m.slug)]
                   else v3
    ensures v4.Keys == MemberSet(typ, m)
  {
  }


  /** ... with the summary's values. */
  lemma AssignedValues(typ: PackageType, m: PackageMeta, v0: map<Key, Json>, v1: map<Key, Json>,
                       v2: map<Key, Json>, v3: map<Key, Json>, v4: map<Key, Json>)
    requires v0 == map[Name := Str(m.slug), Version := Str(m.version), Description := Str(m.desc)]
    requires v1 == if typ == Npm then v0[Author := Obj(AuthorOf(m, true))] else v0[Authors := List([AuthorOf(m, false)])]
    requires v2 == if typ == Composer && !Empty(m.gitUsername) then v1[Name := Str(m.gitUsername + "/" + m.slug)] else v1
    requires var license := Str(if !Empty(m.spdx) then m.spdx else if typ == Composer then "proprietary" else "UNLICENSED");
      v3 == if !Empty(m.spdx) || typ == Composer then v2[License := license] else v2[License := license][Private := Flag(true)]
    requires v4 == if typ == Npm && !Empty(m.gitUrl) then
                     v3[Bugs := Str(TrailingSlashIt(m.gitUrl) + "bugs")][Homepage := Str(m.gitUrl)]
                       [Repository := Str(m.gitHost + ":" + m.gitUsername + "/" + m.slug)]
                   else v3
    ensures forall k :: k in v4 ==> v4[k] == Member(typ, m, k)
  {
    forall k | k in v4
      ensures v4[k] == Member(typ, m, k)
    {
      match k
      case Name =>
      case Version =>
      case Description =>
      case Author =>
      case Authors =>
      case Email =>
      case Url =>
      case License =>
      case Private =>
      case Bugs =>
      case Homepage =>
      case Repository =>
    }
  }

  /** Distinct members have distinct names in the JSON text. */
  lemma KeyNameInjective(a: Key, b: Key)
    ensures KeyName(a) == KeyName(b) ==> a == b
  {
  }

  /** The generated package file is a well-formed array: every member once. */
  lemma JsonValid(typ: PackageType, m: PackageMeta)
    ensures PackageJson(typ, m).Valid()
  {
    var keys := Members(typ, m);
    forall i, j | 0 <= i < j < |keys|
      ensures keys[i] != keys[j]
    {
      if typ == Npm {
      } else {
      }
    }
  }

  /** "name" comes first and is the slug, or "username/slug" for composer
      with a git username; version and description follow. */
  lemma JsonName(typ: PackageType, m: PackageMeta)
    ensures PackageJson(typ, m).keys[..3] == [Name, Version, Description]
    ensures PackageJson(typ, m).vals[Name] ==
      Str(if typ == Composer && !Empty(m.gitUsername) then m.gitUsername + "/" + m.slug else m.slug)
    ensures PackageJson(typ, m).vals[Version] == Str(m.version)
    ensures PackageJson(typ, m).vals[Description] == Str(m.desc)
  {
  }

  /** npm has one "author" with name, email and url; composer has "authors",
      a list of one author with name and email only. */
  lemma JsonAuthors(typ: PackageType, m: PackageMeta)
    ensures Author in PackageJson(typ, m).vals <==> typ == Npm
    ensures Authors in PackageJson(typ, m).vals <==> typ == Composer
    ensures typ == Npm ==> PackageJson(typ, m).vals[Author] == Obj(AuthorOf(m, true))
    ensures typ == Composer ==> PackageJson(typ, m).vals[Authors] == List([AuthorOf(m, false)])
  {
  }

  /** The composer author is the npm author without "url". */
  lemma AuthorWithoutUrl(m: PackageMeta)
    ensures AuthorOf(m, true).vals == map[Name := m.name, Email := m.email, Url := m.url]
    ensures AuthorOf(m, false).vals == AuthorOf(m, true).vals - {Url}
    ensures AuthorOf(m, false).keys == AuthorOf(m, true).keys[..2]
  {
  }

  /** Every file has a license: the spdx identifier when set, else
      "proprietary" for composer and "UNLICENSED" for npm, which alone is
      also marked private. */
  lemma JsonLicense(typ: PackageType, m: PackageMeta)
    ensures License in PackageJson(typ, m).vals
    ensures PackageJson(typ, m).vals[License] ==
      Str(if !Empty(m.spdx) then m.spdx else if typ == Composer then "proprietary" else "UNLICENSED")
    ensures Private in PackageJson(typ, m).vals <==> Empty(m.spdx) && typ == Npm
    ensures Private in PackageJson(typ, m).vals ==> PackageJson(typ, m).vals[Private] == Flag(true)
  {
  }

  /** npm with a git URL links bugs, homepage and repository; no other file does. */
  lemma JsonLinks(typ: PackageType, m: PackageMeta)
    ensures Bugs in PackageJson(typ, m).vals <==> typ == Npm && !Empty(m.gitUrl)
    ensures Homepage in PackageJson(typ, m).vals <==> typ == Npm && !Empty(m.gitUrl)
    ensures Repository in PackageJson(typ, m).vals <==> typ == Npm && !Empty(m.gitUrl)
    ensures typ == Npm && !Empty(m.gitUrl) ==>
      && PackageJson(typ, m).vals[Bugs] == Str(TrailingSlashIt(m.gitUrl) + "bugs")
      && PackageJson(typ, m).vals[Homepage] == Str(m.gitUrl)
      && PackageJson(typ, m).vals[Repository] == Str(m.gitHost + ":" + m.gitUsername + "/" + m.slug)
  {
  }

  // ---------------------------------------------------------------------
  // The prompt phase as an object

  /** The fields of the command object that the prompt phase updates. */
  class Command {
    var data: Base.Data
    var slug: string
    var files: OArray<string, string>
    var licenses: map<string, map<string, string>>
    var labelType: string
    var defaultsType: string
    var composerData: OArray<Key, Json>
    var packageData: OArray<Key, Json>
    const typ: string
    const env: map<string, string>
    const common: map<string, string>    // the templates directory of this package (commonFS)

    constructor (typ: string, env: map<string, string>, common: map<string, string>, data: Base.Data, slug: string)
      ensures this.typ == typ && this.env == env && this.common == common && this.data == data && this.slug == slug
      ensures files == EmptyArray() && licenses == Licenses
      ensures labelType == "" && defaultsType == ""
      ensures composerData == EmptyArray() && packageData == EmptyArray()
    {
      this.typ := typ;
      this.env := env;
      this.common := common;
      this.data := data;
      this.slug := slug;
      files := EmptyArray();
      licenses := Licenses;
      labelType, defaultsType := "", "";
      composerData, packageData := EmptyArray(), EmptyArray();
    }

    method ResolveDefaultsType(flag: string, answer: string)
      modifies this`defaultsType
      ensures defaultsType == DefaultsType(flag, env, answer)
    {
      if !Empty(flag) && (flag == "user" || flag == "org") {
        defaultsType := ToUpper(flag) + "_";
      } else if !Empty(Lookup(env, "DEFAULTS_TYPE")) {
        defaultsType := ToUpper(env["DEFAULTS_TYPE"]) + "_";
      } else if exists k :: k in env && ContainsCI(k, "org_") {
        defaultsType := ToUpper(answer) + "_";
      } else {
        defaultsType := "USER_";
      }
    }

    /** `replicateDefaults($cli)`: on confirmation every default is copied
        into `data` and the slug follows `data['slug']`. */
    method ReplicateDefaults(cli: bool, confirmed: bool)
      modifies this`data, this`slug
      ensures Naming(data, slug) == Defaulted(Naming(old(data), old(slug)), cli, confirmed)
    {
      var defaults := Defaults(cli, data);
      DefaultsValid(cli, data);
      if confirmed {
        var d := data;
        var i := 0;
        while i < |defaults.keys|
          invariant 0 <= i <= |defaults.keys|
          invariant d == CopyInto(data, defaults, i)
        {
          d := d[defaults.keys[i] := defaults.vals[defaults.keys[i]]];
          i := i + 1;
        }
        CopyIntoAll(data, defaults);
        data := d;
        slug := data["slug"];
      }
    }

    /** `namingPrompts`, in the three parts NameStep, SlugStep and DeriveStep describe. */
    method NamingPrompts(a: NamingAnswers)
      modifies this`data, this`slug, this`labelType
      ensures labelType == LabelType(typ)
      ensures Naming(data, slug) == NamingOutcome(Naming(old(data), old(slug)), typ, env, a)
    {
      labelType := LabelType(typ);
      NamePrompts(a);
      SlugPrompts(a);
      DeriveKeys(a);
    }

    /** The command-name and label prompts with their defaults. */
    method NamePrompts(a: NamingAnswers)
      modifies this`data, this`slug
      ensures Naming(data, slug) == NameStep(Naming(old(data), old(slug)), typ, a)
    {
      if typ == "packages" {
        data := data["cmd_name" := a.cmdName];
        ReplicateDefaults(true, a.useDefaults);
      }
      if Empty(Lookup(data, "label")) {
        data := data["label" := a.title];
      }
      if typ != "packages" {
        ReplicateDefaults(false, a.useDefaults);
      }
    }

    /** The slug and namespace prompts. */
    method SlugPrompts(a: NamingAnswers)
      modifies this`data, this`slug
      ensures Naming(data, slug) == SlugStep(Naming(old(data), old(slug)), a)
    {
      if Empty(Lookup(data, "slug")) {
        data := data["slug" := Prompted(a.slug, ReplicateDefaultSlug("", data))];
        slug := data["slug"];
      }
      if Empty(Lookup(data, "namespace")) {
        data := data["namespace" := Prompted(a.namespace, ReplicateDefaultNamespace("", data))];
      }
    }

    /** The keys derived once slug and namespace are settled. */
    method DeriveKeys(a: NamingAnswers)
      modifies this`data
      ensures data == DeriveStep(old(data), env, a)
    {
      data := data["namespace_check" := NamespaceCheck(Lookup(data, "namespace"))];
      data := data["desc" := a.desc];
      if !Empty(Lookup(env, "DEFAULT_VERSION")) && !Empty(Lookup(env, "ALWAYS_DEFAULTS")) {
        data := data["version" := env["DEFAULT_VERSION"]];
      }
      if Empty(Lookup(data, "version")) {
        data := data["version" := Prompted(a.version, DefaultVersion(env))];
      }
      data := data["constant_prefix" := ConstantPrefix(Lookup(data, "slug"))];
    }

    /** The git-URL step of authorAndUrlPrompts; it uses `$this->slug`. */
    method SetGitUrl()
      modifies this`data
      ensures Lookup(old(data), "creator_git_host") == "none" ==> data == old(data)
      ensures Lookup(old(data), "creator_git_host") != "none" ==>
        data == old(data)["creator_git_url" := GitUrl(Lookup(old(data), "creator_git_host"),
                                                      Lookup(old(data), "creator_git_username"), slug)]
    {
      if Lookup(data, "creator_git_host") != "none" {
        data := data["creator_git_url" := GitUrl(Lookup(data, "creator_git_host"), Lookup(data, "creator_git_username"), slug)];
      }
    }

    /** `licenseHandler`: `answer` and `version` answer the license and
        GPL-version prompts. */
    method LicenseHandler(answer: string, version: string, render: (string, Base.Data) -> string)
      requires files.Valid()
      modifies this`licenses, this`data, this`files
      ensures licenses == InstalledLicenses(old(licenses), env, answer, version)
      ensures data == LicensedData(old(data), licenses, Selection(env, answer, version), common, render)
      ensures files == LicensedFiles(old(files), old(data), licenses, Selection(env, answer, version), common, render)
    {
      var selected := SelectLicense(answer, version);
      ApplyLicense(selected, render);
    }

    /** The selection half of licenseHandler; a GPL choice installs its entry. */
    method SelectLicense(answer: string, version: string) returns (selected: string)
      modifies this`licenses
      ensures selected == Selection(env, answer, version)
      ensures licenses == InstalledLicenses(old(licenses), env, answer, version)
    {
      if Empty(Lookup(env, "DEFAULT_LICNESE")) {
        selected := answer;
        if selected == "gpl2" || selected == "gpl3" {
          selected := selected + version;
          licenses := licenses[selected := if selected in GplTypes then GplTypes[selected] else map[]];
        }
      } else {
        selected := Lookup(env, "DEFAULT_LICENSE");
      }
    }

    /** The half of licenseHandler that copies the selected license into
        `data` and renders its templates. */
    method ApplyLicense(selected: string, render: (string, Base.Data) -> string)
      requires files.Valid()
      modifies this`data, this`files
      ensures data == LicensedData(old(data), licenses, selected, common, render)
      ensures files == LicensedFiles(old(files), old(data), licenses, selected, common, render)
    {
      if selected != "other" {
        var d := LicenseFields(data, licenses, selected);
        if LicenseTemplate(selected) in common {
          files := files.Put("LICENSE", Base.RenderMustacheTemplate(render, common[LicenseTemplate(selected)], d, d));
        }
        if ReadmeTemplate(selected) in common {
          d := d["license_readme_insert" := Base.RenderMustacheTemplate(render, common[ReadmeTemplate(selected)], d, d)];
        }
        data := d;
      }
    }

    /** `handleConfigFiles`: both package files are generated and always
        enter the file set; `encode` stands for json_encode. */
    method HandleConfigFiles(encode: OArray<Key, Json> -> string)
      requires files.Valid()
      modifies this`composerData, this`packageData, this`files
      ensures composerData == ReplicateJSONFile(Composer, data)
      ensures packageData == ReplicateJSONFile(Npm, data)
      ensures files.Valid() && old(files).keys <= files.keys
      ensures files.vals == old(files).vals["composer.json" := encode(composerData)]["package.json" := encode(packageData)]
    {
      composerData := ReplicateJSONFile(Composer, data);
      packageData := ReplicateJSONFile(Npm, data);
      files.PutValid("composer.json", encode(composerData));
      files := files.Put("composer.json", encode(composerData));
      files.PutValid("package.json", encode(packageData));
      files := files.Put("package.json", encode(packageData));
    }

    /** The command object as the prompts leave it, handed to runReplication. */
    method Replicator(structure: OArray<string, string>, templates: map<string, string>, destination: string,
                      fs: Storage.Fs, zip: bool, archive: Storage.Fs) returns (c: Base.Command)
      requires files.Valid() && structure.Valid()
      ensures fresh(c) && c.Valid()
      ensures c.slug == slug && c.data == data && c.files == files && c.structure == structure
      ensures c.templates == templates && c.destination == destination && c.fs == fs && c.zip == zip
      ensures c.archive == archive && c.archiveCloses == 0
    {
      c := new Base.Command(slug, data, files, structure, templates, destination, fs, zip, archive);
    }
  }
}
