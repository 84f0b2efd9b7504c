/**
 * The per-request options the dispatcher and the module loader read from the
 * host's option table (`PythonOption` directives). Values are strings; every
 * option is used only through Python truthiness, so a present but empty value
 * counts as off; only a missing `autoreload` defaults to on.
 */
module Config {

  /** The option snapshot, after truthiness: "" stands for an unset string option. */
  datatype Options = Options(autoreload: bool, rootpkg: string, debug: bool, pythonpath: string)

  /** `opt[key]` when `opt.has_key(key)`, otherwise the default. */
  function Get(opt: map<string, string>, key: string, default: string): string {
    if key in opt then opt[key] else default
  }

  /** Python truthiness of a string option. */
  predicate Truthy(v: string) {
    v != ""
  }

  /**
   * The option processing of `Dispatch` and `import_module`: `autoreload`
   * defaults to 1, the other three to None.
   */
  function ParseOptions(opt: map<string, string>): Options {
    Options(
      Truthy(Get(opt, "autoreload", "1")),
      Get(opt, "rootpkg", ""),
      Truthy(Get(opt, "debug", "")),
      Get(opt, "pythonpath", ""))
  }

  /** What each field of the snapshot means in terms of the table. */
  lemma OptionsMeaning(opt: map<string, string>)
    ensures ParseOptions(opt).autoreload <==> "autoreload" !in opt || opt["autoreload"] != ""
    ensures ParseOptions(opt).debug <==> "debug" in opt && opt["debug"] != ""
    ensures ParseOptions(opt).rootpkg != "" <==> "rootpkg" in opt && opt["rootpkg"] != ""
    ensures ParseOptions(opt).rootpkg != "" ==> ParseOptions(opt).rootpkg == opt["rootpkg"]
    ensures ParseOptions(opt).pythonpath != "" <==> "pythonpath" in opt && opt["pythonpath"] != ""
    ensures ParseOptions(opt).pythonpath != "" ==> ParseOptions(opt).pythonpath == opt["pythonpath"]
  {
  }

  /** Options that are not one of the four names have no effect. */
  lemma OtherKeysIgnored(opt: map<string, string>, k: string, v: string)
    requires k !in {"autoreload", "rootpkg", "debug", "pythonpath"}
    ensures ParseOptions(opt[k := v]) == ParseOptions(opt)
  {
  }
}
