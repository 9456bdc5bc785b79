/**
 * The parsed `conda-forge.yml`: a YAML value, Python's truthiness of such a
 * value, and the `.get(key, default)` lookups the policy code chains together.
 */
module Config {
  import opened Wrappers

  /** A YAML document as the loader returns it (floats and dates are not modelled). */
  datatype Yaml =
    | YNull
    | YBool(b: bool)
    | YInt(i: int)
    | YStr(s: string)
    | YList(items: seq<Yaml>)
    | YMap(entries: map<string, Yaml>)

  /** Python's `bool(v)`. */
  predicate Truthy(v: Yaml)
  {
    match v
    case YNull => false
    case YBool(b) => b
    case YInt(i) => i != 0
    case YStr(s) => s != ""
    case YList(items) => items != []
    case YMap(entries) => entries != map[]
  }

  /** The empty mapping `{}`, the default of the chained lookups. */
  const EmptyMap: Yaml := YMap(map[])

  /**
   * `v.get(key, default)`: a mapping answers with the stored value or the
   * default; any other value has no `get` attribute and the call raises.
   */
  function Get(v: Yaml, key: string, default: Yaml): Result<Yaml>
  {
    match v
    case YMap(entries) => Ok(if key in entries then entries[key] else default)
    case _ => Raised("AttributeError")
  }

  /** `cfg.get(outer, {}).get(inner, default)`, the shape of every lookup in the policy code. */
  function GetNested(cfg: Yaml, outer: string, inner: string, default: Yaml): (r: Result<Yaml>)
    ensures r.Raised? <==> !cfg.YMap? || (outer in cfg.entries && !cfg.entries[outer].YMap?)
    ensures cfg.YMap? && outer !in cfg.entries ==> r == Ok(default)
    ensures cfg.YMap? && outer in cfg.entries && cfg.entries[outer].YMap? ==>
              r == Ok(if inner in cfg.entries[outer].entries then cfg.entries[outer].entries[inner] else default)
  {
    var section :- Get(cfg, outer, EmptyMap);
    Get(section, inner, default)
  }

  /** The glob `.ci_support/win*.yaml` applied to one file name of that directory. */
  predicate IsWinYaml(name: string)
  {
    |name| >= |"win"| + |".yaml"| && name[..3] == "win" && name[|name| - 5..] == ".yaml"
  }

  /** The glob's result: the names in the `.ci_support` listing that match `win*.yaml`, in order. */
  function WinYamlFiles(listing: seq<string>): (r: seq<string>)
    ensures forall f :: f in r <==> f in listing && IsWinYaml(f)
  {
    if listing == [] then []
    else if IsWinYaml(listing[0]) then [listing[0]] + WinYamlFiles(listing[1..])
    else WinYamlFiles(listing[1..])
  }
}
