/** The untyped option values the components pass around, with Python's
    truthiness, `str()` and the two lookup idioms every component uses:
    `explicit or table.get(key, fallback)` and `cfg.get(key) or fallback`. */
module Values {
  import opened Wrappers
  import Strings

  /** A Python value stored in an option map. A float is kept as its
      `repr`, which is all the components ever do with one. */
  datatype Value =
    | VStr(s: string)
    | VInt(i: int)
    | VBool(b: bool)
    | VFloat(repr: string)
    | VNone

  /** An option map: option name to value (a Python `dict[str, Any]`). */
  type OptionMap = map<string, Value>

  /** Python truthiness: `None`, `""`, `0`, `0.0` and `False` are falsy. */
  predicate Truthy(v: Value) {
    match v
    case VStr(s) => s != ""
    case VInt(i) => i != 0
    case VBool(b) => b
    case VFloat(repr) => repr != "0.0" && repr != "-0.0"
    case VNone => false
  }

  /** Python `str(v)`, as an f-string interpolates it. */
  function Show(v: Value): string {
    match v
    case VStr(s) => s
    case VInt(i) => Strings.IntToString(i)
    case VBool(b) => if b then "True" else "False"
    case VFloat(repr) => repr
    case VNone => "None"
  }

  /** A `str` parameter that defaults to `None` is set when it is truthy. */
  predicate IsSet(explicit: Option<string>) {
    explicit.Some? && explicit.value != ""
  }

  /** Python `m.get(key)`: the stored value, or `None` when the key is absent. */
  function Get(m: OptionMap, key: string): (r: Value)
    ensures key in m ==> r == m[key]
    ensures key !in m ==> r == VNone
  {
    if key in m then m[key] else VNone
  }

  /** Python `m.get(key, fallback)`. */
  function GetOr(m: OptionMap, key: string, fallback: Value): (r: Value)
    ensures key in m ==> r == m[key]
    ensures key !in m ==> r == fallback
  {
    if key in m then m[key] else fallback
  }

  /** Python `explicit or fallback` for a `str`-or-`None` parameter. */
  function Or(explicit: Option<string>, fallback: Value): (r: Value)
    ensures IsSet(explicit) ==> r == VStr(explicit.value)
    ensures !IsSet(explicit) ==> r == fallback
  {
    if explicit.Some? && explicit.value != "" then VStr(explicit.value) else fallback
  }

  /** Python `v or literal` for a value read from a map. */
  function OrLit(v: Value, literal: string): (r: Value)
    ensures Truthy(v) ==> r == v
    ensures !Truthy(v) ==> r == VStr(literal)
  {
    if Truthy(v) then v else VStr(literal)
  }

  /** Three-tier precedence: a set explicit value wins; otherwise the
      community defaults entry, if the key is present at all (even with a
      falsy value); otherwise the hard-coded fallback. */
  ghost predicate ThreeTier(explicit: Option<string>, table: OptionMap, key: string, hard: Value, r: Value) {
    && (IsSet(explicit) ==> r == VStr(explicit.value))
    && (!IsSet(explicit) && key in table ==> r == table[key])
    && (!IsSet(explicit) && key !in table ==> r == hard)
  }

  /** Two-tier precedence over an already-resolved configuration map: its
      value when truthy, else the hard-coded literal. */
  ghost predicate TwoTier(cfg: OptionMap, key: string, literal: string, r: Value) {
    && (key in cfg && Truthy(cfg[key]) ==> r == cfg[key])
    && (key !in cfg || !Truthy(cfg[key]) ==> r == VStr(literal))
  }

  /** `explicit or table.get(key, hard)`, the idiom of every component that
      reads the community defaults table, meets the three-tier precedence. */
  function Resolve(explicit: Option<string>, table: OptionMap, key: string, hard: Value): (r: Value)
    ensures ThreeTier(explicit, table, key, hard, r)
  {
    Or(explicit, GetOr(table, key, hard))
  }

  /** `cfg.get(key) or literal`, the idiom of every component that reads a
      configuration resolved by the core library, meets the two-tier rule. */
  function ResolveCfg(cfg: OptionMap, key: string, literal: string): (r: Value)
    ensures TwoTier(cfg, key, literal, r)
  {
    OrLit(Get(cfg, key), literal)
  }

  /** With all three tiers distinct and present the explicit value wins;
      without it the table entry wins; without both the fallback is used. */
  lemma PrecedenceOrder(e: string, table: OptionMap, key: string, hard: Value)
    requires e != ""
    ensures Resolve(Some(e), table, key, hard) == VStr(e)
    ensures key in table ==> Resolve(None, table, key, hard) == table[key]
    ensures key in table ==> Resolve(Some(""), table, key, hard) == table[key]
    ensures Resolve(None, table - {key}, key, hard) == hard
  {
  }
}
