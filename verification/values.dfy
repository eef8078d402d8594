/** Ruby-side values the renderers pass around: option hashes, truthiness,
    Array#- and Array#join, and the helpers whose text is not part of this model. */
module Values {

  datatype Option<+T> = None | Some(value: T) {
    /** `nil`-defaulting lookup, as `Hash#merge` over a defaults hash does. */
    function GetOr(default: T): T {
      match this
      case Some(v) => v
      case None => default
    }
  }

  /** A Ruby value as it may appear in an options hash. Integers and floats
      share one numeric kind, and nested hashes are not represented. */
  datatype Value =
    | Nil
    | Bool(b: bool)
    | Num(n: real)
    | Str(s: string)
    | List(items: seq<Value>)

  /** An options hash, keyed by option name. It is unordered: two hashes are
      equal exactly when Ruby's `Hash#==` says so, and the insertion order a
      Ruby `Hash` keeps is not represented. */
  type Options = map<string, Value>

  /** Ruby truthiness: everything except `nil` and `false`. */
  predicate Truthy(v: Value) {
    !(v.Nil? || v == Bool(false))
  }

  /** `hash[key]`: a missing key reads as `nil`. */
  function Lookup(m: Options, key: string): Value
  {
    if key in m then m[key] else Nil
  }

  /** The helpers the renderers call but whose output format is not modelled:
      `Float#to_s`, `Geos::Helper.camelize_keys` and `Geos::Helper.escape_json`. */
  datatype Helpers = Helpers(
    fmt: real -> string,
    camelizeKeys: Options -> Options,
    escapeJson: (Options, seq<string>) -> string)

  /** The second hash every shape renderer takes. Its two keys default,
      as `{:escape => [], :lat_lng_options => {}}.merge(options)` does, to an
      empty list and an empty hash; `None` means the caller left the key out. */
  datatype RenderOptions = RenderOptions(escape: Option<seq<string>>, latLngOptions: Option<Options>) {
    function Escape(): seq<string> {
      escape.GetOr([])
    }
    function LatLngOptions(): Options {
      latLngOptions.GetOr(map[])
    }
  }

  /** The two arguments handed to `Geos::Helper.escape_json`: the option hash
      and the list of keys whose values are emitted unquoted. */
  datatype EscapeCall = EscapeCall(opts: Options, unescaped: seq<string>)

  /** Ruby's `Array#-`: the elements of `a` that do not occur in `b`, in `a`'s order. */
  function Minus(a: seq<string>, b: seq<string>): seq<string>
  {
    if |a| == 0 then []
    else (if a[0] in b then [] else [a[0]]) + Minus(a[1..], b)
  }

  /** An element is in `a - b` exactly when it is in `a` and not in `b`. */
  lemma {:induction false} MinusMembers(a: seq<string>, b: seq<string>)
    ensures forall x :: x in Minus(a, b) <==> x in a && x !in b
  {
    if |a| > 0 {
      MinusMembers(a[1..], b);
      assert a == [a[0]] + a[1..];
    }
  }

  /** Subtracting nothing keeps the whole list, in order. */
  lemma {:induction false} MinusNothing(a: seq<string>)
    ensures Minus(a, []) == a
  {
    if |a| > 0 {
      MinusNothing(a[1..]);
      assert [a[0]] + a[1..] == a;
    }
  }

  /** `Array#-` one element at a time: the head is kept exactly when it is not
      subtracted. */
  lemma MinusCons(x: string, a: seq<string>, b: seq<string>)
    ensures Minus([x] + a, b) == (if x in b then [] else [x]) + Minus(a, b)
  {
    assert ([x] + a)[1..] == a;
  }

  /** Ruby's `Array#join(sep)` on strings. */
  function Join(xs: seq<string>, sep: string): string
  {
    if |xs| == 0 then []
    else if |xs| == 1 then xs[0]
    else xs[0] + sep + Join(xs[1..], sep)
  }
}
