/** The textual shape of what the API v3 renderers emit: JavaScript constructor
    calls `new google.maps.<Ctor>(...)`, two-number argument lists with an
    optional `, true` flag, and bracketed arrays of such calls. Alongside each
    printer sits a parser, so that properties of the output can be stated as
    "parsing it back gives these parts". */
module Literals {
  import opened Values

  const Namespace := "new google.maps."
  const ArgSep := ", "
  const FlagSuffix := ", true"

  /** Characters that never occur inside a printed number. */
  predicate IsDelimiter(c: char) {
    c == ',' || c == ' ' || c == '(' || c == ')' || c == '[' || c == ']'
  }

  /** A printed number: non-empty and free of delimiters. Ruby's `Float#to_s`
      prints one for every finite float (`10.01`, `-1.5e-05`). */
  predicate IsToken(t: string) {
    |t| > 0 && forall i :: 0 <= i < |t| ==> !IsDelimiter(t[i])
  }

  predicate StartsWith(s: string, p: string) {
    |p| <= |s| && s[..|p|] == p
  }

  /** The two printed numbers of a `LatLng` or `Point` call, and whether the
      trailing `, true` flag is present. */
  datatype Args = Args(first: string, second: string, flag: bool)

  function Open(ctor: string): string {
    Namespace + ctor + "("
  }

  /** `new google.maps.<ctor>(<arg>)`. */
  function Wrap(ctor: string, arg: string): (r: string)
    ensures ParseWrapped(ctor, r) == Some(arg)
  {
    var r := Open(ctor) + arg + ")";
    assert r[..|Open(ctor)|] == Open(ctor);
    assert r[|Open(ctor)|..|r| - 1] == arg;
    r
  }

  /** Recovers the argument text of a `new google.maps.<ctor>(...)` call. */
  function ParseWrapped(ctor: string, s: string): Option<string> {
    if StartsWith(s, Open(ctor)) && |s| > |Open(ctor)| && s[|s| - 1] == ')'
    then Some(s[|Open(ctor)|..|s| - 1])
    else None
  }

  /** What closes an argument list: `)` or, with the flag, `, true)`. */
  function Close(flag: bool): string {
    if flag then FlagSuffix + ")" else ")"
  }

  /** `new google.maps.<ctor>(<first>, <second>[, true])` followed by `rest`. */
  function CallThen(ctor: string, a: Args, rest: string): string {
    Open(ctor) + (a.first + (ArgSep + (a.second + (Close(a.flag) + rest))))
  }

  /** `new google.maps.<ctor>(<first>, <second>[, true])`. */
  function CallLiteral(ctor: string, a: Args): string {
    CallThen(ctor, a, "")
  }

  lemma CallLiteralThen(ctor: string, a: Args, rest: string)
    ensures CallLiteral(ctor, a) + rest == CallThen(ctor, a, rest)
  {
    var c := Close(a.flag);
    assert (c + "") + rest == c + rest;
    var t := a.second + (c + "");
    assert t + rest == a.second + (c + rest);
    var u := ArgSep + t;
    assert u + rest == ArgSep + (t + rest);
    var v := a.first + u;
    assert v + rest == a.first + (u + rest);
    assert (Open(ctor) + v) + rest == Open(ctor) + (v + rest);
  }

  /** Strips `p` from the front of `s`. */
  function Expect(s: string, p: string): (r: Option<string>)
    ensures r.Some? <==> StartsWith(s, p)
    ensures r.Some? ==> s == p + r.value
  {
    if StartsWith(s, p) then
      assert s == s[..|p|] + s[|p|..];
      Some(s[|p|..])
    else None
  }

  lemma ExpectOf(p: string, rest: string)
    ensures Expect(p + rest, p) == Some(rest)
  {
    assert (p + rest)[..|p|] == p;
    assert (p + rest)[|p|..] == rest;
  }

  /** The longest delimiter-free prefix of `s`. */
  function TakeToken(s: string): (t: string)
    ensures |t| <= |s| && t == s[..|t|]
    ensures forall i :: 0 <= i < |t| ==> !IsDelimiter(t[i])
    ensures |t| < |s| ==> IsDelimiter(s[|t|])
  {
    if |s| == 0 || IsDelimiter(s[0]) then [] else [s[0]] + TakeToken(s[1..])
  }

  /** Splits the longest delimiter-free prefix of `s` off, if it is non-empty. */
  function Token(s: string): (r: Option<(string, string)>)
    ensures r.Some? ==> IsToken(r.value.0) && s == r.value.0 + r.value.1
    ensures r.Some? ==> r.value.1 == [] || IsDelimiter(r.value.1[0])
  {
    var t := TakeToken(s);
    if |t| == 0 then None
    else
      assert s == t + s[|t|..];
      Some((t, s[|t|..]))
  }

  lemma TokenOf(t: string, rest: string)
    requires IsToken(t)
    requires |rest| > 0 && IsDelimiter(rest[0])
    ensures Token(t + rest) == Some((t, rest))
  {
    TakeTokenOf(t, rest);
    assert (t + rest)[|t|..] == rest;
  }

  /** Parses `<first>, <second>[, true])` at the front of `s`; returns the
      arguments and what follows the closing parenthesis. Whatever it accepts
      is two printed numbers in that layout. */
  function ParseArgsPrefix(s: string): (r: Option<(Args, string)>)
    ensures r.Some? ==> IsToken(r.value.0.first) && IsToken(r.value.0.second)
    ensures r.Some? ==>
      s == r.value.0.first + (ArgSep + (r.value.0.second + (Close(r.value.0.flag) + r.value.1)))
  {
    match Token(s)
    case None => None
    case Some((first, s1)) =>
      match Expect(s1, ArgSep)
      case None => None
      case Some(s2) =>
        match Token(s2)
        case None => None
        case Some((second, s3)) =>
          match Expect(s3, Close(false))
          case Some(rest) => Some((Args(first, second, false), rest))
          case None =>
            match Expect(s3, Close(true))
            case Some(rest) => Some((Args(first, second, true), rest))
            case None => None
  }

  /** Parses one `new google.maps.<ctor>(...)` call at the front of `s`. */
  function ParseCallPrefix(ctor: string, s: string): (r: Option<(Args, string)>)
    ensures r.Some? ==> IsToken(r.value.0.first) && IsToken(r.value.0.second)
    ensures r.Some? ==> s == CallThen(ctor, r.value.0, r.value.1)
    ensures r.Some? ==> |r.value.1| < |s|
  {
    match Expect(s, Open(ctor))
    case None => None
    case Some(body) => ParseArgsPrefix(body)
  }

  /** Parses a string that is exactly one `new google.maps.<ctor>(...)` call. */
  function ParseCall(ctor: string, s: string): Option<Args> {
    match ParseCallPrefix(ctor, s)
    case Some((a, rest)) => if rest == [] then Some(a) else None
    case None => None
  }

  lemma {:induction false} TakeTokenOf(t: string, rest: string)
    requires forall i :: 0 <= i < |t| ==> !IsDelimiter(t[i])
    requires |rest| > 0 && IsDelimiter(rest[0])
    ensures TakeToken(t + rest) == t
  {
    if |t| > 0 {
      assert (t + rest)[0] == t[0];
      assert (t + rest)[1..] == t[1..] + rest;
      TakeTokenOf(t[1..], rest);
      assert [t[0]] + t[1..] == t;
    } else {
      assert t + rest == rest;
    }
  }

  lemma ArgsPrefixRoundTrip(a: Args, rest: string)
    requires IsToken(a.first) && IsToken(a.second)
    ensures ParseArgsPrefix(a.first + (ArgSep + (a.second + (Close(a.flag) + rest))))
         == Some((a, rest))
  {
    var c := Close(a.flag) + rest;
    var s3 := a.second + c;
    var s2 := ArgSep + s3;
    TokenOf(a.first, s2);
    ExpectOf(ArgSep, s3);
    TokenOf(a.second, c);
    if a.flag {
      assert Expect(c, Close(false)).None? by {
        assert c[0] == ',';
      }
      ExpectOf(Close(true), rest);
    } else {
      ExpectOf(Close(false), rest);
    }
  }

  /** Printing a call and parsing it back, with anything after it, recovers
      the arguments and leaves the rest untouched. */
  lemma CallPrefixRoundTrip(ctor: string, a: Args, rest: string)
    requires IsToken(a.first) && IsToken(a.second)
    ensures ParseCallPrefix(ctor, CallThen(ctor, a, rest)) == Some((a, rest))
  {
    ExpectOf(Open(ctor), a.first + (ArgSep + (a.second + (Close(a.flag) + rest))));
    ArgsPrefixRoundTrip(a, rest);
  }

  /** A call literal parses back to exactly its arguments. */
  lemma CallRoundTrip(ctor: string, a: Args)
    requires IsToken(a.first) && IsToken(a.second)
    ensures ParseCall(ctor, CallLiteral(ctor, a)) == Some(a)
  {
    CallPrefixRoundTrip(ctor, a, "");
  }

  /** Conversely, a string parses as a call only if it is the literal of the
      parsed arguments. */
  lemma ParseCallSound(ctor: string, s: string)
    requires ParseCall(ctor, s).Some?
    ensures var a := ParseCall(ctor, s).value;
      IsToken(a.first) && IsToken(a.second) && s == CallLiteral(ctor, a)
  {
  }

  /** Distinct printed arguments give distinct call literals. */
  lemma CallLiteralInjective(ctor: string, a: Args, b: Args)
    requires IsToken(a.first) && IsToken(a.second)
    requires IsToken(b.first) && IsToken(b.second)
    requires CallLiteral(ctor, a) == CallLiteral(ctor, b)
    ensures a == b
  {
    CallRoundTrip(ctor, a);
    CallRoundTrip(ctor, b);
  }

  // ---- arrays of calls: `[<call>, <call>, ...]` ----

  function CallLiterals(ctor: string, args: seq<Args>): (r: seq<string>)
    ensures |r| == |args|
    ensures forall i :: 0 <= i < |args| ==> r[i] == CallLiteral(ctor, args[i])
  {
    seq(|args|, i requires 0 <= i < |args| => CallLiteral(ctor, args[i]))
  }

  /** A Ruby array of literals printed as `"[#{items.join(', ')}]"`. */
  function ArrayLiteral(items: seq<string>): string {
    "[" + Join(items, ArgSep) + "]"
  }

  /** Parses `<call>, <call>, ...` (possibly nothing) of one constructor. */
  function ParseCallList(ctor: string, s: string): Option<seq<Args>>
    decreases |s|
  {
    if |s| == 0 then Some([])
    else match ParseCallPrefix(ctor, s)
      case None => None
      case Some((a, rest)) =>
        if rest == [] then Some([a])
        else match Expect(rest, ArgSep)
          case None => None
          case Some(more) =>
            if more == [] then None
            else match ParseCallList(ctor, more)
              case Some(tail) => Some([a] + tail)
              case None => None
  }

  /** Parses `[<call>, <call>, ...]`. */
  function ParseArray(ctor: string, s: string): Option<seq<Args>> {
    if |s| >= 2 && s[0] == '[' && s[|s| - 1] == ']'
    then ParseCallList(ctor, s[1..|s| - 1])
    else None
  }

  /** One call, then `, ` and a list: the list parser takes the call off
      and carries on with the list. */
  lemma CallListStep(ctor: string, a: Args, tail: string)
    requires IsToken(a.first) && IsToken(a.second)
    requires tail != []
    ensures ParseCallList(ctor, CallLiteral(ctor, a) + (ArgSep + tail))
         == match ParseCallList(ctor, tail)
            case Some(more) => Some([a] + more)
            case None => None
  {
    var s := CallLiteral(ctor, a) + (ArgSep + tail);
    CallLiteralThen(ctor, a, ArgSep + tail);
    CallPrefixRoundTrip(ctor, a, ArgSep + tail);
    assert ParseCallPrefix(ctor, s) == Some((a, ArgSep + tail));
    ExpectOf(ArgSep, tail);
  }

  lemma {:induction false} CallListRoundTrip(ctor: string, args: seq<Args>)
    requires forall i :: 0 <= i < |args| ==> IsToken(args[i].first) && IsToken(args[i].second)
    ensures ParseCallList(ctor, Join(CallLiterals(ctor, args), ArgSep)) == Some(args)
    decreases |args|
  {
    var lits := CallLiterals(ctor, args);
    if |args| == 1 {
      assert Join(lits, ArgSep) == CallLiteral(ctor, args[0]);
      assert |CallLiteral(ctor, args[0])| > 0;
      CallPrefixRoundTrip(ctor, args[0], "");
      assert ParseCallPrefix(ctor, CallLiteral(ctor, args[0])) == Some((args[0], ""));
      assert [args[0]] == args;
    } else if |args| > 1 {
      var tail := Join(lits[1..], ArgSep);
      assert Join(lits, ArgSep) == lits[0] + (ArgSep + tail);
      JoinNonEmpty(lits[1..], ArgSep);
      assert lits[1..] == CallLiterals(ctor, args[1..]);
      CallListRoundTrip(ctor, args[1..]);
      CallListStep(ctor, args[0], tail);
      assert [args[0]] + args[1..] == args;
    }
  }

  /** Joining a list whose first element is non-empty gives non-empty text. */
  lemma JoinNonEmpty(xs: seq<string>, sep: string)
    requires |xs| > 0 && xs[0] != []
    ensures Join(xs, sep) != []
  {
    if |xs| > 1 {
      assert Join(xs, sep) == xs[0] + sep + Join(xs[1..], sep);
    }
  }

  /** Conversely, the list parser accepts only call literals joined by `, `,
      with no separator before the first or after the last. */
  lemma {:induction false} ParseCallListSound(ctor: string, s: string)
    requires ParseCallList(ctor, s).Some?
    ensures var args := ParseCallList(ctor, s).value;
      && (forall i :: 0 <= i < |args| ==> IsToken(args[i].first) && IsToken(args[i].second))
      && s == Join(CallLiterals(ctor, args), ArgSep)
    decreases |s|
  {
    if |s| > 0 {
      var (a, rest) := ParseCallPrefix(ctor, s).value;
      CallLiteralThen(ctor, a, rest);
      if rest == [] {
        assert CallLiterals(ctor, [a]) == [CallLiteral(ctor, a)];
      } else {
        var more := Expect(rest, ArgSep).value;
        ParseCallListSound(ctor, more);
        var tail := ParseCallList(ctor, more).value;
        assert ParseCallList(ctor, s) == Some([a] + tail);
        CallListConsSound(ctor, a, more, tail);
      }
    }
  }

  /** The step of `ParseCallListSound`: a call, `, ` and a non-empty joined
      list are together the joined list with that call in front. */
  lemma CallListConsSound(ctor: string, a: Args, more: string, tail: seq<Args>)
    requires IsToken(a.first) && IsToken(a.second)
    requires forall i :: 0 <= i < |tail| ==> IsToken(tail[i].first) && IsToken(tail[i].second)
    requires more == Join(CallLiterals(ctor, tail), ArgSep) && more != []
    ensures forall i :: 0 <= i < |[a] + tail| ==> IsToken(([a] + tail)[i].first) && IsToken(([a] + tail)[i].second)
    ensures CallLiteral(ctor, a) + (ArgSep + more) == Join(CallLiterals(ctor, [a] + tail), ArgSep)
  {
    var args := [a] + tail;
    var lit := CallLiteral(ctor, a);
    var lits := CallLiterals(ctor, args);
    assert lits[1..] == CallLiterals(ctor, tail);
    assert |tail| > 0;
    assert Join(lits, ArgSep) == lit + ArgSep + more;
    Assoc(lit, ArgSep, more);
    forall i | 0 <= i < |args|
      ensures IsToken(args[i].first) && IsToken(args[i].second)
    {
      if i > 0 {
        assert args[i] == tail[i - 1];
      }
    }
  }

  /** The array parser accepts exactly the printed arrays of call literals. */
  lemma ParseArraySound(ctor: string, s: string)
    requires ParseArray(ctor, s).Some?
    ensures var args := ParseArray(ctor, s).value;
      && (forall i :: 0 <= i < |args| ==> IsToken(args[i].first) && IsToken(args[i].second))
      && s == ArrayLiteral(CallLiterals(ctor, args))
  {
    Bracketed(s);
    ParseCallListSound(ctor, s[1..|s| - 1]);
  }

  /** Text that starts with `[` and ends with `]` is its inside, bracketed. */
  lemma Bracketed(s: string)
    requires |s| >= 2 && s[0] == '[' && s[|s| - 1] == ']'
    ensures s == "[" + s[1..|s| - 1] + "]"
  {
    assert s == s[..1] + s[1..|s| - 1] + s[|s| - 1..];
  }

  /** An array of call literals parses back to exactly the calls' arguments,
      one per element and in order; the empty array parses to no calls. */
  lemma ArrayRoundTrip(ctor: string, args: seq<Args>)
    requires forall i :: 0 <= i < |args| ==> IsToken(args[i].first) && IsToken(args[i].second)
    ensures ParseArray(ctor, ArrayLiteral(CallLiterals(ctor, args))) == Some(args)
  {
    var inner := Join(CallLiterals(ctor, args), ArgSep);
    var s := ArrayLiteral(CallLiterals(ctor, args));
    assert s[1..|s| - 1] == inner;
    CallListRoundTrip(ctor, args);
  }

  // ---- a pair of calls inside another call: `new google.maps.<outer>(<call>, <call>)` ----

  /** Parses `new google.maps.<outer>(<inner call>, <inner call>)`. */
  function ParsePair(outer: string, inner: string, s: string): Option<(Args, Args)> {
    match Expect(s, Open(outer))
    case None => None
    case Some(body) =>
      match ParseCallPrefix(inner, body)
      case None => None
      case Some((a, r1)) =>
        match Expect(r1, ArgSep)
        case None => None
        case Some(r2) =>
          match ParseCallPrefix(inner, r2)
          case None => None
          case Some((b, r3)) => if r3 == ")" then Some((a, b)) else None
  }

  /** String concatenation is associative. */
  lemma Assoc(a: string, b: string, c: string)
    ensures (a + b) + c == a + (b + c)
  {
  }

  /** The text after the outer call's `(`: the first call, `, `, the second. */
  lemma PairBodyRoundTrip(inner: string, a: Args, b: Args)
    requires IsToken(a.first) && IsToken(a.second)
    requires IsToken(b.first) && IsToken(b.second)
    ensures var body := CallLiteral(inner, a) + (ArgSep + (CallLiteral(inner, b) + ")"));
      && ParseCallPrefix(inner, body) == Some((a, ArgSep + (CallLiteral(inner, b) + ")")))
      && Expect(ArgSep + (CallLiteral(inner, b) + ")"), ArgSep) == Some(CallLiteral(inner, b) + ")")
      && ParseCallPrefix(inner, CallLiteral(inner, b) + ")") == Some((b, ")"))
  {
    var r2 := CallLiteral(inner, b) + ")";
    var r1 := ArgSep + r2;
    CallLiteralThen(inner, a, r1);
    CallPrefixRoundTrip(inner, a, r1);
    ExpectOf(ArgSep, r2);
    CallLiteralThen(inner, b, ")");
    CallPrefixRoundTrip(inner, b, ")");
  }

  /** Two calls printed as the arguments of an outer call parse back to both
      argument lists, in order. */
  lemma PairRoundTrip(outer: string, inner: string, a: Args, b: Args)
    requires IsToken(a.first) && IsToken(a.second)
    requires IsToken(b.first) && IsToken(b.second)
    ensures ParsePair(outer, inner, Wrap(outer, CallLiteral(inner, a) + ArgSep + CallLiteral(inner, b)))
         == Some((a, b))
  {
    var la := CallLiteral(inner, a);
    var lb := CallLiteral(inner, b);
    var body := la + (ArgSep + (lb + ")"));
    Assoc(la, ArgSep, lb);
    Assoc(la + ArgSep, lb, ")");
    Assoc(la, ArgSep, lb + ")");
    assert (la + ArgSep + lb) + ")" == body;
    Assoc(Open(outer), la + ArgSep + lb, ")");
    ExpectOf(Open(outer), body);
    PairBodyRoundTrip(inner, a, b);
  }
}
