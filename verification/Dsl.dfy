// The strategy-expression parser: calls with positional and keyword
// arguments, numbers, strings, identifiers and lists, parsed by recursive
// descent over raw strings.
module Dsl {
  import opened Protocol

  datatype Node<N> =
    | Call(name: string, args: seq<Node<N>>, kwargs: seq<Kwarg<N>>)
    | Number(value: N)
    | Str(text: string)
    | Ident(name: string)
    | List(items: seq<Node<N>>)

  datatype Kwarg<N> = Kwarg(key: string, value: Node<N>)

  /** The float constructor and a printer for its values. */
  datatype Floats<!N> = Floats(parse: string -> Option<N>, show: N -> string)

  // ---------------------------------------------------------------- characters and strings

  /** White space as str.isspace knows it. */
  predicate IsSpace(c: char) {
    || c == ' ' || '\U{9}' <= c <= '\U{d}' || '\U{1c}' <= c <= '\U{1f}' || c == '\U{85}' || c == '\U{a0}'
    || c == '\U{1680}' || '\U{2000}' <= c <= '\U{200a}' || '\U{2028}' <= c <= '\U{2029}'
    || c == '\U{202f}' || c == '\U{205f}' || c == '\U{3000}'
  }

  predicate IsIdentStart(c: char) {
    'a' <= c <= 'z' || 'A' <= c <= 'Z' || c == '_'
  }

  predicate IsIdentChar(c: char) {
    IsIdentStart(c) || '0' <= c <= '9'
  }

  predicate IsIdentifier(s: string) {
    s != "" && IsIdentStart(s[0]) && forall i :: 0 <= i < |s| ==> IsIdentChar(s[i])
  }

  function LStrip(s: string): (r: string)
    ensures |r| <= |s|
  {
    if s != "" && IsSpace(s[0]) then LStrip(s[1..]) else s
  }

  function RStrip(s: string): (r: string)
    ensures |r| <= |s|
  {
    if s != "" && IsSpace(s[|s| - 1]) then RStrip(s[..|s| - 1]) else s
  }

  function Strip(s: string): (r: string)
    ensures |r| <= |s|
  {
    RStrip(LStrip(s))
  }

  /** Without the first and the last character. */
  function Inner(s: string): string {
    if |s| < 2 then "" else s[1..|s| - 1]
  }

  predicate StartsWith(s: string, c: char) { s != "" && s[0] == c }

  predicate EndsWith(s: string, c: char) { s != "" && s[|s| - 1] == c }

  predicate Quoted(s: string) {
    (StartsWith(s, '"') && EndsWith(s, '"')) || (StartsWith(s, '\'') && EndsWith(s, '\''))
  }

  /** Length of the longest identifier s starts with. */
  function IdentLength(s: string): (n: nat)
    ensures n <= |s|
  {
    if s == "" || !IsIdentStart(s[0]) then 0 else IdentCharsFrom(s, 1)
  }

  function IdentCharsFrom(s: string, i: nat): (n: nat)
    requires i <= |s|
    ensures i <= n <= |s|
    decreases |s| - i
  {
    if i < |s| && IsIdentChar(s[i]) then IdentCharsFrom(s, i + 1) else i
  }

  function SkipSpaces(s: string, i: nat): (n: nat)
    requires i <= |s|
    ensures i <= n <= |s|
    decreases |s| - i
  {
    if i < |s| && IsSpace(s[i]) then SkipSpaces(s, i + 1) else i
  }

  /** Position of the first c, or |s|. */
  function IndexOf(s: string, c: char): (n: nat)
    ensures n <= |s| && (n < |s| ==> s[n] == c)
    ensures forall i :: 0 <= i < n ==> s[i] != c
  {
    if s == "" || s[0] == c then 0 else 1 + IndexOf(s[1..], c)
  }

  // ---------------------------------------------------------------- splitting at top-level commas

  predicate Opens(c: char) { c == '(' || c == '[' || c == '{' }

  predicate Closes(c: char) { c == ')' || c == ']' || c == '}' }

  function DepthAfter(c: char, depth: int): int {
    if Opens(c) then depth + 1 else if Closes(c) then depth - 1 else depth
  }

  /** The pieces of s between commas at depth 0; a blank last piece is dropped. */
  function Split(s: string, depth: int, current: string): (parts: seq<string>)
    ensures forall i :: 0 <= i < |parts| ==> |parts[i]| <= |current| + |s|
    decreases s
  {
    if s == "" then if Strip(current) != "" then [current] else []
    else if s[0] == ',' && depth == 0 then [current] + Split(s[1..], depth, "")
    else Split(s[1..], DepthAfter(s[0], depth), current + [s[0]])
  }

  method SplitArgs(s: string) returns (parts: seq<string>)
    ensures parts == Split(s, 0, "")
  {
    parts := [];
    var depth, current := 0, "";
    for i := 0 to |s|
      invariant parts + Split(s[i..], depth, current) == Split(s, 0, "")
    {
      var c := s[i];
      assert s[i..][0] == c && s[i..][1..] == s[i + 1..];
      if Opens(c) {
        depth := depth + 1;
        current := current + [c];
      } else if Closes(c) {
        depth := depth - 1;
        current := current + [c];
      } else if c == ',' && depth == 0 {
        parts := parts + [current];
        current := "";
      } else {
        current := current + [c];
      }
    }
    if Strip(current) != "" {
      parts := parts + [current];
    }
  }

  // ---------------------------------------------------------------- the parser

  function SetKey<N>(kwargs: seq<Kwarg<N>>, key: string, value: Node<N>): seq<Kwarg<N>> {
    if kwargs == [] then [Kwarg(key, value)]
    else if kwargs[0].key == key then [Kwarg(key, value)] + kwargs[1..]
    else [kwargs[0]] + SetKey(kwargs[1..], key, value)
  }

  function Parse<N>(fl: Floats<N>, expression: string): Result<Node<N>> {
    var s := Strip(expression);
    if s == "" then Err("empty expression") else ParseCall(fl, s)
  }

  function ParseCall<N>(fl: Floats<N>, text: string): Result<Node<N>>
    decreases |text|, 0
  {
    var s := Strip(text);
    var n := IdentLength(s);
    var j := SkipSpaces(s, n);
    if n == 0 || j >= |s| - 1 || s[j] != '(' || s[|s| - 1] != ')' then Err("invalid expression")
    else Named(s[..n], ParseArgs(fl, Strip(s[j + 1..|s| - 1])))
  }

  function Named<N>(name: string, r: Result<Arguments<N>>): Result<Node<N>> {
    match r
    case Err(e) => Err(e)
    case Ok(a) => Ok(Call(name, a.args, a.kwargs))
  }

  datatype Arguments<N> = Arguments(args: seq<Node<N>>, kwargs: seq<Kwarg<N>>)

  /** One part of an argument list, read on its own. */
  datatype Piece<N> = Blank | Positional(value: Node<N>) | Keyword(key: string, value: Node<N>)

  function ParseArgs<N>(fl: Floats<N>, s: string): Result<Arguments<N>>
    decreases |s|, 3
  {
    if s == "" then Ok(Arguments([], []))
    else
      var parts := Split(s, 0, "");
      Gather(seq(|parts|, i requires 0 <= i < |parts| => ReadPart(fl, parts[i])), Arguments([], []))
  }

  /** Takes the pieces in order, up to the first one that failed. */
  function Gather<N>(pieces: seq<Result<Piece<N>>>, a: Arguments<N>): Result<Arguments<N>>
    decreases pieces
  {
    if pieces == [] then Ok(a)
    else match pieces[0]
      case Err(e) => Err(e)
      case Ok(piece) => Gather(pieces[1..], Added(a, piece))
  }

  function Added<N>(a: Arguments<N>, piece: Piece<N>): Arguments<N> {
    match piece
    case Blank => a
    case Positional(v) => a.(args := a.args + [v])
    case Keyword(key, v) => a.(kwargs := SetKey(a.kwargs, key, v))
  }

  /** Parts with a parenthesis, a leading bracket or brace, or no equals sign. */
  predicate IsPositional(part: string) {
    '(' in part || StartsWith(part, '[') || StartsWith(part, '{') || IndexOf(part, '=') == |part|
  }

  function ReadPart<N>(fl: Floats<N>, text: string): Result<Piece<N>>
    decreases |text|, 2
  {
    var part := Strip(text);
    if part == "" then Ok(Blank)
    else if IsPositional(part) then AsPositional(ParseValue(fl, part))
    else
      var e := IndexOf(part, '=');
      AsKeyword(Strip(part[..e]), ParseValue(fl, Strip(part[e + 1..])))
  }

  function AsPositional<N>(r: Result<Node<N>>): Result<Piece<N>> {
    match r case Err(e) => Err(e) case Ok(v) => Ok(Positional(v))
  }

  function AsKeyword<N>(key: string, r: Result<Node<N>>): Result<Piece<N>> {
    match r case Err(e) => Err(e) case Ok(v) => Ok(Keyword(key, v))
  }

  function ParseValue<N>(fl: Floats<N>, text: string): Result<Node<N>>
    decreases |text|, 1
  {
    var s := Strip(text);
    match fl.parse(s)
    case Some(v) => Ok(Number(v))
    case None =>
      if Quoted(s) then Ok(Str(Inner(s)))
      else if IsIdentifier(s) then Ok(Ident(s))
      else if '(' in s then ParseCall(fl, s)
      else if StartsWith(s, '[') && EndsWith(s, ']') then ParseList(fl, Strip(Inner(s)))
      else Ok(Str(s))
  }

  function ParseList<N>(fl: Floats<N>, inner: string): Result<Node<N>>
    decreases |inner|, 3
  {
    if inner == "" then Ok(List([]))
    else
      var parts := Split(inner, 0, "");
      Collect(seq(|parts|, i requires 0 <= i < |parts| => ParseValue(fl, Strip(parts[i]))), [])
  }

  function Collect<N>(values: seq<Result<Node<N>>>, items: seq<Node<N>>): Result<Node<N>>
    decreases values
  {
    if values == [] then Ok(List(items))
    else match values[0]
      case Err(e) => Err(e)
      case Ok(v) => Collect(values[1..], items + [v])
  }

  method ParseArgsLoop<N>(fl: Floats<N>, s: string) returns (r: Result<Arguments<N>>)
    ensures r == ParseArgs(fl, s)
  {
    if s == "" {
      return Ok(Arguments([], []));
    }
    var args: seq<Node<N>>, kwargs: seq<Kwarg<N>> := [], [];
    var parts := SplitArgs(s);
    ghost var pieces := seq(|parts|, i requires 0 <= i < |parts| => ReadPart(fl, parts[i]));
    for i := 0 to |parts|
      invariant Gather(pieces[i..], Arguments(args, kwargs)) == Gather(pieces, Arguments([], []))
    {
      assert pieces[i..][0] == ReadPart(fl, parts[i]) && pieces[i..][1..] == pieces[i + 1..];
      var part := Strip(parts[i]);
      if part == "" {
        continue;
      }
      if '(' in part || StartsWith(part, '[') || StartsWith(part, '{') {
        match ParseValue(fl, part) {
          case Err(e) => return Err(e);
          case Ok(v) => args := args + [v];
        }
        continue;
      }
      var e := IndexOf(part, '=');
      if e < |part| {
        match ParseValue(fl, Strip(part[e + 1..])) {
          case Err(err) => return Err(err);
          case Ok(v) => kwargs := SetKey(kwargs, Strip(part[..e]), v);
        }
      } else {
        match ParseValue(fl, part) {
          case Err(err) => return Err(err);
          case Ok(v) => args := args + [v];
        }
      }
    }
    return Ok(Arguments(args, kwargs));
  }
}
