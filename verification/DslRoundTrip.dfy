// A canonical printer for strategy expressions, and what the parser makes of
// its output.
module DslRoundTrip {
  import opened Protocol
  import opened Dsl
  import opened Seqs
  import SliceIds

  // ---------------------------------------------------------------- the printer

  /** Which strings are printed in single quotes. */
  type Quotes = string -> bool

  function Quote(q: Quotes, text: string): string {
    if q(text) then "'" else "\""
  }

  function Print<N>(fl: Floats<N>, q: Quotes, t: Node<N>): string
    decreases t, 1
  {
    match t
    case Call(name, args, kwargs) => name + "(" + Join(PrintAll(fl, q, args) + PrintKwargs(fl, q, kwargs), ", ") + ")"
    case Number(value) => fl.show(value)
    case Str(text) => Quote(q, text) + text + Quote(q, text)
    case Ident(name) => name
    case List(items) => "[" + Join(PrintAll(fl, q, items), ", ") + "]"
  }

  function PrintAll<N>(fl: Floats<N>, q: Quotes, ts: seq<Node<N>>): (ps: seq<string>)
    ensures |ps| == |ts|
    ensures forall i :: 0 <= i < |ts| ==> ps[i] == Print(fl, q, ts[i])
    decreases ts, 0
  {
    if ts == [] then [] else [Print(fl, q, ts[0])] + PrintAll(fl, q, ts[1..])
  }

  function PrintKwargs<N>(fl: Floats<N>, q: Quotes, kws: seq<Kwarg<N>>): (ps: seq<string>)
    ensures |ps| == |kws|
    ensures forall i :: 0 <= i < |kws| ==> ps[i] == kws[i].key + "=" + Print(fl, q, kws[i].value)
    decreases kws, 0
  {
    if kws == [] then []
    else
      assert kws[0] in kws;
      [kws[0].key + "=" + Print(fl, q, kws[0].value)] + PrintKwargs(fl, q, kws[1..])
  }

  /** The printed arguments of a call, positional ones first. */
  function Texts<N>(fl: Floats<N>, q: Quotes, t: Node<N>): (ps: seq<string>)
    requires t.Call?
    ensures |ps| == |t.args| + |t.kwargs|
    ensures forall i :: 0 <= i < |t.args| ==> ps[i] == Print(fl, q, t.args[i])
    ensures forall i :: |t.args| <= i < |ps| ==>
      ps[i] == t.kwargs[i - |t.args|].key + "=" + Print(fl, q, t.kwargs[i - |t.args|].value)
    ensures Print(fl, q, t) == t.name + "(" + Join(ps, ", ") + ")"
  {
    PrintAll(fl, q, t.args) + PrintKwargs(fl, q, t.kwargs)
  }

  // ---------------------------------------------------------------- well-formed expressions

  predicate Delimiter(c: char) {
    Opens(c) || Closes(c) || c == ',' || c == '='
  }

  predicate Plain(s: string) {
    forall i :: 0 <= i < |s| ==> !Delimiter(s[i])
  }

  predicate Trimmed(s: string) {
    s != "" && !IsSpace(s[0]) && !IsSpace(s[|s| - 1])
  }

  /** What the float constructor is taken to do: it reads back what it prints, prints without
      surrounding space, and accepts no text with a delimiter or a quote in it. */
  ghost predicate FloatCodec<N(!new)>(fl: Floats<N>) {
    && (forall n :: fl.parse(fl.show(n)) == Some(n) && Trimmed(fl.show(n)))
    && (forall s :: fl.parse(s).Some? ==> Plain(s) && '"' !in s && '\'' !in s)
  }

  /** Decimal naturals are such a codec. */
  function Naturals(): Floats<nat> {
    Floats(s => if s != "" && SliceIds.AllDigits(s) then Some(SliceIds.Number(s)) else None, SliceIds.Decimal)
  }

  lemma DecimalTrimmed(n: nat)
    ensures Naturals().parse(SliceIds.Decimal(n)) == Some(n) && Trimmed(SliceIds.Decimal(n))
  {
    SliceIds.DecimalDigits(n);
    var s := SliceIds.Decimal(n);
    assert !IsSpace(s[0]) && !IsSpace(s[|s| - 1]);
  }

  lemma DigitsPlain(s: string)
    requires SliceIds.AllDigits(s)
    ensures Plain(s) && '"' !in s && '\'' !in s
  {
  }

  lemma NaturalsAreACodec()
    ensures FloatCodec(Naturals())
  {
    var fl := Naturals();
    forall n: nat
      ensures fl.parse(fl.show(n)) == Some(n) && Trimmed(fl.show(n))
    {
      DecimalTrimmed(n);
    }
    forall s | fl.parse(s).Some?
      ensures Plain(s) && '"' !in s && '\'' !in s
    {
      DigitsPlain(s);
    }
  }

  /** Tokens the printer can write down: identifiers that do not read as numbers, strings
      without delimiters, different keywords. */
  ghost predicate Lexical<N>(fl: Floats<N>, t: Node<N>)
    decreases t
  {
    match t
    case Call(name, args, kwargs) =>
      && IsIdentifier(name)
      && (forall a :: a in args ==> Lexical(fl, a))
      && (forall k :: k in kwargs ==> IsIdentifier(k.key) && Lexical(fl, k.value))
      && (forall i, j :: 0 <= i < j < |kwargs| ==> kwargs[i].key != kwargs[j].key)
    case Number(_) => true
    case Str(text) => Plain(text)
    case Ident(name) => IsIdentifier(name) && fl.parse(name) == None
    case List(items) => forall a :: a in items ==> Lexical(fl, a)
  }

  ghost predicate CallFree<N>(t: Node<N>)
    decreases t
  {
    match t
    case Call(_, _, _) => false
    case List(items) => forall a :: a in items ==> CallFree(a)
    case _ => true
  }

  /** Calls stand only at the top and as positional arguments of calls, never in a keyword
      value or in a list. */
  ghost predicate Placeable<N>(t: Node<N>)
    decreases t
  {
    match t
    case Call(_, args, kwargs) =>
      && (forall a :: a in args ==> Placeable(a))
      && (forall k :: k in kwargs ==> CallFree(k.value))
    case List(items) => forall a :: a in items ==> CallFree(a)
    case _ => true
  }

  lemma CallFreePlaceable<N>(t: Node<N>)
    requires CallFree(t)
    ensures Placeable(t)
  {
  }

  // ---------------------------------------------------------------- stripping and scanning

  lemma StripTrimmed(s: string)
    requires Trimmed(s)
    ensures Strip(s) == s && Strip(" " + s) == s
  {
    assert (" " + s)[1..] == s;
    assert LStrip(" " + s) == LStrip(s) == s;
  }

  /** No comma at depth 0 while scanning s from depth d. */
  predicate Whole(s: string, d: int) {
    s == "" || (!(s[0] == ',' && d == 0) && Whole(s[1..], DepthAfter(s[0], d)))
  }

  function Depth(s: string, d: int): int {
    if s == "" then d else Depth(s[1..], DepthAfter(s[0], d))
  }

  predicate Closed(s: string, d: int) {
    Whole(s, d) && Depth(s, d) == d
  }

  lemma {:induction false} ScanConcat(a: string, b: string, d: int)
    ensures Whole(a + b, d) <==> Whole(a, d) && Whole(b, Depth(a, d))
    ensures Depth(a + b, d) == Depth(b, Depth(a, d))
  {
    if a == "" {
      assert a + b == b;
    } else {
      assert (a + b)[1..] == a[1..] + b;
      ScanConcat(a[1..], b, DepthAfter(a[0], d));
    }
  }

  lemma {:induction false} PlainClosed(s: string, d: int)
    requires Plain(s)
    ensures Closed(s, d)
  {
    if s != "" {
      PlainClosed(s[1..], d);
    }
  }

  lemma ScanComma(rest: string, d: int)
    requires d != 0
    ensures Whole(", " + rest, d) == Whole(rest, d) && Depth(", " + rest, d) == Depth(rest, d)
  {
    var s := ", " + rest;
    assert s[0] == ',' && s[1..] == " " + rest && s[1..][0] == ' ' && s[1..][1..] == rest;
    assert Whole(s[1..], d) == Whole(rest, d) && Depth(s[1..], d) == Depth(rest, d);
  }

  lemma {:induction false} JoinClosed(parts: seq<string>, d: int)
    requires d >= 1 && forall i :: 0 <= i < |parts| ==> Closed(parts[i], d)
    ensures Closed(Join(parts, ", "), d)
  {
    if |parts| > 1 {
      JoinClosed(parts[1..], d);
      var rest := Join(parts[1..], ", ");
      assert parts[0] + ", " + rest == parts[0] + (", " + rest);
      ScanConcat(parts[0], ", " + rest, d);
      ScanComma(rest, d);
    }
  }

  lemma {:induction false} SplitSkips(p: string, rest: string, d: int, current: string)
    requires Whole(p, d)
    ensures Split(p + rest, d, current) == Split(rest, Depth(p, d), current + p)
    decreases p
  {
    if p == "" {
      assert p + rest == rest && current + p == current;
    } else {
      assert (p + rest)[1..] == p[1..] + rest;
      SplitSkips(p[1..], rest, DepthAfter(p[0], d), current + [p[0]]);
      assert current + [p[0]] + p[1..] == current + p;
    }
  }

  lemma SplitLast(p: string, current: string)
    requires Closed(p, 0) && Trimmed(p) && (current == "" || current == " ")
    ensures Strip(current + p) == p && Split(p, 0, current) == [current + p]
  {
    StripTrimmed(p);
    assert current == "" ==> current + p == p;
    SplitSkips(p, "", 0, current);
    assert p + "" == p;
  }

  lemma SplitFirst(p: string, rest: string, current: string)
    requires Closed(p, 0)
    ensures Split(p + ", " + rest, 0, current) == [current + p] + Split(rest, 0, " ")
  {
    var tail := ", " + rest;
    assert p + ", " + rest == p + tail;
    SplitSkips(p, tail, 0, current);
    assert tail[0] == ',' && tail[1..] == " " + rest;
    assert Split(tail, 0, current + p) == [current + p] + Split(" " + rest, 0, "");
    assert (" " + rest)[0] == ' ' && (" " + rest)[1..] == rest && "" + [' '] == " ";
    assert Split(" " + rest, 0, "") == Split(rest, 0, " ");
  }

  /** Splitting a comma-separated list gives back its pieces, up to surrounding space. */
  lemma {:induction false} SplitJoin(parts: seq<string>, current: string)
    requires parts != [] && forall i :: 0 <= i < |parts| ==> Closed(parts[i], 0) && Trimmed(parts[i])
    requires current == "" || current == " "
    ensures Stripped(Split(Join(parts, ", "), 0, current), parts)
    decreases parts
  {
    SplitLast(parts[0], current);
    if |parts| > 1 {
      var rest := Join(parts[1..], ", ");
      SplitFirst(parts[0], rest, current);
      SplitJoin(parts[1..], " ");
      StrippedFront(current + parts[0], Split(rest, 0, " "), parts);
    }
  }

  /** The pieces are the parts with space around them. */
  predicate Stripped(pieces: seq<string>, parts: seq<string>) {
    |pieces| == |parts| && forall i :: 0 <= i < |parts| ==> Strip(pieces[i]) == parts[i]
  }

  lemma StrippedFront(piece: string, pieces: seq<string>, parts: seq<string>)
    requires parts != [] && Strip(piece) == parts[0] && Stripped(pieces, parts[1..])
    ensures Stripped([piece] + pieces, parts)
  {
    forall i | 0 < i < |parts|
      ensures Strip(([piece] + pieces)[i]) == parts[i]
    {
      assert Strip(pieces[i - 1]) == parts[1..][i - 1];
    }
  }

  lemma {:induction false} JoinTrimmed(parts: seq<string>)
    requires parts != [] && forall i :: 0 <= i < |parts| ==> Trimmed(parts[i])
    ensures Trimmed(Join(parts, ", "))
  {
    if |parts| > 1 {
      JoinTrimmed(parts[1..]);
    }
  }

  lemma {:induction false} JoinContains(parts: seq<string>, c: char)
    requires c != ',' && c != ' '
    ensures c in Join(parts, ", ") <==> exists i :: 0 <= i < |parts| && c in parts[i]
  {
    if |parts| > 1 {
      JoinContains(parts[1..], c);
      if c in Join(parts[1..], ", ") {
        var i :| 0 <= i < |parts[1..]| && c in parts[1..][i];
        assert c in parts[i + 1];
      }
      if i :| 0 < i < |parts| && c in parts[i] {
        assert c in parts[1..][i - 1];
      }
    }
  }

  // ---------------------------------------------------------------- the shape of printed expressions

  lemma PlainHas(s: string, c: char)
    requires Plain(s) && Delimiter(c)
    ensures c !in s
  {
  }

  lemma IdentifierPlain(s: string)
    requires IsIdentifier(s)
    ensures Plain(s) && Trimmed(s)
  {
  }

  lemma TokenShape<N(!new)>(fl: Floats<N>, q: Quotes, t: Node<N>)
    requires FloatCodec(fl) && Lexical(fl, t) && !t.Call? && !t.List?
    ensures Plain(Print(fl, q, t)) && Trimmed(Print(fl, q, t))
  {
    match t
    case Number(value) => assert fl.parse(fl.show(value)).Some?;
    case Str(text) =>
    case Ident(name) => IdentifierPlain(name);
  }

  /** Printed expressions are trimmed and closed; they contain a parenthesis exactly when they
      contain a call, and an equals sign only then. */
  lemma {:induction false} PrintShape<N(!new)>(fl: Floats<N>, q: Quotes, t: Node<N>, d: int)
    requires FloatCodec(fl) && Lexical(fl, t) && d >= 0
    ensures var s := Print(fl, q, t);
            && Trimmed(s) && Closed(s, d)
            && ('(' in s <==> !CallFree(t))
            && ('=' in s ==> '(' in s)
            && !StartsWith(s, '{') && (StartsWith(s, '[') <==> t.List?)
    decreases t, 2
  {
    var s := Print(fl, q, t);
    if t.Call? {
      CallShape(fl, q, t, d);
    } else if t.List? {
      ListShape(fl, q, t, d);
    } else {
      TokenShape(fl, q, t);
      PlainClosed(s, d);
      PlainHas(s, '(');
      PlainHas(s, '=');
      PlainHas(s, '[');
      PlainHas(s, '{');
    }
  }

  lemma {:induction false} CallShape<N(!new)>(fl: Floats<N>, q: Quotes, t: Node<N>, d: int)
    requires FloatCodec(fl) && Lexical(fl, t) && d >= 0 && t.Call?
    ensures var s := Print(fl, q, t); Trimmed(s) && Closed(s, d) && '(' in s && !Opens(s[0])
    decreases t, 1
  {
    IdentifierPlain(t.name);
    var parts := Texts(fl, q, t);
    PieceShapes(fl, q, t, d + 1);
    JoinClosed(parts, d + 1);
    BracketClosed(t.name, "(", Join(parts, ", "), ")", d);
    var s := Print(fl, q, t);
    assert s[0] == t.name[0] && s[|t.name|] == '(';
  }

  lemma BracketClosed(prefix: string, open: string, body: string, close: string, d: int)
    requires Plain(prefix) && Closed(body, d + 1)
    requires |open| == 1 && |close| == 1 && Opens(open[0]) && Closes(close[0])
    ensures Closed(prefix + open + body + close, d)
  {
    assert prefix + open + body + close == prefix + (open + (body + close));
    PlainClosed(prefix, d);
    ScanConcat(prefix, open + (body + close), d);
    assert (open + (body + close))[1..] == body + close;
    ScanConcat(body, close, d + 1);
    assert close[1..] == "";
  }

  /** The printed arguments of a call. */
  lemma {:induction false} PieceShapes<N(!new)>(fl: Floats<N>, q: Quotes, t: Node<N>, d: int)
    requires FloatCodec(fl) && Lexical(fl, t) && t.Call? && d >= 0
    ensures var parts := Texts(fl, q, t);
            forall i :: 0 <= i < |parts| ==> Trimmed(parts[i]) && Closed(parts[i], d)
    decreases t, 0
  {
    var parts := Texts(fl, q, t);
    forall i | 0 <= i < |parts|
      ensures Trimmed(parts[i]) && Closed(parts[i], d)
    {
      if i < |t.args| {
        assert t.args[i] in t.args;
        PrintShape(fl, q, t.args[i], d);
      } else {
        var k := t.kwargs[i - |t.args|];
        assert k in t.kwargs && parts[i] == k.key + "=" + Print(fl, q, k.value);
        PrintShape(fl, q, k.value, d);
        KeywordClosed(k.key, Print(fl, q, k.value), d);
      }
    }
  }

  lemma KeywordClosed(key: string, value: string, d: int)
    requires IsIdentifier(key) && Closed(value, d) && Trimmed(value)
    ensures Closed(key + "=" + value, d) && Trimmed(key + "=" + value)
  {
    IdentifierPlain(key);
    assert key + "=" + value == key + ("=" + value);
    PlainClosed(key, d);
    ScanConcat(key, "=" + value, d);
    assert ("=" + value)[1..] == value;
  }

  lemma {:induction false} ListShape<N(!new)>(fl: Floats<N>, q: Quotes, t: Node<N>, d: int)
    requires FloatCodec(fl) && Lexical(fl, t) && d >= 0 && t.List?
    ensures var s := Print(fl, q, t);
            && Trimmed(s) && Closed(s, d) && s[0] == '['
            && ('(' in s <==> !CallFree(t)) && ('=' in s ==> '(' in s)
    decreases t, 0
  {
    var parts := PrintAll(fl, q, t.items);
    forall i | 0 <= i < |parts|
      ensures ItemShape(parts[i], t.items[i], d + 1)
    {
      assert t.items[i] in t.items;
      PrintShape(fl, q, t.items[i], d + 1);
    }
    ListBrackets(t, parts, d);
    ListCalls(t, parts, d);
  }

  ghost predicate ItemShape<N>(part: string, item: Node<N>, d: int) {
    Closed(part, d) && ('(' in part <==> !CallFree(item)) && ('=' in part ==> '(' in part)
  }

  lemma ListBrackets<N>(t: Node<N>, parts: seq<string>, d: int)
    requires t.List? && |parts| == |t.items|
    requires d >= 0 && forall i :: 0 <= i < |parts| ==> ItemShape(parts[i], t.items[i], d + 1)
    ensures var s := "[" + Join(parts, ", ") + "]"; Trimmed(s) && Closed(s, d) && s[0] == '['
  {
    forall i | 0 <= i < |parts|
      ensures Closed(parts[i], d + 1)
    {
      assert ItemShape(parts[i], t.items[i], d + 1);
    }
    JoinClosed(parts, d + 1);
    InSquareBrackets(Join(parts, ", "), d);
  }

  lemma InSquareBrackets(body: string, d: int)
    requires Closed(body, d + 1)
    ensures var s := "[" + body + "]"; Trimmed(s) && Closed(s, d) && s[0] == '['
  {
    var s := "[" + body + "]";
    assert "" + "[" == "[";
    BracketClosed("", "[", body, "]", d);
    assert s[0] == '[' && s[|s| - 1] == ']';
  }

  lemma InBrackets(body: string, c: char)
    requires c != '[' && c != ']'
    ensures c in "[" + body + "]" <==> c in body
  {
  }

  lemma ListCalls<N>(t: Node<N>, parts: seq<string>, d: int)
    requires t.List? && |parts| == |t.items|
    requires forall i :: 0 <= i < |parts| ==> ItemShape(parts[i], t.items[i], d + 1)
    ensures var s := "[" + Join(parts, ", ") + "]"; ('(' in s <==> !CallFree(t)) && ('=' in s ==> '(' in s)
  {
    JoinContains(parts, '(');
    JoinContains(parts, '=');
    InBrackets(Join(parts, ", "), '(');
    InBrackets(Join(parts, ", "), '=');
    if !CallFree(t) {
      var a :| a in t.items && !CallFree(a);
      var i :| 0 <= i < |t.items| && t.items[i] == a;
      assert ItemShape(parts[i], t.items[i], d + 1);
    }
    if i :| 0 <= i < |parts| && '(' in parts[i] {
      assert ItemShape(parts[i], t.items[i], d + 1);
      assert t.items[i] in t.items;
    }
    if i :| 0 <= i < |parts| && '=' in parts[i] {
      assert ItemShape(parts[i], t.items[i], d + 1);
    }
  }

  // ---------------------------------------------------------------- parsing printed calls

  lemma {:induction false} IdentPrefix(name: string, rest: string, i: nat)
    requires IsIdentifier(name) && 1 <= i <= |name| && rest != "" && !IsIdentChar(rest[0])
    ensures IdentCharsFrom(name + rest, i) == |name|
    decreases |name| - i
  {
    if i < |name| {
      assert (name + rest)[i] == name[i];
      IdentPrefix(name, rest, i + 1);
    } else {
      assert (name + rest)[i] == rest[0];
    }
  }

  /** A trimmed text that is an identifier followed directly by something else than an opening
      parenthesis is no call; nor is one that starts with a bracket. */
  lemma NotACall<N>(fl: Floats<N>, name: string, rest: string)
    requires name == "" || IsIdentifier(name)
    requires rest != "" && !IsIdentChar(rest[0]) && !IsSpace(rest[0]) && rest[0] != '('
    requires Trimmed(name + rest)
    ensures ParseCall(fl, name + rest).Err?
  {
    StripTrimmed(name + rest);
    if name == "" {
      assert name + rest == rest;
    } else {
      IdentPrefix(name, rest, 1);
      assert (name + rest)[|name|] == rest[0];
    }
  }

  lemma PrintedCall(name: string, body: string)
    requires IsIdentifier(name)
    ensures var s := name + "(" + body + ")"; var n := |name|;
            && Strip(s) == s && IdentLength(s) == n && SkipSpaces(s, n) == n
            && n < |s| - 1 && s[n] == '(' && s[|s| - 1] == ')' && s[..n] == name && s[n + 1..|s| - 1] == body
  {
    var s := name + "(" + body + ")";
    IdentifierPlain(name);
    assert s[0] == name[0];
    StripTrimmed(s);
    assert s == name + ("(" + body + ")");
    IdentPrefix(name, "(" + body + ")", 1);
    assert s[|name|] == '(';
  }

  lemma ParsePrintedCall<N>(fl: Floats<N>, name: string, body: string)
    requires IsIdentifier(name) && (body == "" || Trimmed(body))
    ensures ParseCall(fl, name + "(" + body + ")") == Named(name, ParseArgs(fl, body))
  {
    PrintedCall(name, body);
    if body != "" {
      StripTrimmed(body);
    }
    assert Strip(body) == body;
  }

  lemma NotAToken<N(!new)>(fl: Floats<N>, s: string)
    requires FloatCodec(fl) && '(' in s
    ensures fl.parse(s) == None && !IsIdentifier(s)
  {
    if fl.parse(s).Some? {
      PlainHas(s, '(');
    }
    if IsIdentifier(s) {
      IdentifierPlain(s);
      PlainHas(s, '(');
    }
  }

  // ---------------------------------------------------------------- the round trip

  /** What the parser must answer for a printed expression. */
  ghost predicate Answers<N>(r: Result<Node<N>>, t: Node<N>) {
    if Placeable(t) then r == Ok(t) else r.Err?
  }

  /** A text with a parenthesis that is not quoted is tried as a call. */
  lemma CallValue<N(!new)>(fl: Floats<N>, s: string)
    requires FloatCodec(fl) && Trimmed(s) && '(' in s && s[0] != '"' && s[0] != '\''
    ensures ParseValue(fl, s) == ParseCall(fl, s)
  {
    StripTrimmed(s);
    NotAToken(fl, s);
  }

  /** A text in quotes of one kind is the string between them, whatever that is. */
  lemma QuotedText<N(!new)>(fl: Floats<N>, text: string, quote: char)
    requires FloatCodec(fl) && (quote == '"' || quote == '\'')
    ensures ParseValue(fl, [quote] + text + [quote]) == Ok(Str(text))
  {
    var s := [quote] + text + [quote];
    assert s[0] == quote && s[|s| - 1] == quote && s[1..|s| - 1] == text && quote in s;
    StripTrimmed(s);
  }

  lemma RoundTripToken<N(!new)>(fl: Floats<N>, q: Quotes, t: Node<N>)
    requires FloatCodec(fl) && Lexical(fl, t) && !t.Call? && !t.List?
    ensures ParseValue(fl, Print(fl, q, t)) == Ok(t)
  {
    var s := Print(fl, q, t);
    TokenShape(fl, q, t);
    StripTrimmed(s);
    match t
    case Number(value) =>
    case Str(text) =>
      QuotedText(fl, text, Quote(q, text)[0]);
      assert [Quote(q, text)[0]] == Quote(q, text);
    case Ident(name) =>
      assert IsIdentStart(s[0]);
  }

  lemma NestedCallInList<N(!new)>(fl: Floats<N>, q: Quotes, t: Node<N>)
    requires FloatCodec(fl) && Lexical(fl, t) && t.List? && !CallFree(t)
    ensures ParseValue(fl, Print(fl, q, t)).Err?
  {
    var s := Print(fl, q, t);
    PrintShape(fl, q, t, 0);
    CallValue(fl, s);
    assert "" + s == s;
    NotACall(fl, "", s);
  }

  lemma CallStarts<N>(fl: Floats<N>, q: Quotes, t: Node<N>)
    requires Lexical(fl, t) && t.Call?
    ensures Print(fl, q, t) != "" && IsIdentStart(Print(fl, q, t)[0])
  {
    assert Print(fl, q, t)[0] == t.name[0];
  }

  /** The printed form of every well-formed expression parses back to that expression exactly
      when its calls are placed where the parser looks for them; otherwise it is rejected. */
  lemma {:induction false} RoundTrip<N(!new)>(fl: Floats<N>, q: Quotes, t: Node<N>)
    requires FloatCodec(fl) && Lexical(fl, t)
    ensures Answers(ParseValue(fl, Print(fl, q, t)), t)
    decreases t, 1
  {
    if t.Call? {
      CallShape(fl, q, t, 0);
      CallStarts(fl, q, t);
      CallValue(fl, Print(fl, q, t));
      RoundTripCall(fl, q, t);
    } else if !t.List? {
      RoundTripToken(fl, q, t);
    } else if CallFree(t) {
      RoundTripList(fl, q, t);
    } else {
      NestedCallInList(fl, q, t);
    }
  }

  lemma {:induction false} CollectAll<N>(values: seq<Result<Node<N>>>, items: seq<Node<N>>, before: seq<Node<N>>)
    requires |values| == |items| && forall i :: 0 <= i < |items| ==> values[i] == Ok(items[i])
    ensures Collect(values, before) == Ok(List(before + items))
    decreases values
  {
    if values == [] {
      assert before + items == before;
    } else {
      CollectAll(values[1..], items[1..], before + [items[0]]);
      assert before + [items[0]] + items[1..] == before + items;
    }
  }

  lemma ParsePrintedList<N(!new)>(fl: Floats<N>, body: string)
    requires FloatCodec(fl) && '(' !in body && (body == "" || Trimmed(body))
    ensures ParseValue(fl, "[" + body + "]") == ParseList(fl, body)
  {
    var s := "[" + body + "]";
    InBrackets(body, '(');
    BracketText(body);
    assert Strip(body) == body by {
      if body != "" {
        StripTrimmed(body);
      }
    }
    if fl.parse(s).Some? {
      PlainHas(s, '[');
    }
  }

  lemma BracketText(body: string)
    ensures var s := "[" + body + "]";
            Strip(s) == s && '[' in s && StartsWith(s, '[') && EndsWith(s, ']') && Inner(s) == body
  {
    var s := "[" + body + "]";
    assert s[0] == '[' && s[|s| - 1] == ']' && s[1..|s| - 1] == body;
    StripTrimmed(s);
  }

  lemma {:induction false} RoundTripList<N(!new)>(fl: Floats<N>, q: Quotes, t: Node<N>)
    requires FloatCodec(fl) && Lexical(fl, t) && t.List? && CallFree(t)
    ensures ParseValue(fl, Print(fl, q, t)) == Ok(t)
    decreases t, 0
  {
    var parts := PrintAll(fl, q, t.items);
    var body := Join(parts, ", ");
    forall i | 0 <= i < |parts|
      ensures Closed(parts[i], 0) && Trimmed(parts[i]) && '(' !in parts[i]
      ensures ParseValue(fl, parts[i]) == Ok(t.items[i])
    {
      assert t.items[i] in t.items;
      PrintShape(fl, q, t.items[i], 0);
      RoundTrip(fl, q, t.items[i]);
      CallFreePlaceable(t.items[i]);
    }
    JoinContains(parts, '(');
    if parts != [] {
      JoinTrimmed(parts);
      SplitJoin(parts, "");
      ListOfParts(fl, t, body);
    }
    ParsePrintedList(fl, body);
  }

  lemma ListOfParts<N(!new)>(fl: Floats<N>, t: Node<N>, body: string)
    requires t.List? && body != ""
    requires var r := Split(body, 0, "");
             |r| == |t.items| && forall i :: 0 <= i < |r| ==> ParseValue(fl, Strip(r[i])) == Ok(t.items[i])
    ensures ParseList(fl, body) == Ok(t)
  {
    var r := Split(body, 0, "");
    var values := seq(|r|, i requires 0 <= i < |r| => ParseValue(fl, Strip(r[i])));
    CollectAll(values, t.items, []);
    assert [] + t.items == t.items;
  }

  lemma {:induction false} GatherPositional<N>(pieces: seq<Result<Piece<N>>>, args: seq<Node<N>>, a: Arguments<N>)
    requires |args| <= |pieces| && forall i :: 0 <= i < |args| ==> pieces[i] == Ok(Positional(args[i]))
    ensures Gather(pieces, a) == Gather(pieces[|args|..], a.(args := a.args + args))
    decreases args
  {
    if args == [] {
      assert a.args + args == a.args;
    } else {
      GatherPositional(pieces[1..], args[1..], a.(args := a.args + [args[0]]));
      assert a.args + [args[0]] + args[1..] == a.args + args;
      assert pieces[1..][|args[1..]|..] == pieces[|args|..];
    }
  }

  lemma {:induction false} GatherKeywords<N>(pieces: seq<Result<Piece<N>>>, kws: seq<Kwarg<N>>, a: Arguments<N>)
    requires |pieces| == |kws| && forall i :: 0 <= i < |kws| ==> pieces[i] == Ok(Keyword(kws[i].key, kws[i].value))
    requires forall i, j :: 0 <= i < j < |kws| ==> kws[i].key != kws[j].key
    requires forall i, j :: 0 <= i < |a.kwargs| && 0 <= j < |kws| ==> a.kwargs[i].key != kws[j].key
    ensures Gather(pieces, a) == Ok(a.(kwargs := a.kwargs + kws))
    decreases kws
  {
    if kws == [] {
      assert a.kwargs + kws == a.kwargs;
    } else {
      SetNewKey(a.kwargs, kws[0].key, kws[0].value);
      assert Kwarg(kws[0].key, kws[0].value) == kws[0];
      GatherKeywords(pieces[1..], kws[1..], a.(kwargs := a.kwargs + [kws[0]]));
      assert a.kwargs + [kws[0]] + kws[1..] == a.kwargs + kws;
    }
  }

  lemma {:induction false} GatherFails<N>(pieces: seq<Result<Piece<N>>>, a: Arguments<N>, i: nat)
    requires i < |pieces| && pieces[i].Err?
    ensures Gather(pieces, a).Err?
    decreases pieces
  {
    if i > 0 && pieces[0].Ok? {
      GatherFails(pieces[1..], Added(a, pieces[0].value), i - 1);
    }
  }

  /** What each printed argument is read as. */
  ghost predicate ReadsAs<N>(piece: Result<Piece<N>>, t: Node<N>, i: nat)
    requires t.Call? && i < |t.args| + |t.kwargs|
  {
    if i < |t.args| then
      if Placeable(t.args[i]) then piece == Ok(Positional(t.args[i])) else piece.Err?
    else
      var k := t.kwargs[i - |t.args|];
      if CallFree(k.value) then piece == Ok(Keyword(k.key, k.value)) else piece.Err?
  }

  /** A piece without an equals sign outside of calls is read as a value. */
  lemma PositionalPiece<N(!new)>(fl: Floats<N>, q: Quotes, t: Node<N>, text: string)
    requires FloatCodec(fl) && Lexical(fl, t) && Strip(text) == Print(fl, q, t)
    ensures ReadPart(fl, text) == AsPositional(ParseValue(fl, Print(fl, q, t)))
  {
    PrintShape(fl, q, t, 0);
  }

  lemma KeywordRead<N(!new)>(fl: Floats<N>, q: Quotes, k: Kwarg<N>, text: string)
    requires FloatCodec(fl) && IsIdentifier(k.key) && Lexical(fl, k.value)
    requires Strip(text) == k.key + "=" + Print(fl, q, k.value)
    ensures CallFree(k.value) ==> ReadPart(fl, text) == AsKeyword(k.key, ParseValue(fl, Print(fl, q, k.value)))
    ensures !CallFree(k.value) ==> ReadPart(fl, text).Err?
  {
    KeywordPiece(fl, q, k);
    PartIsRead(fl, text, k.key + "=" + Print(fl, q, k.value));
  }

  lemma PartIsRead<N>(fl: Floats<N>, text: string, part: string)
    requires Strip(text) == part != ""
    ensures IsPositional(part) ==> ReadPart(fl, text) == AsPositional(ParseValue(fl, part))
    ensures !IsPositional(part) ==>
      IndexOf(part, '=') < |part| &&
      ReadPart(fl, text) ==
        AsKeyword(Strip(part[..IndexOf(part, '=')]), ParseValue(fl, Strip(part[IndexOf(part, '=') + 1..])))
  {
  }

  lemma {:induction false} ReadPieces<N(!new)>(fl: Floats<N>, q: Quotes, t: Node<N>, text: string, i: nat)
    requires FloatCodec(fl) && Lexical(fl, t) && t.Call? && i < |t.args| + |t.kwargs|
    requires Strip(text) == Texts(fl, q, t)[i]
    ensures ReadsAs(ReadPart(fl, text), t, i)
    decreases t, 0, 0
  {
    if i < |t.args| {
      assert t.args[i] in t.args;
      PositionalPiece(fl, q, t.args[i], text);
      RoundTrip(fl, q, t.args[i]);
    } else {
      var k := t.kwargs[i - |t.args|];
      assert k in t.kwargs;
      KeywordRead(fl, q, k, text);
      RoundTrip(fl, q, k.value);
      if CallFree(k.value) {
        CallFreePlaceable(k.value);
      }
    }
  }

  lemma GatherPlaced<N>(pieces: seq<Result<Piece<N>>>, t: Node<N>)
    requires t.Call? && |pieces| == |t.args| + |t.kwargs|
    requires forall i :: 0 <= i < |t.args| ==> pieces[i] == Ok(Positional(t.args[i]))
    requires forall j :: 0 <= j < |t.kwargs| ==>
      pieces[|t.args| + j] == Ok(Keyword(t.kwargs[j].key, t.kwargs[j].value))
    requires forall i, j :: 0 <= i < j < |t.kwargs| ==> t.kwargs[i].key != t.kwargs[j].key
    ensures Gather(pieces, Arguments([], [])) == Ok(Arguments(t.args, t.kwargs))
  {
    GatherPositional(pieces, t.args, Arguments([], []));
    assert [] + t.args == t.args;
    GatherTail(pieces, t);
  }

  lemma GatherTail<N>(pieces: seq<Result<Piece<N>>>, t: Node<N>)
    requires t.Call? && |pieces| == |t.args| + |t.kwargs|
    requires forall j :: 0 <= j < |t.kwargs| ==>
      pieces[|t.args| + j] == Ok(Keyword(t.kwargs[j].key, t.kwargs[j].value))
    requires forall i, j :: 0 <= i < j < |t.kwargs| ==> t.kwargs[i].key != t.kwargs[j].key
    ensures Gather(pieces[|t.args|..], Arguments(t.args, [])) == Ok(Arguments(t.args, t.kwargs))
  {
    var tail := pieces[|t.args|..];
    assert forall j :: 0 <= j < |t.kwargs| ==> tail[j] == pieces[|t.args| + j];
    GatherKeywords(tail, t.kwargs, Arguments(t.args, []));
    assert [] + t.kwargs == t.kwargs;
  }

  lemma PlaceableIff<N>(pieces: seq<Result<Piece<N>>>, t: Node<N>)
    requires t.Call? && |pieces| == |t.args| + |t.kwargs|
    requires forall i :: 0 <= i < |pieces| ==> ReadsAs(pieces[i], t, i)
    ensures Placeable(t) <==> forall i :: 0 <= i < |pieces| ==> pieces[i].Ok?
  {
    if Placeable(t) {
      forall i | 0 <= i < |pieces|
        ensures pieces[i].Ok?
      {
        assert ReadsAs(pieces[i], t, i);
        assert i < |t.args| ==> t.args[i] in t.args;
        assert i >= |t.args| ==> t.kwargs[i - |t.args|] in t.kwargs;
      }
    }
    if forall i :: 0 <= i < |pieces| ==> pieces[i].Ok? {
      forall a | a in t.args
        ensures Placeable(a)
      {
        var i :| 0 <= i < |t.args| && t.args[i] == a;
        assert ReadsAs(pieces[i], t, i);
      }
      forall k | k in t.kwargs
        ensures CallFree(k.value)
      {
        var j :| 0 <= j < |t.kwargs| && t.kwargs[j] == k;
        assert ReadsAs(pieces[|t.args| + j], t, |t.args| + j);
      }
    }
  }

  /** Gathering the pieces of a call gives its arguments, or fails at the first misplaced one. */
  lemma GatherPieces<N>(pieces: seq<Result<Piece<N>>>, t: Node<N>)
    requires t.Call? && |pieces| == |t.args| + |t.kwargs|
    requires forall i :: 0 <= i < |pieces| ==> ReadsAs(pieces[i], t, i)
    requires forall i, j :: 0 <= i < j < |t.kwargs| ==> t.kwargs[i].key != t.kwargs[j].key
    ensures Answers(Named(t.name, Gather(pieces, Arguments([], []))), t)
  {
    PlaceableIff(pieces, t);
    if Placeable(t) {
      forall i | 0 <= i < |t.args|
        ensures pieces[i] == Ok(Positional(t.args[i]))
      {
        assert ReadsAs(pieces[i], t, i);
      }
      forall j | 0 <= j < |t.kwargs|
        ensures pieces[|t.args| + j] == Ok(Keyword(t.kwargs[j].key, t.kwargs[j].value))
      {
        assert ReadsAs(pieces[|t.args| + j], t, |t.args| + j);
      }
      GatherPlaced(pieces, t);
    } else {
      var i :| 0 <= i < |pieces| && pieces[i].Err?;
      GatherFails(pieces, Arguments([], []), i);
    }
  }

  lemma {:induction false} RoundTripCall<N(!new)>(fl: Floats<N>, q: Quotes, t: Node<N>)
    requires FloatCodec(fl) && Lexical(fl, t) && t.Call?
    ensures Answers(ParseCall(fl, Print(fl, q, t)), t)
    decreases t, 0, 1
  {
    var parts := Texts(fl, q, t);
    var body := Join(parts, ", ");
    if parts == [] {
      ParsePrintedCall(fl, t.name, "");
      GatherPieces([], t);
    } else {
      PieceShapes(fl, q, t, 0);
      JoinTrimmed(parts);
      SplitJoin(parts, "");
      ParsePrintedCall(fl, t.name, body);
      var r := Split(body, 0, "");
      var pieces := seq(|r|, i requires 0 <= i < |r| => ReadPart(fl, r[i]));
      forall i | 0 <= i < |pieces|
        ensures ReadsAs(pieces[i], t, i)
      {
        ReadPieces(fl, q, t, r[i], i);
      }
      GatherPieces(pieces, t);
    }
  }

  lemma {:induction false} SetNewKey<N>(kwargs: seq<Kwarg<N>>, key: string, value: Node<N>)
    requires forall j :: 0 <= j < |kwargs| ==> kwargs[j].key != key
    ensures SetKey(kwargs, key, value) == kwargs + [Kwarg(key, value)]
  {
    if kwargs != [] {
      SetNewKey(kwargs[1..], key, value);
    }
  }

  lemma KeywordText(key: string, value: string)
    requires IsIdentifier(key) && Trimmed(value)
    ensures var piece := key + "=" + value;
            && IndexOf(piece, '=') == |key| && piece[..|key|] == key && piece[|key| + 1..] == value
            && Trimmed(piece) && IsIdentStart(piece[0])
            && ('(' in piece <==> '(' in value)
  {
    var piece := key + "=" + value;
    IdentifierPlain(key);
    PlainHas(key, '=');
    PlainHas(key, '(');
    assert piece[|key|] == '=';
    assert forall i :: 0 <= i < |key| ==> piece[i] == key[i];
    if '(' in value {
      var i :| 0 <= i < |value| && value[i] == '(';
      assert piece[|key| + 1 + i] == '(';
    }
  }

  lemma KeywordWithCall<N(!new)>(fl: Floats<N>, key: string, value: string)
    requires FloatCodec(fl) && IsIdentifier(key) && Trimmed(value) && '(' in value
    ensures ParseValue(fl, key + "=" + value).Err?
  {
    KeywordText(key, value);
    CallValue(fl, key + "=" + value);
    KeywordIsNoCall(fl, key, value, key + "=" + value);
  }

  lemma KeywordIsNoCall<N>(fl: Floats<N>, key: string, value: string, piece: string)
    requires IsIdentifier(key) && piece == key + "=" + value && Trimmed(piece)
    ensures ParseCall(fl, piece).Err?
  {
    var rest := "=" + value;
    assert piece == key + rest;
    NotACall(fl, key, rest);
  }

  /** A printed keyword argument is read as one when its value contains no call; otherwise its
      parenthesis makes it a positional argument that does not parse. */
  lemma KeywordPiece<N(!new)>(fl: Floats<N>, q: Quotes, k: Kwarg<N>)
    requires FloatCodec(fl) && IsIdentifier(k.key) && Lexical(fl, k.value)
    ensures var piece := k.key + "=" + Print(fl, q, k.value);
            && piece != ""
            && (CallFree(k.value) ==>
                 && !IsPositional(piece)
                 && Strip(piece[..IndexOf(piece, '=')]) == k.key
                 && Strip(piece[IndexOf(piece, '=') + 1..]) == Print(fl, q, k.value))
            && (!CallFree(k.value) ==> IsPositional(piece) && ParseValue(fl, piece).Err?)
  {
    var value := Print(fl, q, k.value);
    var piece := k.key + "=" + value;
    PrintShape(fl, q, k.value, 0);
    KeywordText(k.key, value);
    IdentifierPlain(k.key);
    StripTrimmed(k.key);
    StripTrimmed(value);
    if !CallFree(k.value) {
      KeywordWithCall(fl, k.key, value);
    }
  }

  /** parse(print(t)) for whole strategy expressions. */
  lemma ParsePrint<N(!new)>(fl: Floats<N>, q: Quotes, t: Node<N>)
    requires FloatCodec(fl) && Lexical(fl, t) && t.Call?
    ensures Parse(fl, Print(fl, q, t)) == Ok(t) <==> Placeable(t)
    ensures !Placeable(t) ==> Parse(fl, Print(fl, q, t)).Err?
  {
    CallShape(fl, q, t, 0);
    StripTrimmed(Print(fl, q, t));
    RoundTripCall(fl, q, t);
  }

  // ---------------------------------------------------------------- splitting arbitrary text

  /** All pieces between top-level commas, the last one included even if blank. */
  function Pieces(s: string, depth: int, current: string): (parts: seq<string>)
    ensures parts != []
    decreases s
  {
    if s == "" then [current]
    else if s[0] == ',' && depth == 0 then [current] + Pieces(s[1..], depth, "")
    else Pieces(s[1..], DepthAfter(s[0], depth), current + [s[0]])
  }

  lemma {:induction false} SplitIsPieces(s: string, depth: int, current: string)
    ensures var all := Pieces(s, depth, current); var last := |all| - 1;
            Split(s, depth, current) == if Strip(all[last]) != "" then all else all[..last]
    decreases s
  {
    if s != "" {
      if s[0] == ',' && depth == 0 {
        SplitIsPieces(s[1..], 0, "");
      } else {
        SplitIsPieces(s[1..], DepthAfter(s[0], depth), current + [s[0]]);
      }
    }
  }

  lemma {:induction false} PiecesJoin(s: string, depth: int, current: string)
    ensures Join(Pieces(s, depth, current), ",") == current + s
    decreases s
  {
    if s == "" {
      assert current + s == current;
    } else if s[0] == ',' && depth == 0 {
      PiecesJoin(s[1..], 0, "");
      assert current + "," + ("" + s[1..]) == current + s;
    } else {
      PiecesJoin(s[1..], DepthAfter(s[0], depth), current + [s[0]]);
      assert current + [s[0]] + s[1..] == current + s;
    }
  }

  lemma {:induction false} PiecesClosed(s: string, depth: int, current: string)
    requires Whole(current, 0) && Depth(current, 0) == depth
    ensures var all := Pieces(s, depth, current); var last := |all| - 1;
            && (forall i :: 0 <= i < last ==> Closed(all[i], 0))
            && Whole(all[last], 0) && Depth(all[last], 0) == Depth(s, depth)
    decreases s
  {
    if s != "" {
      if s[0] == ',' && depth == 0 {
        PiecesClosed(s[1..], 0, "");
      } else {
        ScanConcat(current, [s[0]], 0);
        assert [s[0]][1..] == "";
        PiecesClosed(s[1..], DepthAfter(s[0], depth), current + [s[0]]);
      }
    }
  }

  /** Splitting any text loses nothing but a blank last piece and never cuts inside brackets:
      the pieces joined by commas are the text, no piece has a top-level comma, all but the last
      are closed, and the last one is if the whole text is. */
  lemma SplitReassembles(s: string)
    ensures var all := Pieces(s, 0, ""); var last := |all| - 1;
            && Join(all, ",") == s
            && Split(s, 0, "") == (if Strip(all[last]) != "" then all else all[..last])
            && (forall i :: 0 <= i < last ==> Closed(all[i], 0))
            && Whole(all[last], 0) && (Depth(s, 0) == 0 ==> Closed(all[last], 0))
  {
    SplitIsPieces(s, 0, "");
    PiecesJoin(s, 0, "");
    PiecesClosed(s, 0, "");
    assert "" + s == s;
  }
}
