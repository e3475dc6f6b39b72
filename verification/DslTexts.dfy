// What the parser makes of text as people write it: spaces, bare words, blank
// and repeated arguments, brackets, and text that is no expression.
module DslTexts {
  import opened Protocol
  import opened Dsl
  import opened DslRoundTrip
  import opened Seqs

  // ---------------------------------------------------------------- spaces

  ghost predicate Spaces(s: string) {
    forall i :: 0 <= i < |s| ==>
      s[i] in " \t\n\r\U{b}\U{c}\U{85}\U{a0}\U{2028}\U{2029}\U{202f}\U{205f}\U{3000}\U{1680}" ||
      '\U{2000}' <= s[i] <= '\U{200a}' || '\U{1c}' <= s[i] <= '\U{1f}'
  }

  lemma {:induction false} LeftPad(w: string, s: string)
    requires Spaces(w)
    ensures LStrip(w + s) == LStrip(s)
  {
    if w == "" {
      assert w + s == s;
    } else {
      assert (w + s)[1..] == w[1..] + s && IsSpace(w[0]);
      LeftPad(w[1..], s);
    }
  }

  lemma {:induction false} RightPad(s: string, w: string)
    requires Spaces(w)
    ensures RStrip(s + w) == RStrip(s)
  {
    if w == "" {
      assert s + w == s;
    } else {
      var front, last := w[..|w| - 1], w[|w| - 1];
      assert IsSpace(last);
      LastOff(s, front, last);
      assert w == front + [last];
      RightPad(s, front);
    }
  }

  lemma LastOff(s: string, front: string, last: char)
    ensures var t := s + (front + [last]); t != "" && t[|t| - 1] == last && t[..|t| - 1] == s + front
  {
  }

  /** White space around a text does not matter. */
  lemma StripPadded(w: string, s: string, w': string)
    requires Spaces(w) && Spaces(w') && (s == "" || Trimmed(s))
    ensures Strip(w + s + w') == s
  {
    if s == "" {
      assert w + s + w' == w + (w' + "");
      LeftPad(w, w' + "");
      LeftPad(w', "");
    } else {
      assert w + s + w' == w + (s + w');
      LeftPad(w, s + w');
      assert (s + w')[0] == s[0];
      RightPad(s, w');
    }
  }

  lemma {:induction false} SkipsTo(s: string, i: nat, j: nat)
    requires i <= j < |s| && !IsSpace(s[j]) && forall k :: i <= k < j ==> IsSpace(s[k])
    ensures SkipSpaces(s, i) == j
    decreases j - i
  {
    if i < j {
      SkipsTo(s, i + 1, j);
    }
  }

  lemma SkipsAll(a: string, w: string, rest: string)
    requires Spaces(w) && rest != "" && !IsSpace(rest[0])
    ensures SkipSpaces(a + w + rest, |a|) == |a| + |w|
  {
    forall k | |a| <= k < |a| + |w|
      ensures IsSpace((a + w + rest)[k])
    {
      InTheMiddle(a, w, rest, k - |a|);
    }
    InTheMiddle(a, w, rest, |w|);
    SkipsTo(a + w + rest, |a|, |a| + |w|);
  }

  lemma InTheMiddle(a: string, w: string, rest: string, i: nat)
    requires i <= |w| && rest != ""
    ensures |a| + i < |a + w + rest| && (a + w + rest)[|a| + i] == if i < |w| then w[i] else rest[0]
  {
  }

  lemma SpacesAreNoIdentifier(w: string, rest: string)
    requires Spaces(w) && rest != "" && !IsIdentChar(rest[0])
    ensures w + rest != "" && !IsIdentChar((w + rest)[0])
  {
    if w != "" {
      assert (w + rest)[0] == w[0];
    }
  }

  /** A call as text, with white space after the name. */
  function CallText(name: string, w: string, inside: string): string {
    name + w + ("(" + inside + ")")
  }

  /** The name of a call, the white space after it, its parenthesis and what it encloses. */
  lemma SpacedCall(name: string, w: string, inside: string)
    requires IsIdentifier(name) && Spaces(w)
    ensures var s := CallText(name, w, inside); var j := |name| + |w|;
            && Trimmed(s) && IdentLength(s) == |name| && SkipSpaces(s, |name|) == j
            && j < |s| - 1 && s[j] == '(' && s[|s| - 1] == ')' && s[..|name|] == name && s[j + 1..|s| - 1] == inside
  {
    var rest := "(" + inside + ")";
    var s := CallText(name, w, inside);
    IdentifierPlain(name);
    assert s[0] == name[0] && s[|s| - 1] == rest[|rest| - 1] == ')';
    assert s == name + (w + rest) && rest[0] == '(';
    SpacesAreNoIdentifier(w, rest);
    IdentPrefix(name, w + rest, 1);
    SkipsAll(name, w, rest);
    CallSlices(name, w, inside);
  }

  lemma CallSlices(name: string, w: string, inside: string)
    ensures var s := CallText(name, w, inside); var j := |name| + |w|;
            j < |s| - 1 && s[j] == '(' && s[..|name|] == name && s[j + 1..|s| - 1] == inside
  {
  }

  lemma ReadAsCall<N>(fl: Floats<N>, text: string, s: string, name: string, j: nat, inside: string)
    requires Strip(text) == s && IdentLength(s) == |name| > 0 && |name| <= j < |s| - 1 && j == SkipSpaces(s, |name|)
    requires s[j] == '(' && s[|s| - 1] == ')' && s[..|name|] == name && s[j + 1..|s| - 1] == inside
    ensures ParseCall(fl, text) == Named(name, ParseArgs(fl, Strip(inside)))
  {
    ReadAt(fl, text, |name|, j);
  }

  lemma ReadAt<N>(fl: Floats<N>, text: string, n: nat, j: nat)
    requires var s := Strip(text); n == IdentLength(s) > 0 && n <= j < |s| - 1 && j == SkipSpaces(s, n)
    requires var s := Strip(text); s[j] == '(' && s[|s| - 1] == ')'
    ensures var s := Strip(text); ParseCall(fl, text) == Named(s[..n], ParseArgs(fl, Strip(s[j + 1..|s| - 1])))
  {
  }

  /** White space around a call, after its name and around its arguments does not matter. */
  lemma SpacesIgnored<N>(fl: Floats<N>, text: string, name: string, w: string, inside: string)
    requires IsIdentifier(name) && Spaces(w) && Strip(text) == CallText(name, w, inside)
    ensures ParseCall(fl, text) == Named(name, ParseArgs(fl, Strip(inside)))
  {
    SpacedCall(name, w, inside);
    ReadAsCall(fl, text, Strip(text), name, |name| + |w|, inside);
  }

  // ---------------------------------------------------------------- single values

  predicate Letter(c: char) { 'a' <= c <= 'z' || 'A' <= c <= 'Z' }

  predicate Digit(c: char) { '0' <= c <= '9' }

  /** Letters, digits and underscores, not starting with a digit. */
  predicate Word(s: string) {
    s != "" && !Digit(s[0]) && forall i :: 0 <= i < |s| ==> Letter(s[i]) || Digit(s[i]) || s[i] == '_'
  }

  lemma WordIsIdentifier(s: string)
    ensures IsIdentifier(s) <==> Word(s)
  {
    if IsIdentifier(s) {
      forall i | 0 <= i < |s|
        ensures Letter(s[i]) || Digit(s[i]) || s[i] == '_'
      {
        assert IsIdentChar(s[i]);
      }
    }
  }

  /** A value is read as an identifier exactly when it is a word that is no number. */
  lemma IdentifierReadIff<N(!new)>(fl: Floats<N>, s: string)
    requires Trimmed(s)
    ensures ParseValue(fl, s) == Ok(Ident(s)) <==> fl.parse(s) == None && Word(s)
  {
    StripTrimmed(s);
    WordIsIdentifier(s);
    if Word(s) {
      assert s[0] != '"' && s[0] != '\'';
    } else {
      OtherThanIdentifier(fl, s, s);
    }
  }

  lemma OtherThanIdentifier<N>(fl: Floats<N>, s: string, name: string)
    requires Strip(s) == s && !IsIdentifier(s)
    ensures ParseValue(fl, s) != Ok(Ident(name))
  {
    if fl.parse(s) == None && !Quoted(s) && '(' !in s && StartsWith(s, '[') && EndsWith(s, ']') {
      ListIsNoIdentifier(fl, Strip(Inner(s)));
    }
  }

  lemma ListIsNoIdentifier<N>(fl: Floats<N>, inner: string)
    ensures ParseList(fl, inner).Ok? ==> ParseList(fl, inner).value.List?
  {
    if inner != "" {
      var parts := Split(inner, 0, "");
      CollectIsList(seq(|parts|, i requires 0 <= i < |parts| => ParseValue(fl, Strip(parts[i]))), []);
    }
  }

  lemma {:induction false} CollectIsList<N>(values: seq<Result<Node<N>>>, items: seq<Node<N>>)
    ensures Collect(values, items).Ok? ==> Collect(values, items).value.List?
    decreases values
  {
    if values != [] && values[0].Ok? {
      CollectIsList(values[1..], items + [values[0].value]);
    }
  }

  /** Any other text without a parenthesis that is not between equal quotes or square brackets is the
      string itself. */
  lemma BareText<N(!new)>(fl: Floats<N>, s: string)
    requires Trimmed(s) && fl.parse(s) == None && !Word(s) && '(' !in s
    requires forall q, q' :: (q, q') in [('"', '"'), ('\'', '\''), ('[', ']')] ==> !(s[0] == q && s[|s| - 1] == q')
    ensures ParseValue(fl, s) == Ok(Str(s))
  {
    StripTrimmed(s);
    WordIsIdentifier(s);
    var between := [('"', '"'), ('\'', '\''), ('[', ']')];
    assert between[0] in between && between[1] in between && between[2] in between;
  }

  // ---------------------------------------------------------------- arguments

  /** An argument that is blank is skipped. */
  lemma {:induction false} BlankSkipped<N>(before: seq<Result<Piece<N>>>, after: seq<Result<Piece<N>>>, a: Arguments<N>)
    ensures Gather(before + [Ok(Blank)] + after, a) == Gather(before + after, a)
    decreases before
  {
    if before == [] {
      assert before + [Ok(Blank)] + after == [Ok(Blank)] + after && before + after == after;
      assert ([Ok(Blank)] + after)[1..] == after;
    } else {
      assert (before + [Ok(Blank)] + after)[1..] == before[1..] + [Ok(Blank)] + after;
      assert (before + after)[1..] == before[1..] + after;
      if before[0].Ok? {
        BlankSkipped(before[1..], after, Added(a, before[0].value));
      }
    }
  }

  lemma SpacesAreBlank<N>(fl: Floats<N>, w: string)
    requires Spaces(w)
    ensures ReadPart(fl, w) == Ok(Blank)
  {
    StripPadded(w, "", "");
    assert w + "" + "" == w;
  }

  function ValueOf<N>(kwargs: seq<Kwarg<N>>, key: string): Option<Node<N>> {
    if kwargs == [] then None else if kwargs[0].key == key then Some(kwargs[0].value) else ValueOf(kwargs[1..], key)
  }

  /** Of keyword arguments with the same key the last one counts; other keys are unaffected. */
  lemma {:induction false} LastKeywordCounts<N>(kwargs: seq<Kwarg<N>>, key: string, value: Node<N>, other: string)
    ensures ValueOf(SetKey(kwargs, key, value), other) == if other == key then Some(value) else ValueOf(kwargs, other)
    ensures |SetKey(kwargs, key, value)| == |kwargs| + (if ValueOf(kwargs, key) == None then 1 else 0)
  {
    if kwargs != [] && kwargs[0].key != key {
      LastKeywordCounts(kwargs[1..], key, value, other);
      assert SetKey(kwargs, key, value)[1..] == SetKey(kwargs[1..], key, value);
    } else if kwargs != [] {
      assert SetKey(kwargs, key, value)[1..] == kwargs[1..];
    }
  }

  /** A part that contains a parenthesis or starts with a bracket or brace is a positional argument,
      even with an equals sign in it; otherwise the first equals sign separates key and value. */
  lemma PartsRead<N>(fl: Floats<N>, part: string, e: nat)
    requires Trimmed(part)
    ensures '(' in part || part[0] == '[' || part[0] == '{' || '=' !in part ==>
      ReadPart(fl, part) == AsPositional(ParseValue(fl, part))
    ensures '(' !in part && part[0] != '[' && part[0] != '{' && FirstEquals(part, e) ==>
      ReadPart(fl, part) == AsKeyword(Strip(part[..e]), ParseValue(fl, Strip(part[e + 1..])))
  {
    StripTrimmed(part);
    PartIsRead(fl, part, part);
    if FirstEquals(part, e) {
      FirstEqualsAt(part, e);
    }
  }

  predicate FirstEquals(s: string, e: nat) {
    e < |s| && s[e] == '=' && '=' !in s[..e]
  }

  lemma FirstEqualsAt(s: string, e: nat)
    requires FirstEquals(s, e)
    ensures IndexOf(s, '=') == e
  {
    assert IndexOf(s, '=') <= e;
  }

  /** Commas between brackets of any kind do not separate. */
  lemma BracketsProtect(a: string, b: string, open: char, close: char)
    requires Plain(a) && Plain(b)
    requires (open, close) == ('(', ')') || (open, close) == ('[', ']') || (open, close) == ('{', '}')
    ensures var s := [open] + (a + "," + b) + [close]; Split(s, 0, "") == [s]
    ensures Trimmed(a) ==> Split(a + "," + b, 0, "") == [a] + Split(b, 0, "")
  {
    var body := a + "," + b;
    PlainClosed(a, 1);
    PlainClosed(b, 1);
    assert body == a + ("," + b);
    ScanConcat(a, "," + b, 1);
    assert ("," + b)[1..] == b;
    var s := [open] + body + [close];
    assert "" + [open] + body + [close] == s;
    BracketClosed("", [open], body, [close], 0);
    SplitLast(s, "");
    assert "" + s == s;
    PlainClosed(a, 0);
    SplitSkips(a, "," + b, 0, "");
    assert "" + a == a;
  }

  // ---------------------------------------------------------------- what is rejected

  /** Only a word, a parenthesis after it and a closing parenthesis at the end make a call. */
  lemma OnlyCalls<N>(fl: Floats<N>, text: string)
    requires ParseCall(fl, text).Ok?
    ensures var s := Strip(text);
            && s != "" && (Letter(s[0]) || s[0] == '_') && s[|s| - 1] == ')' && '(' in s
            && ParseCall(fl, text).value.Call? && Word(ParseCall(fl, text).value.name)
            && ParseCall(fl, text).value.name <= s
  {
    var s := Strip(text);
    var n := IdentLength(s);
    IdentLengthIsWord(s);
    WordIsIdentifier(s[..n]);
    assert s[SkipSpaces(s, n)] == '(';
  }

  lemma {:induction false} IdentCharsAre(s: string, i: nat, k: nat)
    requires i <= |s| && i <= k < IdentCharsFrom(s, i)
    ensures k < |s| && IsIdentChar(s[k])
    decreases |s| - i
  {
    if k > i {
      IdentCharsAre(s, i + 1, k);
    }
  }

  lemma IdentLengthIsWord(s: string)
    requires IdentLength(s) > 0
    ensures IsIdentifier(s[..IdentLength(s)])
  {
    var n := IdentLength(s);
    forall k | 0 < k < n
      ensures IsIdentChar(s[k])
    {
      IdentCharsAre(s, 1, k);
    }
  }

  /** Blank text is an empty expression, and a number, a string or a bare word is none. */
  lemma NoExpression<N>(fl: Floats<N>, s: string)
    requires '(' !in s
    ensures Parse(fl, s).Err?
    ensures Spaces(s) ==> Parse(fl, s) == Err("empty expression")
  {
    if Spaces(s) {
      StripPadded(s, "", "");
      assert s + "" + "" == s;
    }
    if Parse(fl, s).Ok? {
      OnlyCalls(fl, Strip(s));
      StripWithin(s, '(');
      StripWithin(Strip(s), '(');
    }
  }

  lemma {:induction false} LStripWithin(s: string, c: char)
    ensures c in LStrip(s) ==> c in s
  {
    if s != "" && IsSpace(s[0]) {
      LStripWithin(s[1..], c);
    }
  }

  lemma {:induction false} RStripWithin(s: string, c: char)
    ensures c in RStrip(s) ==> c in s
  {
    if s != "" && IsSpace(s[|s| - 1]) {
      RStripWithin(s[..|s| - 1], c);
    }
  }

  lemma StripWithin(s: string, c: char)
    ensures c in Strip(s) ==> c in s
  {
    LStripWithin(s, c);
    RStripWithin(LStrip(s), c);
  }
}
