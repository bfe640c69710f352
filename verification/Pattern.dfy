/** LogFormatter::initPattern: the scanner that splits a log pattern into tokens. */
module Pattern {
  import opened Fibers

  /** An element of the source's `vec`. The format is None when no braces were read, which the
      source stores as an empty format. */
  datatype Token = Literal(text: string) | Item(name: string, format: Option<string>)

  /** Rejection is a thrown std::invalid_argument. */
  datatype Outcome = Accept(tokens: seq<Token>) | Reject

  predicate IsAlpha(c: char) {
    'a' <= c <= 'z' || 'A' <= c <= 'Z'
  }

  /** Characters that end neither an item name nor start a format. */
  predicate NameChar(c: char) {
    IsAlpha(c) || c == '}'
  }

  /** The keys of s_format_items. */
  predicate Known(name: string) {
    name in {"m", "p", "r", "c", "t", "n", "d", "f", "l", "T", "F", "N"}
  }

  /** The first position from `n` on that is no name character. */
  function StopAt(r: string, n: nat): (m: nat)
    requires n <= |r|
    ensures n <= m <= |r|
    ensures forall k :: n <= k < m ==> NameChar(r[k])
    ensures m < |r| ==> !NameChar(r[m])
    decreases |r| - n
  {
    if n == |r| || !NameChar(r[n]) then n else StopAt(r, n + 1)
  }

  /** The first closing brace from `n` on. */
  function CloseAt(r: string, n: nat): (m: nat)
    requires n <= |r|
    ensures n <= m <= |r|
    ensures forall k :: n <= k < m ==> r[k] != '}'
    ensures m < |r| ==> r[m] == '}'
    decreases |r| - n
  {
    if n == |r| || r[n] == '}' then n else CloseAt(r, n + 1)
  }

  /** One item read from the front of `r`, and how many characters it takes. */
  datatype ItemScan = Read(item: Token, next: nat) | Unterminated

  function ReadItem(r: string): (s: ItemScan)
    requires r != "" && r[0] == '%'
    ensures s.Read? ==> 1 <= s.next <= |r| && s.item.Item?
  {
    var m := StopAt(r, 1);
    if m == |r| || r[m] != '{' then Read(Item(r[1..m], None), m)
    else
      var c := CloseAt(r, m + 1);
      if c == |r| then Unterminated else Read(Item(r[1..m], Some(r[m + 1..c])), c + 1)
  }

  function Flush(lit: string): seq<Token> {
    if lit == "" then [] else [Literal(lit)]
  }

  /** The next character is text: it is no percent sign, or one before another percent sign. */
  predicate Plain(r: string) {
    r != "" && (r[0] != '%' || (|r| > 1 && r[1] == '%'))
  }

  /** The tokens of `r` after the pending literal text `lit`; None when a brace stays open. */
  function Tokens(r: string, lit: string): Option<seq<Token>>
    decreases |r|
  {
    if r == "" then Some(Flush(lit))
    else if Plain(r) then Tokens(r[1..], lit + [r[0]])
    else
      match ReadItem(r)
      case Unterminated => None
      case Read(item, n) =>
        match Tokens(r[n..], "")
        case None => None
        case Some(rest) => Some(Flush(lit) + [item] + rest)
  }

  predicate AllKnown(toks: seq<Token>) {
    forall i :: 0 <= i < |toks| && toks[i].Item? ==> Known(toks[i].name)
  }

  function Parse(pattern: string): Outcome {
    match Tokens(pattern, "")
    case None => Reject
    case Some(toks) => if AllKnown(toks) then Accept(toks) else Reject
  }

  // ---- Reference: what a token list looks like when written down ----

  function PrintToken(t: Token): string {
    match t
    case Literal(text) => text
    case Item(name, None) => "%" + name
    case Item(name, Some(format)) => "%" + name + "{" + format + "}"
  }

  function Print(toks: seq<Token>): string {
    if toks == [] then "" else PrintToken(toks[0]) + Print(toks[1..])
  }

  /** A percent sign inside text stands only before another percent sign. */
  ghost predicate Escaped(text: string, percentFollows: bool) {
    text == "" ||
    (&& (text[0] == '%' ==> if |text| > 1 then text[1] == '%' else percentFollows)
     && Escaped(text[1..], percentFollows))
  }

  /** The token lists that patterns stand for: known items, formats without a closing brace,
      non-empty and non-adjacent texts that cannot be mistaken for items, and no text after a
      brace-less item that would continue its name or open a format. */
  ghost predicate Canonical(toks: seq<Token>, afterBare: bool) {
    toks == [] ||
    (&& (match toks[0]
         case Literal(text) =>
           && text != "" && (afterBare ==> !NameChar(text[0]) && text[0] != '{')
           && (|toks| > 1 ==> toks[1].Item?)
           && Escaped(text, |toks| > 1)
         case Item(name, format) => Known(name) && (format.Some? ==> '}' !in format.value))
     && Canonical(toks[1..], toks[0].Item? && toks[0].format.None?))
  }

  // ---- Accepted patterns: lossless and canonical ----

  lemma PrintCons(t: Token, rest: seq<Token>)
    ensures Print([t] + rest) == PrintToken(t) + Print(rest)
  {
    assert ([t] + rest)[1..] == rest;
  }

  lemma PrintFlushed(lit: string, toks: seq<Token>)
    ensures Print(Flush(lit) + toks) == lit + Print(toks)
  {
    if lit == "" {
      assert [] + toks == toks && "" + Print(toks) == Print(toks);
    } else {
      PrintCons(Literal(lit), toks);
    }
  }

  lemma {:induction false} EscapedAppend(lit: string, c: char, percentFollows: bool)
    requires Escaped(lit, c == '%') && (c == '%' ==> percentFollows)
    ensures Escaped(lit + [c], percentFollows)
    decreases |lit|
  {
    if lit == "" {
      assert lit + [c] == [c];
      assert [c][1..] == "";
    } else {
      EscapedAppend(lit[1..], c, percentFollows);
      assert (lit + [c])[1..] == lit[1..] + [c];
    }
  }

  lemma ReadItemPrints(r: string)
    requires r != "" && r[0] == '%' && ReadItem(r).Read?
    ensures PrintToken(ReadItem(r).item) == r[..ReadItem(r).next]
  {
    var m := StopAt(r, 1);
    assert "%" + r[1..m] == r[..m];
    if m < |r| && r[m] == '{' {
      var c := CloseAt(r, m + 1);
      assert r[..m] + "{" + r[m + 1..c] + "}" == r[..c + 1];
    }
  }

  /** Printing the tokens gives back the scanned text, for every pattern without an open brace. */
  lemma {:induction false} TokensPrint(r: string, lit: string)
    requires Tokens(r, lit).Some?
    ensures Print(Tokens(r, lit).value) == lit + r
    decreases |r|
  {
    if r == "" {
      PrintFlushed(lit, []);
      assert Flush(lit) + [] == Flush(lit);
    } else if Plain(r) {
      TokensPrint(r[1..], lit + [r[0]]);
      assert lit + [r[0]] + r[1..] == lit + r;
    } else {
      var item, n := ReadItem(r).item, ReadItem(r).next;
      var rest := Tokens(r[n..], "").value;
      TokensPrint(r[n..], "");
      assert "" + r[n..] == r[n..];
      ItemThenRest(r, lit, rest);
    }
  }

  lemma Regroup(a: seq<Token>, b: seq<Token>, c: seq<Token>)
    ensures a + b + c == a + (b + c)
  {}

  lemma ItemThenRest(r: string, lit: string, rest: seq<Token>)
    requires r != "" && r[0] == '%' && ReadItem(r).Read? && Print(rest) == r[ReadItem(r).next..]
    ensures Print(Flush(lit) + [ReadItem(r).item] + rest) == lit + r
  {
    var item, n := ReadItem(r).item, ReadItem(r).next;
    calc {
      Print(Flush(lit) + [item] + rest);
      { Regroup(Flush(lit), [item], rest); }
      Print(Flush(lit) + ([item] + rest));
      { PrintFlushed(lit, [item] + rest); }
      lit + Print([item] + rest);
      { PrintCons(item, rest); ReadItemPrints(r); }
      lit + (r[..n] + r[n..]);
      { assert r[..n] + r[n..] == r; }
      lit + r;
    }
  }

  /** What the scanner has read as text so far is properly escaped by what follows. */
  ghost predicate Pending(lit: string, r: string) {
    Escaped(lit, r != "" && r[0] == '%')
  }

  /** Whatever comes next cannot extend a brace-less item. */
  ghost predicate Separated(s: string) {
    s != "" ==> !NameChar(s[0]) && s[0] != '{'
  }

  /** A format that was read contains no closing brace, and a brace-less item ends where nothing
      could extend it. */
  lemma ReadItemEnds(r: string)
    requires r != "" && r[0] == '%' && ReadItem(r).Read?
    ensures
      var s := ReadItem(r);
      if s.item.format.None? then Separated(r[s.next..]) else '}' !in s.item.format.value
  {}

  lemma CanonicalItem(item: Token, rest: seq<Token>, afterBare: bool)
    requires item.Item? && Known(item.name) && (item.format.Some? ==> '}' !in item.format.value)
    requires Canonical(rest, item.format.None?)
    ensures Canonical([item] + rest, afterBare)
  {
    assert ([item] + rest)[1..] == rest;
  }

  lemma CanonicalText(lit: string, toks: seq<Token>, afterBare: bool)
    requires toks != [] && toks[0].Item? && Canonical(toks, false)
    requires Escaped(lit, true) && (afterBare && lit != "" ==> Separated(lit))
    requires lit == "" ==> Canonical(toks, afterBare)
    ensures Canonical(Flush(lit) + toks, afterBare)
  {
    if lit == "" {
      assert [] + toks == toks;
    } else {
      assert ([Literal(lit)] + toks)[1..] == toks;
    }
  }

  lemma KnownParts(a: seq<Token>, b: seq<Token>)
    requires AllKnown(a + b)
    ensures AllKnown(b) && (a != [] && a[|a| - 1].Item? ==> Known(a[|a| - 1].name))
  {
    assert a != [] ==> (a + b)[|a| - 1] == a[|a| - 1];
    forall i | 0 <= i < |b| ensures b[i] == (a + b)[|a| + i] {}
  }

  lemma {:induction false} TokensCanonical(r: string, lit: string, afterBare: bool)
    requires Tokens(r, lit).Some? && AllKnown(Tokens(r, lit).value)
    requires Pending(lit, r) && (afterBare ==> Separated(lit + r))
    ensures Canonical(Tokens(r, lit).value, afterBare)
    decreases |r|
  {
    if r == "" {
    } else if Plain(r) {
      assert lit + [r[0]] + r[1..] == lit + r;
      EscapedAppend(lit, r[0], r[1..] != "" && r[1..][0] == '%');
      TokensCanonical(r[1..], lit + [r[0]], afterBare);
    } else {
      var item, n := ReadItem(r).item, ReadItem(r).next;
      var rest := Tokens(r[n..], "").value;
      KnownParts(Flush(lit) + [item], rest);
      ReadItemEnds(r);
      assert "" + r[n..] == r[n..];
      TokensCanonical(r[n..], "", item.format.None?);
      CanonicalItem(item, rest, false);
      CanonicalItem(item, rest, afterBare);
      assert lit != "" ==> (lit + r)[0] == lit[0];
      CanonicalText(lit, [item] + rest, afterBare);
      Regroup(Flush(lit), [item], rest);
    }
  }

  // ---- Canonical token lists: parsed back as they are ----

  lemma {:induction false} TextIsPending(text: string, rest: string, lit: string)
    requires Escaped(text, rest != "" && rest[0] == '%')
    ensures Tokens(text + rest, lit) == Tokens(rest, lit + text)
    decreases |text|
  {
    if text == "" {
      assert text + rest == rest && lit + text == lit;
    } else {
      assert (text + rest)[1..] == text[1..] + rest;
      assert |text| == 1 ==> text[1..] == "" && (text + rest)[1..] == rest;
      assert Plain(text + rest);
      TextIsPending(text[1..], rest, lit + [text[0]]);
      assert lit + [text[0]] + text[1..] == lit + text;
    }
  }

  lemma StopIsUnique(r: string, n: nat, m: nat)
    requires n <= m <= |r| && (forall k :: n <= k < m ==> NameChar(r[k])) && (m < |r| ==> !NameChar(r[m]))
    ensures StopAt(r, n) == m
  {}

  lemma CloseIsUnique(r: string, n: nat, m: nat)
    requires n <= m < |r| && (forall k :: n <= k < m ==> r[k] != '}') && r[m] == '}'
    ensures CloseAt(r, n) == m
  {}

  lemma KnownIsLetter(name: string)
    requires Known(name)
    ensures |name| == 1 && IsAlpha(name[0])
  {}

  lemma ItemIsRead(item: Token, rest: string)
    requires item.Item? && Known(item.name) && (item.format.Some? ==> '}' !in item.format.value)
    requires item.format.None? ==> Separated(rest)
    ensures
      var r := PrintToken(item) + rest;
      r != "" && r[0] == '%' && !Plain(r) && ReadItem(r) == Read(item, |PrintToken(item)|)
  {
    var r := PrintToken(item) + rest;
    KnownIsLetter(item.name);
    StopIsUnique(r, 1, 2);
    assert r[1..2] == item.name;
    if item.format.Some? {
      var f := item.format.value;
      assert r[3..3 + |f|] == f;
      forall k | 3 <= k < 3 + |f| ensures r[k] != '}' {
        assert r[k] == f[k - 3];
      }
      CloseIsUnique(r, 3, 3 + |f|);
    }
  }

  lemma CanonicalStartsSeparated(toks: seq<Token>)
    requires Canonical(toks, true)
    ensures Separated(Print(toks))
  {}

  lemma {:induction false} CanonicalIsKnown(toks: seq<Token>, afterBare: bool)
    requires Canonical(toks, afterBare)
    ensures AllKnown(toks)
    decreases |toks|
  {
    if toks != [] {
      CanonicalIsKnown(toks[1..], toks[0].Item? && toks[0].format.None?);
      assert forall i :: 0 < i < |toks| ==> toks[i] == toks[1..][i - 1];
    }
  }

  lemma ItemThenParsed(item: Token, rest: string, toks: seq<Token>)
    requires item.Item? && Known(item.name) && (item.format.Some? ==> '}' !in item.format.value)
    requires (item.format.None? ==> Separated(rest)) && Tokens(rest, "") == Some(toks)
    ensures Tokens(PrintToken(item) + rest, "") == Some([item] + toks)
  {
    ItemIsRead(item, rest);
    assert (PrintToken(item) + rest)[|PrintToken(item)|..] == rest;
    assert [] + [item] + toks == [item] + toks;
  }

  lemma {:induction false} CanonicalIsParsed(toks: seq<Token>, afterBare: bool)
    requires Canonical(toks, afterBare)
    ensures Tokens(Print(toks), "") == Some(toks)
    decreases |toks|
  {
    if toks != [] {
      CanonicalHead(toks, afterBare);
      CanonicalIsParsed(toks[1..], toks[0].Item? && toks[0].format.None?);
      if toks[0].Item? {
        ItemBeforeRest(toks[0], toks[1..]);
        assert [toks[0]] + toks[1..] == toks;
      } else {
        TextBeforeItem(toks, toks[0].text);
      }
    }
  }

  lemma CanonicalHead(toks: seq<Token>, afterBare: bool)
    requires toks != [] && Canonical(toks, afterBare)
    ensures Canonical(toks[1..], toks[0].Item? && toks[0].format.None?)
    ensures toks[0].Item? ==> Known(toks[0].name) && (toks[0].format.Some? ==> '}' !in toks[0].format.value)
    ensures toks[0].Literal? ==>
      toks[0].text != "" && (|toks| > 1 ==> toks[1].Item?) && Escaped(toks[0].text, |toks| > 1)
  {}

  lemma ItemBeforeRest(item: Token, rest: seq<Token>)
    requires item.Item? && Known(item.name) && (item.format.Some? ==> '}' !in item.format.value)
    requires Canonical(rest, item.format.None?) && Tokens(Print(rest), "") == Some(rest)
    ensures Tokens(Print([item] + rest), "") == Some([item] + rest)
  {
    if item.format.None? { CanonicalStartsSeparated(rest); }
    ItemThenParsed(item, Print(rest), rest);
    PrintCons(item, rest);
  }

  lemma TextBeforeItem(toks: seq<Token>, text: string)
    requires toks != [] && toks[0] == Literal(text) && text != ""
    requires |toks| > 1 ==> toks[1].Item?
    requires Escaped(text, |toks| > 1) && Tokens(Print(toks[1..]), "") == Some(toks[1..])
    ensures Tokens(Print(toks), "") == Some(toks)
  {
    var rest := Print(toks[1..]);
    if |toks| > 1 {
      assert PrintToken(toks[1])[0] == '%';
      assert rest == PrintToken(toks[1..][0]) + Print(toks[1..][1..]);
    } else {
      assert toks[1..] == [];
    }
    TextIsPending(text, rest, "");
    assert "" + text == text;
    if |toks| == 1 {
      assert toks == [Literal(text)];
    } else {
      LiteralGoesFirst(rest, text, toks[1..]);
      assert [Literal(text)] + toks[1..] == toks;
    }
  }

  /** At an item, the pending text only adds a token in front. */
  lemma LiteralGoesFirst(rest: string, text: string, toks: seq<Token>)
    requires text != "" && Tokens(rest, "") == Some(toks) && toks != [] && toks[0].Item?
    ensures Tokens(rest, text) == Some([Literal(text)] + toks)
  {
    if rest != "" && Plain(rest) {
      LiteralStaysFirst(rest[1..], "" + [rest[0]]);
      assert false;
    } else if rest != "" {
      var item, n := ReadItem(rest).item, ReadItem(rest).next;
      var tail := Tokens(rest[n..], "").value;
      assert toks == [] + [item] + tail;
      assert [Literal(text)] + [item] + tail == [Literal(text)] + toks;
    }
  }

  lemma {:induction false} LiteralStaysFirst(rest: string, lit: string)
    requires lit != "" && Tokens(rest, lit).Some?
    ensures Tokens(rest, lit).value != [] && Tokens(rest, lit).value[0].Literal?
    decreases |rest|
  {
    if rest != "" && Plain(rest) {
      LiteralStaysFirst(rest[1..], lit + [rest[0]]);
    }
  }

  // ---- Main result ----

  /** initPattern accepts a pattern with the tokens `toks` if and only if `toks` is canonical and
      the pattern is its printed form. So parsing is lossless, printing a canonical list and
      parsing it gives it back, and a pattern is rejected exactly when no canonical list prints
      to it. */
  lemma ParserIsExact(pattern: string, toks: seq<Token>)
    ensures Parse(pattern) == Accept(toks) <==> Canonical(toks, false) && Print(toks) == pattern
  {
    if Parse(pattern) == Accept(toks) {
      TokensPrint(pattern, "");
      TokensCanonical(pattern, "", false);
      assert "" + pattern == pattern;
    }
    if Canonical(toks, false) && Print(toks) == pattern {
      CanonicalIsParsed(toks, false);
      CanonicalIsKnown(toks, false);
    }
  }

  // ---- The scanner as it is written ----

  lemma CloseSteps(r: string, n: nat, m: nat)
    requires n <= m <= |r| && forall k :: n <= k < m ==> r[k] != '}'
    ensures CloseAt(r, n) == CloseAt(r, m)
    decreases m - n
  {
    if n < m { CloseSteps(r, n + 1, m); }
  }

  /** The inner loop: reads the item whose percent sign is at the front of `r`. The result is the
      position after the item, its name, its format, and whether a brace stayed open. */
  method ReadItemAt(r: string) returns (n: nat, str: string, fmt: Option<string>, open: bool)
    requires r != "" && r[0] == '%'
    ensures open <==> ReadItem(r) == Unterminated
    ensures !open ==> ReadItem(r) == Read(Item(str, fmt), n)
  {
    n, str, fmt, open := 1, "", None, false;
    var begin := 0;
    while n < |r|
      invariant 1 <= n <= |r| && fmt == None
      invariant !open ==> forall k :: 1 <= k < n ==> NameChar(r[k])
      invariant !open ==> str == if n < |r| then "" else r[1..]
      invariant open ==> 1 <= begin < n && r[begin] == '{' && forall k :: 1 <= k < begin ==> NameChar(r[k])
      invariant open ==> forall k :: begin < k < n ==> r[k] != '}'
      invariant open && n < |r| ==> str == r[1..begin]
    {
      if !open && !IsAlpha(r[n]) && r[n] != '{' && r[n] != '}' {
        str := r[1..n];
        break;
      }
      if !open {
        if r[n] == '{' {
          str := r[1..n];
          open, begin := true, n;
          n := n + 1;
          continue;
        }
      } else if r[n] == '}' {
        fmt := Some(r[begin + 1..n]);
        open := false;
        StopIsUnique(r, 1, begin);
        CloseIsUnique(r, begin + 1, n);
        n := n + 1;
        return;
      }
      n := n + 1;
      if n == |r| {
        if str == "" {
          str := r[1..];
        }
      }
    }
    if open {
      StopIsUnique(r, 1, begin);
      CloseSteps(r, begin + 1, |r|);
    } else {
      StopIsUnique(r, 1, n);
      assert n == |r| ==> r[1..] == r[1..n];
    }
  }

  /** What the rest of the pattern adds to the tokens collected so far. */
  function Continue(vec: seq<Token>, rest: Option<seq<Token>>): Option<seq<Token>> {
    match rest
    case None => None
    case Some(toks) => Some(vec + toks)
  }

  function WithText(vec: seq<Token>, nstr: string): seq<Token> {
    if nstr == "" then vec else vec + [Literal(nstr)]
  }

  /** The invariant of the outer loop: what is still to be read completes the tokens. */
  ghost predicate Progress(p: string, i: nat, vec: seq<Token>, nstr: string, error: bool) {
    i <= |p| && Tokens(p, "") == if error then None else Continue(vec, Tokens(p[i..], nstr))
  }

  lemma AtStart(p: string)
    ensures Progress(p, 0, [], "", false)
  {
    assert p[0..] == p;
    if Tokens(p, "").Some? {
      assert [] + Tokens(p, "").value == Tokens(p, "").value;
    }
  }

  predicate PlainAt(p: string, i: nat)
    requires i < |p|
  {
    p[i] != '%' || (i + 1 < |p| && p[i + 1] == '%')
  }

  lemma AtText(p: string, i: nat, vec: seq<Token>, nstr: string, error: bool)
    requires Progress(p, i, vec, nstr, error) && i < |p| && PlainAt(p, i)
    ensures Progress(p, i + 1, vec, nstr + [p[i]], error)
  {
    assert p[i..][1..] == p[i + 1..];
  }

  lemma AtItem(p: string, i: nat, vec: seq<Token>, nstr: string, error: bool, item: Token, n: nat)
    requires Progress(p, i, vec, nstr, error) && i < |p| && !PlainAt(p, i) && ReadItem(p[i..]) == Read(item, n)
    ensures Progress(p, i + n, WithText(vec, nstr) + [item], "", error)
  {
    assert p[i..][n..] == p[i + n..];
    var rest := Tokens(p[i + n..], "");
    if rest.Some? {
      assert vec + (Flush(nstr) + [item] + rest.value) == WithText(vec, nstr) + [item] + rest.value;
    }
  }

  lemma AtOpen(p: string, i: nat, vec: seq<Token>, nstr: string, error: bool, vec': seq<Token>)
    requires Progress(p, i, vec, nstr, error) && i < |p| && !PlainAt(p, i) && ReadItem(p[i..]) == Unterminated
    ensures Progress(p, i + 1, vec', nstr, true)
  {}

  lemma AtEnd(p: string, vec: seq<Token>, nstr: string, error: bool)
    requires Progress(p, |p|, vec, nstr, error)
    ensures Tokens(p, "") == if error then None else Some(WithText(vec, nstr))
  {
    assert p[|p|..] == "";
    assert vec + [] == vec;
  }

  function PatternError(): Token {
    Literal("<<pattern_error>>")
  }

  /** The rest of a turn of the outer loop, at an item: the pending text and the item become tokens, or
      the error is noted. */
  method CollectItem(pattern: string, i: nat, vec: seq<Token>, nstr: string, error: bool)
    returns (i': nat, vec': seq<Token>, nstr': string, error': bool)
    requires Progress(pattern, i, vec, nstr, error) && i < |pattern| && !PlainAt(pattern, i)
    ensures i' > i && Progress(pattern, i', vec', nstr', error')
  {
    i', vec', nstr', error' := i, vec, nstr, error;
    var n, str, fmt, open := ReadItemAt(pattern[i..]);
    if !open {
      AtItem(pattern, i, vec, nstr, error, Item(str, fmt), n);
      if nstr != "" {
        vec' := vec + [Literal(nstr)];
        nstr' := "";
      }
      vec' := vec' + [Item(str, fmt)];
      i' := i + n;
    } else {
      AtOpen(pattern, i, vec, nstr, error, vec + [PatternError()]);
      error' := true;
      vec' := vec + [PatternError()];
      i' := i + 1;
    }
  }

  /** The outer loop: collects the tokens. After an open brace the scan goes on one character
      later, and the error is remembered whatever it then finds. */
  method CollectTokens(pattern: string) returns (vec: seq<Token>, error: bool)
    ensures error <==> Tokens(pattern, "") == None
    ensures !error ==> Tokens(pattern, "") == Some(vec)
  {
    vec, error := [], false;
    var nstr := "";
    var i := 0;
    AtStart(pattern);
    while i < |pattern|
      invariant Progress(pattern, i, vec, nstr, error)
    {
      if pattern[i] != '%' {
        AtText(pattern, i, vec, nstr, error);
        nstr := nstr + [pattern[i]];
        i := i + 1;
        continue;
      }
      if i + 1 < |pattern| {
        if pattern[i + 1] == '%' {
          AtText(pattern, i, vec, nstr, error);
          nstr := nstr + ['%'];
          i := i + 1;
          continue;
        }
      }
      i, vec, nstr, error := CollectItem(pattern, i, vec, nstr, error);
    }
    AtEnd(pattern, vec, nstr, error);
    if nstr != "" {
      vec := vec + [Literal(nstr)];
    }
  }

  /** initPattern: collect the tokens, then look every item up in the table. */
  method InitPattern(pattern: string) returns (r: Outcome)
    ensures r == Parse(pattern)
  {
    var vec, error := CollectTokens(pattern);
    for k := 0 to |vec|
      invariant error <==> Tokens(pattern, "") == None || exists j :: 0 <= j < k && vec[j].Item? && !Known(vec[j].name)
    {
      if vec[k].Item? && !Known(vec[k].name) {
        error := true;
      }
    }
    r := if error then Reject else Accept(vec);
  }
}
