/** The table of items and the alphabet of patterns written out, and the formatter the repository ships. */
module PatternTable {
  import opened Fibers
  import opened Pattern

  /** The items are the twelve letters of the table and no others. */
  lemma ItemsAreTheLetters(c: char)
    ensures Parse("%" + [c]) == Accept([Item([c], None)]) <==> c in "mprctndflTFN"
  {
    var toks := [Item([c], None)];
    assert PrintToken(toks[0]) == "%" + [c] && toks[1..] == [];
    assert Print(toks) == "%" + [c];
    ParserIsExact("%" + [c], toks);
    assert Canonical(toks, false) <==> Known([c]);
  }

  lemma UnknownItem()
    ensures Parse("%" + ['q']) == Reject
  {
    StopIsUnique("%q", 1, 2);
    assert "%q"[1..2] == "q" && "%" + ['q'] == "%q";
    OneItem("%q", Item("q", None));
    assert [Item("q", None)][0].name == "q";
  }

  /** isalpha, by character codes. */
  predicate Letter(c: char) {
    65 <= c as int <= 90 || 97 <= c as int <= 122
  }

  /** What may follow a brace-less item: a letter or a closing brace would belong to its name, an
      opening brace stays open, a percent sign begins an item without a name; anything else is text. */
  lemma TextAfterItem(c: char)
    ensures if Letter(c) || c in "{}%" then Parse("%m" + [c]) == Reject
            else Parse("%m" + [c]) == Accept([Item("m", None), Literal([c])])
  {
    if Letter(c) || c == '}' {
      LongName(c);
    } else if c == '{' {
      OpenAtEnd();
    } else if c == '%' {
      PercentAtEnd();
    } else {
      PlainAtEnd(c);
    }
  }

  lemma PercentAtEnd()
    ensures Parse("%m" + ['%']) == Reject
  {
    assert PrintToken(Item("m", None)) + "%" == "%m" + ['%'];
    assert ReadItem("%") == Read(Item("", None), 1) by { StopIsUnique("%", 1, 1); }
    OneItem("%", Item("", None));
    ItemThenParsed(Item("m", None), "%", [Item("", None)]);
    assert ([Item("m", None)] + [Item("", None)])[1] == Item("", None);
  }

  lemma PlainAtEnd(c: char)
    requires !NameChar(c) && c != '{' && c != '%'
    ensures Parse("%m" + [c]) == Accept([Item("m", None), Literal([c])])
  {
    assert PrintToken(Item("m", None)) + [c] == "%m" + [c];
    TextIsPending([c], "", "");
    assert [c] + "" == [c] && "" + [c] == [c];
    ItemThenParsed(Item("m", None), [c], [Literal([c])]);
    assert [Item("m", None)] + [Literal([c])] == [Item("m", None), Literal([c])];
  }

  lemma LongName(c: char)
    requires Letter(c) || c == '}'
    ensures Parse("%m" + [c]) == Reject
  {
    var r := "%m" + [c];
    StopIsUnique(r, 1, 3);
    assert r[1..3] == "m" + [c];
    OneItem(r, Item("m" + [c], None));
    assert [Item("m" + [c], None)][0].name == "m" + [c];
    assert !Known("m" + [c]) by { assert |"m" + [c]| == 2; }
  }

  lemma OpenAtEnd()
    ensures Parse("%m" + ['{']) == Reject
  {
    StopIsUnique("%m{", 1, 2);
    assert "%m" + ['{'] == "%m{";
  }

  lemma OneItem(r: string, item: Token)
    requires r != "" && r[0] == '%' && !Plain(r) && ReadItem(r) == Read(item, |r|)
    ensures Tokens(r, "") == Some([item])
  {
    assert r[|r|..] == "" && [] + [item] + [] == [item];
  }

  /** The tokens are canonical whatever item comes before, and this is how they are written. */
  ghost predicate Writes(toks: seq<Token>, text: string) {
    Canonical(toks, true) && Print(toks) == text
  }

  lemma WritesItem(name: string, format: Option<string>, toks: seq<Token>, text: string, text': string)
    requires Writes(toks, text) && Known(name) && (format.Some? ==> '}' !in format.value)
    requires text' == PrintToken(Item(name, format)) + text
    ensures Writes([Item(name, format)] + toks, text')
  {
    CanonicalItem(Item(name, format), toks, true);
    PrintCons(Item(name, format), toks);
    if format.Some? { CanonicalAnywhere(toks); }
  }

  lemma CanonicalAnywhere(toks: seq<Token>)
    requires Canonical(toks, true)
    ensures Canonical(toks, false)
  {}

  lemma WritesText(c: char, toks: seq<Token>, text: string, text': string)
    requires Writes(toks, text) && toks != [] && toks[0].Item? && !NameChar(c) && c != '{' && c != '%'
    requires text' == [c] + text
    ensures Writes([Literal([c])] + toks, text')
  {
    assert ([Literal([c])] + toks)[1..] == toks && "" + [c] == [c];
    EscapedAppend("", c, true);
    CanonicalAnywhere(toks);
    PrintCons(Literal([c]), toks);
  }

  function Bare(name: string): Token {
    Item(name, None)
  }

  lemma WritesBare(name: string, toks: seq<Token>, text: string)
    requires Writes(toks, text) && Known(name)
    ensures Writes([Bare(name)] + toks, "%" + name + text)
  {
    WritesItem(name, None, toks, text, "%" + name + text);
  }

  /** The formatter of the configuration the repository ships, from its last part to the whole. */
  const SHIPPED_END := "%" + "T" + ("%" + "m" + ("%" + "n" + ""))
  const SHIPPED_PLACE := ['<'] + ("%" + "f" + ([':'] + ("%" + "l" + (['>'] + SHIPPED_END))))
  const SHIPPED_LEVEL := ['['] + ("%" + "p" + ([']'] + ("%" + "T" + SHIPPED_PLACE)))
  const SHIPPED :=
    "%d{%Y-%m-%d %H:%M:%S}" + ("%" + "T" + ("%" + "t" + ("%" + "T" + ("%" + "F" + ("%" + "T" + SHIPPED_LEVEL)))))

  const END_TOKENS := [Bare("T")] + ([Bare("m")] + ([Bare("n")] + []))
  const PLACE_TOKENS :=
    [Literal(['<'])] + ([Bare("f")] + ([Literal([':'])] + ([Bare("l")] + ([Literal(['>'])] + END_TOKENS))))
  const LEVEL_TOKENS := [Literal(['['])] + ([Bare("p")] + ([Literal([']'])] + ([Bare("T")] + PLACE_TOKENS)))
  const DATE := Item("d", Some("%Y-%m-%d %H:%M:%S"))
  const SHIPPED_TOKENS :=
    [DATE] + ([Bare("T")] + ([Bare("t")] + ([Bare("T")] + ([Bare("F")] + ([Bare("T")] + LEVEL_TOKENS)))))

  lemma EndIsWritten()
    ensures Writes(END_TOKENS, SHIPPED_END)
  {
    WritesBare("n", [], "");
    WritesBare("m", [Bare("n")] + [], "%" + "n" + "");
    WritesBare("T", [Bare("m")] + ([Bare("n")] + []), "%" + "m" + ("%" + "n" + ""));
  }

  lemma PlaceIsWritten()
    ensures Writes(PLACE_TOKENS, SHIPPED_PLACE)
  {
    EndIsWritten();
    WritesText('>', END_TOKENS, SHIPPED_END, ['>'] + SHIPPED_END);
    var l, lt := [Literal(['>'])] + END_TOKENS, ['>'] + SHIPPED_END;
    WritesBare("l", l, lt);
    WritesText(':', [Bare("l")] + l, "%" + "l" + lt, [':'] + ("%" + "l" + lt));
    var f, ft := [Literal([':'])] + ([Bare("l")] + l), [':'] + ("%" + "l" + lt);
    WritesBare("f", f, ft);
    WritesText('<', [Bare("f")] + f, "%" + "f" + ft, ['<'] + ("%" + "f" + ft));
  }

  lemma LevelIsWritten()
    ensures Writes(LEVEL_TOKENS, SHIPPED_LEVEL)
  {
    PlaceIsWritten();
    WritesBare("T", PLACE_TOKENS, SHIPPED_PLACE);
    var b, bt := [Bare("T")] + PLACE_TOKENS, "%" + "T" + SHIPPED_PLACE;
    WritesText(']', b, bt, [']'] + bt);
    WritesBare("p", [Literal([']'])] + b, [']'] + bt);
    var p, pt := [Bare("p")] + ([Literal([']'])] + b), "%" + "p" + ([']'] + bt);
    WritesText('[', p, pt, ['['] + pt);
  }

  lemma ShippedIsWritten()
    ensures Writes(SHIPPED_TOKENS, SHIPPED)
  {
    LevelIsWritten();
    WritesBare("T", LEVEL_TOKENS, SHIPPED_LEVEL);
    var a, at := [Bare("T")] + LEVEL_TOKENS, "%" + "T" + SHIPPED_LEVEL;
    WritesBare("F", a, at);
    var b, bt := [Bare("F")] + a, "%" + "F" + at;
    WritesBare("T", b, bt);
    var c, ct := [Bare("T")] + b, "%" + "T" + bt;
    WritesBare("t", c, ct);
    var d, dt := [Bare("t")] + c, "%" + "t" + ct;
    WritesBare("T", d, dt);
    WritesDate([Bare("T")] + d, "%" + "T" + dt);
  }

  lemma WritesDate(toks: seq<Token>, text: string)
    requires Writes(toks, text)
    ensures Writes([DATE] + toks, "%d{%Y-%m-%d %H:%M:%S}" + text)
  {
    assert PrintToken(DATE) == "%d{%Y-%m-%d %H:%M:%S}";
    WritesItem("d", DATE.format, toks, text, "%d{%Y-%m-%d %H:%M:%S}" + text);
  }

  lemma ShippedText()
    ensures SHIPPED == "%d{%Y-%m-%d %H:%M:%S}%T%t%T%F%T[%p]%T<%f:%l>%T%m%n"
  {
    LevelText();
    FrontText(SHIPPED_LEVEL);
    WholeText();
  }

  lemma FrontText(level: string)
    ensures "%" + "T" + ("%" + "t" + ("%" + "T" + ("%" + "F" + ("%" + "T" + level)))) == "%T%t%T%F%T" + level
  {}

  lemma WholeText()
    ensures "%d{%Y-%m-%d %H:%M:%S}" + ("%T%t%T%F%T" + "[%p]%T<%f:%l>%T%m%n") ==
            "%d{%Y-%m-%d %H:%M:%S}%T%t%T%F%T[%p]%T<%f:%l>%T%m%n"
  {}

  lemma PlaceText()
    ensures SHIPPED_PLACE == "<%f:%l>%T%m%n"
  {}

  lemma LevelText()
    ensures SHIPPED_LEVEL == "[%p]%T<%f:%l>%T%m%n"
  {
    PlaceText();
  }

  lemma ShippedTokens()
    ensures SHIPPED_TOKENS ==
      [DATE, Bare("T"), Bare("t"), Bare("T"), Bare("F"), Bare("T"), Literal("["), Bare("p"), Literal("]"), Bare("T"),
       Literal("<"), Bare("f"), Literal(":"), Bare("l"), Literal(">"), Bare("T"), Bare("m"), Bare("n")]
  {}

  /** It is accepted with the tokens one reads in it. */
  lemma ShippedFormatter()
    ensures Parse("%d{%Y-%m-%d %H:%M:%S}%T%t%T%F%T[%p]%T<%f:%l>%T%m%n") ==
      Accept([Item("d", Some("%Y-%m-%d %H:%M:%S")), Bare("T"), Bare("t"), Bare("T"), Bare("F"), Bare("T"), Literal("["),
              Bare("p"), Literal("]"), Bare("T"), Literal("<"), Bare("f"), Literal(":"), Bare("l"), Literal(">"),
              Bare("T"), Bare("m"), Bare("n")])
  {
    ShippedIsWritten();
    CanonicalAnywhere(SHIPPED_TOKENS);
    ParserIsExact(SHIPPED, SHIPPED_TOKENS);
    ShippedText();
    ShippedTokens();
  }
}
