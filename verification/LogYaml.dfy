/** The LexicalCast pairs between log definitions and YAML trees. Emitting a tree and loading the
    text again is taken to give the tree back. */
module LogYaml {
  import opened LogDefines

  datatype Yaml = Null | Scalar(text: string) | List(items: seq<Yaml>) | Map(pairs: seq<(string, Yaml)>)

  type Pairs = seq<(string, Yaml)>

  /** Err stands for a thrown exception. */
  datatype Result<+T> = Ok(value: T) | Err

  /** Node::Scalar(), empty for anything but a scalar. */
  function Text(y: Yaml): string {
    if y.Scalar? then y.text else ""
  }

  // ---- Names of levels and appender types ----

  function Upper(c: char): char {
    if 'a' <= c <= 'z' then c - 'a' + 'A' else c
  }

  function ToUpper(s: string): (u: string)
    ensures |u| == |s| && forall i :: 0 <= i < |s| ==> u[i] == Upper(s[i])
  {
    seq(|s|, i requires 0 <= i < |s| => Upper(s[i]))
  }

  function LevelName(l: Level): string {
    match l
    case DEBUG => "DEBUG"
    case INFO => "INFO"
    case WARN => "WARN"
    case ERROR => "ERROR"
    case FATAL => "FATAL"
    case UNKNOW => "UNKNOW"
  }

  function LevelOf(s: string): Level {
    var u := ToUpper(s);
    if u == "DEBUG" then DEBUG
    else if u == "INFO" then INFO
    else if u == "WARN" then WARN
    else if u == "ERROR" then ERROR
    else if u == "FATAL" then FATAL
    else UNKNOW
  }

  function KindName(k: Kind): string {
    match k
    case FileLog => "FileLogAppender"
    case StdoutLog => "StdoutLogAppender"
    case UnknownLog => "UnknowAppender"
  }

  function KindOf(s: string): Kind {
    if s == "FileLogAppender" then FileLog else if s == "StdoutLogAppender" then StdoutLog else UnknownLog
  }

  lemma NamesRoundTrip(l: Level, k: Kind)
    ensures LevelOf(LevelName(l)) == l && KindOf(KindName(k)) == k
  {
    assert ToUpper(LevelName(l)) == LevelName(l);
  }

  // ---- Writing ----

  function PairIf(c: bool, key: string, text: string): Pairs {
    if c then [(key, Scalar(text))] else []
  }

  /** A node to which keys were assigned one by one; untouched it is null. */
  function Node(ps: Pairs): Yaml {
    if ps == [] then Null else Map(ps)
  }

  function AppenderPairs(a: AppenderDefine): Pairs {
    PairIf(a.level != UNKNOW, "level", LevelName(a.level)) + PairIf(a.formatter != "", "formatter", a.formatter)
    + PairIf(a.file != "", "file", a.file) + PairIf(a.kind != UnknownLog, "type", KindName(a.kind))
  }

  function WriteAppender(a: AppenderDefine): Yaml {
    Node(AppenderPairs(a))
  }

  function WriteAppenders(ds: seq<AppenderDefine>): (ys: seq<Yaml>)
    ensures |ys| == |ds| && forall i :: 0 <= i < |ds| ==> ys[i] == WriteAppender(ds[i])
  {
    seq(|ds|, i requires 0 <= i < |ds| => WriteAppender(ds[i]))
  }

  function HeadPairs(d: LogDefine): Pairs {
    [("name", Scalar(d.name))] + PairIf(d.level != UNKNOW, "level", LevelName(d.level))
    + PairIf(d.formatter != "", "formatter", d.formatter)
  }

  function DefinePairs(d: LogDefine): Pairs {
    HeadPairs(d) + (if d.appenders == [] then [] else [("appenders", List(WriteAppenders(d.appenders)))])
  }

  /** A pattern that does not parse makes checkValid throw rather than return false. */
  predicate GoodFormatter(f: string) {
    f == "" || ValidPattern(f)
  }

  function WriteDefine(d: LogDefine): Result<Yaml> {
    if GoodFormatter(d.formatter) then Ok(Node(DefinePairs(d))) else Err
  }

  // ---- Reading ----

  const NEW_APPENDER := AppenderDefine(UnknownLog, UNKNOW, "", "")

  function AppenderKey(a: AppenderDefine, key: string, y: Yaml): AppenderDefine {
    if key == "type" then a.(kind := KindOf(Text(y)))
    else if key == "level" then a.(level := LevelOf(Text(y)))
    else if key == "file" then a.(file := Text(y))
    else if key == "formatter" then a.(formatter := Text(y))
    else a
  }

  function AppenderKeys(ps: Pairs): AppenderDefine {
    if ps == [] then NEW_APPENDER
    else AppenderKey(AppenderKeys(ps[..|ps| - 1]), ps[|ps| - 1].0, ps[|ps| - 1].1)
  }

  /** The entries of a sequence have no key, and asking for it throws. */
  function ReadAppender(y: Yaml): Result<AppenderDefine> {
    match y
    case Map(ps) => Ok(AppenderKeys(ps))
    case List(items) => if items == [] then Ok(NEW_APPENDER) else Err
    case _ => Ok(NEW_APPENDER)
  }

  function ReadAppenders(ys: seq<Yaml>): Result<seq<AppenderDefine>> {
    if ys == [] then Ok([])
    else
      match ReadAppenders(ys[..|ys| - 1])
      case Err => Err
      case Ok(front) =>
        match ReadAppender(ys[|ys| - 1])
        case Err => Err
        case Ok(a) => Ok(front + [a])
  }

  /** node[key]: the first entry with that key. */
  function Lookup(ps: Pairs, key: string): Yaml {
    if ps == [] then Null else if ps[0].0 == key then ps[0].1 else Lookup(ps[1..], key)
  }

  const NEW_DEFINE := LogDefine("", UNKNOW, "", [])

  function DefineKey(all: Pairs, d: LogDefine, key: string, y: Yaml): Result<LogDefine> {
    if key == "name" then if Text(y) == "" then Err else Ok(d.(name := Text(y)))
    else if key == "level" then Ok(d.(level := LevelOf(Text(y))))
    else if key == "formatter" then if ValidPattern(Text(y)) then Ok(d.(formatter := Text(y))) else Err
    else if key == "appenders" then
      match Lookup(all, key)
      case List(items) =>
        (match ReadAppenders(items)
         case Err => Err
         case Ok(more) => Ok(d.(appenders := d.appenders + more)))
      case Map(ps) => if ps == [] then Ok(d) else Err
      case _ => Ok(d)
    else Ok(d)
  }

  function DefineKeys(all: Pairs, ps: Pairs): Result<LogDefine>
    decreases |ps|
  {
    if ps == [] then Ok(NEW_DEFINE)
    else
      match DefineKeys(all, ps[..|ps| - 1])
      case Err => Err
      case Ok(d) => DefineKey(all, d, ps[|ps| - 1].0, ps[|ps| - 1].1)
  }

  function InheritOne(d: LogDefine, a: AppenderDefine): AppenderDefine {
    var a1 := if d.formatter != "" && a.formatter == "" then a.(formatter := d.formatter) else a;
    if d.level != UNKNOW && a1.level == UNKNOW then a1.(level := d.level) else a1
  }

  /** Appenders take the formatter and the level they lack from their logger. */
  function Inherit(d: LogDefine): (r: LogDefine)
    ensures |r.appenders| == |d.appenders|
    ensures forall i :: 0 <= i < |d.appenders| ==> r.appenders[i] == InheritOne(d, d.appenders[i])
  {
    d.(appenders := seq(|d.appenders|, i requires 0 <= i < |d.appenders| => InheritOne(d, d.appenders[i])))
  }

  function ReadDefine(y: Yaml): Result<LogDefine> {
    var read := match y
                case Map(ps) => DefineKeys(ps, ps)
                case List(items) => if items == [] then Ok(NEW_DEFINE) else Err
                case _ => Ok(NEW_DEFINE);
    match read
    case Err => Err
    case Ok(d) => Ok(Inherit(d))
  }

  // ---- Round trip ----

  lemma AppenderPairIf(ps: Pairs, c: bool, key: string, text: string)
    ensures AppenderKeys(ps + PairIf(c, key, text)) ==
            if c then AppenderKey(AppenderKeys(ps), key, Scalar(text)) else AppenderKeys(ps)
  {
    if c {
      assert (ps + [(key, Scalar(text))])[..|ps|] == ps;
    } else {
      assert ps + [] == ps;
    }
  }

  /** An appender definition is read back exactly as it was. */
  lemma AppenderRoundTrip(a: AppenderDefine)
    ensures ReadAppender(WriteAppender(a)) == Ok(a)
  {
    var p2 := PairIf(a.level != UNKNOW, "level", LevelName(a.level))
              + PairIf(a.formatter != "", "formatter", a.formatter);
    FirstHalf(a);
    AppenderPairIf(p2, a.file != "", "file", a.file);
    AppenderPairIf(p2 + PairIf(a.file != "", "file", a.file), a.kind != UnknownLog, "type", KindName(a.kind));
    NamesRoundTrip(a.level, a.kind);
  }

  lemma FirstHalf(a: AppenderDefine)
    ensures
      var ps := PairIf(a.level != UNKNOW, "level", LevelName(a.level))
                + PairIf(a.formatter != "", "formatter", a.formatter);
      AppenderKeys(ps) == AppenderDefine(UnknownLog, a.level, a.formatter, "")
  {
    var p1 := PairIf(a.level != UNKNOW, "level", LevelName(a.level));
    NamesRoundTrip(a.level, a.kind);
    assert [] + p1 == p1;
    AppenderPairIf([], a.level != UNKNOW, "level", LevelName(a.level));
    AppenderPairIf(p1, a.formatter != "", "formatter", a.formatter);
  }

  lemma {:induction false} AllRead(ys: seq<Yaml>, ds: seq<AppenderDefine>)
    requires |ys| == |ds| && forall i :: 0 <= i < |ds| ==> ReadAppender(ys[i]) == Ok(ds[i])
    ensures ReadAppenders(ys) == Ok(ds)
    decreases |ds|
  {
    if ds != [] {
      var n := |ds| - 1;
      AllRead(ys[..n], ds[..n]);
      assert ds[..n] + [ds[n]] == ds;
    }
  }

  lemma AppendersRoundTrip(ds: seq<AppenderDefine>)
    ensures ReadAppenders(WriteAppenders(ds)) == Ok(ds)
  {
    var ys := WriteAppenders(ds);
    forall i | 0 <= i < |ds| ensures ReadAppender(ys[i]) == Ok(ds[i]) { AppenderRoundTrip(ds[i]); }
    AllRead(ys, ds);
  }

  lemma DefineSnoc(all: Pairs, ps: Pairs, key: string, y: Yaml)
    ensures DefineKeys(all, ps + [(key, y)]) ==
            match DefineKeys(all, ps) case Err => Err case Ok(d) => DefineKey(all, d, key, y)
  {
    assert (ps + [(key, y)])[..|ps|] == ps;
  }

  lemma DefinePairIf(all: Pairs, ps: Pairs, c: bool, key: string, text: string)
    requires DefineKeys(all, ps).Ok?
    ensures DefineKeys(all, ps + PairIf(c, key, text)) ==
            if c then DefineKey(all, DefineKeys(all, ps).value, key, Scalar(text)) else DefineKeys(all, ps)
  {
    if c {
      DefineSnoc(all, ps, key, Scalar(text));
    } else {
      assert ps + [] == ps;
    }
  }

  lemma {:induction false} LookupSkips(ps: Pairs, qs: Pairs, key: string)
    requires forall i :: 0 <= i < |ps| ==> ps[i].0 != key
    ensures Lookup(ps + qs, key) == Lookup(qs, key)
    decreases |ps|
  {
    if ps == [] {
      assert ps + qs == qs;
    } else {
      assert (ps + qs)[1..] == ps[1..] + qs;
      LookupSkips(ps[1..], qs, key);
    }
  }

  lemma HeadIsRead(d: LogDefine, all: Pairs)
    requires d.name != "" && GoodFormatter(d.formatter)
    ensures DefineKeys(all, HeadPairs(d)) == Ok(d.(appenders := []))
  {
    NamesRoundTrip(d.level, UnknownLog);
    var p0 := [("name", Scalar(d.name))];
    var p1 := p0 + PairIf(d.level != UNKNOW, "level", LevelName(d.level));
    assert [] + p0 == p0;
    DefineSnoc(all, [], "name", Scalar(d.name));
    DefinePairIf(all, p0, d.level != UNKNOW, "level", LevelName(d.level));
    DefinePairIf(all, p1, d.formatter != "", "formatter", d.formatter);
  }

  lemma AppendersAreRead(d: LogDefine, all: Pairs, ys: seq<Yaml>)
    requires all == HeadPairs(d) + [("appenders", List(ys))]
    requires DefineKeys(all, HeadPairs(d)) == Ok(d.(appenders := [])) && ReadAppenders(ys) == Ok(d.appenders)
    ensures DefineKeys(all, all) == Ok(d)
  {
    DefineSnoc(all, HeadPairs(d), "appenders", List(ys));
    LookupSkips(HeadPairs(d), [("appenders", List(ys))], "appenders");
    assert [] + d.appenders == d.appenders;
  }

  lemma WrittenIsRead(d: LogDefine)
    requires d.name != "" && GoodFormatter(d.formatter)
    ensures ReadDefine(Node(DefinePairs(d))) == Ok(Inherit(d))
  {
    var all := DefinePairs(d);
    HeadIsRead(d, all);
    if d.appenders == [] {
      assert all == HeadPairs(d);
    } else {
      AppendersRoundTrip(d.appenders);
      AppendersAreRead(d, all, WriteAppenders(d.appenders));
    }
    assert DefineKeys(all, all) == Ok(d);
  }

  /** Writing a definition and reading it back gives the definition with level and formatter
      inherited by its appenders, if and only if its name is not empty and its formatter parses. */
  lemma RoundTripIff(d: LogDefine)
    ensures WriteDefine(d).Ok? && ReadDefine(WriteDefine(d).value) == Ok(Inherit(d)) <==>
            d.name != "" && GoodFormatter(d.formatter)
  {
    if d.name != "" && GoodFormatter(d.formatter) {
      WrittenIsRead(d);
    } else if GoodFormatter(d.formatter) {
      NamelessIsErr(DefinePairs(d), DefinePairs(d));
    }
  }

  lemma {:induction false} NamelessIsErr(all: Pairs, ps: Pairs)
    requires ps != [] && ps[0] == ("name", Scalar(""))
    ensures DefineKeys(all, ps) == Err
    decreases |ps|
  {
    if |ps| > 1 {
      NamelessIsErr(all, ps[..|ps| - 1]);
    } else {
      assert ps[..0] == [];
    }
  }

  lemma InheritIdempotent(d: LogDefine)
    ensures Inherit(Inherit(d)) == Inherit(d)
  {
    assert Inherit(Inherit(d)).appenders == Inherit(d).appenders;
  }

  lemma {:induction false} ReadFormatterIsGood(all: Pairs, ps: Pairs)
    requires DefineKeys(all, ps).Ok?
    ensures GoodFormatter(DefineKeys(all, ps).value.formatter)
    decreases |ps|
  {
    if ps != [] {
      ReadFormatterIsGood(all, ps[..|ps| - 1]);
    }
  }

  /** On definitions that came from the parser, writing and reading again is the identity if and
      only if the definition has a name. */
  lemma ParsedRoundTripIff(y: Yaml, d: LogDefine)
    requires ReadDefine(y) == Ok(d)
    ensures WriteDefine(d).Ok?
    ensures ReadDefine(WriteDefine(d).value) == Ok(d) <==> d.name != ""
  {
    var raw := match y case Map(ps) => DefineKeys(ps, ps).value case _ => NEW_DEFINE;
    if y.Map? {
      ReadFormatterIsGood(y.pairs, y.pairs);
    }
    assert d == Inherit(raw) && GoodFormatter(d.formatter);
    InheritIdempotent(raw);
    RoundTripIff(d);
  }

  // ---- Names and keys, written out ----

  /** Levels are read in any mixture of upper and lower case, and by nothing else. */
  lemma LevelIsRead(s: string, l: Level)
    requires l != UNKNOW
    ensures LevelOf(s) == l <==>
            && |s| == |LevelName(l)|
            && forall i :: 0 <= i < |s| ==> s[i] == LevelName(l)[i] || s[i] as int == LevelName(l)[i] as int + 32
  {
    var u, name := ToUpper(s), LevelName(l);
    NamesRoundTrip(l, UnknownLog);
    assert LevelOf(s) == l <==> u == name;
    if |s| == |name| {
      forall i | 0 <= i < |s| ensures u[i] == name[i] <==> s[i] == name[i] || s[i] as int == name[i] as int + 32 {
        NameIsUpper(l, i);
        UpperIs(s[i], name[i]);
      }
      assert u == name <==> forall i :: 0 <= i < |s| ==> u[i] == name[i];
    }
  }

  lemma NameIsUpper(l: Level, i: nat)
    requires i < |LevelName(l)|
    ensures 65 <= LevelName(l)[i] as int <= 90
  {}

  lemma UpperIs(x: char, c: char)
    requires 65 <= c as int <= 90
    ensures Upper(x) == c <==> x == c || x as int == c as int + 32
  {}

  lemma LevelNames()
    ensures LevelName(DEBUG) == "DEBUG" && LevelName(INFO) == "INFO" && LevelName(WARN) == "WARN"
    ensures LevelName(ERROR) == "ERROR" && LevelName(FATAL) == "FATAL" && LevelName(UNKNOW) == "UNKNOW"
  {}

  /** Appender types are read by their names exactly. */
  lemma KindIsRead(s: string)
    ensures KindOf(s) == FileLog <==> s == "FileLogAppender"
    ensures KindOf(s) == StdoutLog <==> s == "StdoutLogAppender"
    ensures KindName(FileLog) == "FileLogAppender" && KindName(StdoutLog) == "StdoutLogAppender"
    ensures KindName(UnknownLog) == "UnknowAppender"
  {}

  /** The keys of an appender's node are those of the fields that are set, in this order. */
  lemma AppenderIsWritten(a: AppenderDefine)
    ensures
      var ps := (if a.level == UNKNOW then [] else [("level", Scalar(LevelName(a.level)))])
              + (if a.formatter == "" then [] else [("formatter", Scalar(a.formatter))])
              + (if a.file == "" then [] else [("file", Scalar(a.file))])
              + (if a.kind == UnknownLog then [] else [("type", Scalar(KindName(a.kind)))]);
      WriteAppender(a) == if ps == [] then Null else Map(ps)
  {}

  /** A definition's node always has its name, and its other keys where the fields are set. */
  lemma DefineIsWritten(d: LogDefine)
    requires d.formatter == "" || ValidPattern(d.formatter)
    ensures
      WriteDefine(d) == Ok(Map(
        [("name", Scalar(d.name))]
        + (if d.level == UNKNOW then [] else [("level", Scalar(LevelName(d.level)))])
        + (if d.formatter == "" then [] else [("formatter", Scalar(d.formatter))])
        + (if d.appenders == [] then [] else [("appenders", List(WriteAppenders(d.appenders)))])))
  {}

  /** Writing and reading gives each appender the formatter and the level of its logger where it has
      none of its own, and changes nothing else. */
  lemma AppendersAfterRoundTrip(d: LogDefine, i: nat)
    requires d.name != "" && (d.formatter == "" || ValidPattern(d.formatter)) && i < |d.appenders|
    ensures WriteDefine(d).Ok? && ReadDefine(WriteDefine(d).value).Ok?
    ensures
      var r, a := ReadDefine(WriteDefine(d).value).value, d.appenders[i];
      && r.name == d.name && r.level == d.level && r.formatter == d.formatter && |r.appenders| == |d.appenders|
      && r.appenders[i].kind == a.kind && r.appenders[i].file == a.file
      && r.appenders[i].formatter == (if a.formatter == "" then d.formatter else a.formatter)
      && r.appenders[i].level == (if a.level == UNKNOW then d.level else a.level)
  {
    RoundTripIff(d);
  }

  /** Keys that are not known change nothing, wherever they stand. */
  lemma UnknownKeyIsIgnored(all: Pairs, ps: Pairs, key: string, y: Yaml)
    requires key !in ["name", "level", "formatter", "appenders", "type", "file"]
    ensures AppenderKeys(ps + [(key, y)]) == AppenderKeys(ps)
    ensures DefineKeys(all, ps + [(key, y)]) == DefineKeys(all, ps)
  {
    assert (ps + [(key, y)])[..|ps|] == ps;
  }

  /** What makes reading throw: an empty name, a formatter that does not parse, a sequence where a map
      is expected. */
  lemma ReadingThrows(text: string, y: Yaml)
    ensures ReadDefine(Map([("name", Scalar(""))])) == Err
    ensures ReadDefine(Map([("name", Scalar("a")), ("formatter", Scalar(text))])).Err? <==> !ValidPattern(text)
    ensures ReadDefine(List([y])) == Err && ReadAppender(List([y])) == Err
    ensures ReadDefine(Map([("appenders", List([List([y])]))])) == Err
  {
    var ps := [("name", Scalar("a"))] + [("formatter", Scalar(text))];
    assert [] + [("name", Scalar("a"))] == [("name", Scalar("a"))];
    DefineSnoc(ps, [], "name", Scalar("a"));
    DefineSnoc(ps, [("name", Scalar("a"))], "formatter", Scalar(text));
    assert ps == [("name", Scalar("a")), ("formatter", Scalar(text))];
    assert [("name", Scalar(""))][..0] == [];
    assert [("appenders", List([List([y])]))][..0] == [] && [List([y])][..0] == [];
  }

  /** What is no scalar counts as the empty text: as a name it throws, as anything else it unsets. */
  lemma OnlyScalarsHaveText(y: Yaml)
    requires !y.Scalar?
    ensures ReadDefine(Map([("name", y)])) == Err
    ensures AppenderKeys([("level", y)]) == AppenderKeys([("type", y)]) == AppenderKeys([("file", y)]) ==
            AppenderKeys([("formatter", y)]) == AppenderDefine(UnknownLog, UNKNOW, "", "")
  {
    assert [("name", y)][..0] == [];
    forall key { OneKey(key, y); }
  }

  lemma OneKey(key: string, y: Yaml)
    ensures AppenderKeys([(key, y)]) == AppenderKey(NEW_APPENDER, key, y)
  {
    assert [(key, y)][..0] == [];
  }

  /** A repeated key is looked up each time, and the first one is found each time. */
  lemma RepeatedAppenders(ys: seq<Yaml>, zs: Yaml, ds: seq<AppenderDefine>)
    requires ReadAppenders(ys) == Ok(ds)
    ensures
      var ps := [("appenders", List(ys)), ("appenders", zs)];
      DefineKeys(ps, ps) == Ok(LogDefine("", UNKNOW, "", ds + ds))
  {
    var all: Pairs := [("appenders", List(ys)), ("appenders", zs)];
    var p1: Pairs := [("appenders", List(ys))];
    assert [] + p1 == p1 && all == p1 + [("appenders", zs)] && [] + ds == ds;
    DefineSnoc(all, [], "appenders", List(ys));
    DefineSnoc(all, p1, "appenders", zs);
  }

  /** The node of the root logger in the configuration the repository ships, without its file. */
  lemma ShippedDefinition(f: string, g: string, file: string)
    requires ValidPattern(f) && f != "" && g != ""
    ensures
      ReadDefine(Map([
        ("name", Scalar("root")), ("level", Scalar("info")), ("formatter", Scalar(f)),
        ("appenders", List([
          Map([("type", Scalar("FileLogAppender")), ("level", Scalar("info")), ("file", Scalar(file)),
               ("formatter", Scalar(g))]),
          Map([("type", Scalar("StdoutLogAppender")), ("level", Scalar("debug"))])]))])) ==
      Ok(LogDefine("root", INFO, f, [AppenderDefine(FileLog, INFO, g, file), AppenderDefine(StdoutLog, DEBUG, f, "")]))
  {
    var a1 := [("type", Scalar("FileLogAppender")), ("level", Scalar("info")), ("file", Scalar(file)),
               ("formatter", Scalar(g))];
    var a2 := [("type", Scalar("StdoutLogAppender")), ("level", Scalar("debug"))];
    ShippedFile(file, g);
    ShippedStdout();
    AllRead([Map(a1), Map(a2)], [AppenderDefine(FileLog, INFO, g, file), AppenderDefine(StdoutLog, DEBUG, "", "")]);
    var ds := [AppenderDefine(FileLog, INFO, g, file), AppenderDefine(StdoutLog, DEBUG, "", "")];
    ShippedRoot(f, [Map(a1), Map(a2)], ds);
    var d := LogDefine("root", INFO, f, ds);
    assert Inherit(d).appenders == [AppenderDefine(FileLog, INFO, g, file), AppenderDefine(StdoutLog, DEBUG, f, "")];
  }

  lemma AppenderSnoc(ps: Pairs, key: string, text: string, a: AppenderDefine)
    requires AppenderKeys(ps) == a
    ensures AppenderKeys(ps + [(key, Scalar(text))]) == AppenderKey(a, key, Scalar(text))
  {
    AppenderPairIf(ps, true, key, text);
  }

  lemma ShippedFile(file: string, g: string)
    ensures
      AppenderKeys([("type", Scalar("FileLogAppender")), ("level", Scalar("info")), ("file", Scalar(file)),
                    ("formatter", Scalar(g))]) ==
      AppenderDefine(FileLog, INFO, g, file)
  {
    LevelIsRead("info", INFO);
    var p1: Pairs := [("type", Scalar("FileLogAppender"))];
    var p2 := p1 + [("level", Scalar("info"))];
    var p3 := p2 + [("file", Scalar(file))];
    assert [] + p1 == p1;
    AppenderSnoc([], "type", "FileLogAppender", NEW_APPENDER);
    AppenderSnoc(p1, "level", "info", AppenderDefine(FileLog, UNKNOW, "", ""));
    AppenderSnoc(p2, "file", file, AppenderDefine(FileLog, INFO, "", ""));
    AppenderSnoc(p3, "formatter", g, AppenderDefine(FileLog, INFO, "", file));
    assert p3 + [("formatter", Scalar(g))] ==
           [("type", Scalar("FileLogAppender")), ("level", Scalar("info")), ("file", Scalar(file)),
            ("formatter", Scalar(g))];
  }

  lemma ShippedStdout()
    ensures AppenderKeys([("type", Scalar("StdoutLogAppender")), ("level", Scalar("debug"))]) ==
            AppenderDefine(StdoutLog, DEBUG, "", "")
  {
    LevelIsRead("debug", DEBUG);
    var p1: Pairs := [("type", Scalar("StdoutLogAppender"))];
    assert [] + p1 == p1;
    AppenderSnoc([], "type", "StdoutLogAppender", NEW_APPENDER);
    AppenderSnoc(p1, "level", "debug", AppenderDefine(StdoutLog, UNKNOW, "", ""));
    assert p1 + [("level", Scalar("debug"))] == [("type", Scalar("StdoutLogAppender")), ("level", Scalar("debug"))];
  }

  lemma ShippedRoot(f: string, ys: seq<Yaml>, ds: seq<AppenderDefine>)
    requires ValidPattern(f) && ReadAppenders(ys) == Ok(ds)
    ensures
      var ps :=
        [("name", Scalar("root")), ("level", Scalar("info")), ("formatter", Scalar(f)), ("appenders", List(ys))];
      DefineKeys(ps, ps) == Ok(LogDefine("root", INFO, f, ds))
  {
    LevelIsRead("info", INFO);
    var all: Pairs :=
      [("name", Scalar("root")), ("level", Scalar("info")), ("formatter", Scalar(f)), ("appenders", List(ys))];
    var p1: Pairs := [("name", Scalar("root"))];
    var p2 := p1 + [("level", Scalar("info"))];
    var p3 := p2 + [("formatter", Scalar(f))];
    assert [] + p1 == p1;
    DefineSnoc(all, [], "name", Scalar("root"));
    DefineSnoc(all, p1, "level", Scalar("info"));
    DefineSnoc(all, p2, "formatter", Scalar(f));
    DefineSnoc(all, p3, "appenders", List(ys));
    assert all == p3 + [("appenders", List(ys))];
    LookupSkips(p3, [("appenders", List(ys))], "appenders");
    assert [] + ds == ds;
  }

  // ---- The conversions as loops over the nodes ----

  method CastToAppender(y: Yaml) returns (r: Result<AppenderDefine>)
    ensures r == ReadAppender(y)
  {
    if y.List? && y.items != [] {
      return Err;
    }
    var define := NEW_APPENDER;
    if y.Map? {
      for i := 0 to |y.pairs|
        invariant define == AppenderKeys(y.pairs[..i])
      {
        define := AppenderKey(define, y.pairs[i].0, y.pairs[i].1);
        assert y.pairs[..i + 1][..i] == y.pairs[..i];
      }
      assert y.pairs[..|y.pairs|] == y.pairs;
    }
    return Ok(define);
  }

  method CastToAppenders(ys: seq<Yaml>) returns (r: Result<seq<AppenderDefine>>)
    ensures r == ReadAppenders(ys)
  {
    var all: seq<AppenderDefine> := [];
    for i := 0 to |ys|
      invariant ReadAppenders(ys[..i]) == Ok(all)
    {
      var a := CastToAppender(ys[i]);
      assert ys[..i + 1][..i] == ys[..i];
      if a.Err? {
        ErrStays(ys, i + 1);
        return Err;
      }
      all := all + [a.value];
    }
    assert ys[..|ys|] == ys;
    return Ok(all);
  }

  lemma {:induction false} ErrStays(ys: seq<Yaml>, k: nat)
    requires k <= |ys| && ReadAppenders(ys[..k]) == Err
    ensures ReadAppenders(ys) == Err
    decreases |ys| - k
  {
    if k == |ys| {
      assert ys[..k] == ys;
    } else {
      assert ys[..k + 1][..k] == ys[..k];
      ErrStays(ys, k + 1);
    }
  }

  lemma {:induction false} DefineErrStays(all: Pairs, ps: Pairs, k: nat)
    requires k <= |ps| && DefineKeys(all, ps[..k]) == Err
    ensures DefineKeys(all, ps) == Err
    decreases |ps| - k
  {
    if k == |ps| {
      assert ps[..k] == ps;
    } else {
      assert ps[..k + 1][..k] == ps[..k];
      DefineErrStays(all, ps, k + 1);
    }
  }

  method CastToDefine(y: Yaml) returns (r: Result<LogDefine>)
    ensures r == ReadDefine(y)
  {
    if y.List? && y.items != [] {
      return Err;
    }
    var define := NEW_DEFINE;
    if y.Map? {
      for i := 0 to |y.pairs|
        invariant DefineKeys(y.pairs, y.pairs[..i]) == Ok(define)
      {
        assert y.pairs[..i + 1][..i] == y.pairs[..i];
        var next := CastKey(y.pairs, define, y.pairs[i].0, y.pairs[i].1);
        if next.Err? {
          DefineErrStays(y.pairs, y.pairs, i + 1);
          return Err;
        }
        define := next.value;
      }
      assert y.pairs[..|y.pairs|] == y.pairs;
    }
    var inherited := InheritAll(define);
    return Ok(inherited);
  }

  /** One turn of the key loop. */
  method CastKey(all: Pairs, d: LogDefine, key: string, y: Yaml) returns (r: Result<LogDefine>)
    ensures r == DefineKey(all, d, key, y)
  {
    if key == "appenders" && Lookup(all, key).List? {
      var more := CastToAppenders(Lookup(all, key).items);
      return if more.Err? then Err else Ok(d.(appenders := d.appenders + more.value));
    }
    return DefineKey(all, d, key, y);
  }

  /** The final loop over the appenders, which are updated in place. */
  method InheritAll(d: LogDefine) returns (r: LogDefine)
    ensures r == Inherit(d)
  {
    r := d;
    for i := 0 to |d.appenders|
      invariant r == d.(appenders := r.appenders) && |r.appenders| == |d.appenders|
      invariant forall j :: 0 <= j < |d.appenders| ==>
        r.appenders[j] == if j < i then InheritOne(d, d.appenders[j]) else d.appenders[j]
    {
      var a := r.appenders[i];
      if r.formatter != "" && a.formatter == "" {
        a := a.(formatter := r.formatter);
      }
      if r.level != UNKNOW && a.level == UNKNOW {
        a := a.(level := r.level);
      }
      r := r.(appenders := r.appenders[i := a]);
    }
    assert r.appenders == Inherit(d).appenders;
  }
}
