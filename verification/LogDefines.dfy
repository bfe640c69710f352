/** The log configuration values: levels, appender and logger definitions, and their equalities. */
module LogDefines {
  import Pattern
  import PatternTable

  datatype Level = DEBUG | INFO | WARN | ERROR | FATAL | UNKNOW

  datatype Kind = FileLog | StdoutLog | UnknownLog

  datatype AppenderDefine = AppenderDefine(kind: Kind, level: Level, formatter: string, file: string)

  datatype LogDefine = LogDefine(name: string, level: Level, formatter: string, appenders: seq<AppenderDefine>)

  /** A pattern LogFormatter can be made from; any other makes its constructor throw. */
  predicate ValidPattern(p: string) {
    Pattern.Parse(p).Accept?
  }

  /** A pattern is valid iff it is the printed form of some canonical list of tokens; so the shipped one
      is, an unknown item is not, nor is an open brace. */
  lemma ValidPatternIff(p: string, toks: seq<Pattern.Token>)
    ensures Pattern.Canonical(toks, false) && Pattern.Print(toks) == p ==> ValidPattern(p)
    ensures ValidPattern(p) ==>
      var toks' := Pattern.Parse(p).tokens; Pattern.Canonical(toks', false) && Pattern.Print(toks') == p
    ensures ValidPattern("%d{%Y-%m-%d %H:%M:%S}%T%t%T%F%T[%p]%T<%f:%l>%T%m%n")
    ensures !ValidPattern("%" + ['q']) && !ValidPattern("%m" + ['{'])
  {
    Pattern.ParserIsExact(p, toks);
    if ValidPattern(p) { Pattern.ParserIsExact(p, Pattern.Parse(p).tokens); }
    PatternTable.ShippedFormatter();
    PatternTable.UnknownItem();
    PatternTable.TextAfterItem('{');
  }

  /** LogAppenderDefine::operator==, which compares the other side's file with itself. */
  predicate SameAppender(a: AppenderDefine, b: AppenderDefine) {
    a.kind == b.kind && a.level == b.level && a.formatter == b.formatter
  }

  /** LogDefine::operator==. */
  predicate SameDefine(a: LogDefine, b: LogDefine) {
    && |a.appenders| == |b.appenders|
    && (forall i :: 0 <= i < |a.appenders| ==> SameAppender(a.appenders[i], b.appenders[i]))
    && a.name == b.name && a.level == b.level && a.formatter == b.formatter
  }

  function NoFile(a: AppenderDefine): AppenderDefine {
    a.(file := "")
  }

  /** A definition without the files of its appenders. */
  function NoFiles(d: LogDefine): LogDefine {
    d.(appenders := seq(|d.appenders|, i requires 0 <= i < |d.appenders| => NoFile(d.appenders[i])))
  }

  /** Two definitions compare equal iff they agree in everything but the files of their appenders. */
  lemma SameDefineIff(a: LogDefine, b: LogDefine)
    ensures SameDefine(a, b) <==> NoFiles(a) == NoFiles(b)
  {
    if SameDefine(a, b) {
      assert NoFiles(a).appenders == NoFiles(b).appenders;
    }
    if NoFiles(a) == NoFiles(b) {
      assert |NoFiles(a).appenders| == |a.appenders| && |NoFiles(b).appenders| == |b.appenders|;
      forall i | 0 <= i < |a.appenders| ensures SameAppender(a.appenders[i], b.appenders[i]) {
        assert NoFiles(a).appenders[i] == NoFiles(b).appenders[i];
      }
    }
  }

  /** LogDefine::operator== with its loop. */
  method Equals(a: LogDefine, b: LogDefine) returns (same: bool)
    ensures same <==> SameDefine(a, b)
  {
    if |a.appenders| != |b.appenders| {
      return false;
    }
    for i := 0 to |b.appenders|
      invariant forall j :: 0 <= j < i ==> SameAppender(a.appenders[j], b.appenders[j])
    {
      if !SameAppender(a.appenders[i], b.appenders[i]) {
        return false;
      }
    }
    return a.name == b.name && a.level == b.level && a.formatter == b.formatter;
  }
}
