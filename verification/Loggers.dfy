/** The logger table and the listener that brings it in line with a changed configuration. */
module Loggers {
  import opened Fibers
  import opened LogDefines

  // Everything below takes the pattern every Logger is constructed with as a parameter `p`
  // (in the source "%d{%Y-%m-%d %H:%M:%S}%T%t%T%F%T[%p]%T<%f:%l>%T%m%n").

  datatype Appender = Appender(kind: Kind, level: Level, formatter: string, file: string)

  datatype Logger = Logger(level: Level, formatter: string, appenders: seq<Appender>)

  type Table = map<string, Logger>

  /** std::set<LogDefine>: ordered and unique by name. */
  type Defines = map<string, LogDefine>

  ghost predicate Keyed(d: Defines) {
    forall n :: n in d ==> d[n].name == n
  }

  predicate SameDefines(a: Defines, b: Defines) {
    a.Keys == b.Keys && forall n :: n in a ==> SameDefine(a[n], b[n])
  }

  // ---- Reference: a logger built from its definition alone ----

  predicate GoodAppender(a: AppenderDefine) {
    !a.kind.UnknownLog? && (a.formatter == "" || ValidPattern(a.formatter))
  }

  predicate GoodFormatterOf(d: LogDefine) {
    d.formatter == "" || ValidPattern(d.formatter)
  }

  /** The definition names known appender types and patterns that can be parsed. */
  predicate Buildable(d: LogDefine) {
    GoodFormatterOf(d) && forall i :: 0 <= i < |d.appenders| ==> GoodAppender(d.appenders[i])
  }

  function BuildAppender(p: string, a: AppenderDefine): Appender {
    Appender(a.kind, a.level, if a.formatter == "" then p else a.formatter, if a.kind.FileLog? then a.file else "")
  }

  function BuildAppenders(p: string, ds: seq<AppenderDefine>): (r: seq<Appender>)
    ensures |r| == |ds| && forall i :: 0 <= i < |ds| ==> r[i] == BuildAppender(p, ds[i])
  {
    if ds == [] then [] else BuildAppenders(p, ds[..|ds| - 1]) + [BuildAppender(p, ds[|ds| - 1])]
  }

  function Build(p: string, d: LogDefine): Logger {
    Logger(d.level, p, BuildAppenders(p, d.appenders))
  }

  /** Equal up to the files of the appenders. */
  ghost predicate Alike(a: Logger, b: Logger) {
    && a.level == b.level && a.formatter == b.formatter && |a.appenders| == |b.appenders|
    && forall i :: 0 <= i < |a.appenders| ==> a.appenders[i].(file := "") == b.appenders[i].(file := "")
  }

  // ---- The listener ----

  predicate Changed(old': Defines, new': Defines, n: string) {
    n in new' && (n !in old' || !SameDefine(new'[n], old'[n]))
  }

  predicate Dropped(old': Defines, new': Defines, n: string) {
    n in old' && n !in new'
  }

  /** Every logger still has the formatter it was constructed with: no operation replaces it. */
  ghost predicate AllDefault(p: string, t: Table) {
    forall n :: n in t ==> t[n].formatter == p
  }

  function At(t: Table, n: string): Option<Logger> {
    if n in t then Some(t[n]) else None
  }

  /** What the listener should leave under a name: dropped names are gone, changed ones are built
      anew, the rest is untouched. */
  function Target(p: string, t: Table, old': Defines, new': Defines, n: string): Option<Logger> {
    if Dropped(old', new', n) then None
    else if Changed(old', new', n) then Some(Build(p, new'[n]))
    else At(t, n)
  }

  ghost predicate Reconfigured(p: string, t: Table, old': Defines, new': Defines, t': Table) {
    forall n :: At(t', n) == Target(p, t, old', new', n)
  }

  // ---- The order of the listener, and where it stops ----

  /** std::string::operator<, by which the set of definitions is ordered. */
  predicate Less(a: string, b: string) {
    b != "" && (a == "" || a[0] < b[0] || (a[0] == b[0] && Less(a[1..], b[1..])))
  }

  lemma {:induction false} LessIsTotal(a: string, b: string)
    ensures a == b || Less(a, b) || Less(b, a)
    ensures !(Less(a, b) && Less(b, a)) && !Less(a, a)
  {
    if a != "" && b != "" {
      LessIsTotal(a[1..], b[1..]);
      assert a == [a[0]] + a[1..] && b == [b[0]] + b[1..];
    }
    if a != "" {
      LessIsTotal(a[1..], a[1..]);
    }
  }

  lemma {:induction false} LessIsTransitive(a: string, b: string, c: string)
    requires Less(a, b) && Less(b, c)
    ensures Less(a, c)
  {
    if a != "" && a[0] == b[0] == c[0] {
      LessIsTransitive(a[1..], b[1..], c[1..]);
    }
  }

  ghost predicate IsLeast(names: set<string>, n: string) {
    n in names && forall m :: m in names && m != n ==> Less(n, m)
  }

  lemma {:induction false} LeastExists(names: set<string>)
    requires names != {}
    ensures exists n :: IsLeast(names, n)
  {
    var m :| m in names;
    if names == {m} {
      assert IsLeast(names, m);
    } else {
      LeastExists(names - {m});
      var k :| IsLeast(names - {m}, k);
      LessIsTotal(k, m);
      if Less(k, m) {
        assert IsLeast(names, k);
      } else {
        forall j | j in names && j != m ensures Less(m, j) {
          if j != k { LessIsTransitive(m, k, j); }
        }
        assert IsLeast(names, m);
      }
    }
  }

  /** The listener stops at the first changed name, in order, that cannot be built. */
  ghost predicate StopsAt(old': Defines, new': Defines, bad: string) {
    && Changed(old', new', bad) && !Buildable(new'[bad])
    && forall m :: Changed(old', new', m) && Less(m, bad) ==> Buildable(new'[m])
  }

  predicate Reached(old': Defines, new': Defines, bad: string, n: string) {
    Changed(old', new', n) && (n == bad || Less(n, bad))
  }

  /** The appenders that are made before the first one that cannot be. */
  function GoodPrefix(ds: seq<AppenderDefine>): seq<AppenderDefine> {
    if ds == [] || !GoodAppender(ds[0]) then [] else [ds[0]] + GoodPrefix(ds[1..])
  }

  /** How far a logger gets: its old appenders stay if its own pattern does not parse. */
  function Partial(p: string, t: Table, d: LogDefine): Logger {
    Logger(d.level, p,
           if GoodFormatterOf(d) then BuildAppenders(p, GoodPrefix(d.appenders))
           else if d.name in t then t[d.name].appenders else [])
  }

  lemma {:induction false} GoodPrefixIs(ds: seq<AppenderDefine>, k: nat)
    requires k <= |ds| && (forall i :: 0 <= i < k ==> GoodAppender(ds[i])) && (k < |ds| ==> !GoodAppender(ds[k]))
    ensures GoodPrefix(ds) == ds[..k]
    decreases |ds|
  {
    if k > 0 {
      GoodPrefixIs(ds[1..], k - 1);
      assert ds[..k] == [ds[0]] + ds[1..][..k - 1];
    }
  }

  lemma BuildableGetsThrough(p: string, t: Table, d: LogDefine)
    requires Buildable(d)
    ensures Partial(p, t, d) == Build(p, d)
  {
    GoodPrefixIs(d.appenders, |d.appenders|);
    assert d.appenders[..|d.appenders|] == d.appenders;
  }

  /** What a listener that stops at `bad` leaves behind. */
  ghost predicate PartlyRebuilt(p: string, t: Table, old': Defines, new': Defines, bad: string, t': Table) {
    && StopsAt(old', new', bad)
    && forall n :: At(t', n) == if Reached(old', new', bad, n) then Some(Partial(p, t, new'[n])) else At(t, n)
  }

  /** LoggerManager together with the configuration variable "logs". */
  class LogConfig {
    const p: string      // the pattern of a new Logger
    var value: Defines   // m_val of the variable
    var loggers: Table   // m_loggers
    ghost var named: set<string>  // every name ever defined

    ghost function Now(): State
      reads this
    {
      State(value, loggers, named)
    }

    constructor (p: string, loggers: Table)
      ensures this.p == p && Now() == State(map[], loggers, {})
    {
      this.p, value, this.loggers, named := p, map[], loggers, {};
    }

    /** getLogger: finds the logger or makes a new one. */
    method GetLogger(n: string) returns (l: Logger)
      modifies this`loggers
      ensures loggers == old(loggers)[n := l]
      ensures l == if n in old(loggers) then old(loggers)[n] else Logger(DEBUG, p, [])
    {
      if n in loggers {
        l := loggers[n];
        assert loggers == loggers[n := l];
      } else {
        l := Logger(DEBUG, p, []);
        loggers := loggers[n := l];
      }
    }

    method DelLogger(n: string)
      modifies this`loggers
      ensures loggers == old(loggers) - {n}
    {
      if n !in loggers {
        assert loggers == loggers - {n};
        return;
      }
      loggers := loggers - {n};
    }

    /** One appender. Fails where the source throws (a pattern) or dereferences a null appender (a type). */
    method MakeAppender(a: AppenderDefine, formatter: string) returns (ok: bool, ap: Appender)
      ensures ok <==> GoodAppender(a)
      ensures ok ==> ap == BuildAppender(formatter, a)
    {
      ap := Appender(a.kind, a.level, a.formatter, if a.kind.FileLog? then a.file else "");
      if a.kind.UnknownLog? || (a.formatter != "" && !ValidPattern(a.formatter)) {
        return false, ap;
      }
      if ap.formatter == "" {
        ap := ap.(formatter := formatter);
      }
      ok := true;
    }

    /** The appenders of a definition, made one by one. */
    method MakeAppenders(ds: seq<AppenderDefine>, formatter: string) returns (ok: bool, aps: seq<Appender>)
      ensures ok <==> forall i :: 0 <= i < |ds| ==> GoodAppender(ds[i])
      ensures aps == BuildAppenders(formatter, GoodPrefix(ds))
      ensures ok ==> aps == BuildAppenders(formatter, ds)
    {
      aps := [];
      for i := 0 to |ds|
        invariant aps == BuildAppenders(formatter, ds[..i])
        invariant forall j :: 0 <= j < i ==> GoodAppender(ds[j])
      {
        var made, ap := MakeAppender(ds[i], formatter);
        if !made {
          GoodPrefixIs(ds, i);
          return false, aps;
        }
        BuildSnoc(formatter, ds, i);
        aps := aps + [ap];
      }
      GoodPrefixIs(ds, |ds|);
      assert ds[..|ds|] == ds;
      return true, aps;
    }

    /** The body of the listener's first loop, for a definition that is new or different. */
    method Configure(d: LogDefine) returns (ok: bool)
      requires AllDefault(p, loggers)
      modifies this`loggers
      ensures ok <==> Buildable(d)
      ensures AllDefault(p, loggers)
      ensures loggers == old(loggers)[d.name := Partial(p, old(loggers), d)]
    {
      ghost var before := loggers;
      var logger := GetLogger(d.name);
      ghost var found := logger;
      logger := logger.(level := d.level);
      if d.formatter != "" {
        if !ValidPattern(d.formatter) {
          UpdatedTwice(before, d.name, found, logger);
          loggers := loggers[d.name := logger];
          return false;
        }
        // setFormatter hands the logger's own formatter to its appenders
        logger := logger.(appenders := WithFormatter(logger.appenders, logger.formatter));
      }
      var aps;
      ok, aps := MakeAppenders(d.appenders, logger.formatter);
      UpdatedTwice(before, d.name, found, logger.(appenders := aps));
      loggers := loggers[d.name := logger.(appenders := aps)];
    }

    /** The listener's first loop: rebuilds the new and the changed loggers. */
    method RebuildChanged(old': Defines, new': Defines) returns (ok: bool)
      requires AllDefault(p, loggers) && Keyed(new')
      modifies this`loggers
      ensures AllDefault(p, loggers)
      ensures ok <==> forall n :: Changed(old', new', n) ==> Buildable(new'[n])
      ensures ok ==>
        forall n :: At(loggers, n) == if Changed(old', new', n) then Some(Build(p, new'[n])) else At(old(loggers), n)
      ensures !ok ==> exists bad :: PartlyRebuilt(p, old(loggers), old', new', bad, loggers)
    {
      var todo := new'.Keys;
      while todo != {}
        invariant todo <= new'.Keys && AllDefault(p, loggers) && InOrder(new'.Keys, todo)
        invariant Progress(p, old(loggers), old', new', todo, loggers)
      {
        LeastExists(todo);
        var n :| n in todo && forall m :: m in todo && m != n ==> Less(n, m);
        NextInOrder(new'.Keys, todo, n);
        if n !in old' || !SameDefine(new'[n], old'[n]) {
          ghost var before := loggers;
          ok := Configure(new'[n]);
          if !ok {
            StoppedAt(p, old(loggers), before, old', new', todo, n, loggers);
            return false;
          }
          RebuiltOne(p, old(loggers), before, old', new', todo, n, loggers);
        }
        todo := todo - {n};
      }
      return true;
    }

    /** The listener's second loop: removes the loggers that are no longer defined. */
    method RemoveDropped(old': Defines, new': Defines)
      requires AllDefault(p, loggers)
      modifies this`loggers
      ensures AllDefault(p, loggers)
      ensures forall n :: At(loggers, n) == if Dropped(old', new', n) then None else At(old(loggers), n)
    {
      var todo := old'.Keys;
      while todo != {}
        invariant todo <= old'.Keys && AllDefault(p, loggers)
        invariant forall n ::
          At(loggers, n) == if Dropped(old', new', n) && n !in todo then None else At(old(loggers), n)
      {
        var n :| n in todo;
        if n !in new' {
          ghost var before := loggers;
          var logger := GetLogger(n);
          loggers := loggers[n := logger.(appenders := [])];
          DelLogger(n);
          assert forall k :: At(loggers, k) == if k == n then None else At(before, k);
        }
        todo := todo - {n};
      }
    }

    /** The listener. */
    method Listen(old': Defines, new': Defines) returns (ok: bool)
      requires AllDefault(p, loggers) && Keyed(new')
      modifies this`loggers
      ensures AllDefault(p, loggers)
      ensures ok <==> forall n :: Changed(old', new', n) ==> Buildable(new'[n])
      ensures ok ==> Reconfigured(p, old(loggers), old', new', loggers)
      ensures !ok ==> exists bad :: PartlyRebuilt(p, old(loggers), old', new', bad, loggers)
    {
      ok := RebuildChanged(old', new');
      if ok {
        RemoveDropped(old', new');
      }
    }

    /** ConfigVar::setValue for the variable "logs" with the listener registered. */
    method SetValue(v: Defines) returns (ok: bool)
      requires AllDefault(p, loggers) && Keyed(v)
      modifies this
      ensures AllDefault(p, loggers)
      ensures ok <==> SameDefines(old(value), v) || forall n :: Changed(old(value), v, n) ==> Buildable(v[n])
      ensures ok ==> Sets(p, old(Now()), v, Now())
      ensures !ok ==> exists bad :: FailsAt(p, old(Now()), v, bad, Now())
    {
      named := named + v.Keys;
      if SameDefines(value, v) {
        return true;
      }
      ok := Listen(value, v);
      if !ok {
        ghost var bad :| PartlyRebuilt(p, old(loggers), value, v, bad, loggers);
        assert FailsAt(p, old(Now()), v, bad, Now());
        return false;
      }
      value := v;
    }
  }

  lemma BuildSnoc(p: string, ds: seq<AppenderDefine>, i: nat)
    requires i < |ds|
    ensures BuildAppenders(p, ds[..i + 1]) == BuildAppenders(p, ds[..i]) + [BuildAppender(p, ds[i])]
  {
    assert ds[..i + 1][..i] == ds[..i];
  }

  lemma UpdatedTwice(t: Table, n: string, a: Logger, b: Logger)
    ensures t[n := a][n := b] == t[n := b]
  {}

  /** The names still to do come after the others. */
  ghost predicate InOrder(all: set<string>, todo: set<string>) {
    forall m, n :: m in all && m !in todo && n in todo ==> Less(m, n)
  }

  lemma NextInOrder(all: set<string>, todo: set<string>, n: string)
    requires InOrder(all, todo) && IsLeast(todo, n)
    ensures InOrder(all, todo - {n})
  {}

  /** The changed names that are no longer to do have been built, and nothing else was touched. */
  ghost predicate Progress(p: string, t0: Table, old': Defines, new': Defines, todo: set<string>, t: Table) {
    && (forall n :: Changed(old', new', n) && n !in todo ==> Buildable(new'[n]))
    && forall n :: At(t, n) == if Changed(old', new', n) && n !in todo then Some(Build(p, new'[n])) else At(t0, n)
  }

  lemma RebuiltOne(p: string, t0: Table, t: Table, old': Defines, new': Defines, todo: set<string>, n: string,
                   t': Table)
    requires Progress(p, t0, old', new', todo, t) && n in todo && Changed(old', new', n) && Keyed(new')
    requires Buildable(new'[n]) && t' == t[n := Partial(p, t, new'[n])]
    ensures Progress(p, t0, old', new', todo - {n}, t')
  {
    BuildableGetsThrough(p, t, new'[n]);
  }

  /** The listener stopped at the least name to do. */
  lemma StoppedAt(p: string, t0: Table, t: Table, old': Defines, new': Defines, todo: set<string>, bad: string,
                  t': Table)
    requires Progress(p, t0, old', new', todo, t) && InOrder(new'.Keys, todo) && IsLeast(todo, bad) && Keyed(new')
    requires Changed(old', new', bad) && !Buildable(new'[bad]) && t' == t[bad := Partial(p, t, new'[bad])]
    ensures PartlyRebuilt(p, t0, old', new', bad, t')
  {
    forall n | Changed(old', new', n) ensures Less(n, bad) <==> n !in todo {
      LessIsTotal(n, bad);
    }
    assert Partial(p, t, new'[bad]) == Partial(p, t0, new'[bad]) by { assert At(t, bad) == At(t0, bad); }
    forall n ensures At(t', n) == if Reached(old', new', bad, n) then Some(Partial(p, t0, new'[n])) else At(t0, n) {
      if n != bad && Changed(old', new', n) && n !in todo { BuildableGetsThrough(p, t0, new'[n]); }
    }
  }

  function WithFormatter(aps: seq<Appender>, f: string): seq<Appender> {
    if aps == [] then [] else [aps[0].(formatter := f)] + WithFormatter(aps[1..], f)
  }

  // ---- After any sequence of setValue calls ----

  /** The variable and the loggers, as values; `named` is a history of all names ever defined. */
  datatype State = State(value: Defines, loggers: Table, named: set<string>)

  /** One setValue that goes through; LogConfig.SetValue does this. */
  ghost predicate Sets(p: string, s: State, v: Defines, s': State) {
    && s'.named == s.named + v.Keys
    && if SameDefines(s.value, v) then s'.value == s.value && s'.loggers == s.loggers
       else s'.value == v && Reconfigured(p, s.loggers, s.value, v, s'.loggers)
  }

  /** One setValue whose listener stops at `bad`; LogConfig.SetValue does this otherwise. */
  ghost predicate FailsAt(p: string, s: State, v: Defines, bad: string, s': State) {
    && s'.named == s.named + v.Keys && s'.value == s.value && !SameDefines(s.value, v)
    && PartlyRebuilt(p, s.loggers, s.value, v, bad, s'.loggers)
  }

  /** The logger of a name agrees with what is set, or the name is not set and has no logger. */
  ghost predicate InStep(p: string, s: State, n: string) {
    if n in s.value then n in s.loggers && Alike(s.loggers[n], Build(p, s.value[n])) else n !in s.loggers
  }

  lemma SameBuildsAlike(p: string, a: LogDefine, b: LogDefine)
    requires SameDefine(a, b)
    ensures Alike(Build(p, a), Build(p, b))
  {
    forall i | 0 <= i < |a.appenders|
      ensures Build(p, a).appenders[i].(file := "") == Build(p, b).appenders[i].(file := "")
    {
      assert SameAppender(a.appenders[i], b.appenders[i]);
    }
  }

  lemma AlikeTransitive(a: Logger, b: Logger, c: Logger)
    requires Alike(a, b) && Alike(b, c)
    ensures Alike(a, c)
  {
    forall i | 0 <= i < |a.appenders|
      ensures a.appenders[i].(file := "") == c.appenders[i].(file := "")
    {
      assert a.appenders[i].(file := "") == b.appenders[i].(file := "");
    }
  }

  /** A call that goes through brings into step exactly the names it finds changed or dropped; a
      name that compares equal stays as far out of step as it was. */
  lemma SetRepairsExactly(p: string, s: State, v: Defines, s': State, n: string)
    requires Sets(p, s, v, s')
    ensures InStep(p, s', n) <==> Changed(s.value, v, n) || Dropped(s.value, v, n) || InStep(p, s, n)
  {
    if !SameDefines(s.value, v) {
      assert At(s'.loggers, n) == Target(p, s.loggers, s.value, v, n);
      if n in v && !Changed(s.value, v, n) && n in s.loggers {
        SameDefineAlike(p, s.loggers[n], s.value[n], v[n]);
      }
    }
  }

  /** After a call that fails, a name the listener has reached is in step iff what was made of it is
      alike what is still set; every other name is in step iff it was before. */
  lemma FailureLeavesExactly(p: string, s: State, v: Defines, bad: string, s': State, n: string)
    requires FailsAt(p, s, v, bad, s')
    ensures InStep(p, s', n) <==>
            if Reached(s.value, v, bad, n)
            then n in s.value && Alike(Partial(p, s.loggers, v[n]), Build(p, s.value[n]))
            else InStep(p, s, n)
  {
    assert At(s'.loggers, n) ==
           if Reached(s.value, v, bad, n) then Some(Partial(p, s.loggers, v[n])) else At(s.loggers, n);
  }

  /** Where a failing listener stops is determined. */
  lemma StopIsUnique(old': Defines, new': Defines, a: string, b: string)
    requires StopsAt(old', new', a) && StopsAt(old', new', b)
    ensures a == b
  {
    LessIsTotal(a, b);
  }

  /** `states` is what a sequence of setValue calls goes through; `stops` says which of them fail, and
      at which name. */
  ghost predicate History(p: string, states: seq<State>, vs: seq<Defines>, stops: seq<Option<string>>) {
    |states| == |vs| + 1 && |stops| == |vs| && HistoryTo(p, states, vs, stops, |vs|)
  }

  ghost predicate HistoryTo(p: string, states: seq<State>, vs: seq<Defines>, stops: seq<Option<string>>, k: nat)
    requires k <= |vs| && |states| == |vs| + 1 && |stops| == |vs|
  {
    if k == 0 then states[0].value == map[] && states[0].named == {}
    else HistoryTo(p, states, vs, stops, k - 1) && Happens(p, states[k - 1], vs[k - 1], stops[k - 1], states[k])
  }

  ghost predicate Happens(p: string, s: State, v: Defines, stop: Option<string>, s': State) {
    if stop.None? then Sets(p, s, v, s') else FailsAt(p, s, v, stop.value, s')
  }

  /** The names that are out of step after a call: one that goes through removes what it finds changed
      or dropped; a failing one adds what it reached and did not leave alike what is set, and names it
      mentions first, did not reach, and for which there was a logger. */
  ghost function OffNext(p: string, s: State, v: Defines, stop: Option<string>, before: set<string>): set<string> {
    match stop
    case None => set n | n in before && !Changed(s.value, v, n) && !Dropped(s.value, v, n)
    case Some(bad) =>
      (set n | n in before && !Reached(s.value, v, bad, n))
      + (set n | n in v && Reached(s.value, v, bad, n)
                 && !(n in s.value && Alike(Partial(p, s.loggers, v[n]), Build(p, s.value[n]))))
      + (set n | n in v && !Reached(s.value, v, bad, n) && n !in s.named && n in s.loggers)
  }

  ghost function Off(p: string, states: seq<State>, vs: seq<Defines>, stops: seq<Option<string>>, k: nat): set<string>
    requires k <= |vs| && |states| == |vs| + 1 && |stops| == |vs|
  {
    if k == 0 then {} else OffNext(p, states[k - 1], vs[k - 1], stops[k - 1], Off(p, states, vs, stops, k - 1))
  }

  /** Exactly the names in `off` are out of step. */
  ghost predicate OffIs(p: string, s: State, off: set<string>) {
    && s.value.Keys <= s.named && off <= s.named
    && forall n :: n in s.named ==> (n in off <==> !InStep(p, s, n))
  }

  lemma OffAfter(p: string, s: State, v: Defines, stop: Option<string>, s': State, off: set<string>)
    requires OffIs(p, s, off) && Happens(p, s, v, stop, s')
    ensures OffIs(p, s', OffNext(p, s, v, stop, off)) && s'.named == s.named + v.Keys
  {
    forall n | n in s'.named ensures n in OffNext(p, s, v, stop, off) <==> !InStep(p, s', n) {
      match stop
      case None => SetRepairsExactly(p, s, v, s', n);
      case Some(bad) => FailureLeavesExactly(p, s, v, bad, s', n);
    }
  }

  /** The names used so far only grow. */
  ghost predicate NamesGrow(states: seq<State>, vs: seq<Defines>, k: nat) {
    k <= |vs| && k < |states| && forall i :: 0 <= i < k ==> vs[i].Keys <= states[k].named
  }

  lemma NextNames(states: seq<State>, vs: seq<Defines>, k: nat)
    requires NamesGrow(states, vs, k) && k < |vs| && k + 1 < |states|
    requires states[k + 1].named == states[k].named + vs[k].Keys
    ensures NamesGrow(states, vs, k + 1)
  {}

  lemma LastHappens(p: string, states: seq<State>, vs: seq<Defines>, stops: seq<Option<string>>, k: nat)
    requires 0 < k <= |vs| && |states| == |vs| + 1 && |stops| == |vs| && HistoryTo(p, states, vs, stops, k)
    ensures Happens(p, states[k - 1], vs[k - 1], stops[k - 1], states[k])
  {}

  lemma OffStep(p: string, states: seq<State>, vs: seq<Defines>, stops: seq<Option<string>>, k: nat)
    requires k < |vs| && |states| == |vs| + 1 && |stops| == |vs|
    requires Happens(p, states[k], vs[k], stops[k], states[k + 1])
    requires OffIs(p, states[k], Off(p, states, vs, stops, k)) && NamesGrow(states, vs, k)
    ensures OffIs(p, states[k + 1], Off(p, states, vs, stops, k + 1)) && NamesGrow(states, vs, k + 1)
  {
    OffAfter(p, states[k], vs[k], stops[k], states[k + 1], Off(p, states, vs, stops, k));
    NextNames(states, vs, k);
  }

  lemma {:induction false} OffExactly(p: string, states: seq<State>, vs: seq<Defines>, stops: seq<Option<string>>,
                                      k: nat)
    requires k <= |vs| && |states| == |vs| + 1 && |stops| == |vs| && HistoryTo(p, states, vs, stops, k)
    ensures OffIs(p, states[k], Off(p, states, vs, stops, k)) && NamesGrow(states, vs, k)
  {
    if k > 0 {
      OffExactly(p, states, vs, stops, k - 1);
      LastHappens(p, states, vs, stops, k);
      OffStep(p, states, vs, stops, k - 1);
    }
  }

  lemma {:induction false} NoFailureNothingOff(p: string, states: seq<State>, vs: seq<Defines>,
                                               stops: seq<Option<string>>, k: nat)
    requires k <= |vs| && |states| == |vs| + 1 && |stops| == |vs|
    requires forall i :: 0 <= i < k ==> stops[i].None?
    ensures Off(p, states, vs, stops, k) == {}
  {
    if k > 0 {
      NoFailureNothingOff(p, states, vs, stops, k - 1);
    }
  }

  lemma SameDefineAlike(p: string, l: Logger, a: LogDefine, b: LogDefine)
    requires SameDefine(a, b) && SameDefine(b, a)
    ensures Alike(l, Build(p, a)) <==> Alike(l, Build(p, b))
  {
    SameBuildsAlike(p, a, b);
    SameBuildsAlike(p, b, a);
    if Alike(l, Build(p, a)) { AlikeTransitive(l, Build(p, a), Build(p, b)); }
    if Alike(l, Build(p, b)) { AlikeTransitive(l, Build(p, b), Build(p, a)); }
  }

  /** After any sequence of setValue calls, some of which may fail, the last of which goes through: a
      logger named in the last set has the level and the appenders (type, level, formatter) that
      building it from scratch gives, and any other name that was ever used has no logger, if and
      only if no failing call has left it out of step. Without failing calls none is. */
  lemma {:induction false} IncrementalEqualsRebuild(p: string, states: seq<State>, vs: seq<Defines>,
                                                    stops: seq<Option<string>>)
    requires vs != [] && History(p, states, vs, stops) && stops[|vs| - 1].None?
    ensures
      var last, s, off := vs[|vs| - 1], states[|vs|], Off(p, states, vs, stops, |vs|);
      && (forall n :: n in last ==> (n !in off <==> n in s.loggers && Alike(s.loggers[n], Build(p, last[n]))))
      && (forall i, n :: 0 <= i < |vs| && n in vs[i] && n !in last ==> (n !in off <==> n !in s.loggers))
      && ((forall i :: 0 <= i < |vs| ==> stops[i].None?) ==> off == {})
  {
    var m := |vs| - 1;
    var last, s, off := vs[m], states[m + 1], Off(p, states, vs, stops, m + 1);
    OffExactly(p, states, vs, stops, m + 1);
    assert Happens(p, states[m], last, None, s) && SameDefines(s.value, last);
    forall n | n in last ensures n !in off <==> n in s.loggers && Alike(s.loggers[n], Build(p, last[n])) {
      if n in s.loggers { SameDefineAlike(p, s.loggers[n], s.value[n], last[n]); }
    }
    if forall i :: 0 <= i < |vs| ==> stops[i].None? {
      NoFailureNothingOff(p, states, vs, stops, m + 1);
    }
  }

  /** The definition of logger "A" with one level, or with one file. */
  function AtLevel(level: Level): LogDefine {
    LogDefine("A", level, "", [])
  }

  function WritesTo(file: string): LogDefine {
    LogDefine("A", INFO, "", [AppenderDefine(FileLog, INFO, "", file)])
  }

  /** A failing call can leave a logger behind for good: it rebuilds "A" and fails on "B"; setting
      "A" as it was before finds nothing changed, and "A" stays as the failing call left it. */
  lemma FailureLeavesLoggerBehind(p: string, bad: string)
    requires bad != "" && !ValidPattern(bad)
    ensures
      var now := map["A" := AtLevel(INFO)];
      var s0 := State(now, map["A" := Build(p, AtLevel(INFO))], {"A"});
      var v := map["A" := AtLevel(ERROR), "B" := LogDefine("B", INFO, bad, [])];
      var s1 := State(now, map["A" := Build(p, AtLevel(ERROR)), "B" := Logger(INFO, p, [])], {"A", "B"});
      && InStep(p, s0, "A") && FailsAt(p, s0, v, "B", s1) && Sets(p, s1, now, s1) && !InStep(p, s1, "A")
  {
    var now := map["A" := AtLevel(INFO)];
    var v := map["A" := AtLevel(ERROR), "B" := LogDefine("B", INFO, bad, [])];
    assert Less("A", "B");
    assert forall n :: Changed(now, v, n) <==> n == "A" || n == "B";
    assert {"A", "B"} + now.Keys == {"A", "B"};
  }

  // ---- What a logger looks like, field by field ----

  /** The appenders a definition asks for: type and level as defined, the appender's own formatter if
      it has one and else the logger's. */
  ghost predicate HasAppenders(p: string, l: Logger, d: LogDefine) {
    && |l.appenders| == |d.appenders|
    && forall i :: 0 <= i < |d.appenders| ==>
         && l.appenders[i].kind == d.appenders[i].kind
         && l.appenders[i].level == d.appenders[i].level
         && l.appenders[i].formatter == (if d.appenders[i].formatter != "" then d.appenders[i].formatter else p)
  }

  lemma AlikeHasAppenders(p: string, l: Logger, d: LogDefine)
    requires Alike(l, Build(p, d))
    ensures l.level == d.level && l.formatter == p && HasAppenders(p, l, d)
  {
    forall i | 0 <= i < |d.appenders|
      ensures l.appenders[i].(file := "") == BuildAppender(p, d.appenders[i]).(file := "")
    {
      assert l.appenders[i].(file := "") == Build(p, d).appenders[i].(file := "");
    }
  }

  /** After any sequence of setValue calls, the last of which goes through, the logger of a name of the
      last set that no failing call left out of step has the level that is defined, and appenders with
      the types, levels and formatters that are defined. */
  lemma LoggersHaveWhatIsDefined(p: string, states: seq<State>, vs: seq<Defines>, stops: seq<Option<string>>, n: string)
    requires vs != [] && History(p, states, vs, stops) && stops[|vs| - 1].None?
    requires n in vs[|vs| - 1] && n !in Off(p, states, vs, stops, |vs|)
    ensures
      var d, s := vs[|vs| - 1][n], states[|vs|];
      n in s.loggers && s.loggers[n].level == d.level && s.loggers[n].formatter == p && HasAppenders(p, s.loggers[n], d)
  {
    IncrementalEqualsRebuild(p, states, vs, stops);
    AlikeHasAppenders(p, states[|vs|].loggers[n], vs[|vs| - 1][n]);
  }

  /** A name that a call finds changed also gets the files: that of the definition for a file appender,
      none for another. */
  lemma ChangedLoggersHaveTheirFiles(p: string, s: State, v: Defines, s': State, n: string)
    requires Sets(p, s, v, s') && Changed(s.value, v, n)
    ensures n in s'.loggers && s'.loggers[n].level == v[n].level && HasAppenders(p, s'.loggers[n], v[n])
    ensures forall i :: 0 <= i < |v[n].appenders| ==>
      var a := v[n].appenders[i];
      s'.loggers[n].appenders[i].file == if a.kind == FileLog then a.file else ""
  {
    assert !SameDefines(s.value, v);
    assert At(s'.loggers, n) == Target(p, s.loggers, s.value, v, n);
    AlikeHasAppenders(p, s'.loggers[n], v[n]);
  }

  /** What a failing call leaves of the logger it stops at: the new level, and the appenders up to the
      first one that cannot be made, or the old ones if the logger's own pattern does not parse. */
  lemma StoppedLogger(p: string, s: State, v: Defines, bad: string, s': State, k: nat)
    requires FailsAt(p, s, v, bad, s') && Keyed(v) && k <= |v[bad].appenders|
    requires forall i :: 0 <= i < k ==> v[bad].appenders[i].kind != UnknownLog
                                        && (v[bad].appenders[i].formatter == ""
                                            || ValidPattern(v[bad].appenders[i].formatter))
    requires k < |v[bad].appenders| ==>
      v[bad].appenders[k].kind == UnknownLog
      || (v[bad].appenders[k].formatter != "" && !ValidPattern(v[bad].appenders[k].formatter))
    ensures bad in s'.loggers && s'.loggers[bad].level == v[bad].level
    ensures
      var l, d := s'.loggers[bad], v[bad];
      if d.formatter != "" && !ValidPattern(d.formatter)
      then l.appenders == if bad in s.loggers then s.loggers[bad].appenders else []
      else HasAppenders(p, l, d.(appenders := d.appenders[..k]))
  {
    assert At(s'.loggers, bad) == Some(Partial(p, s.loggers, v[bad]));
    if GoodFormatterOf(v[bad]) {
      GoodPrefixIs(v[bad].appenders, k);
      var d := v[bad].(appenders := v[bad].appenders[..k]);
      assert s'.loggers[bad] == Build(p, d);
      AlikeHasAppenders(p, s'.loggers[bad], d);
    }
  }

  /** setValue goes through iff the set compares equal to the present one, or every name it changes has
      a pattern that parses, or none, and appenders of known types with such patterns. */
  lemma BuildableIff(d: LogDefine)
    ensures Buildable(d) <==>
            && (d.formatter != "" ==> ValidPattern(d.formatter))
            && forall i :: 0 <= i < |d.appenders| ==>
                 && d.appenders[i].kind in {FileLog, StdoutLog}
                 && (d.appenders[i].formatter != "" ==> ValidPattern(d.appenders[i].formatter))
  {}

  /** The order of the set is that of the first difference. */
  lemma {:induction false} LessIff(a: string, b: string)
    ensures Less(a, b) <==> exists k :: DifferAt(a, b, k)
    decreases |a|
  {
    if a != "" && b != "" && a[0] == b[0] {
      assert !DifferAt(a, b, 0);
      LessIff(a[1..], b[1..]);
      FirstDifference(a, b);
    } else {
      assert a[..0] == b[..0];
      assert DifferAt(a, b, 0) <==> Less(a, b);
      forall k | k > 0 ensures !DifferAt(a, b, k) {
        assert k <= |a| && k <= |b| && a[0] != b[0] ==> a[..k][0] != b[..k][0];
      }
    }
  }

  ghost predicate DifferAt(a: string, b: string, k: nat) {
    k <= |a| && k < |b| && a[..k] == b[..k] && (k == |a| || a[k] as int < b[k] as int)
  }

  lemma FirstDifference(a: string, b: string)
    requires a != "" && b != "" && a[0] == b[0]
    ensures (exists k :: DifferAt(a, b, k)) <==> exists k :: DifferAt(a[1..], b[1..], k)
  {
    forall k: nat ensures DifferAt(a, b, k + 1) <==> DifferAt(a[1..], b[1..], k) {
      if k + 1 <= |a| && k + 1 < |b| {
        assert a[..k + 1] == [a[0]] + a[1..][..k] && b[..k + 1] == [b[0]] + b[1..][..k];
        assert a[..k + 1] == b[..k + 1] ==> a[..k + 1][1..] == b[..k + 1][1..];
        assert a[..k + 1][1..] == a[1..][..k] && b[..k + 1][1..] == b[1..][..k];
      }
    }
    forall k: nat | k > 0 ensures DifferAt(a, b, k) <==> DifferAt(a[1..], b[1..], k - 1) {
      assert DifferAt(a, b, (k - 1) + 1) <==> DifferAt(a[1..], b[1..], k - 1);
    }
  }

  // ---- What the comparison does not see ----

  /** The files named by the file appenders of two definitions that compare equal. */
  ghost predicate SameFiles(a: LogDefine, b: LogDefine)
    requires SameDefine(a, b)
  {
    forall i :: 0 <= i < |a.appenders| && a.appenders[i].kind.FileLog? ==> a.appenders[i].file == b.appenders[i].file
  }

  /** From loggers that match their definitions to the last detail, setValue leads to loggers that
      match the new ones to the last detail if and only if no definition that compares equal to
      its predecessor names another file. */
  lemma ExactIffFilesAgree(p: string, s: State, v: Defines, s': State, n: string)
    requires Sets(p, s, v, s') && n in v
    requires forall k :: k in s.value ==> At(s.loggers, k) == Some(Build(p, s.value[k]))
    ensures At(s'.loggers, n) == Some(Build(p, v[n])) <==> Changed(s.value, v, n) || SameFiles(s.value[n], v[n])
  {
    if !SameDefines(s.value, v) {
      assert At(s'.loggers, n) == Target(p, s.loggers, s.value, v, n);
    }
    if !Changed(s.value, v, n) {
      SameBuildIff(p, s.value[n], v[n]);
    }
  }

  /** An input on which the file is lost: only the file changes, and the logger keeps the old one. */
  lemma OldFileStays(p: string, x: string, y: string, named: set<string>, s': State)
    requires x != y
    requires
      var s := State(map["A" := WritesTo(x)], map["A" := Build(p, WritesTo(x))], named);
      Sets(p, s, map["A" := WritesTo(y)], s')
    ensures At(s'.loggers, "A") == Some(Build(p, WritesTo(x))) != Some(Build(p, WritesTo(y)))
  {
    assert WritesTo(x).appenders[0].file == x && WritesTo(y).appenders[0].file == y;
    SameBuildIff(p, WritesTo(x), WritesTo(y));
  }

  lemma SameBuildIff(p: string, a: LogDefine, b: LogDefine)
    requires SameDefine(b, a) && SameDefine(a, b)
    ensures Build(p, a) == Build(p, b) <==> SameFiles(a, b)
  {
    if SameFiles(a, b) {
      assert BuildAppenders(p, a.appenders) == BuildAppenders(p, b.appenders);
    } else {
      var i :| 0 <= i < |a.appenders| && a.appenders[i].kind.FileLog? && a.appenders[i].file != b.appenders[i].file;
      assert BuildAppenders(p, a.appenders)[i] != BuildAppenders(p, b.appenders)[i];
    }
  }
}
