/** The Logger and LoggerManager objects with the configuration callback, proved against LogConfig. */
module LogManagerObject {
  import opened Options
  import opened LogPattern
  import opened LogConfig
  import opened LogConfigTheorems

  class Logger {
    const name: string
    var level: int
    var appenders: seq<Appender>
    var formatter: string
    var root: bool

    ghost function View(): LoggerRec
      reads this
    {
      LoggerRec(name, level, appenders, formatter, root)
    }

    constructor (name: string)
      ensures View() == NewLogger(name)
    {
      this.name := name;
      level := DEBUG;
      appenders := [];
      formatter := DEFAULT_PATTERN;
      root := false;
    }

    method SetPattern(pattern: string)
      modifies this
      ensures View() == SetFormatter(old(View()), pattern)
    {
      if !Compile(pattern).error {
        formatter := pattern;
      }
    }

    method Add(a: Appender)
      modifies this
      ensures View() == AddAppender(old(View()), a)
    {
      if a.formatter.None? {
        appenders := appenders + [a.(formatter := Some(formatter))];
      } else {
        appenders := appenders + [a];
      }
    }

    /** Lines 442-455. ok is false when the null appender is dereferenced. */
    method Reconfigure(d: Def) returns (ok: bool)
      modifies this
      ensures ok <==> Configure(old(View()), d).Some?
      ensures ok ==> View() == Configure(old(View()), d).value
    {
      level := d.level;
      if d.formatter != "" {
        SetPattern(d.formatter);
      }
      appenders := [];
      ghost var start := View();
      var k := 0;
      while k < |d.appenders|
        invariant 0 <= k <= |d.appenders| && AddAppenders(start, d.appenders[..k]) == Some(View())
      {
        assert d.appenders[..k + 1][..k] == d.appenders[..k];
        var a := MakeAppender(d.appenders[k]);
        if a.None? {
          AddAppendersBuilds(start, d.appenders);
          return false;
        }
        Add(a.value);
        k := k + 1;
      }
      assert d.appenders[..|d.appenders|] == d.appenders;
      return true;
    }

    /** Logger::log. */
    method Write(level: int) returns (r: Logged)
      ensures r == Log(View(), level)
    {
      if level < this.level {
        return Wrote([]);
      }
      if appenders == [] {
        return if root then ToRoot else NullRoot;
      }
      var writers := [];
      var k := 0;
      while k < |appenders|
        invariant 0 <= k <= |appenders| && writers == Writing(appenders[..k], level)
      {
        assert appenders[..k + 1][..k] == appenders[..k];
        if Writes(appenders[k], level) {
          writers := writers + [appenders[k]];
        }
        k := k + 1;
      }
      assert appenders[..|appenders|] == appenders;
      return Wrote(writers);
    }
  }

  class LoggerManager {
    const lines: Lines
    var loggers: map<string, Logger>
    var config: Config

    /** No logger is registered under two names. */
    ghost predicate Valid()
      reads this
    {
      forall a, b :: a in loggers && b in loggers && loggers[a] == loggers[b] ==> a == b
    }

    ghost function Registered(): Registry
      reads this, loggers.Values
    {
      map name | name in loggers :: loggers[name].View()
    }

    ghost function View(): State
      reads this, loggers.Values
    {
      State(Registered(), config)
    }

    constructor (lines: Lines)
      ensures Valid() && View() == State(map[], []) && this.lines == lines
    {
      this.lines := lines;
      loggers := map[];
      config := [];
    }

    /** LoggerManager::getLogger. */
    method Get(name: string) returns (logger: Logger)
      requires Valid()
      modifies this
      ensures Valid() && Some(View()) == Exec(lines, old(View()), GetLogger(name))
      ensures name in loggers && logger == loggers[name] && config == old(config)
    {
      if name in loggers {
        return loggers[name];
      }
      logger := new Logger(name);
      logger.root := true;
      loggers := loggers[name := logger];
      assert Registered() == old(Registered())[name := logger.View()];
    }

    /** Lines 437 and 457: a new logger, registered once it is configured. */
    method Introduce(d: Def) returns (ok: bool)
      requires Valid()
      modifies this`loggers
      ensures Valid() && fresh(loggers.Values - old(loggers.Values))
      ensures ok <==> Configure(NewLogger(d.name), d).Some?
      ensures ok ==> Registered() == old(Registered())[d.name := Configure(NewLogger(d.name), d).value]
    {
      hide Configure;
      var logger := new Logger(d.name);
      ok := logger.Reconfigure(d);
      if ok {
        loggers := loggers[d.name := logger];
        assert Registered() == old(Registered())[d.name := logger.View()];
      }
    }

    /** Line 440: the registered logger, configured in place. */
    method Modify(d: Def) returns (ok: bool)
      requires Valid() && d.name in loggers
      modifies loggers[d.name]
      ensures ok <==> Configure(old(Registered())[d.name], d).Some?
      ensures ok ==> Registered() == old(Registered())[d.name := Configure(old(Registered())[d.name], d).value]
    {
      hide Configure;
      ok := loggers[d.name].Reconfigure(d);
      if ok {
        assert Registered() == old(Registered())[d.name := loggers[d.name].View()];
      }
    }

    /** Lines 432-458, for one definition. */
    method Apply(d: Def) returns (ok: bool)
      requires Valid()
      modifies this`loggers, loggers.Values
      ensures Valid() && fresh(loggers.Values - old(loggers.Values))
      ensures ok <==> ApplyDef(old(Registered()), config, d).Some?
      ensures ok ==> Registered() == ApplyDef(old(Registered()), config, d).value
    {
      hide Configure;
      if DefOf(config, d.name).None? {
        ok := Introduce(d);
      } else if d.name in loggers {
        ok := Modify(d);
      } else {
        ok := false;
      }
    }

    /** Lines 432-458. */
    method ApplyAll(ds: seq<Def>) returns (ok: bool)
      requires Valid()
      modifies this`loggers, loggers.Values
      ensures Valid() && fresh(loggers.Values - old(loggers.Values))
      ensures ok <==> ApplyDefs(old(Registered()), config, ds).Some?
      ensures ok ==> Registered() == ApplyDefs(old(Registered()), config, ds).value
    {
      hide ApplyDef;
      ok := true;
      var k := 0;
      while ok && k < |ds|
        invariant 0 <= k <= |ds| && Valid() && fresh(loggers.Values - old(loggers.Values))
        invariant ok <==> ApplyDefs(old(Registered()), config, ds[..k]).Some?
        invariant ok ==> Registered() == ApplyDefs(old(Registered()), config, ds[..k]).value
      {
        assert ds[..k + 1][..k] == ds[..k];
        ok := Apply(ds[k]);
        k := k + 1;
      }
      assert ds[..|ds|] == ds;
      if !ok {
        AbortsStay(old(Registered()), config, ds, k);
      }
    }

    /** Lines 460-468, for one definition. */
    method Drop(now: seq<Def>, d: Def) returns (ok: bool)
      requires Valid()
      modifies loggers.Values
      ensures ok <==> DropDef(lines, old(Registered()), now, d).Some?
      ensures ok ==> Registered() == DropDef(lines, old(Registered()), now, d).value
    {
      if DefOf(now, d.name).Some? {
        return true;
      }
      if !lines.removedName || d.name !in loggers {
        return false;
      }
      var logger := loggers[d.name];
      logger.appenders := [];
      logger.level := DEL_FLAG;
      return true;
    }

    /** Lines 460-468. */
    method DropAll(now: seq<Def>, ds: seq<Def>) returns (ok: bool)
      requires Valid()
      modifies loggers.Values
      ensures ok <==> DropDefs(lines, old(Registered()), now, ds).Some?
      ensures ok ==> Registered() == DropDefs(lines, old(Registered()), now, ds).value
    {
      hide DropDef;
      ok := true;
      var k := 0;
      while ok && k < |ds|
        invariant 0 <= k <= |ds|
        invariant ok <==> DropDefs(lines, old(Registered()), now, ds[..k]).Some?
        invariant ok ==> Registered() == DropDefs(lines, old(Registered()), now, ds[..k]).value
      {
        assert ds[..k + 1][..k] == ds[..k];
        ok := Drop(now, ds[k]);
        k := k + 1;
      }
      assert ds[..|ds|] == ds;
      if !ok {
        DropAbortsStay(lines, old(Registered()), now, ds, k);
      }
    }

    /** The callback of Loginit, given the value held and the new one. */
    method RunCallback(c: Config) returns (ok: bool)
      requires Valid()
      modifies this`loggers, loggers.Values
      ensures Valid() && fresh(loggers.Values - old(loggers.Values))
      ensures ok <==> Callback(lines, old(Registered()), config, c).Some?
      ensures ok ==> Registered() == Callback(lines, old(Registered()), config, c).value
    {
      hide ApplyDefs, DropDefs;
      ok := ApplyAll(c);
      if ok {
        ok := DropAll(c, config);
      }
    }

    /** ConfigVar::setVal with the callback of Loginit. */
    method Set(c: Config) returns (ok: bool)
      requires Valid()
      modifies this, loggers.Values
      ensures Valid()
      ensures ok <==> Exec(lines, old(View()), SetVal(c)).Some?
      ensures ok ==> View() == Exec(lines, old(View()), SetVal(c)).value
    {
      hide Callback;
      ok := RunCallback(c);
      if ok {
        config := c;
      }
    }
  }

  /** Once a definition aborts, the change aborts. */
  lemma {:induction false} AbortsStay(reg: Registry, was: seq<Def>, ds: seq<Def>, k: nat)
    requires k <= |ds| && ApplyDefs(reg, was, ds[..k]).None?
    ensures ApplyDefs(reg, was, ds).None?
    decreases |ds|
  {
    if k == |ds| {
      assert ds[..k] == ds;
    } else {
      assert ds[..|ds| - 1][..k] == ds[..k];
      AbortsStay(reg, was, ds[..|ds| - 1], k);
    }
  }

  lemma {:induction false} DropAbortsStay(lines: Lines, reg: Registry, now: seq<Def>, ds: seq<Def>, k: nat)
    requires k <= |ds| && DropDefs(lines, reg, now, ds[..k]).None?
    ensures DropDefs(lines, reg, now, ds).None?
    decreases |ds|
  {
    if k == |ds| {
      assert ds[..k] == ds;
    } else {
      assert ds[..|ds| - 1][..k] == ds[..k];
      DropAbortsStay(lines, reg, now, ds[..|ds| - 1], k);
    }
  }
}
