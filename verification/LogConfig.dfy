/** The log configuration (sylar/log.cpp:422-469, sylar/config.h:388-399, sylar/log.h:110-195): how a change of the
    "logs" variable updates the registered loggers, and what an event sent to one of them does. */
module LogConfig {
  import opened Options
  import opened LogPattern

  /** removedName: line 464 names the removed definition. As written it reads it from the end iterator. */
  datatype Lines = Lines(removedName: bool)

  const DESIGNED := Lines(true)

  // ---------- definitions: LogAppenderDefiner and LogDefiner ----------

  datatype AppenderDef = AppenderDef(kind: int, file: string, level: int)

  datatype Def = Def(name: string, level: int, appenders: seq<AppenderDef>, formatter: string)

  /** A std::set of definitions ordered by name, listed in any order. */
  type Config = c: seq<Def> | Distinct(c)

  predicate Distinct(c: seq<Def>) {
    forall i, j :: 0 <= i < j < |c| ==> c[i].name != c[j].name
  }

  /** std::set::find. */
  function DefOf(c: seq<Def>, name: string): Option<Def> {
    if c == [] then None
    else if c[|c| - 1].name == name then Some(c[|c| - 1])
    else DefOf(c[..|c| - 1], name)
  }

  // ---------- loggers ----------

  datatype Sink = Stdout | File(path: string)

  datatype Appender = Appender(sink: Sink, level: int, formatter: Option<string>)

  /** The formatter is named by its pattern. root: root_ is not null. */
  datatype LoggerRec = LoggerRec(name: string, level: int, appenders: seq<Appender>, formatter: string, root: bool)

  type Registry = map<string, LoggerRec>

  const DEBUG := 1
  const DEL_FLAG := 100
  const DEFAULT_PATTERN := "%d [%N]:%t %F [%p]  [%c] <%f :%l> %m %n"

  function NewLogger(name: string): LoggerRec {
    LoggerRec(name, DEBUG, [], DEFAULT_PATTERN, false)
  }

  /** setFormatter(string): a pattern with an error is not taken. */
  function SetFormatter(l: LoggerRec, pattern: string): LoggerRec {
    if Compile(pattern).error then l else l.(formatter := pattern)
  }

  /** addAppender: an appender without a formatter gets the logger's. */
  function AddAppender(l: LoggerRec, a: Appender): LoggerRec {
    l.(appenders := l.appenders + [if a.formatter.None? then a.(formatter := Some(l.formatter)) else a])
  }

  /** The appender of a definition; another kind leaves the null pointer that line 453 dereferences. */
  function MakeAppender(a: AppenderDef): Option<Appender> {
    if a.kind == 2 then Some(Appender(File(a.file), a.level, None))
    else if a.kind == 1 then Some(Appender(Stdout, a.level, None))
    else None
  }

  // ---------- the change callback; None is an abort ----------

  function AddAppenders(l: LoggerRec, ads: seq<AppenderDef>): Option<LoggerRec> {
    if ads == [] then Some(l)
    else
      match AddAppenders(l, ads[..|ads| - 1])
      case None => None
      case Some(m) =>
        match MakeAppender(ads[|ads| - 1])
        case None => None
        case Some(a) => Some(AddAppender(m, a))
  }

  /** Lines 442-455. */
  function Configure(l: LoggerRec, d: Def): Option<LoggerRec> {
    var l1 := l.(level := d.level);
    var l2 := if d.formatter == "" then l1 else SetFormatter(l1, d.formatter);
    AddAppenders(l2.(appenders := []), d.appenders)
  }

  /** Lines 432-458, for one definition of the new value. */
  function ApplyDef(reg: Registry, was: seq<Def>, d: Def): Option<Registry> {
    var isNew := DefOf(was, d.name).None?;
    if !isNew && d.name !in reg then None
    else
      match Configure(if isNew then NewLogger(d.name) else reg[d.name], d)
      case None => None
      case Some(l) => Some(reg[d.name := l])
  }

  function ApplyDefs(reg: Registry, was: seq<Def>, ds: seq<Def>): Option<Registry> {
    if ds == [] then Some(reg)
    else
      match ApplyDefs(reg, was, ds[..|ds| - 1])
      case None => None
      case Some(r) => ApplyDef(r, was, ds[|ds| - 1])
  }

  function Silence(l: LoggerRec): LoggerRec {
    l.(appenders := [], level := DEL_FLAG)
  }

  /** Lines 460-468, for one definition of the old value. */
  function DropDef(lines: Lines, reg: Registry, now: seq<Def>, d: Def): Option<Registry> {
    if DefOf(now, d.name).Some? then Some(reg)
    else if !lines.removedName || d.name !in reg then None
    else Some(reg[d.name := Silence(reg[d.name])])
  }

  function DropDefs(lines: Lines, reg: Registry, now: seq<Def>, ds: seq<Def>): Option<Registry> {
    if ds == [] then Some(reg)
    else
      match DropDefs(lines, reg, now, ds[..|ds| - 1])
      case None => None
      case Some(r) => DropDef(lines, r, now, ds[|ds| - 1])
  }

  function Callback(lines: Lines, reg: Registry, was: seq<Def>, now: seq<Def>): Option<Registry> {
    match ApplyDefs(reg, was, now)
    case None => None
    case Some(r) => DropDefs(lines, r, now, was)
  }

  // ---------- runs ----------

  /** The registry, and the value held by the configuration variable. */
  datatype State = State(reg: Registry, val: Config)

  /** setVal, and getLogger by other code. */
  datatype Op = SetVal(c: Config) | GetLogger(name: string)

  function Exec(lines: Lines, s: State, op: Op): Option<State> {
    match op
    case SetVal(c) =>
      (match Callback(lines, s.reg, s.val, c)
       case None => None
       case Some(r) => Some(State(r, c)))
    case GetLogger(name) =>
      Some(if name in s.reg then s else s.(reg := s.reg[name := NewLogger(name).(root := true)]))
  }

  function Run(lines: Lines, s: State, ops: seq<Op>): Option<State> {
    if ops == [] then Some(s)
    else
      match Run(lines, s, ops[..|ops| - 1])
      case None => None
      case Some(t) => Exec(lines, t, ops[|ops| - 1])
  }

  // ---------- events ----------

  /** NullRoot: line 59 calls through a null root_. */
  datatype Logged = Wrote(writers: seq<Appender>) | ToRoot | NullRoot

  /** The two appenders compare levels differently (lines 105 and 130). */
  predicate Writes(a: Appender, level: int) {
    if a.sink.Stdout? then level >= a.level else level > a.level
  }

  function Writing(appenders: seq<Appender>, level: int): seq<Appender> {
    if appenders == [] then []
    else
      var n := |appenders| - 1;
      Writing(appenders[..n], level) + if Writes(appenders[n], level) then [appenders[n]] else []
  }

  /** Logger::log. */
  function Log(l: LoggerRec, level: int): Logged {
    if level < l.level then Wrote([])
    else if l.appenders != [] then Wrote(Writing(l.appenders, level))
    else if l.root then ToRoot
    else NullRoot
  }
}
