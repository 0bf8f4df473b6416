/** After any sequence of configuration changes the registry describes the current configuration. */
module LogConfigTheorems {
  import opened Options
  import opened LogPattern
  import opened LogPatternMeaning
  import opened LogConfig

  // ---------- what the registry should hold, name by name ----------

  function Entry(reg: Registry, name: string): Option<LoggerRec> {
    if name in reg then Some(reg[name]) else None
  }

  predicate KnownKinds(d: Def) {
    forall i :: 0 <= i < |d.appenders| ==> d.appenders[i].kind == 1 || d.appenders[i].kind == 2
  }

  predicate AllKnownKinds(c: seq<Def>) {
    forall i :: 0 <= i < |c| ==> KnownKinds(c[i])
  }

  /** The pattern of a logger that no configuration has given one. */
  const FIRST_PATTERN := "%d [%N]:%t %F [%p]  [%c] <%f :%l> %m %n"

  /** Appender i writes where definition i says, from its level on, in the logger's format. */
  predicate Fits(a: Appender, d: AppenderDef, formatter: string) {
    && a.sink == (if d.kind == 2 then File(d.file) else Stdout)
    && a.level == d.level && a.formatter == Some(formatter)
  }

  predicate Describes(l: LoggerRec, d: Def) {
    && l.level == d.level && |l.appenders| == |d.appenders|
    && forall i :: 0 <= i < |d.appenders| ==> Fits(l.appenders[i], d.appenders[i], l.formatter)
  }

  /** d brings a formatter of its own. */
  predicate Usable(d: Def) {
    d.formatter != "" && !Compile(d.formatter).error
  }

  predicate UsableIn(c: seq<Def>, name: string) {
    DefOf(c, name).Some? && Usable(DefOf(c, name).value)
  }

  /** name is defined in every configuration from the j-th on. */
  predicate DefinedSince(hist: seq<Config>, j: nat, name: string) {
    forall k :: j <= k < |hist| ==> DefOf(hist[k], name).Some?
  }

  predicate EverDefined(hist: seq<Config>, name: string) {
    exists k :: 0 <= k < |hist| && DefOf(hist[k], name).Some?
  }

  /** The j-th configuration gave the formatter that name has now. */
  predicate SetAt(hist: seq<Config>, j: nat, name: string, formatter: string)
    requires j < |hist|
  {
    && DefinedSince(hist, j, name) && UsableIn(hist[j], name) && DefOf(hist[j], name).value.formatter == formatter
    && forall k :: j < k < |hist| ==> !UsableIn(hist[k], name)
  }

  /** The last usable formatter since name was last introduced, else the default. */
  predicate IsFormatter(hist: seq<Config>, name: string, formatter: string) {
    || (exists j :: 0 <= j < |hist| && SetAt(hist, j, name, formatter))
    || (&& formatter == FIRST_PATTERN
        && forall j :: 0 <= j < |hist| && DefinedSince(hist, j, name) ==> !UsableIn(hist[j], name))
  }

  function Current(hist: seq<Config>): Config {
    if hist == [] then [] else hist[|hist| - 1]
  }

  /** The values given to setVal, oldest first. */
  function History(ops: seq<Op>): seq<Config> {
    if ops == [] then []
    else
      var h := History(ops[..|ops| - 1]);
      var op := ops[|ops| - 1];
      if op.SetVal? then h + [op.c] else h
  }

  predicate Requested(ops: seq<Op>, name: string) {
    exists k :: 0 <= k < |ops| && ops[k] == GetLogger(name)
  }

  ghost predicate ConfiguredEntry(hist: seq<Config>, name: string, e: Option<LoggerRec>)
    requires EverDefined(hist, name)
  {
    && e.Some? && e.value.name == name && !e.value.root
    && match DefOf(Current(hist), name)
       case Some(d) => Describes(e.value, d) && IsFormatter(hist, name, e.value.formatter)
       case None => e.value.appenders == [] && e.value.level == 100
  }

  /** What the registry holds for name: its configuration, or what it held before it was ever configured. */
  ghost predicate Agrees(hist: seq<Config>, requested: bool, name: string, before: Option<LoggerRec>,
                         e: Option<LoggerRec>) {
    if EverDefined(hist, name) then ConfiguredEntry(hist, name, e)
    else e == if before.None? && requested then Some(LoggerRec(name, 1, [], FIRST_PATTERN, true)) else before
  }

  // ---------- one definition ----------

  lemma {:induction false} AddAppendersBuilds(l: LoggerRec, ads: seq<AppenderDef>)
    requires l.appenders == []
    ensures AddAppenders(l, ads).Some? <==> forall i :: 0 <= i < |ads| ==> ads[i].kind == 1 || ads[i].kind == 2
    ensures AddAppenders(l, ads).Some? ==>
              var m := AddAppenders(l, ads).value;
              && m == l.(appenders := m.appenders) && |m.appenders| == |ads|
              && forall i :: 0 <= i < |ads| ==> Fits(m.appenders[i], ads[i], l.formatter)
  {
    if ads != [] {
      AddAppendersBuilds(l, ads[..|ads| - 1]);
    }
  }

  /** The formatter of a logger after it is configured with d. */
  function FormatterAfter(formatter: string, d: Def): string {
    if Usable(d) then d.formatter else formatter
  }

  lemma ConfigureDescribes(l: LoggerRec, d: Def)
    ensures Configure(l, d).Some? <==> KnownKinds(d)
    ensures Configure(l, d).Some? ==>
              var m := Configure(l, d).value;
              && m == LoggerRec(l.name, d.level, m.appenders, FormatterAfter(l.formatter, d), l.root)
              && Describes(m, d)
  {
    hide Compile;
    var l1 := l.(level := d.level);
    var l2 := if d.formatter == "" then l1 else SetFormatter(l1, d.formatter);
    AddAppendersBuilds(l2.(appenders := []), d.appenders);
  }

  /** Two loggers that a definition describes in the same format have the same appenders. */
  lemma DescribedAlike(l: LoggerRec, m: LoggerRec, d: Def)
    requires Describes(l, d) && Describes(m, d) && l.formatter == m.formatter && l.name == m.name && l.root == m.root
    ensures l == m
  {
  }

  // ---------- one change, name by name ----------

  predicate AllRegistered(reg: Registry, c: seq<Def>) {
    forall i :: 0 <= i < |c| ==> c[i].name in reg
  }

  lemma {:induction false} DefOfMember(c: seq<Def>, i: nat)
    requires Distinct(c) && i < |c|
    ensures DefOf(c, c[i].name) == Some(c[i])
  {
    if i < |c| - 1 {
      DefOfMember(c[..|c| - 1], i);
    }
  }

  lemma {:induction false} DefOfFound(c: seq<Def>, name: string)
    ensures match DefOf(c, name)
            case Some(d) => d in c && d.name == name
            case None => forall i :: 0 <= i < |c| ==> c[i].name != name
  {
    if c != [] {
      DefOfFound(c[..|c| - 1], name);
    }
  }

  /** The logger that definition d of the new value starts from. */
  function Base(e: Option<LoggerRec>, known: bool, name: string): LoggerRec {
    if known && e.Some? then e.value else NewLogger(name)
  }

  /** What ApplyDefs leaves for one name. */
  function Applied(e: Option<LoggerRec>, was: Option<Def>, now: Option<Def>, name: string): Option<LoggerRec> {
    match now
    case None => e
    case Some(d) => Configure(Base(e, was.Some?, name), d)
  }

  /** What DropDefs leaves for one name. */
  function Dropped(e: Option<LoggerRec>, was: Option<Def>, now: Option<Def>): Option<LoggerRec> {
    if was.Some? && now.None? && e.Some? then Some(Silence(e.value)) else e
  }

  lemma {:induction false} ApplyDefsCompletes(reg: Registry, was: seq<Def>, ds: seq<Def>)
    requires Distinct(ds) && forall i :: 0 <= i < |was| ==> was[i].name in reg
    ensures ApplyDefs(reg, was, ds).Some? <==> AllKnownKinds(ds)
    ensures ApplyDefs(reg, was, ds).Some? ==> reg.Keys <= ApplyDefs(reg, was, ds).value.Keys
  {
    hide Configure;
    if ds != [] {
      var n := |ds| - 1;
      ApplyDefsCompletes(reg, was, ds[..n]);
      DefOfFound(was, ds[n].name);
      var r := ApplyDefs(reg, was, ds[..n]);
      if r.Some? {
        var known := DefOf(was, ds[n].name).Some?;
        ConfigureDescribes(Base(Entry(r.value, ds[n].name), known, ds[n].name), ds[n]);
      }
      assert AllKnownKinds(ds) <==> AllKnownKinds(ds[..n]) && KnownKinds(ds[n]);
    }
  }

  lemma {:induction false} ApplyDefsAt(reg: Registry, was: seq<Def>, ds: seq<Def>, name: string)
    requires Distinct(ds) && (forall i :: 0 <= i < |was| ==> was[i].name in reg) && ApplyDefs(reg, was, ds).Some?
    ensures Entry(ApplyDefs(reg, was, ds).value, name) ==
              Applied(Entry(reg, name), DefOf(was, name), DefOf(ds, name), name)
  {
    hide Configure;
    if ds != [] {
      var n := |ds| - 1;
      ApplyDefsAt(reg, was, ds[..n], name);
      DefOfFound(ds[..n], ds[n].name);
    }
  }

  lemma {:induction false} DropDefsCompletes(lines: Lines, reg: Registry, now: seq<Def>, ds: seq<Def>)
    requires forall i :: 0 <= i < |ds| ==> ds[i].name in reg
    ensures DropDefs(lines, reg, now, ds).Some? <==>
              lines.removedName || forall i :: 0 <= i < |ds| ==> DefOf(now, ds[i].name).Some?
    ensures DropDefs(lines, reg, now, ds).Some? ==> DropDefs(lines, reg, now, ds).value.Keys == reg.Keys
  {
    if ds != [] {
      DropDefsCompletes(lines, reg, now, ds[..|ds| - 1]);
    }
  }

  lemma {:induction false} DropDefsAt(lines: Lines, reg: Registry, now: seq<Def>, ds: seq<Def>, name: string)
    requires Distinct(ds) && (forall i :: 0 <= i < |ds| ==> ds[i].name in reg) && DropDefs(lines, reg, now, ds).Some?
    ensures Entry(DropDefs(lines, reg, now, ds).value, name) ==
              Dropped(Entry(reg, name), DefOf(ds, name), DefOf(now, name))
  {
    if ds != [] {
      var n := |ds| - 1;
      DropDefsAt(lines, reg, now, ds[..n], name);
      DropDefsCompletes(lines, reg, now, ds[..n]);
      DefOfFound(ds[..n], ds[n].name);
    }
  }

  /** A change completes if and only if every appender is of a known kind and, as line 464 is written, no name is
      removed. */
  lemma ChangeCompletesIff(lines: Lines, reg: Registry, was: Config, c: Config)
    requires AllRegistered(reg, was)
    ensures Callback(lines, reg, was, c).Some? <==>
              && AllKnownKinds(c)
              && (lines.removedName || forall i :: 0 <= i < |was| ==> DefOf(c, was[i].name).Some?)
  {
    ApplyDefsCompletes(reg, was, c);
    if AllKnownKinds(c) {
      DropDefsCompletes(lines, ApplyDefs(reg, was, c).value, c, was);
    }
  }

  /** A change treats each name by its old and its new definition alone. */
  lemma ChangeAt(lines: Lines, reg: Registry, was: Config, c: Config, name: string)
    requires AllRegistered(reg, was) && Callback(lines, reg, was, c).Some?
    ensures Entry(Callback(lines, reg, was, c).value, name) ==
              Dropped(Applied(Entry(reg, name), DefOf(was, name), DefOf(c, name), name),
                      DefOf(was, name), DefOf(c, name))
  {
    ApplyDefsCompletes(reg, was, c);
    ApplyDefsAt(reg, was, c, name);
    DropDefsAt(lines, ApplyDefs(reg, was, c).value, c, was, name);
  }

  // ---------- the formatter over a history ----------

  lemma DefinedSinceGrows(hist: seq<Config>, c: Config, j: nat, name: string)
    requires j < |hist|
    ensures DefinedSince(hist + [c], j, name) <==> DefinedSince(hist, j, name) && DefOf(c, name).Some?
  {
    var h := hist + [c];
    assert forall k :: 0 <= k < |hist| ==> h[k] == hist[k];
    assert h[|hist|] == c;
  }

  lemma FormatterTaken(hist: seq<Config>, c: Config, name: string)
    requires UsableIn(c, name)
    ensures IsFormatter(hist + [c], name, DefOf(c, name).value.formatter)
  {
    var h := hist + [c];
    assert h[|hist|] == c;
    assert SetAt(h, |hist|, name, DefOf(c, name).value.formatter);
  }

  lemma FormatterFresh(hist: seq<Config>, c: Config, name: string)
    requires DefOf(c, name).Some? && !UsableIn(c, name) && DefOf(Current(hist), name).None?
    ensures IsFormatter(hist + [c], name, FIRST_PATTERN)
  {
    var h := hist + [c];
    assert h[|hist|] == c;
    forall j | 0 <= j < |h| && DefinedSince(h, j, name) ensures j == |hist| {
      assert |hist| > 0 ==> h[|hist| - 1] == Current(hist);
    }
  }

  lemma FormatterKept(hist: seq<Config>, c: Config, name: string, f: string)
    requires DefOf(c, name).Some? && !UsableIn(c, name) && IsFormatter(hist, name, f)
    ensures IsFormatter(hist + [c], name, f)
  {
    var h := hist + [c];
    assert h[|hist|] == c && forall k :: 0 <= k < |hist| ==> h[k] == hist[k];
    forall j | 0 <= j < |hist| ensures DefinedSince(h, j, name) <==> DefinedSince(hist, j, name) {
      DefinedSinceGrows(hist, c, j, name);
    }
    if j :| 0 <= j < |hist| && SetAt(hist, j, name, f) {
      assert SetAt(h, j, name, f);
    }
  }

  // ---------- main results ----------

  lemma EverDefinedGrows(hist: seq<Config>, c: Config, name: string)
    ensures EverDefined(hist + [c], name) <==> EverDefined(hist, name) || DefOf(c, name).Some?
    ensures DefOf(Current(hist), name).Some? ==> EverDefined(hist, name)
  {
    var h := hist + [c];
    assert h[|hist|] == c && forall k :: 0 <= k < |hist| ==> h[k] == hist[k];
  }

  lemma SetValAgrees(hist: seq<Config>, c: Config, requested: bool, name: string, before: Option<LoggerRec>,
                     e: Option<LoggerRec>, e': Option<LoggerRec>)
    requires Agrees(hist, requested, name, before, e)
    requires var was, now := DefOf(Current(hist), name), DefOf(c, name);
             e' == Dropped(Applied(e, was, now, name), was, now)
    requires DefOf(c, name).Some? ==> KnownKinds(DefOf(c, name).value)
    ensures Agrees(hist + [c], requested, name, before, e')
  {
    hide Configure, IsFormatter, Compile;
    EverDefinedGrows(hist, c, name);
    var known := DefOf(Current(hist), name).Some?;
    match DefOf(c, name)
    case None =>
    case Some(d) =>
      var base := Base(e, known, name);
      ConfigureDescribes(base, d);
      if UsableIn(c, name) {
        FormatterTaken(hist, c, name);
      } else if known {
        FormatterKept(hist, c, name, base.formatter);
      } else {
        FormatterFresh(hist, c, name);
      }
  }

  /** A name is registered while it is configured. */
  lemma CurrentIsRegistered(hist: seq<Config>, reg: Registry)
    requires forall name :: EverDefined(hist, name) ==> name in reg
    ensures AllRegistered(reg, Current(hist))
  {
    forall i | 0 <= i < |Current(hist)| ensures Current(hist)[i].name in reg {
      DefOfMember(Current(hist), i);
      assert EverDefined(hist, Current(hist)[i].name) by {
        assert DefOf(hist[|hist| - 1], Current(hist)[i].name).Some?;
      }
    }
  }

  ghost predicate AgreesAt(reg0: Registry, ops: seq<Op>, reg: Registry, name: string) {
    Agrees(History(ops), Requested(ops, name), name, Entry(reg0, name), Entry(reg, name))
  }

  ghost predicate AllAgree(reg0: Registry, ops: seq<Op>, s: State) {
    s.val == Current(History(ops)) && forall name :: AgreesAt(reg0, ops, s.reg, name)
  }

  lemma RequestedGrows(ops: seq<Op>, op: Op, name: string)
    ensures Requested(ops + [op], name) <==> Requested(ops, name) || op == GetLogger(name)
  {
    var all := ops + [op];
    assert all[|ops|] == op && forall k :: 0 <= k < |ops| ==> all[k] == ops[k];
  }

  lemma AllRegisteredNow(reg0: Registry, ops: seq<Op>, s: State)
    requires AllAgree(reg0, ops, s)
    ensures AllRegistered(s.reg, s.val)
  {
    forall name | EverDefined(History(ops), name) ensures name in s.reg {
      assert AgreesAt(reg0, ops, s.reg, name);
    }
    CurrentIsRegistered(History(ops), s.reg);
  }

  lemma ExecAgrees(reg0: Registry, ops: seq<Op>, s: State, op: Op, t: State)
    requires AllAgree(reg0, ops, s) && Exec(DESIGNED, s, op) == Some(t)
    ensures AllAgree(reg0, ops + [op], t)
  {
    hide Callback, ConfiguredEntry, IsFormatter;
    var all := ops + [op];
    assert all[..|all| - 1] == ops;
    AllRegisteredNow(reg0, ops, s);
    forall name ensures AgreesAt(reg0, all, t.reg, name) {
      RequestedGrows(ops, op, name);
      assert AgreesAt(reg0, ops, s.reg, name);
      match op
      case GetLogger(_) => GetLoggerAgrees(reg0, ops, s, op, t, name);
      case SetVal(c) =>
        ChangeAt(DESIGNED, s.reg, s.val, c, name);
        ChangeCompletesIff(DESIGNED, s.reg, s.val, c);
        DefOfFound(c, name);
        SetValAgrees(History(ops), c, Requested(ops, name), name, Entry(reg0, name),
                     Entry(s.reg, name), Entry(t.reg, name));
    }
  }

  lemma GetLoggerAgrees(reg0: Registry, ops: seq<Op>, s: State, op: Op, t: State, name: string)
    requires AgreesAt(reg0, ops, s.reg, name) && op.GetLogger? && Exec(DESIGNED, s, op) == Some(t)
    ensures AgreesAt(reg0, ops + [op], t.reg, name)
  {
  }

  /** Where the written line 464 completes, it does what the designed one does. */
  lemma {:induction false} DropDefsAlike(lines: Lines, reg: Registry, now: seq<Def>, ds: seq<Def>)
    requires DropDefs(lines, reg, now, ds).Some?
    ensures DropDefs(DESIGNED, reg, now, ds) == DropDefs(lines, reg, now, ds)
  {
    if ds != [] {
      DropDefsAlike(lines, reg, now, ds[..|ds| - 1]);
    }
  }

  lemma ExecAlike(lines: Lines, s: State, op: Op)
    requires Exec(lines, s, op).Some?
    ensures Exec(DESIGNED, s, op) == Exec(lines, s, op)
  {
    if op.SetVal? {
      DropDefsAlike(lines, ApplyDefs(s.reg, s.val, op.c).value, op.c, s.val);
    }
  }

  /** After any run of configuration changes and logger requests that completes, the registry describes the current
      configuration: every defined name has exactly its level, its appenders in order and its last usable formatter;
      every removed name is silent; every other name is as it was. */
  lemma {:induction false} RegistryAgrees(lines: Lines, reg0: Registry, ops: seq<Op>)
    requires Run(lines, State(reg0, []), ops).Some?
    ensures AllAgree(reg0, ops, Run(lines, State(reg0, []), ops).value)
  {
    if ops == [] {
      forall name ensures AgreesAt(reg0, ops, reg0, name) {
      }
    } else {
      var n := |ops| - 1;
      RegistryAgrees(lines, reg0, ops[..n]);
      assert ops[..n] + [ops[n]] == ops;
      var s := Run(lines, State(reg0, []), ops[..n]).value;
      ExecAlike(lines, s, ops[n]);
      ExecAgrees(reg0, ops[..n], s, ops[n], Run(lines, State(reg0, []), ops).value);
    }
  }

  predicate KindsKnownIn(hist: seq<Config>) {
    forall k :: 0 <= k < |hist| ==> AllKnownKinds(hist[k])
  }

  predicate Keeps(was: seq<Def>, now: seq<Def>) {
    forall i :: 0 <= i < |was| ==> DefOf(now, was[i].name).Some?
  }

  /** No configuration drops a name of the one before it. */
  predicate NothingRemoved(hist: seq<Config>) {
    forall k :: 0 < k < |hist| ==> Keeps(hist[k - 1], hist[k])
  }

  /** A run completes if and only if every appender ever configured is of kind 1 or 2 and, as line 464 is written, no
      name is ever removed. */
  lemma {:induction false} RunCompletesIff(lines: Lines, reg0: Registry, ops: seq<Op>)
    ensures Run(lines, State(reg0, []), ops).Some? <==>
              KindsKnownIn(History(ops)) && (lines.removedName || NothingRemoved(History(ops)))
  {
    if ops != [] {
      var n := |ops| - 1;
      RunCompletesIff(lines, reg0, ops[..n]);
      HistorySplit(ops);
      var s := Run(lines, State(reg0, []), ops[..n]);
      if s.Some? && ops[n].SetVal? {
        RegistryAgrees(lines, reg0, ops[..n]);
        AllRegisteredNow(reg0, ops[..n], s.value);
        ChangeCompletesIff(lines, s.value.reg, s.value.val, ops[n].c);
      }
    }
  }

  lemma HistorySplit(ops: seq<Op>)
    requires ops != []
    ensures var h, op := History(ops[..|ops| - 1]), ops[|ops| - 1];
            && (KindsKnownIn(History(ops)) <==> KindsKnownIn(h) && (op.SetVal? ==> AllKnownKinds(op.c)))
            && (NothingRemoved(History(ops)) <==> NothingRemoved(h) && (op.SetVal? ==> Keeps(Current(h), op.c)))
  {
    hide KindsKnownIn, NothingRemoved;
    var h := History(ops[..|ops| - 1]);
    var op := ops[|ops| - 1];
    if op.SetVal? {
      KindsSplit(h, op.c);
      RemovedSplit(h, op.c);
    }
  }

  lemma KindsSplit(h: seq<Config>, c: Config)
    ensures KindsKnownIn(h + [c]) <==> KindsKnownIn(h) && AllKnownKinds(c)
  {
    hide AllKnownKinds;
    var g := h + [c];
    assert g[|h|] == c && forall k :: 0 <= k < |h| ==> g[k] == h[k];
  }

  lemma RemovedSplit(h: seq<Config>, c: Config)
    ensures NothingRemoved(h + [c]) <==> NothingRemoved(h) && Keeps(Current(h), c)
  {
    hide DefOf;
    var g := h + [c];
    assert g[|h|] == c && forall k :: 0 <= k < |h| ==> g[k] == h[k];
    if h != [] {
      assert g[|h| - 1] == Current(h);
    }
  }

  // ---------- what depends on the configuration alone ----------

  /** A definition with a usable formatter decides the format. */
  lemma UsableDecides(hist: seq<Config>, name: string, formatter: string)
    requires hist != [] && UsableIn(Current(hist), name) && IsFormatter(hist, name, formatter)
    ensures formatter == DefOf(Current(hist), name).value.formatter
  {
    assert DefinedSince(hist, |hist| - 1, name);
  }

  /** Two runs that end in the same configuration leave the same logger under each name it defines with a formatter,
      whatever came before. */
  lemma SameConfigurationSameLogger(lines: Lines, reg0: Registry, ops0: seq<Op>, reg1: Registry, ops1: seq<Op>,
                                    name: string)
    requires Run(lines, State(reg0, []), ops0).Some? && Run(lines, State(reg1, []), ops1).Some?
    requires Current(History(ops0)) == Current(History(ops1)) && UsableIn(Current(History(ops0)), name)
    ensures Entry(Run(lines, State(reg0, []), ops0).value.reg, name) ==
            Entry(Run(lines, State(reg1, []), ops1).value.reg, name)
  {
    hide Run, Describes;
    RegistryAgrees(lines, reg0, ops0);
    RegistryAgrees(lines, reg1, ops1);
    CurrentEntry(reg0, ops0, Run(lines, State(reg0, []), ops0).value, name);
    CurrentEntry(reg1, ops1, Run(lines, State(reg1, []), ops1).value, name);
    UsableDecides(History(ops0), name, Run(lines, State(reg0, []), ops0).value.reg[name].formatter);
    UsableDecides(History(ops1), name, Run(lines, State(reg1, []), ops1).value.reg[name].formatter);
    DescribedAlike(Run(lines, State(reg0, []), ops0).value.reg[name], Run(lines, State(reg1, []), ops1).value.reg[name],
                   DefOf(Current(History(ops0)), name).value);
  }

  lemma CurrentEntry(reg0: Registry, ops: seq<Op>, s: State, name: string)
    requires AllAgree(reg0, ops, s) && DefOf(Current(History(ops)), name).Some?
    ensures History(ops) != [] && name in s.reg && s.reg[name].name == name && !s.reg[name].root
    ensures Describes(s.reg[name], DefOf(Current(History(ops)), name).value)
    ensures IsFormatter(History(ops), name, s.reg[name].formatter)
  {
    hide Describes, IsFormatter;
    assert AgreesAt(reg0, ops, s.reg, name);
    EverDefinedGrows(History(ops), [], name);
  }

  /** Setting the same configuration again changes nothing. */
  lemma SetValTwice(reg: Registry, was: Config, c: Config)
    requires AllRegistered(reg, was) && AllKnownKinds(c)
    ensures var once := Exec(DESIGNED, State(reg, was), SetVal(c));
            once.Some? && Exec(DESIGNED, once.value, SetVal(c)) == once
  {
    hide Callback;
    var s := State(reg, was);
    ChangeCompletesIff(DESIGNED, reg, was, c);
    var t := Exec(DESIGNED, s, SetVal(c)).value;
    forall i | 0 <= i < |c| ensures c[i].name in t.reg {
      DefOfMember(c, i);
      ChangeAt(DESIGNED, reg, was, c, c[i].name);
      ConfigureDescribes(Base(Entry(reg, c[i].name), DefOf(was, c[i].name).Some?, c[i].name), c[i]);
    }
    ChangeCompletesIff(DESIGNED, t.reg, c, c);
    forall i | 0 <= i < |c| ensures DefOf(c, c[i].name).Some? {
      DefOfMember(c, i);
    }
    var u := Exec(DESIGNED, t, SetVal(c)).value;
    forall name ensures Entry(u.reg, name) == Entry(t.reg, name) {
      ChangeAt(DESIGNED, reg, was, c, name);
      ChangeAt(DESIGNED, t.reg, c, c, name);
      DefOfFound(c, name);
      AgainAt(Entry(reg, name), DefOf(was, name), DefOf(c, name), name);
    }
    SameEntries(u.reg, t.reg);
  }

  lemma AgainAt(e: Option<LoggerRec>, was: Option<Def>, now: Option<Def>, name: string)
    requires now.Some? ==> KnownKinds(now.value)
    ensures var once := Applied(e, was, now, name);
            now.Some? ==> once.Some? && Applied(once, now, now, name) == once
  {
    hide Configure;
    if now.Some? {
      var base := Base(e, was.Some?, name);
      ConfigureDescribes(base, now.value);
      var l := Configure(base, now.value).value;
      ConfigureDescribes(l, now.value);
      DescribedAlike(Configure(l, now.value).value, l, now.value);
    }
  }

  lemma SameEntries(r: Registry, q: Registry)
    requires forall name :: Entry(r, name) == Entry(q, name)
    ensures r == q
  {
    forall name ensures name in r <==> name in q {
      assert Entry(r, name) == Entry(q, name);
    }
    forall name | name in r ensures r[name] == q[name] {
      assert Entry(r, name) == Entry(q, name);
    }
  }

  // ---------- events ----------

  /** The definitions whose appender takes an event of this level. */
  function Taking(ads: seq<AppenderDef>, level: int): seq<AppenderDef> {
    if ads == [] then []
    else
      var a := ads[|ads| - 1];
      var takes := if a.kind == 2 then level > a.level else level >= a.level;
      Taking(ads[..|ads| - 1], level) + if takes then [a] else []
  }

  predicate AllFit(appenders: seq<Appender>, ads: seq<AppenderDef>, formatter: string) {
    |appenders| == |ads| && forall i :: 0 <= i < |ads| ==> Fits(appenders[i], ads[i], formatter)
  }

  lemma {:induction false} WritingFits(appenders: seq<Appender>, ads: seq<AppenderDef>, formatter: string, level: int)
    requires AllFit(appenders, ads, formatter)
    ensures AllFit(Writing(appenders, level), Taking(ads, level), formatter)
  {
    if ads != [] {
      var n := |ads| - 1;
      WritingFits(appenders[..n], ads[..n], formatter, level);
    }
  }

  /** After any run, an event sent to a defined name is written by exactly the appenders its definition lists for that
      level, in order; with none listed it goes through the null root. A removed name writes nothing. */
  lemma EventReaches(lines: Lines, reg0: Registry, ops: seq<Op>, name: string, level: int)
    requires Run(lines, State(reg0, []), ops).Some? && EverDefined(History(ops), name) && level <= 5
    ensures var reg := Run(lines, State(reg0, []), ops).value.reg;
            name in reg &&
            match DefOf(Current(History(ops)), name)
            case None => Log(reg[name], level) == Wrote([])
            case Some(d) =>
              var r := Log(reg[name], level);
              && (r.NullRoot? <==> level >= d.level && d.appenders == [])
              && (level < d.level ==> r == Wrote([]))
              && (level >= d.level && d.appenders != [] ==>
                  r.Wrote? && AllFit(r.writers, Taking(d.appenders, level), reg[name].formatter))
  {
    hide Run, IsFormatter;
    RegistryAgrees(lines, reg0, ops);
    var s := Run(lines, State(reg0, []), ops).value;
    assert AgreesAt(reg0, ops, s.reg, name);
    match DefOf(Current(History(ops)), name)
    case None =>
    case Some(d) => WritingFits(s.reg[name].appenders, d.appenders, s.reg[name].formatter, level);
  }

  /** Where an event goes: below the logger's level nowhere, else to its appenders if there are any, else to the
      root, or through the null root. */
  lemma LogOutcome(l: LoggerRec, level: int)
    ensures level < l.level ==> Log(l, level) == Wrote([])
    ensures Log(l, level).ToRoot? <==> level >= l.level && l.appenders == [] && l.root
    ensures Log(l, level).NullRoot? <==> level >= l.level && l.appenders == [] && !l.root
    ensures level >= l.level && l.appenders != [] ==> Log(l, level).Wrote?
  {
  }

  /** After any run, an event sent to a logger that other code asked for and that no configuration ever defined goes
      to the root from level 1, DEBUG, on, and nowhere below. */
  lemma RequestedGoesToRoot(lines: Lines, reg0: Registry, ops: seq<Op>, name: string, level: int)
    requires Run(lines, State(reg0, []), ops).Some? && name !in reg0
    requires Requested(ops, name) && !EverDefined(History(ops), name)
    ensures var reg := Run(lines, State(reg0, []), ops).value.reg;
            name in reg && Log(reg[name], level) == if level >= 1 then ToRoot else Wrote([])
  {
    hide Run;
    RegistryAgrees(lines, reg0, ops);
    assert AgreesAt(reg0, ops, Run(lines, State(reg0, []), ops).value.reg, name);
  }

  /** The formatter of such a logger is accepted. */
  lemma FirstPatternIsAccepted()
    ensures !Compile(FIRST_PATTERN).error
  {
    DefaultPattern((name, fmt) => name + fmt);
  }

  /** An appender that is added keeps its own formatter, if it has one, and comes last. */
  lemma AddedLast(l: LoggerRec, sink: Sink, level: int, own: Option<string>)
    ensures AddAppender(l, Appender(sink, level, own)) ==
            LoggerRec(l.name, l.level,
                      l.appenders + [Appender(sink, level, Some(if own.Some? then own.value else l.formatter))],
                      l.formatter, l.root)
  {
  }

  /** A logger that no configuration made has a root to fall back on. */
  predicate AllRooted(reg: Registry) {
    forall name :: name in reg ==> reg[name].root
  }

  predicate Rootless(d: Def, level: int) {
    d.appenders == [] && level >= d.level
  }

  /** An event sent to every logger goes through a null root if and only if some definition in force has no appenders
      and a level the event reaches. */
  lemma NullRootIff(lines: Lines, reg0: Registry, ops: seq<Op>, level: int)
    requires Run(lines, State(reg0, []), ops).Some? && AllRooted(reg0) && level <= 5
    ensures var s := Run(lines, State(reg0, []), ops).value;
            (exists name :: name in s.reg && Log(s.reg[name], level).NullRoot?) <==>
            (exists i :: 0 <= i < |s.val| && Rootless(s.val[i], level))
  {
    hide Run, ConfiguredEntry;
    RegistryAgrees(lines, reg0, ops);
    var s := Run(lines, State(reg0, []), ops).value;
    forall i | 0 <= i < |s.val| && Rootless(s.val[i], level)
      ensures s.val[i].name in s.reg && Log(s.reg[s.val[i].name], level).NullRoot?
    {
      DefOfMember(s.val, i);
      EverDefinedGrows(History(ops), [], s.val[i].name);
      EventReaches(lines, reg0, ops, s.val[i].name, level);
    }
    forall name | name in s.reg && Log(s.reg[name], level).NullRoot?
      ensures exists i :: 0 <= i < |s.val| && Rootless(s.val[i], level)
    {
      RootlessIsDefined(lines, reg0, ops, name, level);
    }
  }

  lemma RootlessIsDefined(lines: Lines, reg0: Registry, ops: seq<Op>, name: string, level: int)
    requires Run(lines, State(reg0, []), ops).Some? && AllRooted(reg0) && level <= 5
    requires var reg := Run(lines, State(reg0, []), ops).value.reg;
             name in reg && Log(reg[name], level).NullRoot?
    ensures var s := Run(lines, State(reg0, []), ops).value;
            exists i :: 0 <= i < |s.val| && Rootless(s.val[i], level)
  {
    hide Run, ConfiguredEntry;
    RegistryAgrees(lines, reg0, ops);
    var s := Run(lines, State(reg0, []), ops).value;
    assert AgreesAt(reg0, ops, s.reg, name);
    EventReaches(lines, reg0, ops, name, level);
    DefOfFound(s.val, name);
  }
}
