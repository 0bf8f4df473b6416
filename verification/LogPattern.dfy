/** The log pattern language (sylar/log.cpp:140-147, 260-358): the index parser of LogFormatter::init, the patterns
    it accepts, and what format renders. */
module LogPattern {

  // ---------- tokens ----------

  /** isalpha in the C locale. */
  predicate IsAlpha(c: char) {
    'a' <= c <= 'z' || 'A' <= c <= 'Z'
  }

  /** Line 282: the characters that do not end a directive. */
  predicate InDirective(c: char) {
    IsAlpha(c) || c == '{' || c == '}'
  }

  predicate InName(c: char) {
    IsAlpha(c) || c == '}'
  }

  predicate InFormat(c: char) {
    IsAlpha(c) || c == '{'
  }

  /** An entry of `vec`: types 0, 1 and 2, and the entry made for an unclosed brace. */
  datatype Token = Literal(s: string) | Directive(name: string) | Formatted(name: string, fmt: string) | Unclosed

  datatype Parsed = Parsed(tokens: seq<Token>, error: bool)

  /** Length of the longest prefix of characters satisfying f. */
  function Span(s: string, f: char -> bool): (n: nat)
    ensures n <= |s|
    ensures forall i :: 0 <= i < n ==> f(s[i])
    ensures n < |s| ==> !f(s[n])
  {
    if s == "" || !f(s[0]) then 0 else 1 + Span(s[1..], f)
  }

  function Flush(lit: string): seq<Token> {
    if lit == "" then [] else [Literal(lit)]
  }

  function Prepend(ts: seq<Token>, p: Parsed): Parsed {
    Parsed(ts + p.tokens, p.error)
  }

  /** What follows a '%': the name, and the format when a brace is opened right after it. */
  datatype Head = Plain(n: nat) | Braced(n: nat, m: nat) | Open

  /** p is the text after the '%'. */
  function ReadHead(p: string): Head {
    var n := Span(p, InName);
    if n == |p| || p[n] != '{' then Plain(n)
    else
      var m := Span(p[n + 1..], InFormat);
      if n + 1 + m < |p| && p[n + 1 + m] == '}' then Braced(n, m) else Open
  }

  /** The tokens of p, with `lit` the literal text collected so far. */
  function Parse(p: string, lit: string): Parsed
    decreases |p|
  {
    if p == "" then Parsed(Flush(lit), false)
    else if p[0] != '%' then Parse(p[1..], lit + [p[0]])
    else if |p| > 1 && p[1] == '%' then Parse(p[1..], lit + ['%'])
    else
      match ReadHead(p[1..])
      case Plain(n) => Prepend(Flush(lit) + [Directive(p[1..n + 1])], Parse(p[n + 1..], ""))
      case Braced(n, m) =>
        Prepend(Flush(lit) + [Formatted(p[1..n + 1], p[n + 2..n + 2 + m])], Parse(p[n + 2 + m..], ""))
      case Open => Prepend([Unclosed], Parse(p[1..], lit)).(error := true)
  }

  // ---------- printing ----------

  /** The closing brace of a format is not consumed, so it belongs to the text that follows. */
  function PrintToken(t: Token): string {
    match t
    case Literal(s) => s
    case Directive(name) => "%" + name
    case Formatted(name, fmt) => "%" + name + "{" + fmt
    case Unclosed => ""
  }

  function Print(ts: seq<Token>): string {
    if ts == [] then "" else PrintToken(ts[0]) + Print(ts[1..])
  }

  // ---------- the token lists that survive printing and parsing ----------

  predicate AllOf(s: string, f: char -> bool) {
    forall i :: 0 <= i < |s| ==> f(s[i])
  }

  predicate HasPercent(s: string) {
    exists i :: 0 <= i < |s| && s[i] == '%'
  }

  /** Nothing but '%' after a '%'. */
  predicate PercentsLast(s: string) {
    forall i, j :: 0 <= i < j < |s| && s[i] == '%' ==> s[j] == '%'
  }

  predicate StartsWith(ts: seq<Token>, f: char -> bool) {
    ts != [] && match ts[0]
                case Literal(s) => s != "" && f(s[0])
                case _ => f('%')
  }

  /** A literal is not empty and not next to another; it may end in '%' only before a directive. Text after a
      directive does not continue it, and a format is followed by its brace. */
  predicate WellFormed(ts: seq<Token>) {
    ts == [] ||
    var rest := ts[1..];
    WellFormed(rest) &&
    match ts[0]
    case Literal(s) =>
      && s != "" && PercentsLast(s)
      && (rest != [] ==> !rest[0].Literal?)
      && (HasPercent(s) ==> rest != [])
    case Directive(name) =>
      && AllOf(name, InName) && !StartsWith(rest, InDirective)
      && (name == "" ==> !StartsWith(rest, c => c == '%'))
    case Formatted(name, fmt) => AllOf(name, InName) && AllOf(fmt, InFormat) && StartsWith(rest, c => c == '}')
    case Unclosed => false
  }

  // ---------- items ----------

  /** The keys of s_format_items. */
  const KNOWN: set<string> := {"m", "p", "r", "c", "t", "n", "d", "f", "l", "F", "N"}

  datatype Item = Text(s: string) | Field(name: string, fmt: string)

  datatype Compiled = Compiled(items: seq<Item>, error: bool)

  predicate KnownToken(t: Token) {
    match t
    case Directive(name) => name in KNOWN
    case Formatted(name, _) => name in KNOWN
    case _ => true
  }

  function ItemOf(t: Token): Item {
    match t
    case Literal(s) => Text(s)
    case Directive(name) => if name in KNOWN then Field(name, "") else Text(name)
    case Formatted(name, fmt) => if name in KNOWN then Field(name, fmt) else Text(name)
    case Unclosed => Text("pattern error")
  }

  function ItemsOf(ts: seq<Token>): seq<Item> {
    seq(|ts|, i requires 0 <= i < |ts| => ItemOf(ts[i]))
  }

  predicate AllKnown(ts: seq<Token>) {
    forall i :: 0 <= i < |ts| ==> KnownToken(ts[i])
  }

  /** LogFormatter::init: the items and whether iserror() is set. */
  function Compile(pattern: string): Compiled {
    var p := Parse(pattern, "");
    Compiled(ItemsOf(p.tokens), p.error || !AllKnown(p.tokens))
  }

  /** What one item writes; `field` gives the text of an event's fields. */
  function RenderItem(item: Item, field: (string, string) -> string): string {
    match item
    case Text(s) => s
    case Field(name, fmt) => field(name, fmt)
  }

  /** LogFormatter::format. */
  function Render(items: seq<Item>, field: (string, string) -> string): string {
    if items == [] then "" else Render(items[..|items| - 1], field) + RenderItem(items[|items| - 1], field)
  }
}
