/** What an accepted pattern means: the items it compiles to and the text that format makes of them, in terms of the
    pattern's tokens alone. */
module LogPatternMeaning {
  import opened LogPattern
  import opened LogPatternTheorems

  // ---------- names ----------

  /** One of the eleven names of lines 332-342. */
  predicate Named(name: string) {
    |name| == 1 && name[0] in "mprctndflFN"
  }

  predicate AllNamed(ts: seq<Token>) {
    forall i :: 0 <= i < |ts| ==>
      match ts[i]
      case Directive(name) => Named(name)
      case Formatted(name, _) => Named(name)
      case _ => true
  }

  lemma NamedIsKnown(name: string)
    ensures Named(name) <==> name in KNOWN
  {
    if Named(name) {
      assert name == [name[0]];
    }
  }

  lemma AllNamedIsAllKnown(ts: seq<Token>)
    ensures AllNamed(ts) <==> AllKnown(ts)
  {
    forall i | 0 <= i < |ts| && (ts[i].Directive? || ts[i].Formatted?)
      ensures Named(ts[i].name) <==> ts[i].name in KNOWN
    {
      NamedIsKnown(ts[i].name);
    }
    if AllKnown(ts) {
      forall i | 0 <= i < |ts| ensures KnownToken(ts[i]) {
      }
    }
    if AllNamed(ts) {
      forall i | 0 <= i < |ts| ensures KnownToken(ts[i]) {
      }
    }
  }

  // ---------- items ----------

  /** The item made of a token: a directive's field with its format, or the text itself. */
  predicate Means(item: Item, t: Token) {
    match t
    case Literal(s) => item == Text(s)
    case Directive(name) => item == if Named(name) then Field(name, "") else Text(name)
    case Formatted(name, fmt) => item == if Named(name) then Field(name, fmt) else Text(name)
    case Unclosed => item == Text("pattern error")
  }

  predicate AllMean(items: seq<Item>, ts: seq<Token>) {
    |items| == |ts| && forall i :: 0 <= i < |ts| ==> Means(items[i], ts[i])
  }

  lemma ItemMeans(t: Token)
    ensures Means(ItemOf(t), t)
  {
    if t.Directive? || t.Formatted? {
      NamedIsKnown(t.name);
    }
  }

  /** Any pattern compiles to one item per token, each as its token says; it is an error exactly when a brace is not
      closed or a directive is not one of the eleven. */
  lemma CompiledItems(pattern: string)
    ensures var ts := Parse(pattern, "").tokens;
            && AllMean(Compile(pattern).items, ts)
            && (Compile(pattern).error <==> Unclosed in ts || !AllNamed(ts))
  {
    var ts := Parse(pattern, "").tokens;
    forall i | 0 <= i < |ts| ensures Means(ItemsOf(ts)[i], ts[i]) {
      ItemMeans(ts[i]);
    }
    AllNamedIsAllKnown(ts);
    ErrorIffUnclosed(pattern, "");
  }

  /** A well-formed list, printed, compiles to the items of its own tokens; that is an error exactly when some
      directive is not one of the eleven. */
  lemma PrintedItems(ts: seq<Token>)
    requires WellFormed(ts)
    ensures AllMean(Compile(Print(ts)).items, ts)
    ensures Compile(Print(ts)).error <==> !AllNamed(ts)
  {
    RoundTripIffWellFormed(ts);
    CompiledItems(Print(ts));
    ErrorIffUnclosed(Print(ts), "");
  }

  /** A pattern is accepted without error if and only if it is the print of a well-formed list of the eleven
      directives. */
  lemma AcceptedIffPrinted(pattern: string)
    ensures !Compile(pattern).error <==> exists ts :: WellFormed(ts) && AllNamed(ts) && Print(ts) == pattern
  {
    if !Compile(pattern).error {
      PrintParse(pattern, "");
      var ts := Parse(pattern, "").tokens;
      CompiledItems(pattern);
      assert WellFormed(ts) && AllNamed(ts) && Print(ts) == pattern;
    }
    if ts :| WellFormed(ts) && AllNamed(ts) && Print(ts) == pattern {
      PrintedItems(ts);
    }
  }

  // ---------- text ----------

  /** What a token contributes to a formatted event; `field` gives the text of an event's fields. */
  function TokenText(t: Token, field: (string, string) -> string): string {
    match t
    case Literal(s) => s
    case Directive(name) => if Named(name) then field(name, "") else name
    case Formatted(name, fmt) => if Named(name) then field(name, fmt) else name
    case Unclosed => "pattern error"
  }

  function TokensText(ts: seq<Token>, field: (string, string) -> string): string {
    if ts == [] then "" else TokenText(ts[0], field) + TokensText(ts[1..], field)
  }

  lemma {:induction false} TokensTextAppend(ts: seq<Token>, t: Token, field: (string, string) -> string)
    ensures TokensText(ts + [t], field) == TokensText(ts, field) + TokenText(t, field)
  {
    if ts == [] {
      assert ts + [t] == [t];
    } else {
      assert (ts + [t])[1..] == ts[1..] + [t];
      TokensTextAppend(ts[1..], t, field);
    }
  }

  lemma {:induction false} RenderIsText(items: seq<Item>, ts: seq<Token>, field: (string, string) -> string)
    requires AllMean(items, ts)
    ensures Render(items, field) == TokensText(ts, field)
  {
    if items != [] {
      var n := |items| - 1;
      RenderIsText(items[..n], ts[..n], field);
      TokensTextAppend(ts[..n], ts[n], field);
      assert ts[..n] + [ts[n]] == ts;
      assert Means(items[n], ts[n]);
    }
  }

  /** format writes the texts of the pattern's tokens, one after the other. */
  lemma FormatIsText(pattern: string, field: (string, string) -> string)
    ensures Render(Compile(pattern).items, field) == TokensText(Parse(pattern, "").tokens, field)
  {
    CompiledItems(pattern);
    RenderIsText(Compile(pattern).items, Parse(pattern, "").tokens, field);
  }

  /** On the print of a well-formed list those are the texts of the list's own tokens. */
  lemma FormatOfPrinted(ts: seq<Token>, field: (string, string) -> string)
    requires WellFormed(ts)
    ensures Render(Compile(Print(ts)).items, field) == TokensText(ts, field)
  {
    RoundTripIffWellFormed(ts);
    FormatIsText(Print(ts), field);
  }

  // ---------- the design's own case ----------

  /** Directives with the eleven names and literals free of '%', not adjacent, and not starting with a letter or a brace
      after a directive. */
  predicate Simple(ts: seq<Token>) {
    && (forall i :: 0 <= i < |ts| ==>
          match ts[i]
          case Literal(s) => s != "" && !HasPercent(s)
          case Directive(name) => Named(name)
          case _ => false)
    && (forall i :: 0 < i < |ts| && ts[i].Literal? ==>
          ts[i - 1].Directive? && !Letter(ts[i].s[0]) && ts[i].s[0] != '{' && ts[i].s[0] != '}')
  }

  lemma NamedIsName(name: string)
    requires Named(name)
    ensures AllOf(name, InName) && name != ""
  {
    NamedIsKnown(name);
  }

  lemma {:induction false} SimpleIsWellFormed(ts: seq<Token>)
    requires Simple(ts)
    ensures WellFormed(ts)
  {
    if ts != [] {
      var rest := ts[1..];
      assert forall i :: 0 <= i < |rest| ==> rest[i] == ts[i + 1];
      SimpleIsWellFormed(rest);
      assert rest != [] ==> rest[0] == ts[1];
      if ts[0].Directive? {
        NamedIsName(ts[0].name);
        if rest != [] && rest[0].Literal? {
          CharacterClasses(rest[0].s[0]);
        }
      }
    }
  }

  /** A simple list compiles to exactly its own items without error, and formats as the concatenation of their texts. */
  lemma SimpleRoundTrip(ts: seq<Token>, field: (string, string) -> string)
    requires Simple(ts)
    ensures Parse(Print(ts), "") == Parsed(ts, false)
    ensures !Compile(Print(ts)).error && AllMean(Compile(Print(ts)).items, ts)
    ensures Render(Compile(Print(ts)).items, field) == TokensText(ts, field)
  {
    SimpleIsWellFormed(ts);
    RoundTripIffWellFormed(ts);
    PrintedItems(ts);
    FormatOfPrinted(ts, field);
  }

  function Pair(s: string, name: string): seq<Token> {
    [Literal(s), Directive(name)]
  }

  /** The default pattern of line 46, in four pieces. */
  const DEFAULT_1 := [Directive("d")] + Pair(" [", "N") + Pair("]:", "t")
  const DEFAULT_2 := Pair(" ", "F") + Pair(" [", "p") + Pair("]  [", "c")
  const DEFAULT_3 := Pair("] <", "f") + Pair(" :", "l")
  const DEFAULT_4 := Pair("> ", "m") + Pair(" ", "n")

  lemma {:induction false} PrintAppend(a: seq<Token>, b: seq<Token>)
    ensures Print(a + b) == Print(a) + Print(b)
  {
    if a == [] {
      assert a + b == b;
    } else {
      assert (a + b)[1..] == a[1..] + b;
      PrintAppend(a[1..], b);
    }
  }

  predicate EndsInDirective(ts: seq<Token>) {
    ts != [] && ts[|ts| - 1].Directive?
  }

  /** Text that may follow a directive. */
  predicate MayFollow(s: string) {
    s != "" && (forall i :: 0 <= i < |s| ==> s[i] != '%') && !Letter(s[0]) && s[0] != '{' && s[0] != '}'
  }

  lemma PairIsSimple(s: string, name: string)
    requires MayFollow(s) && Named(name)
    ensures Simple(Pair(s, name)) && Print(Pair(s, name)) == s + "%" + name && EndsInDirective(Pair(s, name))
  {
    assert Pair(s, name)[1..] == [Directive(name)] && [Directive(name)][1..] == [];
    assert Print([Directive(name)]) == "%" + name;
  }

  /** Lists that start with text that may follow a directive. */
  predicate Follows(ts: seq<Token>) {
    ts != [] && ts[0].Literal? && MayFollow(ts[0].s)
  }

  lemma SimpleAppend(a: seq<Token>, b: seq<Token>)
    requires Simple(a) && Simple(b) && EndsInDirective(a) && Follows(b)
    ensures Simple(a + b)
  {
  }

  lemma Joined(a: seq<Token>, b: seq<Token>)
    requires Simple(a) && Simple(b) && EndsInDirective(a) && Follows(b) && EndsInDirective(b)
    ensures Simple(a + b) && Print(a + b) == Print(a) + Print(b) && EndsInDirective(a + b)
    ensures Follows(a) ==> Follows(a + b)
  {
    hide Print, Simple;
    PrintAppend(a, b);
    SimpleAppend(a, b);
  }

  lemma AddPair(ts: seq<Token>, s: string, name: string)
    requires Simple(ts) && EndsInDirective(ts) && MayFollow(s) && Named(name)
    ensures Simple(ts + Pair(s, name)) && EndsInDirective(ts + Pair(s, name))
    ensures Print(ts + Pair(s, name)) == Print(ts) + (s + "%" + name)
    ensures Follows(ts) ==> Follows(ts + Pair(s, name))
  {
    hide Print, Simple;
    PairIsSimple(s, name);
    Joined(ts, Pair(s, name));
  }

  lemma FirstText()
    ensures "%d" + (" [" + "%" + "N") + ("]:" + "%" + "t") == "%d [%N]:%t"
  {
  }

  lemma SecondText()
    ensures " " + "%" + "F" + (" [" + "%" + "p") + ("]  [" + "%" + "c") == " %F [%p]  [%c"
  {
  }

  /** Texts and names of the default pattern are as AddPair asks. */
  lemma DefaultParts()
    ensures MayFollow(" [") && MayFollow("]:") && MayFollow(" ") && MayFollow("]  [")
    ensures Named("N") && Named("t") && Named("F") && Named("p") && Named("c") && Named("d")
  {
  }

  lemma SingleDirective(name: string)
    requires Named(name)
    ensures Simple([Directive(name)]) && Print([Directive(name)]) == "%" + name && EndsInDirective([Directive(name)])
  {
    assert [Directive(name)][1..] == [];
  }

  lemma FirstPiece()
    ensures Simple(DEFAULT_1) && Print(DEFAULT_1) == "%d [%N]:%t" && EndsInDirective(DEFAULT_1)
  {
    hide Print, Simple, Pair, MayFollow, Named, EndsInDirective, Follows;
    DefaultParts();
    SingleDirective("d");
    assert "%" + "d" == "%d";
    AddPair([Directive("d")], " [", "N");
    AddPair([Directive("d")] + Pair(" [", "N"), "]:", "t");
    FirstText();
  }

  lemma SecondPiece()
    ensures Simple(DEFAULT_2) && Print(DEFAULT_2) == " %F [%p]  [%c" && EndsInDirective(DEFAULT_2) && Follows(DEFAULT_2)
  {
    DefaultParts();
    PairIsSimple(" ", "F");
    assert Follows(Pair(" ", "F"));
    hide Print, Simple, Pair, MayFollow, Named, EndsInDirective, Follows;
    SecondText();
    AddPair(Pair(" ", "F"), " [", "p");
    AddPair(Pair(" ", "F") + Pair(" [", "p"), "]  [", "c");
  }

  lemma ThirdPiece()
    ensures Simple(DEFAULT_3) && Print(DEFAULT_3) == "] <%f :%l" && EndsInDirective(DEFAULT_3) && Follows(DEFAULT_3)
  {
    PairIsSimple("] <", "f");
    assert Follows(Pair("] <", "f"));
    hide Print, Simple, Pair;
    AddPair(Pair("] <", "f"), " :", "l");
  }

  lemma FourthPiece()
    ensures Simple(DEFAULT_4) && Print(DEFAULT_4) == "> %m %n" && EndsInDirective(DEFAULT_4) && Follows(DEFAULT_4)
  {
    PairIsSimple("> ", "m");
    assert Follows(Pair("> ", "m"));
    hide Print, Simple, Pair;
    AddPair(Pair("> ", "m"), " ", "n");
  }

  lemma DefaultPieces()
    ensures "%d [%N]:%t" + " %F [%p]  [%c" + "] <%f :%l" + "> %m %n" == "%d [%N]:%t %F [%p]  [%c] <%f :%l> %m %n"
  {
  }

  lemma PrintsDefault()
    ensures Simple(DEFAULT_1 + DEFAULT_2 + DEFAULT_3 + DEFAULT_4)
    ensures Print(DEFAULT_1 + DEFAULT_2 + DEFAULT_3 + DEFAULT_4) == "%d [%N]:%t %F [%p]  [%c] <%f :%l> %m %n"
  {
    hide Print, Simple, EndsInDirective, Follows;
    FirstPiece();
    SecondPiece();
    ThirdPiece();
    FourthPiece();
    Joined(DEFAULT_1, DEFAULT_2);
    Joined(DEFAULT_1 + DEFAULT_2, DEFAULT_3);
    Joined(DEFAULT_1 + DEFAULT_2 + DEFAULT_3, DEFAULT_4);
    DefaultPieces();
  }

  /** The default pattern is accepted, and formats an event as these fields with this text between them. */
  lemma DefaultPattern(field: (string, string) -> string)
    ensures var c := Compile("%d [%N]:%t %F [%p]  [%c] <%f :%l> %m %n");
            && !c.error
            && AllMean(c.items, DEFAULT_1 + DEFAULT_2 + DEFAULT_3 + DEFAULT_4)
            && Render(c.items, field) == TokensText(DEFAULT_1 + DEFAULT_2 + DEFAULT_3 + DEFAULT_4, field)
  {
    PrintsDefault();
    SimpleRoundTrip(DEFAULT_1 + DEFAULT_2 + DEFAULT_3 + DEFAULT_4, field);
  }

  // ---------- a final percent sign ----------

  lemma {:induction false} PercentNotLast(ts: seq<Token>)
    requires WellFormed(ts) && AllNamed(ts) && ts != []
    ensures Print(ts) != "" && Print(ts)[|Print(ts)| - 1] != '%'
  {
    var rest := ts[1..];
    if rest == [] {
      assert Print(ts) == PrintToken(ts[0]);
      if ts[0].Directive? {
        assert Named(ts[0].name);
        NamedIsName(ts[0].name);
      }
    } else {
      assert forall i :: 0 <= i < |rest| ==> rest[i] == ts[i + 1];
      PercentNotLast(rest);
    }
  }

  /** A pattern that ends in '%' is always an error, a doubled '%' included: only its first half becomes text. */
  lemma PercentAtEndIsRejected(p: string)
    requires p != "" && p[|p| - 1] == '%'
    ensures Compile(p).error
  {
    if !Compile(p).error {
      AcceptedIffPrinted(p);
      var ts :| WellFormed(ts) && AllNamed(ts) && Print(ts) == p;
      PercentNotLast(ts);
    }
  }
}
