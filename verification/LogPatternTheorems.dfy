/** Parsing inverts printing on exactly the well-formed token lists, and printing inverts parsing on exactly the
    patterns accepted without error. */
module LogPatternTheorems {
  import opened LogPattern

  // ---------- printing then parsing ----------

  lemma {:induction false} SpanOf(name: string, rest: string, f: char -> bool)
    requires AllOf(name, f) && (rest == "" || !f(rest[0]))
    ensures Span(name + rest, f) == |name|
  {
    if name == "" {
      assert name + rest == rest;
    } else {
      assert (name + rest)[1..] == name[1..] + rest;
      SpanOf(name[1..], rest, f);
    }
  }

  /** Literal text is collected as it stands. */
  lemma {:induction false} ParseLiteral(s: string, rest: string, lit: string)
    requires PercentsLast(s) && (HasPercent(s) ==> rest != "" && rest[0] == '%')
    ensures Parse(s + rest, lit) == Parse(rest, lit + s)
  {
    if s == "" {
      assert s + rest == rest && lit + s == lit;
    } else {
      var p := s + rest;
      assert p[1..] == s[1..] + rest;
      assert lit + [s[0]] + s[1..] == lit + s;
      assert HasPercent(s[1..]) ==> HasPercent(s) by {
        if i :| 0 <= i < |s[1..]| && s[1..][i] == '%' {
          assert s[i + 1] == '%';
        }
      }
      if s[0] == '%' {
        assert |s| > 1 ==> s[1] == '%';
        assert p[1] == '%';
      }
      ParseLiteral(s[1..], rest, lit + [s[0]]);
    }
  }

  lemma ReadPlain(name: string, rest: string)
    requires AllOf(name, InName) && (rest == "" || !InDirective(rest[0]))
    ensures ReadHead(name + rest) == Plain(|name|)
  {
    SpanOf(name, rest, InName);
  }

  lemma ReadBraced(name: string, fmt: string, rest: string)
    requires AllOf(name, InName) && AllOf(fmt, InFormat) && rest != "" && rest[0] == '}'
    ensures ReadHead(name + "{" + fmt + rest) == Braced(|name|, |fmt|)
  {
    var p := name + "{" + fmt + rest;
    assert p == name + ("{" + fmt + rest);
    SpanOf(name, "{" + fmt + rest, InName);
    assert p[|name| + 1..] == fmt + rest;
    SpanOf(fmt, rest, InFormat);
  }

  lemma StartsWithPrint(ts: seq<Token>, f: char -> bool)
    requires WellFormed(ts)
    ensures StartsWith(ts, f) <==> Print(ts) != "" && f(Print(ts)[0])
  {
  }

  lemma ParseDirective(name: string, rest: string, lit: string)
    requires AllOf(name, InName) && (rest == "" || !InDirective(rest[0]))
    requires name == "" ==> rest == "" || rest[0] != '%'
    ensures Parse("%" + name + rest, lit) == Prepend(Flush(lit) + [Directive(name)], Parse(rest, ""))
  {
    var p := "%" + name + rest;
    assert p[1..] == name + rest;
    ReadPlain(name, rest);
    assert p[1..|name| + 1] == name && p[|name| + 1..] == rest;
    assert |p| > 1 ==> p[1] == (name + rest)[0];
  }

  lemma ParseFormatted(name: string, fmt: string, rest: string, lit: string)
    requires AllOf(name, InName) && AllOf(fmt, InFormat) && rest != "" && rest[0] == '}'
    ensures Parse("%" + name + "{" + fmt + rest, lit) == Prepend(Flush(lit) + [Formatted(name, fmt)], Parse(rest, ""))
  {
    var p := "%" + name + "{" + fmt + rest;
    assert p[1..] == name + "{" + fmt + rest;
    ReadBraced(name, fmt, rest);
    var n, m := |name|, |fmt|;
    assert p[1..n + 1] == name && p[n + 2..n + 2 + m] == fmt && p[n + 2 + m..] == rest;
    assert p[1] == (name + "{")[0];
  }

  lemma Regroup(lit: string, t: Token, rest: seq<Token>)
    ensures Prepend(Flush(lit) + [t], Parsed(Flush("") + rest, false)) == Parsed(Flush(lit) + ([t] + rest), false)
  {
  }

  lemma NothingLeft(lit: string)
    ensures Parse("", lit) == Parsed(Flush(lit) + [], false)
  {
  }

  lemma PrintFirst(ts: seq<Token>)
    requires ts != []
    ensures ts == [ts[0]] + ts[1..]
    ensures match ts[0]
            case Literal(s) => Print(ts) == s + Print(ts[1..])
            case Directive(name) => Print(ts) == "%" + name + Print(ts[1..])
            case Formatted(name, fmt) => Print(ts) == "%" + name + "{" + fmt + Print(ts[1..])
            case Unclosed => true
  {
  }

  /** Parsing a printed well-formed list gives it back, whatever literal text (not before a literal) precedes it. */
  lemma {:induction false} ParsePrint(ts: seq<Token>, lit: string)
    requires WellFormed(ts) && (lit != "" && ts != [] ==> !ts[0].Literal?)
    ensures Parse(Print(ts), lit) == Parsed(Flush(lit) + ts, false)
  {
    hide Parse, Prepend, Flush;
    if ts == [] {
      NothingLeft(lit);
    } else {
      var rest := ts[1..];
      PrintFirst(ts);
      StartsWithPrint(rest, InDirective);
      StartsWithPrint(rest, c => c == '%');
      StartsWithPrint(rest, c => c == '}');
      Regroup(lit, ts[0], rest);
      match ts[0]
      case Literal(s) =>
        ParseLiteral(s, Print(rest), lit);
        ParsePrint(rest, s);
        FlushLiteral(s, lit);
      case Directive(name) =>
        ParsePrint(rest, "");
        ParseDirective(name, Print(rest), lit);
      case Formatted(name, fmt) =>
        ParsePrint(rest, "");
        ParseFormatted(name, fmt, Print(rest), lit);
    }
  }

  lemma FlushLiteral(s: string, lit: string)
    requires s != "" && lit == ""
    ensures lit + s == s && Flush(lit) == [] && Flush(s) == [Literal(s)]
  {
  }

  // ---------- parsing then printing ----------

  /** The literal collected so far can still be completed. */
  predicate Pending(lit: string, p: string) {
    PercentsLast(lit) && (HasPercent(lit) ==> p != "" && p[0] == '%')
  }

  lemma PendingGrows(lit: string, p: string)
    requires p != "" && Pending(lit, p) && (p[0] == '%' ==> |p| > 1 && p[1] == '%')
    ensures Pending(lit + [p[0]], p[1..])
  {
  }

  /** A flushed literal before a directive is well formed. */
  lemma FlushedBefore(lit: string, p: string, ts: seq<Token>)
    requires WellFormed(ts) && ts != [] && !ts[0].Literal? && Pending(lit, p)
    ensures WellFormed(Flush(lit) + ts) && Print(Flush(lit) + ts) == lit + Print(ts)
  {
    if lit == "" {
      assert Flush(lit) + ts == ts && lit + Print(ts) == Print(ts);
    } else {
      assert (Flush(lit) + ts)[1..] == ts;
    }
  }

  /** What ReadHead found is a name that really ends there. */
  lemma PlainShape(p: string, n: nat)
    requires ReadHead(p) == Plain(n)
    ensures n <= |p| && AllOf(p[..n], InName) && (n < |p| ==> !InDirective(p[n]))
  {
  }

  lemma BracedShape(p: string, n: nat, m: nat)
    requires p != "" && ReadHead(p[1..]) == Braced(n, m)
    ensures n + 2 + m < |p| && p[n + 1] == '{' && p[n + 2 + m] == '}'
    ensures AllOf(p[1..n + 1], InName) && AllOf(p[n + 2..n + 2 + m], InFormat)
  {
  }

  /** A directive in front of what its rest parses to. */
  lemma DirectiveBefore(name: string, rest: string, ts: seq<Token>)
    requires WellFormed(ts) && Print(ts) == rest && AllOf(name, InName)
    requires rest != "" ==> !InDirective(rest[0]) && (name == "" ==> rest[0] != '%')
    ensures WellFormed([Directive(name)] + ts) && Print([Directive(name)] + ts) == "%" + name + rest
  {
  }

  lemma FormattedBefore(name: string, fmt: string, rest: string, ts: seq<Token>)
    requires WellFormed(ts) && Print(ts) == rest && AllOf(name, InName) && AllOf(fmt, InFormat)
    requires rest != "" && rest[0] == '}'
    ensures WellFormed([Formatted(name, fmt)] + ts)
    ensures Print([Formatted(name, fmt)] + ts) == "%" + name + "{" + fmt + rest
  {
  }

  lemma ParsesPlain(p: string, lit: string, n: nat)
    requires p != "" && p[0] == '%' && !(|p| > 1 && p[1] == '%') && ReadHead(p[1..]) == Plain(n)
    ensures n + 1 <= |p|
    ensures Parse(p, lit) == Prepend(Flush(lit) + [Directive(p[1..n + 1])], Parse(p[n + 1..], ""))
  {
  }

  lemma ParsesBraced(p: string, lit: string, n: nat, m: nat)
    requires p != "" && p[0] == '%' && !(|p| > 1 && p[1] == '%') && ReadHead(p[1..]) == Braced(n, m)
    ensures n + 2 + m <= |p|
    ensures Parse(p, lit) ==
            Prepend(Flush(lit) + [Formatted(p[1..n + 1], p[n + 2..n + 2 + m])], Parse(p[n + 2 + m..], ""))
  {
  }

  lemma PlainText(p: string, n: nat)
    requires p != "" && p[0] == '%' && n + 1 <= |p|
    ensures "%" + p[1..n + 1] + p[n + 1..] == p
  {
  }

  lemma BracedText(p: string, n: nat, m: nat)
    requires p != "" && p[0] == '%' && n + 2 + m <= |p| && p[n + 1] == '{'
    ensures "%" + p[1..n + 1] + "{" + p[n + 2..n + 2 + m] + p[n + 2 + m..] == p
  {
  }

  /** The rest ts of a pattern, completed by the directive in front of it and the literal before that. */
  lemma CompletePlain(p: string, lit: string, n: nat, ts: seq<Token>)
    requires p != "" && p[0] == '%' && !(|p| > 1 && p[1] == '%') && ReadHead(p[1..]) == Plain(n) && Pending(lit, p)
    requires n + 1 <= |p| && WellFormed(ts) && Print(ts) == p[n + 1..]
    ensures var d := [Directive(p[1..n + 1])] + ts;
            WellFormed(Flush(lit) + d) && Print(Flush(lit) + d) == lit + p
  {
    PlainShape(p[1..], n);
    PlainText(p, n);
    hide ReadHead, WellFormed, Print, Pending, Flush;
    assert p[1..n + 1] == p[1..][..n];
    DirectiveBefore(p[1..n + 1], p[n + 1..], ts);
    FlushedBefore(lit, p, [Directive(p[1..n + 1])] + ts);
  }

  lemma CompleteBraced(p: string, lit: string, n: nat, m: nat, ts: seq<Token>)
    requires p != "" && p[0] == '%' && ReadHead(p[1..]) == Braced(n, m) && Pending(lit, p)
    requires n + 2 + m <= |p| && WellFormed(ts) && Print(ts) == p[n + 2 + m..]
    ensures var d := [Formatted(p[1..n + 1], p[n + 2..n + 2 + m])] + ts;
            WellFormed(Flush(lit) + d) && Print(Flush(lit) + d) == lit + p
  {
    BracedShape(p, n, m);
    BracedText(p, n, m);
    hide ReadHead, WellFormed, Print, Pending, Flush;
    FormattedBefore(p[1..n + 1], p[n + 2..n + 2 + m], p[n + 2 + m..], ts);
    FlushedBefore(lit, p, [Formatted(p[1..n + 1], p[n + 2..n + 2 + m])] + ts);
  }

  lemma Reassociate(a: seq<Token>, b: Token, c: seq<Token>)
    ensures a + [b] + c == a + ([b] + c)
  {
  }

  /** What an error-free parse returns is well formed and prints as what was parsed. */
  lemma {:induction false} PrintParse(p: string, lit: string)
    requires Pending(lit, p) && !Parse(p, lit).error
    ensures WellFormed(Parse(p, lit).tokens) && Print(Parse(p, lit).tokens) == lit + p
    decreases |p|
  {
    if p == "" {
      if lit != "" {
        assert Flush(lit)[1..] == [];
      }
      assert lit + p == lit;
    } else if p[0] != '%' || (|p| > 1 && p[1] == '%') {
      PendingGrows(lit, p);
      assert lit + [p[0]] + p[1..] == lit + p;
      PrintParse(p[1..], lit + [p[0]]);
    } else {
      match ReadHead(p[1..])
      case Plain(n) =>
        ParsesPlain(p, lit, n);
        var rest := p[n + 1..];
        assert "" + rest == rest;
        PrintParse(rest, "");
        CompletePlain(p, lit, n, Parse(rest, "").tokens);
        Reassociate(Flush(lit), Directive(p[1..n + 1]), Parse(rest, "").tokens);
      case Braced(n, m) =>
        ParsesBraced(p, lit, n, m);
        var rest := p[n + 2 + m..];
        assert "" + rest == rest;
        PrintParse(rest, "");
        CompleteBraced(p, lit, n, m, Parse(rest, "").tokens);
        Reassociate(Flush(lit), Formatted(p[1..n + 1], p[n + 2..n + 2 + m]), Parse(rest, "").tokens);
      case Open =>
    }
  }

  // ---------- main results ----------

  /** A token list survives printing and parsing if and only if it is well formed. */
  lemma RoundTripIffWellFormed(ts: seq<Token>)
    ensures Parse(Print(ts), "") == Parsed(ts, false) <==> WellFormed(ts)
  {
    if WellFormed(ts) {
      ParsePrint(ts, "");
      assert Flush("") + ts == ts;
    }
    if Parse(Print(ts), "") == Parsed(ts, false) {
      PrintParse(Print(ts), "");
    }
  }

  /** Two well-formed lists that print alike are equal. */
  lemma PrintIsInjective(a: seq<Token>, b: seq<Token>)
    requires WellFormed(a) && WellFormed(b) && Print(a) == Print(b)
    ensures a == b
  {
    RoundTripIffWellFormed(a);
    RoundTripIffWellFormed(b);
  }

  // ---------- characters, spelled out ----------

  /** A letter of the C locale, by its ASCII code. */
  predicate Letter(c: char) {
    65 <= c as int <= 90 || 97 <= c as int <= 122
  }

  /** What the parser takes for letters, and what the braces add to them: '{' is 123 and '}' 125. */
  lemma CharacterClasses(c: char)
    ensures IsAlpha(c) <==> Letter(c)
    ensures InName(c) <==> Letter(c) || c as int == 125
    ensures InFormat(c) <==> Letter(c) || c as int == 123
    ensures InDirective(c) <==> Letter(c) || c as int == 123 || c as int == 125
  {
  }

  /** A parse reports an error exactly when it met a brace that is not closed. */
  lemma {:induction false} ErrorIffUnclosed(p: string, lit: string)
    ensures Parse(p, lit).error <==> Unclosed in Parse(p, lit).tokens
    decreases |p|
  {
    if p == "" {
    } else if p[0] != '%' {
      ErrorIffUnclosed(p[1..], lit + [p[0]]);
    } else if |p| > 1 && p[1] == '%' {
      ErrorIffUnclosed(p[1..], lit + ['%']);
    } else {
      match ReadHead(p[1..])
      case Plain(n) => ErrorIffUnclosed(p[n + 1..], "");
      case Braced(n, m) => ErrorIffUnclosed(p[n + 2 + m..], "");
      case Open => ErrorIffUnclosed(p[1..], lit);
    }
  }

  // ---------- no character is lost ----------

  /** The characters a token came from: those it prints as, or the '%' of an unclosed brace. */
  function Characters(ts: seq<Token>): multiset<char> {
    if ts == [] then multiset{}
    else multiset(if ts[0].Unclosed? then "%" else PrintToken(ts[0])) + Characters(ts[1..])
  }

  lemma {:induction false} CharactersAppend(a: seq<Token>, b: seq<Token>)
    ensures Characters(a + b) == Characters(a) + Characters(b)
  {
    if a == [] {
      assert a + b == b;
    } else {
      assert (a + b)[1..] == a[1..] + b;
      CharactersAppend(a[1..], b);
    }
  }

  lemma SplitText(p: string, n: nat)
    requires n <= |p|
    ensures multiset(p) == multiset(p[..n]) + multiset(p[n..])
  {
    assert p == p[..n] + p[n..];
  }

  lemma FlushedCharacters(lit: string)
    ensures Characters(Flush(lit)) == multiset(lit)
  {
    if lit != "" {
      assert [Literal(lit)][1..] == [];
    }
  }

  /** One directive: what was collected, its own characters, and the rest. */
  lemma OneCharacters(lit: string, t: Token, rest: seq<Token>)
    requires !t.Unclosed?
    ensures Characters(Flush(lit) + [t] + rest) == multiset(lit) + multiset(PrintToken(t)) + Characters(rest)
  {
    CharactersAppend(Flush(lit) + [t], rest);
    CharactersAppend(Flush(lit), [t]);
    FlushedCharacters(lit);
    assert [t][1..] == [];
  }

  /** Whatever the pattern, accepted or not, the tokens hold each of its characters as often as it occurs. */
  lemma {:induction false} NoCharacterLost(p: string, lit: string)
    ensures Characters(Parse(p, lit).tokens) == multiset(lit) + multiset(p)
    decreases |p|
  {
    hide Characters, PrintToken;
    if p == "" {
      FlushedCharacters(lit);
    } else {
      SplitText(p, 1);
      assert p[..1] == [p[0]];
      if p[0] != '%' || (|p| > 1 && p[1] == '%') {
        NoCharacterLost(p[1..], lit + [p[0]]);
      } else {
        match ReadHead(p[1..])
        case Plain(n) =>
          NoCharacterLost(p[n + 1..], "");
          SplitText(p, n + 1);
          PrintedDirective(p, n);
          OneCharacters(lit, Directive(p[1..n + 1]), Parse(p[n + 1..], "").tokens);
        case Braced(n, m) =>
          NoCharacterLost(p[n + 2 + m..], "");
          SplitText(p, n + 2 + m);
          PrintedFormatted(p, n, m);
          OneCharacters(lit, Formatted(p[1..n + 1], p[n + 2..n + 2 + m]), Parse(p[n + 2 + m..], "").tokens);
        case Open =>
          NoCharacterLost(p[1..], lit);
          UnclosedCharacters(Parse(p[1..], lit).tokens);
      }
    }
  }

  lemma UnclosedCharacters(ts: seq<Token>)
    ensures Characters([Unclosed] + ts) == multiset("%") + Characters(ts)
  {
    assert ([Unclosed] + ts)[1..] == ts;
  }

  lemma PrintedDirective(p: string, n: nat)
    requires n + 1 <= |p| && p[0] == '%'
    ensures PrintToken(Directive(p[1..n + 1])) == p[..n + 1]
  {
  }

  lemma PrintedFormatted(p: string, n: nat, m: nat)
    requires n + 2 + m <= |p| && p[0] == '%' && p[n + 1] == '{'
    ensures PrintToken(Formatted(p[1..n + 1], p[n + 2..n + 2 + m])) == p[..n + 2 + m]
  {
  }
}
