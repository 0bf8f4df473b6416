/** The LogFormatter object: the index loops of init and format, proved against LogPattern. */
module LogFormatterObject {
  import opened LogPattern
  import opened LogPatternTheorems

  class LogFormatter {
    const pattern: string
    var items: seq<Item>
    var ifError: bool

    ghost predicate Valid()
      reads this
    {
      Compiled(items, ifError) == Compile(pattern)
    }

    constructor (pattern: string)
      ensures Valid() && this.pattern == pattern
    {
      this.pattern := pattern;
      items := [];
      ifError := false;
      new;
      Init();
    }

    /** Lines 276-302: reads the directive at i. status is 0, 1 or 2 as in the source. */
    method ScanDirective(i: nat) returns (n: nat, status: int, begin: nat)
      requires i < |pattern|
      ensures match ReadHead(pattern[i + 1..])
              case Plain(k) => status == 0 && n == i + 1 + k
              case Braced(k, m) => status == 2 && begin == i + 1 + k && n == begin + 1 + m
              case Open => status == 1
      ensures i < n <= |pattern| && (status == 2 ==> i < begin < n)
    {
      n := i + 1;
      status := 0;
      begin := 0;
      ghost var rest := pattern[i + 1..];
      while n < |pattern|
        invariant i < n <= |pattern| && (status == 0 || status == 1)
        invariant status == 0 ==> forall k :: i < k < n ==> InName(pattern[k])
        invariant status == 1 ==> i < begin < n && pattern[begin] == '{'
        invariant status == 1 ==> forall k :: i < k < begin ==> InName(pattern[k])
        invariant status == 1 ==> forall k :: begin < k < n ==> InFormat(pattern[k])
      {
        if !IsAlpha(pattern[n]) && pattern[n] != '{' && pattern[n] != '}' {
          break;
        }
        if status == 0 && pattern[n] == '{' {
          status := 1;
          begin := n;
        } else if status == 1 && pattern[n] == '}' {
          status := 2;
          break;
        }
        n := n + 1;
      }
      if status == 0 {
        SpanIs(rest, InName, n - i - 1);
      } else {
        HeadIs(pattern, i, begin, n);
      }
    }

    /** Lines 304-309 and 317-321: the text collected so far, then the directive. */
    method PushToken(vec: seq<Token>, nstr: string, token: Token) returns (vec': seq<Token>)
      ensures vec' == vec + (Flush(nstr) + [token])
    {
      vec' := vec;
      if nstr != "" {
        vec' := vec' + [Literal(nstr)];
      }
      vec' := vec' + [token];
    }

    /** Lines 262-327: the token loop. */
    method Tokenize() returns (vec: seq<Token>, failed: bool)
      ensures Parse(pattern, "") == Parsed(vec, failed)
    {
      vec := [];
      failed := false;
      var nstr := "";
      var i := 0;
      NothingRead(pattern);
      while i < |pattern|
        invariant 0 <= i <= |pattern| && Read(pattern, i, nstr, vec, failed)
        decreases |pattern| - i
      {
        hide Read, Flush;
        if pattern[i] != '%' || (i + 1 < |pattern| && pattern[i + 1] == '%') {
          ReadChar(pattern, i, nstr, vec, failed);
          nstr := nstr + [pattern[i]];
          i := i + 1;
          continue;
        }
        var n, status, begin := ScanDirective(i);
        if status == 1 {
          ReadOpen(pattern, i, nstr, vec, failed);
          vec := vec + [Unclosed];
          failed := true;
          i := i + 1;
        } else if status == 0 {
          ReadDirective(pattern, i, n, nstr, vec, failed);
          vec := PushToken(vec, nstr, Directive(pattern[i + 1..n]));
          nstr := "";
          i := n;
        } else {
          ReadFormatted(pattern, i, begin, n, nstr, vec, failed);
          vec := PushToken(vec, nstr, Formatted(pattern[i + 1..begin], pattern[begin + 1..n]));
          nstr := "";
          i := n;
        }
      }
      AllRead(pattern, nstr, vec, failed);
      if nstr != "" {
        vec := vec + [Literal(nstr)];
      }
    }

    /** init: the token loop, then the item loop at lines 345-358. */
    method Init()
      modifies this
      ensures Valid()
    {
      var vec, failed := Tokenize();
      items := [];
      ifError := failed;
      var k := 0;
      while k < |vec|
        invariant 0 <= k <= |vec| && items == ItemsOf(vec[..k])
        invariant ifError == (failed || !AllKnown(vec[..k]))
      {
        if !KnownToken(vec[k]) {
          ifError := true;
        }
        assert vec[..k + 1] == vec[..k] + [vec[k]];
        items := items + [ItemOf(vec[k])];
        k := k + 1;
      }
      assert vec[..|vec|] == vec;
    }

    /** format: the items' texts, one after the other. */
    method Format(field: (string, string) -> string) returns (s: string)
      requires Valid()
      ensures s == Render(Compile(pattern).items, field)
    {
      s := "";
      var k := 0;
      while k < |items|
        invariant 0 <= k <= |items| && s == Render(items[..k], field)
      {
        assert items[..k + 1][..k] == items[..k];
        s := s + RenderItem(items[k], field);
        k := k + 1;
      }
      assert items[..|items|] == items;
    }
  }

  lemma {:induction false} SpanIs(s: string, f: char -> bool, n: nat)
    requires n <= |s| && (forall i :: 0 <= i < n ==> f(s[i])) && (n < |s| ==> !f(s[n]))
    ensures Span(s, f) == n
  {
  }

  lemma HeadIs(pattern: string, i: nat, begin: nat, n: nat)
    requires i < begin < n <= |pattern| && pattern[begin] == '{'
    requires forall k :: i < k < begin ==> InName(pattern[k])
    requires forall k :: begin < k < n ==> InFormat(pattern[k])
    requires n < |pattern| ==> !InFormat(pattern[n])
    ensures ReadHead(pattern[i + 1..]) ==
              if n < |pattern| && pattern[n] == '}' then Braced(begin - i - 1, n - begin - 1) else Open
  {
  }

  /** The loop's invariant: the tokens so far, followed by what the rest parses to, are the whole parse. */
  ghost predicate Read(pattern: string, i: nat, lit: string, vec: seq<Token>, failed: bool)
    requires i <= |pattern|
  {
    var rest := Parse(pattern[i..], lit);
    Parse(pattern, "") == Parsed(vec + rest.tokens, failed || rest.error)
  }

  lemma NothingRead(pattern: string)
    ensures Read(pattern, 0, "", [], false)
  {
  }

  lemma ReadChar(pattern: string, i: nat, lit: string, vec: seq<Token>, failed: bool)
    requires i < |pattern| && Read(pattern, i, lit, vec, failed)
    requires pattern[i] == '%' ==> i + 1 < |pattern| && pattern[i + 1] == '%'
    ensures Read(pattern, i + 1, lit + [pattern[i]], vec, failed)
  {
  }

  lemma ReadOpen(pattern: string, i: nat, lit: string, vec: seq<Token>, failed: bool)
    requires i < |pattern| && Read(pattern, i, lit, vec, failed) && pattern[i] == '%'
    requires !(i + 1 < |pattern| && pattern[i + 1] == '%') && ReadHead(pattern[i + 1..]) == Open
    ensures Read(pattern, i + 1, lit, vec + [Unclosed], true)
  {
  }

  lemma AllRead(pattern: string, lit: string, vec: seq<Token>, failed: bool)
    requires Read(pattern, |pattern|, lit, vec, failed)
    ensures Parse(pattern, "") == Parsed(vec + Flush(lit), failed)
  {
  }

  /** The tokens ts read between i and j. */
  lemma ReadTokens(pattern: string, i: nat, j: nat, lit: string, vec: seq<Token>, failed: bool, ts: seq<Token>)
    requires i <= j <= |pattern| && Read(pattern, i, lit, vec, failed)
    requires Parse(pattern[i..], lit) == Prepend(ts, Parse(pattern[j..], ""))
    ensures Read(pattern, j, "", vec + ts, failed)
  {
  }

  /** One directive read by the loop is one step of Parse. */
  lemma ReadDirective(pattern: string, i: nat, n: nat, lit: string, vec: seq<Token>, failed: bool)
    requires i < n <= |pattern| && Read(pattern, i, lit, vec, failed) && pattern[i] == '%'
    requires !(i + 1 < |pattern| && pattern[i + 1] == '%') && ReadHead(pattern[i + 1..]) == Plain(n - i - 1)
    ensures Read(pattern, n, "", vec + (Flush(lit) + [Directive(pattern[i + 1..n])]), failed)
  {
    var p := pattern[i..];
    var k: nat := n - i - 1;
    assert p[1..] == pattern[i + 1..];
    ParsesPlain(p, lit, k);
    assert p[1..k + 1] == pattern[i + 1..n] && p[k + 1..] == pattern[n..];
    ReadTokens(pattern, i, n, lit, vec, failed, Flush(lit) + [Directive(pattern[i + 1..n])]);
  }

  lemma SlicesAt(pattern: string, i: nat, begin: nat, n: nat)
    requires i < begin < n <= |pattern|
    ensures pattern[i..][1..begin - i] == pattern[i + 1..begin]
    ensures pattern[i..][begin - i + 1..n - i] == pattern[begin + 1..n]
    ensures pattern[i..][n - i..] == pattern[n..] && pattern[i..][1..] == pattern[i + 1..]
  {
  }

  lemma ReadFormatted(pattern: string, i: nat, begin: nat, n: nat, lit: string, vec: seq<Token>, failed: bool)
    requires i < begin < n <= |pattern| && Read(pattern, i, lit, vec, failed) && pattern[i] == '%'
    requires !(i + 1 < |pattern| && pattern[i + 1] == '%')
    requires ReadHead(pattern[i + 1..]) == Braced(begin - i - 1, n - begin - 1)
    ensures Read(pattern, n, "", vec + (Flush(lit) + [Formatted(pattern[i + 1..begin], pattern[begin + 1..n])]), failed)
  {
    hide Parse, ReadHead, Read, Flush;
    var p := pattern[i..];
    var k: nat, m: nat := begin - i - 1, n - begin - 1;
    SlicesAt(pattern, i, begin, n);
    ParsesBraced(p, lit, k, m);
    ReadTokens(pattern, i, n, lit, vec, failed,
               Flush(lit) + [Formatted(pattern[i + 1..begin], pattern[begin + 1..n])]);
  }
}
