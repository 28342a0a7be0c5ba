/** Splitting schema source into lexemes. */
module Lexing {
  /** One lexeme. Bad stands for the error that ends the source early. */
  datatype Lexeme = Name(text: string) | Punct(text: string) | End | Bad

  predicate NameByte(c: char) { 'a' <= c <= 'z' || 'A' <= c <= 'Z' || '0' <= c <= '9' || c == '_' }
  predicate Blank(c: char) { c == ' ' || c == '\t' || c == '\r' || c == '\n' }
  predicate HasPrefix(s: string, prefix: string) { prefix <= s }

  const PUNCTUATION := "{}():|#*+&-="

  // ---- What the next lexeme of a source is ----

  /** s from its first line break on. */
  function FromBreak(s: string): (r: string)
    ensures |r| <= |s| && r == s[|s| - |r|..]
  {
    if s == "" || s[0] == '\n' then s else FromBreak(s[1..])
  }

  /** What follows the first close of a comment in s; an unclosed one has no rest. */
  datatype Rest = Unclosed | Rest(s: string)

  function AfterClose(s: string): (r: Rest)
    ensures r.Rest? ==> |r.s| + 2 <= |s| && r.s == s[|s| - |r.s|..]
  {
    if |s| < 2 then Unclosed
    else if s[0] == '*' && s[1] == '/' then Rest(s[2..])
    else AfterClose(s[1..])
  }

  /** s without leading blanks and comments. */
  function Skip(s: string): (r: Rest)
    ensures r.Rest? ==> |r.s| <= |s|
    decreases |s|
  {
    if s == "" then Rest(s)
    else if Blank(s[0]) then Skip(s[1..])
    else if HasPrefix(s, "//") then Skip(FromBreak(s[2..]))
    else if HasPrefix(s, "/*") then
      var r := AfterClose(s[2..]);
      if r.Unclosed? then Unclosed else Skip(r.s)
    else Rest(s)
  }

  function NameLength(s: string): (n: nat)
    ensures n <= |s| && (forall i :: 0 <= i < n ==> NameByte(s[i])) && (n < |s| ==> !NameByte(s[n]))
  {
    if s == "" || !NameByte(s[0]) then 0 else 1 + NameLength(s[1..])
  }

  /** The lexeme s starts with. */
  function First(s: string): (l: Lexeme)
    requires s != ""
    ensures l.Name? || l.Punct? ==> 0 < |l.text| <= |s|
  {
    if NameByte(s[0]) then Name(s[..NameLength(s)])
    else if HasPrefix(s, "->") then Punct("->")
    else if s[0] in PUNCTUATION then Punct(s[..1])
    else Bad
  }

  function Scan(s: string): (r: (Lexeme, string))
    ensures r.0.Name? || r.0.Punct? ==> |r.1| < |s|
  {
    var rest := Skip(s);
    if rest.Unclosed? then (Bad, s)
    else if rest.s == "" then (End, "")
    else
      var l := First(rest.s);
      if l.Bad? then (Bad, rest.s) else (l, rest.s[|l.text|..])
  }

  /** Every lexeme of s, up to and including its end or the first error. */
  function Lexemes(s: string): (ls: seq<Lexeme>)
    ensures |ls| > 0
    decreases |s|
  {
    var (l, rest) := Scan(s);
    if l.End? || l.Bad? then [l] else [l] + Lexemes(rest)
  }

  lemma SkipStep(s: string)
    requires s != ""
    ensures Blank(s[0]) ==> Skip(s) == Skip(s[1..])
    ensures !Blank(s[0]) && HasPrefix(s, "//") ==> Skip(s) == Skip(FromBreak(s[2..]))
    ensures !Blank(s[0]) && !HasPrefix(s, "//") && HasPrefix(s, "/*") ==>
              Skip(s) == if AfterClose(s[2..]).Unclosed? then Unclosed else Skip(AfterClose(s[2..]).s)
    ensures !Blank(s[0]) && !HasPrefix(s, "//") && !HasPrefix(s, "/*") ==> Skip(s) == Rest(s)
  {
  }

  lemma BreakAt(s: string, i: nat)
    requires i <= |s|
    ensures FromBreak(s[i..]) == if i == |s| || s[i] == '\n' then s[i..] else FromBreak(s[i + 1..])
  {
  }

  // ---- The lexer ----

  lemma Further(s: string, i: nat, n: nat)
    requires i + n <= |s|
    ensures s[i..][n..] == s[i + n..]
  {
  }

  class Lexer {
    const src: string
    var off: nat

    ghost predicate Valid() reads this { off <= |src| }

    /** What is still to be read. */
    ghost function Left(): string
      reads this
      requires Valid()
    {
      src[off..]
    }

    constructor (src: string)
      ensures Valid() && this.src == src && Left() == src
    {
      this.src := src;
      off := 0;
    }

    method Next() returns (l: Lexeme)
      requires Valid()
      modifies this
      ensures Valid()
      ensures l == Scan(old(Left())).0
      ensures !l.Bad? ==> Left() == Scan(old(Left())).1
    {
      var closed, at := SkipFrom(src, off);
      off := at;
      if !closed { return Bad; }
      if off == |src| { return End; }
      l := First(src[off..]);
      if l.Bad? { return; }
      Further(src, off, |l.text|);
      off := off + |l.text|;
    }
  }

  /** Where the next lexeme of s at or after off starts, unless a comment before it is never closed. */
  method SkipFrom(s: string, off: nat) returns (closed: bool, at: nat)
    requires off <= |s|
    ensures at <= |s| && Skip(s[off..]) == if closed then Rest(s[at..]) else Unclosed
  {
    hide Skip, Blank, FromBreak, AfterClose;
    at := off;
    while at < |s|
      invariant at <= |s| && Skip(s[off..]) == Skip(s[at..])
    {
      var rest := s[at..];
      SkipStep(rest);
      if Blank(rest[0]) {
        Further(s, at, 1);
        at := at + 1;
      } else if HasPrefix(rest, "//") {
        Further(s, at, 2);
        at := BreakFrom(s, at + 2);
      } else if HasPrefix(rest, "/*") {
        var end := FindClose(rest[2..]);
        if end < 0 { return false, at; }
        Further(s, at, 2);
        Further(s, at + 2, end + 2);
        at := at + 2 + end + 2;
      } else {
        return true, at;
      }
    }
    NothingLeft(s);
    return true, at;
  }

  lemma NothingLeft(s: string)
    ensures s[|s|..] == "" && Skip("") == Rest("")
  {
  }

  method BreakFrom(s: string, off: nat) returns (at: nat)
    requires off <= |s|
    ensures off <= at <= |s| && FromBreak(s[off..]) == s[at..]
  {
    hide FromBreak;
    at := off;
    while at < |s| && s[at] != '\n'
      invariant off <= at <= |s| && FromBreak(s[off..]) == FromBreak(s[at..])
    {
      BreakAt(s, at);
      at := at + 1;
    }
    BreakAt(s, at);
  }

  /** Where the first close of a comment stands in s, or -1. */
  method FindClose(s: string) returns (end: int)
    ensures if end < 0 then AfterClose(s).Unclosed? else end + 2 <= |s| && AfterClose(s) == Rest(s[end + 2..])
  {
    end := 0;
    while end + 2 <= |s|
      invariant 0 <= end && (end <= |s| ==> AfterClose(s) == AfterClose(s[end..])) && end <= |s|
    {
      assert s[end..][1..] == s[end + 1..] && s[end..][2..] == s[end + 2..];
      if s[end] == '*' && s[end + 1] == '/' { return; }
      end := end + 1;
    }
    return -1;
  }

  // ---- Lexing what was written ----

  /** A lexeme source can hold. */
  predicate Legal(l: Lexeme) {
    match l
    case Name(text) => text != "" && forall i :: 0 <= i < |text| ==> NameByte(text[i])
    case Punct(text) => text == "->" || (|text| == 1 && text[0] in PUNCTUATION)
    case _ => false
  }

  /** What a source may be laid out with: single blanks, comments to the end of a line, and comments with a close. */
  datatype Layout = Space(c: char) | ToBreak(text: string) | ToClose(text: string)

  predicate Fits(p: Layout) {
    match p
    case Space(c) => c in " \t\r\n"
    case ToBreak(text) => '\n' !in text
    case ToClose(text) => forall i | 0 <= i < |text| :: !((text + "*/")[i] == '*' && (text + "*/")[i + 1] == '/')
  }

  function PieceText(p: Layout): string {
    match p
    case Space(c) => [c]
    case ToBreak(text) => "//" + (text + "\n")
    case ToClose(text) => "/*" + (text + "*/")
  }

  function LayoutText(ps: seq<Layout>): string { if ps == [] then "" else PieceText(ps[0]) + LayoutText(ps[1..]) }

  /** Between two lexemes there is something. */
  predicate LaidOut(ls: seq<Lexeme>, gaps: seq<seq<Layout>>) {
    && |gaps| == |ls| && (forall l | l in ls :: Legal(l)) && (forall g | g in gaps :: forall p | p in g :: Fits(p))
    && forall i | 0 <= i < |gaps| - 1 :: gaps[i] != []
  }

  /** The lexemes, each followed by its gap. */
  function Source(ls: seq<Lexeme>, gaps: seq<seq<Layout>>): string
    requires |gaps| == |ls| && forall l :: l in ls ==> Legal(l)
  {
    if ls == [] then ""
    else
      assert Legal(ls[0]);
      ls[0].text + (LayoutText(gaps[0]) + Source(ls[1..], gaps[1..]))
  }

  lemma {:induction false} BreakFound(text: string, rest: string)
    requires '\n' !in text
    ensures FromBreak(text + ("\n" + rest)) == "\n" + rest
  {
    var s := text + ("\n" + rest);
    if text == "" { assert s == "\n" + rest; } else {
      assert s[1..] == text[1..] + ("\n" + rest);
      assert s[0] in text;
      BreakFound(text[1..], rest);
    }
  }

  lemma {:induction false} CloseFound(text: string, rest: string)
    requires Fits(ToClose(text))
    ensures AfterClose(text + ("*/" + rest)) == Rest(rest)
  {
    var s := text + ("*/" + rest);
    if text == "" { assert s == "*/" + rest && s[2..] == rest; } else {
      assert s[1..] == text[1..] + ("*/" + rest);
      assert s[0] == (text + "*/")[0] && s[1] == (text + "*/")[1];
      forall i | 0 <= i < |text[1..]| ensures !((text[1..] + "*/")[i] == '*' && (text[1..] + "*/")[i + 1] == '/') {
        assert (text[1..] + "*/")[i] == (text + "*/")[i + 1] && (text[1..] + "*/")[i + 1] == (text + "*/")[i + 2];
      }
      CloseFound(text[1..], rest);
    }
  }

  /** Layout means nothing, wherever it stands. */
  lemma {:induction false} SkipsLayout(ps: seq<Layout>, rest: string)
    requires forall p :: p in ps ==> Fits(p)
    ensures Skip(LayoutText(ps) + rest) == Skip(rest)
    ensures Lexemes(LayoutText(ps) + rest) == Lexemes(rest)
  {
    hide Skip, Lexemes, First, Fits, PieceText, FromBreak, AfterClose, Scan;
    if ps == [] {
      assert LayoutText(ps) + rest == rest;
    } else {
      var more := LayoutText(ps[1..]) + rest;
      SkipsLayout(ps[1..], rest);
      assert Fits(ps[0]);
      assert LayoutText(ps) + rest == PieceText(ps[0]) + more;
      PieceSkipped(ps[0], more);
      ScanSkips(LayoutText(ps) + rest, rest);
    }
  }

  lemma PieceSkipped(p: Layout, more: string)
    requires Fits(p)
    ensures Skip(PieceText(p) + more) == Skip(more)
  {
    hide Skip, AfterClose, FromBreak;
    var s := PieceText(p) + more;
    SkipStep(s);
    match p
    case Space(c) => assert s[1..] == more;
    case ToBreak(text) => BreakSkipped(text, more);
    case ToClose(text) => CloseSkipped(text, more);
  }

  lemma BreakSkipped(text: string, more: string)
    requires '\n' !in text
    ensures Skip("//" + (text + "\n") + more) == Skip(more)
  {
    hide Skip, AfterClose, FromBreak;
    var s := "//" + (text + "\n") + more;
    assert s[0] == '/' && s[2..] == text + ("\n" + more) && HasPrefix(s, "//");
    SkipStep(s);
    BreakFound(text, more);
    SkipStep("\n" + more);
    assert ("\n" + more)[1..] == more;
  }

  lemma CloseSkipped(text: string, more: string)
    requires Fits(ToClose(text))
    ensures Skip("/*" + (text + "*/") + more) == Skip(more)
  {
    hide Skip, AfterClose, FromBreak, Fits;
    var s := "/*" + (text + "*/") + more;
    assert s[0] == '/' && s[1] == '*' && s[2..] == text + ("*/" + more) && HasPrefix(s, "/*") && !HasPrefix(s, "//");
    SkipStep(s);
    CloseFound(text, more);
  }

  lemma ScanSkips(s: string, rest: string)
    requires Skip(s) == Skip(rest)
    ensures Lexemes(s) == Lexemes(rest)
  {
    hide Skip, First;
  }

  lemma {:induction false} NameStops(text: string, rest: string)
    requires forall i :: 0 <= i < |text| ==> NameByte(text[i])
    requires rest == "" || !NameByte(rest[0])
    ensures NameLength(text + rest) == |text|
  {
    if text != "" {
      assert (text + rest)[0] == text[0] && (text + rest)[1..] == text[1..] + rest;
      NameStops(text[1..], rest);
    } else {
      assert text + rest == rest;
    }
  }

  /** However a source is laid out, its lexemes read back. */
  lemma {:induction false} LexesBack(ls: seq<Lexeme>, gaps: seq<seq<Layout>>)
    requires LaidOut(ls, gaps)
    ensures Lexemes(Source(ls, gaps)) == ls + [End]
  {
    hide Lexemes, First, Skip, HasPrefix, Fits, LayoutText;
    if ls == [] {
      LexesEnd();
    } else {
      var rest := Source(ls[1..], gaps[1..]);
      assert forall i :: 0 <= i < |gaps[1..]| ==> gaps[1..][i] == gaps[i + 1];
      assert forall g :: g in gaps[1..] ==> g in gaps;
      LexesBack(ls[1..], gaps[1..]);
      assert Legal(ls[0]) && gaps[0] in gaps;
      GapStarts(gaps[0]);
      assert gaps[0] == [] ==> |ls| == 1 && rest == "";
      assert LayoutText(gaps[0]) != "" ==> (LayoutText(gaps[0]) + rest)[0] == LayoutText(gaps[0])[0];
      LexesOne(ls[0], LayoutText(gaps[0]) + rest);
      SkipsLayout(gaps[0], rest);
      assert ls == [ls[0]] + ls[1..];
    }
  }

  lemma GapStarts(g: seq<Layout>)
    requires forall p :: p in g ==> Fits(p)
    ensures if g == [] then LayoutText(g) == "" else LayoutText(g) != "" && LayoutText(g)[0] in " \t\r\n/"
  {
    if g != [] { assert Fits(g[0]); }
  }

  lemma LexesEnd()
    ensures Lexemes("") == [End]
  {
  }

  /** A lexeme ends where layout starts. */
  lemma LexesOne(l: Lexeme, rest: string)
    requires Legal(l) && (rest == "" || rest[0] in " \t\r\n/")
    ensures Lexemes(l.text + rest) == [l] + Lexemes(rest)
  {
    FirstIs(l, rest);
    hide First, Skip;
    var s := l.text + rest;
    assert s[|l.text|..] == rest;
  }

  lemma FirstIs(l: Lexeme, rest: string)
    requires Legal(l) && (rest == "" || rest[0] in " \t\r\n/")
    ensures var s := l.text + rest; s != "" && First(s) == l && Skip(s) == Rest(s)
  {
    if l.Name? { NameFirst(l.text, rest); } else { PunctFirst(l.text, rest); }
  }

  lemma NameFirst(text: string, rest: string)
    requires Legal(Name(text)) && (rest == "" || rest[0] in " \t\r\n/")
    ensures var s := text + rest; s != "" && First(s) == Name(text) && Skip(s) == Rest(s)
  {
    hide Skip, NameLength;
    var s := text + rest;
    assert s[0] == text[0] && NameByte(text[0]);
    NameStops(text, rest);
    assert s[..|text|] == text;
    SkipStep(s);
  }

  lemma PunctFirst(text: string, rest: string)
    requires Legal(Punct(text)) && (rest == "" || rest[0] in " \t\r\n/")
    ensures var s := text + rest; s != "" && First(s) == Punct(text) && Skip(s) == Rest(s)
  {
    hide Skip, NameLength, FromBreak, AfterClose;
    var s := text + rest;
    assert s[0] == text[0];
    if text == "->" { assert s[1] == '>'; } else { assert s[..1] == text && (rest != "" ==> s[1] == rest[0]); }
    SkipStep(s);
  }
}
