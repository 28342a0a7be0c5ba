/** The recursive-descent parser, which reads the grammar one lexeme at a time. */
module Parsing {
  import opened Lexing
  import opened Expressions
  import opened Grammar
  import Tuples

  /** A whole source's definitions, or none where it has a syntax error. */
  datatype Reading = SyntaxError | Definitions(defs: seq<Definition>)

  // ---- Lists read in a loop ----

  /** Reading the whole list comes to the items taken so far and then what is read from here. */
  ghost predicate Continues<T>(whole: Parsed<seq<T>>, taken: seq<T>, here: Parsed<seq<T>>) {
    if here.Ok? then whole == Ok(taken + here.value, here.rest) else whole.Fail?
  }

  lemma Starts<T>(whole: Parsed<seq<T>>)
    ensures Continues(whole, [], whole)
  {
    if whole.Ok? { assert [] + whole.value == whole.value; }
  }

  lemma Resumes<T>(whole: Parsed<seq<T>>, taken: seq<T>, here: Parsed<seq<T>>, item: T, after: Parsed<seq<T>>)
    requires Continues(whole, taken, here)
    requires here == if after.Ok? then Ok([item] + after.value, after.rest) else Fail
    ensures Continues(whole, taken + [item], after)
  {
    if after.Ok? { assert taken + ([item] + after.value) == taken + [item] + after.value; }
  }

  lemma FailsHere<T>(whole: Parsed<seq<T>>, taken: seq<T>, here: Parsed<seq<T>>)
    requires Continues(whole, taken, here) && here.Fail?
    ensures whole.Fail?
  {
  }

  lemma Stops<T>(whole: Parsed<seq<T>>, taken: seq<T>, here: Parsed<seq<T>>, rest: seq<Lexeme>)
    requires Continues(whole, taken, here) && here == Ok([], rest)
    ensures whole == Ok(taken, rest)
  {
    assert taken + [] == taken;
  }

  lemma StopsWith<T>(whole: Parsed<seq<T>>, taken: seq<T>, here: Parsed<seq<T>>, item: T, rest: seq<Lexeme>)
    requires Continues(whole, taken, here) && here == Ok([item], rest)
    ensures whole == Ok(taken + [item], rest)
  {
  }

  lemma ExprStarts(ls: seq<Lexeme>)
    ensures var p := ParseOperand(ls);
            if p.Fail? then ParseExpr(ls).Fail?
            else if !Operating(p.rest[0]) then ParseExpr(ls) == p
            else var op, tail := p.rest[0].text, ParseTail(p.rest[0].text, p.rest);
                 ParseExpr(ls) == if tail.Ok? then Ok(Combine(op, [p.value] + tail.value), tail.rest) else Fail
  {
  }

  lemma TailGoesOn(op: string, ls: seq<Lexeme>)
    requires ls != [] && Operating(ls[0])
    ensures ls[0].text != op || Step(ls).Fail? || ParseOperand(Step(ls).rest).Fail? ==> ParseTail(op, ls).Fail?
    ensures ls[0].text == op && Step(ls).Ok? && ParseOperand(Step(ls).rest).Ok? ==>
              var p := ParseOperand(Step(ls).rest);
              ParseTail(op, ls) == if ParseTail(op, p.rest).Ok? then Ok([p.value] + ParseTail(op, p.rest).value, ParseTail(op, p.rest).rest)
                                   else Fail
  {
  }

  lemma TailEnds(op: string, ls: seq<Lexeme>)
    requires ls != [] && !Operating(ls[0])
    ensures ParseTail(op, ls) == Ok([], ls)
  {
  }

  class Parser {
    const lex: Lexer
    var tok: Lexeme

    ghost predicate Valid() reads this, lex { lex.Valid() && !tok.Bad? }

    /** The lexemes still to be read, the one at hand first. */
    ghost function Left(): (ls: seq<Lexeme>)
      reads this, lex
      requires Valid()
      ensures |ls| > 0
    {
      [tok] + if tok.End? then [] else Lexemes(lex.Left())
    }

    constructor (lex: Lexer, tok: Lexeme)
      requires lex.Valid() && !tok.Bad?
      ensures Valid() && this.lex == lex && this.tok == tok
    {
      this.lex, this.tok := lex, tok;
    }

    method Advance() returns (ok: bool)
      requires Valid() && !tok.End?
      modifies this, lex
      ensures var p := Step(old(Left())); ok == p.Ok? && (ok ==> Valid() && Left() == p.rest)
    {
      ghost var ahead := lex.Left();
      var t := lex.Next();
      if t.Bad? { return false; }
      tok := t;
      assert Lexemes(ahead)[0] == t;
      return true;
    }

    predicate Is(l: Lexeme) reads this { tok == l }

    method ExpectPunct(text: string) returns (ok: bool)
      requires Valid()
      modifies this, lex
      ensures var p := Expect(old(Left()), text); ok == p.Ok? && (ok ==> Valid() && Left() == p.rest)
    {
      if !Is(Punct(text)) { return false; }
      ok := Advance();
    }

    /** Accepts the present lexeme where it is a name and no reserved word. */
    method TakeNameHere() returns (ok: bool, name: string)
      requires Valid()
      modifies this, lex
      ensures var p := TakeName(old(Left())); ok == p.Ok? && (ok ==> name == p.value && Valid() && Left() == p.rest)
    {
      if !tok.Name? || Reserved(tok.text) { return false, ""; }
      name := tok.text;
      ok := Advance();
    }

    // ---- Expressions ----

    predicate IsOperator() reads this { Is(Punct("+")) || Is(Punct("&")) || Is(Punct("-")) }

    method ReadExpr() returns (ok: bool, e: Expr)
      requires Valid()
      modifies this, lex
      ensures var p := ParseExpr(old(Left())); ok == p.Ok? && (ok ==> e == p.value && Valid() && Left() == p.rest)
      decreases |Left()|, 1
    {
      hide ParseOperand, ParseTail, ParseExpr, Lexemes, Continues;
      ghost var start := Left();
      ok, e := ReadOperand();
      ExprStarts(start);
      if !ok || !IsOperator() { return; }
      var op := tok.text;
      var operands := [e];
      ghost var chain := ParseTail(op, Left());
      ghost var first := |Left()|;
      ghost var taken: seq<Expr> := [];
      Starts(chain);
      while IsOperator()
        invariant Valid() && Operator(op) && operands == [e] + taken && |Left()| <= first
        invariant Continues(chain, taken, ParseTail(op, Left()))
        decreases |Left()|
      {
        ghost var at := Left();
        ghost var here := ParseTail(op, at);
        TailGoesOn(op, at);
        if tok.text != op { FailsHere(chain, taken, here); return false, e; }
        ok := Advance();
        if !ok { FailsHere(chain, taken, here); return false, e; }
        var next: Expr;
        ok, next := ReadOperand();
        if !ok { FailsHere(chain, taken, here); return false, e; }
        operands := operands + [next];
        Resumes(chain, taken, here, next, ParseTail(op, Left()));
        taken := taken + [next];
      }
      TailEnds(op, Left());
      Stops(chain, taken, ParseTail(op, Left()), Left());
      e := Assemble(op, operands);
      return true, e;
    }

    /** Chain as a loop would build it. */
    static method Assemble(op: string, operands: seq<Expr>) returns (e: Expr)
      requires |operands| >= 2
      ensures e == Combine(op, operands)
    {
      if op != "-" { return Combination(op, operands); }
      var acc := operands[0];
      for i := 1 to |operands|
        invariant acc == FromLeft(operands[..i])
      {
        assert operands[..i + 1][..i] == operands[..i];
        acc := Combination("-", [acc, operands[i]]);
      }
      assert operands[..|operands|] == operands;
      return acc;
    }

    method ReadOperand() returns (ok: bool, e: Expr)
      requires Valid()
      modifies this, lex
      ensures var p := ParseOperand(old(Left())); ok == p.Ok? && (ok ==> e == p.value && Valid() && Left() == p.rest)
      decreases |Left()|, 0
    {
      hide ParseExpr, Lexemes;
      e := Ref("");
      if Is(Punct("(")) {
        ok := Advance();
        if !ok { return; }
        ok, e := ReadExpr();
        if !ok { return; }
        ok := ExpectPunct(")");
        return;
      }
      var name, relation: string;
      ok, name := TakeNameHere();
      if !ok { return; }
      if !Is(Punct("->")) { return true, Ref(name); }
      ok := Advance();
      if !ok { return; }
      ok, relation := TakeNameHere();
      if !ok { return; }
      if Is(Punct("->")) { return false, e; }
      return true, Arrow(name, relation);
    }

    // ---- Definitions ----

    method ReadKind() returns (ok: bool, kind: Kind)
      requires Valid()
      modifies this, lex
      ensures var p := ParseKind(old(Left())); ok == p.Ok? && (ok ==> kind == p.value && Valid() && Left() == p.rest)
    {
      hide Lexemes;
      var typ, relation: string;
      ok, typ := TakeNameHere();
      kind := Tuples.Kind(typ, "", false);
      if !ok { return; }
      if Is(Punct(":")) {
        ok := Advance();
        if !ok { return; }
        ok := ExpectPunct("*");
        if !ok { return; }
        kind := Tuples.Kind(typ, "", true);
        if Is(Punct("#")) { return false, kind; }
      } else if Is(Punct("#")) {
        ok := Advance();
        if !ok { return; }
        ok, relation := TakeNameHere();
        kind := Tuples.Kind(typ, relation, false);
      }
    }

    method ReadRelation() returns (ok: bool, m: Member)
      requires Valid() && tok == Name("relation")
      modifies this, lex
      ensures var p := ParseMember(old(Left())); ok == p.Ok? && (ok ==> m == p.value && Valid() && Left() == p.rest)
    {
      hide Lexemes, ParseKind, Continues;
      m := Relation("", []);
      ok := Advance();
      if !ok { return; }
      var name: string;
      ok, name := TakeNameHere();
      if !ok { return; }
      ok := ExpectPunct(":");
      if !ok { return; }
      var types: seq<Kind>;
      ok, types := ReadKinds();
      if !ok { return; }
      if Is(Name("with")) { return false, m; }
      return true, Relation(name, types);
    }

    /** The kinds a relation accepts, up to the first that no "|" follows. */
    method ReadKinds() returns (ok: bool, types: seq<Kind>)
      requires Valid()
      modifies this, lex
      ensures var p := ParseKinds(old(Left())); ok == p.Ok? && (ok ==> types == p.value && Valid() && Left() == p.rest)
    {
      hide Lexemes, ParseKind, Continues;
      types := [];
      ghost var whole := ParseKinds(Left());
      Starts(whole);
      var more := true;
      while more
        invariant Valid()
        invariant if more then Continues(whole, types, ParseKinds(Left())) else whole == Ok(types, Left())
        decreases more, |Left()|
      {
        ghost var here := ParseKinds(Left());
        var kind: Kind;
        ok, kind := ReadKind();
        if !ok { FailsHere(whole, types, here); return; }
        more := Is(Punct("|"));
        if more {
          ok := Advance();
          if !ok { FailsHere(whole, types, here); return; }
          Resumes(whole, types, here, kind, ParseKinds(Left()));
        } else {
          StopsWith(whole, types, here, kind, Left());
        }
        types := types + [kind];
      }
      ok := true;
    }

    method ReadPermission() returns (ok: bool, m: Member)
      requires Valid() && tok == Name("permission")
      modifies this, lex
      ensures var p := ParseMember(old(Left())); ok == p.Ok? && (ok ==> m == p.value && Valid() && Left() == p.rest)
    {
      hide Lexemes, ParseExpr;
      m := Relation("", []);
      ok := Advance();
      if !ok { return; }
      var name: string;
      ok, name := TakeNameHere();
      if !ok { return; }
      ok := ExpectPunct("=");
      if !ok { return; }
      var e: Expr;
      ok, e := ReadExpr();
      return ok, Permission(name, e);
    }

    method ReadDefinition() returns (ok: bool, d: Definition)
      requires Valid()
      modifies this, lex
      ensures var p := ParseDefinition(old(Left())); ok == p.Ok? && (ok ==> d == p.value && Valid() && Left() == p.rest)
    {
      hide Lexemes, ParseMember, ParseMembers;
      d := Definition("", []);
      if !Is(Name("definition")) { return false, d; }
      ok := Advance();
      if !ok { return; }
      var name: string;
      ok, name := TakeNameHere();
      if !ok { return; }
      ok := ExpectPunct("{");
      if !ok { return; }
      var members: seq<Member>;
      ok, members := ReadMembers();
      if !ok { return; }
      ok := Advance();
      return ok, Definition(name, members);
    }

    method ReadMembers() returns (ok: bool, members: seq<Member>)
      requires Valid()
      modifies this, lex
      ensures var p := ParseMembers(old(Left())); ok == p.Ok? && (ok ==> members == p.value && Valid() && Left() == p.rest)
    {
      hide Lexemes, ParseMember, Continues;
      members := [];
      ghost var whole := ParseMembers(Left());
      Starts(whole);
      while !Is(Punct("}"))
        invariant Valid() && Continues(whole, members, ParseMembers(Left()))
        decreases |Left()|
      {
        ghost var here := ParseMembers(Left());
        var m: Member;
        if Is(Name("relation")) {
          ok, m := ReadRelation();
        } else if Is(Name("permission")) {
          ok, m := ReadPermission();
        } else {
          NoMember(Left());
          FailsHere(whole, members, here);
          return false, members;
        }
        if !ok { FailsHere(whole, members, here); return; }
        Resumes(whole, members, here, m, ParseMembers(Left()));
        members := members + [m];
      }
      Stops(whole, members, ParseMembers(Left()), Left());
      ok := true;
    }

    lemma NoMember(ls: seq<Lexeme>)
      requires ls != [] && ls[0] != Name("relation") && ls[0] != Name("permission")
      ensures ParseMember(ls).Fail?
    {
    }
  }

  /** What the grammar says a source means. */
  function Meaning(src: string): Reading {
    var ls := Lexemes(src);
    if ls[0].Bad? || ParseFile(ls).Fail? then SyntaxError else Definitions(ParseFile(ls).value)
  }

  /** A source means value exactly where its lexemes are a good way of writing value: nothing else is accepted, and
      nothing well written is refused. */
  lemma SourceIsWritten(src: string, value: seq<Definition>)
    ensures Meaning(src) == Definitions(value) <==> exists ds :: IsWritten(Lexemes(src), ds, value)
  {
    hide Lexemes, ParseFile, Named, EndsOnce;
    LexemesAreNamed(src);
    if ParseFile(Lexemes(src)).Ok? {
      var ds := FileWasWritten(Lexemes(src));
    }
    if ds :| IsWritten(Lexemes(src), ds, value) { ReadsFile(ds); }
  }

  /** The definitions of a source, or that it has none. */
  method Parse(src: string) returns (r: Reading)
    ensures r == Meaning(src)
  {
    hide ParseDefinition, Continues, Lexemes, Scan, ParseFile;
    var lex := new Lexer(src);
    LexesOn(src);
    var t := lex.Next();
    if t.Bad? { return SyntaxError; }
    var p := new Parser(lex, t);
    var defs: seq<Definition> := [];
    ghost var whole := ParseFile(p.Left());
    Starts(whole);
    while !p.tok.End?
      invariant p.Valid() && p.lex == lex && Continues(whole, defs, ParseFile(p.Left()))
      decreases |p.Left()|
    {
      ghost var at := p.Left();
      FileGoesOn(at);
      var ok, d := p.ReadDefinition();
      if !ok { FailsHere(whole, defs, ParseFile(at)); return SyntaxError; }
      Resumes(whole, defs, ParseFile(at), d, ParseFile(p.Left()));
      defs := defs + [d];
    }
    FileGoesOn(p.Left());
    Stops(whole, defs, ParseFile(p.Left()), p.Left());
    return Definitions(defs);
  }

  lemma LexesOn(src: string)
    ensures var (l, rest) := Scan(src);
            Lexemes(src) == [l] + if l.End? || l.Bad? then [] else Lexemes(rest)
  {
  }

  lemma FileGoesOn(ls: seq<Lexeme>)
    requires ls != []
    ensures ls[0].End? ==> ParseFile(ls) == Ok([], ls)
    ensures !ls[0].End? ==>
              var p := ParseDefinition(ls);
              ParseFile(ls) == if p.Ok? && ParseFile(p.rest).Ok? then Ok([p.value] + ParseFile(p.rest).value, ParseFile(p.rest).rest) else Fail
  {
  }
}
