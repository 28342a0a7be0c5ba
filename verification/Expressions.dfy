/** The expression grammar: what each way of writing a permission means, and that reading finds exactly that. */
module Expressions {
  import opened Lexing

  /** Expressions as written; Shaped says how many operands each operator takes. */
  datatype Expr =
    | Ref(name: string)
    | Arrow(tupleset: string, relation: string)
    | Combination(op: string, operands: seq<Expr>)

  predicate Operator(text: string) { text == "+" || text == "&" || text == "-" }

  predicate Reserved(text: string) { text == "definition" || text == "relation" || text == "permission" || text == "nil" }

  /** The lexeme names something: it is a name and no keyword. */
  predicate Naming(l: Lexeme) { l.Name? && !Reserved(l.text) }

  predicate Operating(l: Lexeme) { l.Punct? && Operator(l.text) }

  /** The tree the operands of one operator come to: flat, save that "-" nests to the left. */
  function Combine(op: string, operands: seq<Expr>): Expr
    requires |operands| >= 2
  {
    if op == "-" then FromLeft(operands) else Combination(op, operands)
  }

  function FromLeft(operands: seq<Expr>): Expr
    requires |operands| >= 1
  {
    var n := |operands| - 1;
    if n == 0 then operands[0] else Combination("-", [FromLeft(operands[..n]), operands[n]])
  }

  /** The trees expressions have. */
  predicate Shaped(e: Expr) {
    match e
    case Ref(name) => !Reserved(name)
    case Arrow(tupleset, relation) => !Reserved(tupleset) && !Reserved(relation)
    case Combination(op, operands) =>
      && Operator(op) && (if op == "-" then |operands| == 2 else |operands| >= 2)
      && forall o | o in operands :: Shaped(o)
  }

  // ---- Ways of writing ----

  /** An expression as it stands in the source, parentheses kept. */
  datatype Written =
    | WrittenRef(name: string)
    | WrittenArrow(tupleset: string, relation: string)
    | Parens(inner: Written)
    | Chain(op: string, operands: seq<Written>)

  /** One operator to a chain, and no chain among its operands but in parentheses. */
  predicate WellWritten(w: Written) {
    match w
    case WrittenRef(name) => !Reserved(name)
    case WrittenArrow(tupleset, relation) => !Reserved(tupleset) && !Reserved(relation)
    case Parens(inner) => WellWritten(inner)
    case Chain(op, operands) =>
      Operator(op) && |operands| >= 2 && forall o | o in operands :: !o.Chain? && WellWritten(o)
  }

  function Text(w: Written): (ls: seq<Lexeme>)
    ensures WellWritten(w) ==> |ls| > 0
    decreases w, 1
  {
    match w
    case WrittenRef(name) => [Name(name)]
    case WrittenArrow(tupleset, relation) => [Name(tupleset), Punct("->"), Name(relation)]
    case Parens(inner) => [Punct("(")] + Text(inner) + [Punct(")")]
    case Chain(op, operands) => if operands == [] then [] else Text(operands[0]) + TextTail(op, operands[1..])
  }

  /** Operands after the first, each behind the operator. */
  function TextTail(op: string, operands: seq<Written>): seq<Lexeme>
    decreases operands, 0
  {
    if operands == [] then [] else [Punct(op)] + Text(operands[0]) + TextTail(op, operands[1..])
  }

  function Tree(w: Written): Expr {
    match w
    case WrittenRef(name) => Ref(name)
    case WrittenArrow(tupleset, relation) => Arrow(tupleset, relation)
    case Parens(inner) => Tree(inner)
    case Chain(op, operands) =>
      if |operands| < 2 then Combination(op, []) else Combine(op, Trees(operands))
  }

  function Trees(ws: seq<Written>): (es: seq<Expr>)
    ensures |es| == |ws| && forall i :: 0 <= i < |ws| ==> es[i] == Tree(ws[i])
  {
    if ws == [] then [] else [Tree(ws[0])] + Trees(ws[1..])
  }

  // ---- Reading ----

  /** What reading takes from the front of the lexemes, and what it leaves. */
  datatype Parsed<T> = Fail | Ok(value: T, rest: seq<Lexeme>) {
    predicate IsFailure() { Fail? }
    function PropagateFailure<U>(): Parsed<U> requires Fail? { Fail }
    function Extract(): (T, seq<Lexeme>) requires Ok? { (value, rest) }
  }

  /** Moves past one lexeme, where the source can be read that far. */
  function Step(ls: seq<Lexeme>): Parsed<()> {
    if |ls| < 2 || ls[1].Bad? then Fail else Ok((), ls[1..])
  }

  function Expect(ls: seq<Lexeme>, text: string): Parsed<()> {
    if ls == [] || ls[0] != Punct(text) then Fail else Step(ls)
  }

  function TakeName(ls: seq<Lexeme>): Parsed<string> {
    if ls == [] || !Naming(ls[0]) then Fail
    else
      var (_, rest) :- Step(ls);
      Ok(ls[0].text, rest)
  }

  function ParseOperand(ls: seq<Lexeme>): (p: Parsed<Expr>)
    ensures p.Ok? ==> 0 < |p.rest| < |ls|
    decreases |ls|, 0
  {
    if ls != [] && ls[0] == Punct("(") then
      var (_, inner) :- Step(ls);
      var (e, rest) :- ParseExpr(inner);
      var (_, after) :- Expect(rest, ")");
      Ok(e, after)
    else
      var (name, rest) :- TakeName(ls);
      if rest[0] != Punct("->") then Ok(Ref(name), rest)
      else
        var (_, after) :- Step(rest);
        var (relation, end) :- TakeName(after);
        if end[0] == Punct("->") then Fail else Ok(Arrow(name, relation), end)
  }

  /** One operand, then as many more as follow the same operator. Mixing operators is refused. */
  function ParseExpr(ls: seq<Lexeme>): (p: Parsed<Expr>)
    ensures p.Ok? ==> 0 < |p.rest| < |ls|
    decreases |ls|, 2
  {
    var (first, rest) :- ParseOperand(ls);
    if !Operating(rest[0]) then Ok(first, rest)
    else
      var (others, end) :- ParseTail(rest[0].text, rest);
      Ok(Combine(rest[0].text, [first] + others), end)
  }

  function ParseTail(op: string, ls: seq<Lexeme>): (p: Parsed<seq<Expr>>)
    requires ls != []
    ensures p.Ok? ==> 0 < |p.rest| <= |ls| && (Operating(ls[0]) ==> |p.value| > 0)
    decreases |ls|, 1
  {
    if !Operating(ls[0]) then Ok([], ls)
    else if ls[0].text != op then Fail
    else
      var (_, behind) :- Step(ls);
      var (next, rest) :- ParseOperand(behind);
      var (others, end) :- ParseTail(op, rest);
      Ok([next] + others, end)
  }

  // ---- Everything well written is read as what it means ----

  predicate EndsInParens(w: Written) {
    match w
    case Parens(_) => true
    case Chain(_, operands) => operands != [] && EndsInParens(operands[|operands| - 1])
    case _ => false
  }

  /** What may stand behind an operand that ends in parentheses or not. */
  predicate MayFollow(parens: bool, rest: seq<Lexeme>) {
    rest != [] && !rest[0].Bad? && (rest[0] == Punct("->") ==> parens)
  }

  predicate Ends(w: Written, rest: seq<Lexeme>) { MayFollow(EndsInParens(w), rest) && !Operating(rest[0]) }

  lemma {:induction false} ReadsOperand(w: Written, rest: seq<Lexeme>)
    requires WellWritten(w) && !w.Chain? && MayFollow(EndsInParens(w), rest)
    ensures ParseOperand(Text(w) + rest) == Ok(Tree(w), rest)
    decreases w, 0
  {
    match w
    case WrittenRef(name) =>
    case WrittenArrow(tupleset, relation) =>
      var ls := Text(w) + rest;
      assert ls[1..] == [Punct("->"), Name(relation)] + rest;
      assert ls[1..][1..] == [Name(relation)] + rest;
    case Parens(inner) =>
      var ls := Text(w) + rest;
      assert ls[1..] == Text(inner) + ([Punct(")")] + rest);
      ReadsWritten(inner, [Punct(")")] + rest);
  }

  lemma {:induction false} ReadsTail(op: string, ws: seq<Written>, rest: seq<Lexeme>)
    requires Operator(op) && forall w :: w in ws ==> !w.Chain? && WellWritten(w)
    requires rest != [] && !rest[0].Bad? && !Operating(rest[0])
    requires rest[0] == Punct("->") ==> ws == [] || EndsInParens(ws[|ws| - 1])
    ensures ParseTail(op, TextTail(op, ws) + rest) == Ok(Trees(ws), rest)
    decreases ws, 0
  {
    hide Tree, ParseOperand, Text, WellWritten, EndsInParens;
    if ws == [] {
      assert TextTail(op, ws) + rest == rest;
    } else {
      var tail := TextTail(op, ws[1..]);
      TailText(op, ws, rest);
      hide TextTail;
      TextStarts(ws[0]);
      ReadsTail(op, ws[1..], rest);
      ReadsOperand(ws[0], tail + rest);
      hide Trees;
      TailStep(op, Text(ws[0]) + (tail + rest), Tree(ws[0]), tail + rest, Trees(ws[1..]), rest);
    }
  }

  lemma TailText(op: string, ws: seq<Written>, rest: seq<Lexeme>)
    requires ws != []
    ensures TextTail(op, ws) + rest == [Punct(op)] + (Text(ws[0]) + (TextTail(op, ws[1..]) + rest))
    ensures Trees(ws) == [Tree(ws[0])] + Trees(ws[1..])
    ensures var more := TextTail(op, ws[1..]) + rest; rest != [] ==> more[0] == if |ws| == 1 then rest[0] else Punct(op)
  {
    hide Text, Tree;
    if rest != [] { TailStarts(op, ws[1..], rest); }
    assert TextTail(op, ws) == [Punct(op)] + Text(ws[0]) + TextTail(op, ws[1..]);
    hide TextTail;
    Regroup([Punct(op)], Text(ws[0]), TextTail(op, ws[1..]), rest);
  }

  lemma TailStarts(op: string, ws: seq<Written>, rest: seq<Lexeme>)
    requires rest != []
    ensures (TextTail(op, ws) + rest)[0] == if ws == [] then rest[0] else Punct(op)
  {
  }

  lemma Regroup(a: seq<Lexeme>, b: seq<Lexeme>, c: seq<Lexeme>, d: seq<Lexeme>)
    ensures a + b + c + d == a + (b + (c + d))
  {
  }

  lemma TailStep(op: string, behind: seq<Lexeme>, e: Expr, more: seq<Lexeme>, es: seq<Expr>, rest: seq<Lexeme>)
    requires Operator(op) && behind != [] && !behind[0].Bad? && more != []
    requires ParseOperand(behind) == Ok(e, more) && ParseTail(op, more) == Ok(es, rest)
    ensures ParseTail(op, [Punct(op)] + behind) == Ok([e] + es, rest)
  {
  }

  lemma TextStarts(w: Written)
    requires WellWritten(w) && !w.Chain?
    ensures Text(w) != [] && (Text(w)[0] == Punct("(") || Text(w)[0].Name?)
  {
  }

  /** However an expression is written, reading it gives the tree it means and stops where it ends. */
  lemma {:induction false} ReadsWritten(w: Written, rest: seq<Lexeme>)
    requires WellWritten(w) && Ends(w, rest)
    ensures ParseExpr(Text(w) + rest) == Ok(Tree(w), rest)
    decreases w, 1
  {
    hide ParseOperand, TextTail, Trees;
    if w.Chain? {
      var first, ws := w.operands[0], w.operands[1..];
      var tail := TextTail(w.op, ws) + rest;
      assert Text(w) + rest == Text(first) + tail;
      TailText(w.op, ws, rest);
      ReadsOperand(first, tail);
      ReadsTail(w.op, ws, rest);
      assert Trees(w.operands) == [Tree(first)] + Trees(ws) by { TailText(w.op, w.operands, rest); }
    } else {
      ReadsOperand(w, rest);
    }
  }

  // ---- Whatever is read was well written ----

  lemma {:induction false} OperandWasWritten(ls: seq<Lexeme>) returns (w: Written)
    requires ParseOperand(ls).Ok?
    ensures WellWritten(w) && !w.Chain? && MayFollow(EndsInParens(w), ParseOperand(ls).rest)
    ensures ls == Text(w) + ParseOperand(ls).rest && Tree(w) == ParseOperand(ls).value
    decreases |ls|, 0
  {
    hide ParseTail;
    if ls[0] == Punct("(") {
      assert ParseExpr(ls[1..]).Ok?;
      var inner := ExprWasWritten(ls[1..]);
      w := Parens(inner);
      var rest, after := ParseExpr(ls[1..]).rest, ParseOperand(ls).rest;
      assert after == rest[1..] && rest[0] == Punct(")");
      hide ParseExpr, ParseOperand, WellWritten;
      InParens(ls, inner, rest, after);
    } else {
      hide ParseExpr;
      w := NameWasWritten(ls);
    }
  }

  lemma InParens(ls: seq<Lexeme>, inner: Written, rest: seq<Lexeme>, after: seq<Lexeme>)
    requires ls != [] && ls[0] == Punct("(") && ls[1..] == Text(inner) + rest
    requires rest != [] && rest[0] == Punct(")") && after == rest[1..]
    ensures ls == Text(Parens(inner)) + after
  {
  }

  lemma NameWasWritten(ls: seq<Lexeme>) returns (w: Written)
    requires ParseOperand(ls).Ok? && ls[0] != Punct("(")
    ensures WellWritten(w) && !w.Chain? && MayFollow(EndsInParens(w), ParseOperand(ls).rest)
    ensures ls == Text(w) + ParseOperand(ls).rest && Tree(w) == ParseOperand(ls).value
  {
    hide ParseExpr, ParseTail;
    if ls[1..][0] == Punct("->") {
      w := WrittenArrow(ls[0].text, ls[2].text);
      assert ls[1..][1..] == ls[2..] && ls[2..][1..] == ls[3..];
      assert ls == [ls[0], ls[1], ls[2]] + ls[3..];
    } else {
      w := WrittenRef(ls[0].text);
      assert ls == [ls[0]] + ls[1..];
    }
  }

  /** What TailWasWritten says of the rest of a chain. */
  ghost predicate IsTail(op: string, ws: seq<Written>, ls: seq<Lexeme>, es: seq<Expr>, rest: seq<Lexeme>) {
    && (forall w :: w in ws ==> !w.Chain? && WellWritten(w))
    && ls == TextTail(op, ws) + rest && Trees(ws) == es
    && rest != [] && !Operating(rest[0])
    && (ws == [] ==> rest == ls)
    && (ws != [] ==> MayFollow(EndsInParens(ws[|ws| - 1]), rest))
  }

  lemma {:induction false} TailWasWritten(op: string, ls: seq<Lexeme>) returns (ws: seq<Written>)
    requires ls != [] && Operator(op) && ParseTail(op, ls).Ok?
    ensures IsTail(op, ws, ls, ParseTail(op, ls).value, ParseTail(op, ls).rest)
    decreases |ls|, 1
  {
    hide ParseOperand, ParseExpr, IsTail;
    if !Operating(ls[0]) {
      ws := [];
      NoTail(op, ls);
    } else {
      assert ls[0] == Punct(op) && ParseOperand(ls[1..]).Ok?;
      var rest := ParseOperand(ls[1..]).rest;
      var e := ParseOperand(ls[1..]).value;
      assert ParseTail(op, ls).value == [e] + ParseTail(op, rest).value && ParseTail(op, ls).rest == ParseTail(op, rest).rest;
      var w := OperandWasWritten(ls[1..]);
      var more := TailWasWritten(op, rest);
      ws := [w] + more;
      hide ParseTail;
      MoreTail(op, ls, w, e, rest, more, ParseTail(op, rest).value, ParseTail(op, rest).rest);
    }
  }

  lemma NoTail(op: string, ls: seq<Lexeme>)
    requires ls != [] && !Operating(ls[0])
    ensures IsTail(op, [], ls, [], ls)
  {
  }

  lemma MoreTail(op: string, ls: seq<Lexeme>, w: Written, e: Expr, rest: seq<Lexeme>, more: seq<Written>, es: seq<Expr>, end: seq<Lexeme>)
    requires ls != [] && ls[0] == Punct(op) && ls[1..] == Text(w) + rest && Tree(w) == e
    requires WellWritten(w) && !w.Chain? && MayFollow(EndsInParens(w), rest)
    requires IsTail(op, more, rest, es, end)
    ensures IsTail(op, [w] + more, ls, [e] + es, end)
  {
    hide Text, Tree, WellWritten, EndsInParens;
    var ws := [w] + more;
    assert ws[1..] == more && ws[0] == w;
    TailText(op, ws, end);
    hide TextTail, Trees;
    assert ls == [Punct(op)] + (Text(w) + rest);
    assert ws[|ws| - 1] == if more == [] then w else more[|more| - 1];
  }

  /** Whatever reading accepts is a way of writing the tree it returns, so nothing else is accepted. */
  lemma {:induction false} ExprWasWritten(ls: seq<Lexeme>) returns (w: Written)
    requires ParseExpr(ls).Ok?
    ensures WellWritten(w) && Ends(w, ParseExpr(ls).rest)
    ensures ls == Text(w) + ParseExpr(ls).rest && Tree(w) == ParseExpr(ls).value
    decreases |ls|, 2
  {
    hide ParseOperand, ParseTail, IsTail, Text, Tree, WellWritten, EndsInParens;
    var first := OperandWasWritten(ls);
    var rest := ParseOperand(ls).rest;
    if !Operating(rest[0]) {
      w := first;
    } else {
      var op := rest[0].text;
      var ws := TailWasWritten(op, rest);
      assert |ParseTail(op, rest).value| > 0;
      assert ParseExpr(ls) == Ok(Combine(op, [Tree(first)] + ParseTail(op, rest).value), ParseTail(op, rest).rest);
      hide ParseExpr;
      w := Chain(op, [first] + ws);
      ChainWasWritten(ls, op, first, rest, ws, ParseTail(op, rest).value, ParseTail(op, rest).rest);
    }
  }

  lemma ChainWasWritten(ls: seq<Lexeme>, op: string, first: Written, rest: seq<Lexeme>, ws: seq<Written>, es: seq<Expr>, end: seq<Lexeme>)
    requires Operator(op) && WellWritten(first) && !first.Chain? && ls == Text(first) + rest
    requires IsTail(op, ws, rest, es, end) && |es| > 0
    ensures var w := Chain(op, [first] + ws);
            WellWritten(w) && Ends(w, end) && ls == Text(w) + end && Tree(w) == Combine(op, [Tree(first)] + es)
  {
    var w := Chain(op, [first] + ws);
    assert w.operands[1..] == ws && w.operands[0] == first;
    assert |ws| == |es|;
    assert Trees(w.operands) == [Tree(first)] + Trees(ws);
    assert Text(w) == Text(first) + TextTail(op, ws);
    assert w.operands[|w.operands| - 1] == ws[|ws| - 1];
  }

  // ---- The round trip ----

  /** e with parentheses around every compound operand. */
  function Print(e: Expr): Written {
    match e
    case Ref(name) => WrittenRef(name)
    case Arrow(tupleset, relation) => WrittenArrow(tupleset, relation)
    case Combination(op, operands) => Chain(op, PrintAll(operands))
  }

  function PrintAll(es: seq<Expr>): (ws: seq<Written>)
    ensures |ws| == |es|
    ensures forall i :: 0 <= i < |es| ==> ws[i] == if es[i].Combination? then Parens(Print(es[i])) else Print(es[i])
  {
    if es == [] then []
    else [if es[0].Combination? then Parens(Print(es[0])) else Print(es[0])] + PrintAll(es[1..])
  }

  lemma {:induction false} PrintMeans(e: Expr)
    requires Shaped(e)
    ensures WellWritten(Print(e)) && Tree(Print(e)) == e
  {
    if e.Combination? {
      var ws := PrintAll(e.operands);
      forall i | 0 <= i < |ws| ensures !ws[i].Chain? && WellWritten(ws[i]) && Tree(ws[i]) == e.operands[i] {
        PrintMeans(e.operands[i]);
      }
      assert Trees(ws) == e.operands;
      if e.op == "-" {
        assert FromLeft(e.operands[..1]) == e.operands[0];
        assert e.operands == [e.operands[0], e.operands[1]];
      }
    }
  }

  /** Printing a tree and reading it back returns the tree. */
  lemma RoundTrip(e: Expr, rest: seq<Lexeme>)
    requires Shaped(e) && rest != [] && !rest[0].Bad? && !Operating(rest[0]) && rest[0] != Punct("->")
    ensures ParseExpr(Text(Print(e)) + rest) == Ok(e, rest)
  {
    PrintMeans(e);
    ReadsWritten(Print(e), rest);
  }

  /** An unparenthesised chain of exclusions is read as taking its last operand from what the others would be read as. */
  lemma ExclusionAssociatesLeft(ws: seq<Written>, rest: seq<Lexeme>)
    requires |ws| >= 3 && WellWritten(Chain("-", ws)) && Ends(Chain("-", ws), rest)
    ensures var n := |ws| - 1;
            forall end :: Ends(Chain("-", ws[..n]), end) ==>
              var others := ParseExpr(Text(Chain("-", ws[..n])) + end);
              others.Ok? && ParseExpr(Text(Chain("-", ws)) + rest) == Ok(Combination("-", [others.value, Tree(ws[n])]), rest)
  {
    var n := |ws| - 1;
    ReadsWritten(Chain("-", ws), rest);
    forall end | Ends(Chain("-", ws[..n]), end)
      ensures ParseExpr(Text(Chain("-", ws[..n])) + end) == Ok(Tree(Chain("-", ws[..n])), end)
    {
      ReadsWritten(Chain("-", ws[..n]), end);
    }
    assert Trees(ws)[..n] == Trees(ws[..n]);
  }

  lemma {:induction false} FromLeftShaped(es: seq<Expr>)
    requires |es| >= 1 && forall e :: e in es ==> Shaped(e)
    ensures Shaped(FromLeft(es))
  {
    var n := |es| - 1;
    if n > 0 { FromLeftShaped(es[..n]); }
  }

  /** Every way of writing means a tree with the arities Build asks for. */
  lemma {:induction false} WrittenIsShaped(w: Written)
    requires WellWritten(w)
    ensures Shaped(Tree(w))
  {
    match w
    case Parens(inner) => WrittenIsShaped(inner);
    case Chain(op, operands) =>
      forall i | 0 <= i < |operands| ensures Shaped(Tree(operands[i])) { WrittenIsShaped(operands[i]); }
      FromLeftShaped(Trees(operands));
    case _ =>
  }
}
