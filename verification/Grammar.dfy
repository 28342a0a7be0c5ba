/** The grammar of whole schema sources, and the round trip from definitions to source and back. */
module Grammar {
  import opened Lexing
  import opened Expressions
  import Tuples

  type Kind = Tuples.Kind

  datatype Member =
    | Relation(name: string, types: seq<Kind>)
    | Permission(name: string, expr: Expr)

  datatype Definition = Definition(name: string, members: seq<Member>)

  // ---- Reading ----

  function ParseKind(ls: seq<Lexeme>): (p: Parsed<Kind>)
    ensures p.Ok? ==> 0 < |p.rest| < |ls|
  {
    var (typ, rest) :- TakeName(ls);
    if rest[0] == Punct(":") then
      var (_, star) :- Step(rest);
      var (_, end) :- Expect(star, "*");
      if end[0] == Punct("#") then Fail else Ok(Tuples.Kind(typ, "", true), end)
    else if rest[0] == Punct("#") then
      var (_, after) :- Step(rest);
      var (relation, end) :- TakeName(after);
      Ok(Tuples.Kind(typ, relation, false), end)
    else Ok(Tuples.Kind(typ, "", false), rest)
  }

  function ParseKinds(ls: seq<Lexeme>): (p: Parsed<seq<Kind>>)
    ensures p.Ok? ==> 0 < |p.rest| < |ls|
    decreases |ls|
  {
    var (kind, rest) :- ParseKind(ls);
    if rest[0] != Punct("|") then Ok([kind], rest)
    else
      var (_, after) :- Step(rest);
      var (kinds, end) :- ParseKinds(after);
      Ok([kind] + kinds, end)
  }

  function ParseMember(ls: seq<Lexeme>): (p: Parsed<Member>)
    requires ls != []
    ensures p.Ok? ==> 0 < |p.rest| < |ls|
  {
    if ls[0] == Name("relation") then
      var (_, at) :- Step(ls);
      var (name, colon) :- TakeName(at);
      var (_, after) :- Expect(colon, ":");
      var (types, end) :- ParseKinds(after);
      if end[0] == Name("with") then Fail else Ok(Relation(name, types), end)
    else if ls[0] == Name("permission") then
      var (_, at) :- Step(ls);
      var (name, equals) :- TakeName(at);
      var (_, after) :- Expect(equals, "=");
      var (expr, end) :- ParseExpr(after);
      Ok(Permission(name, expr), end)
    else Fail
  }

  /** Members up to the closing brace. */
  function ParseMembers(ls: seq<Lexeme>): (p: Parsed<seq<Member>>)
    requires ls != []
    ensures p.Ok? ==> 0 < |p.rest| <= |ls| && p.rest[0] == Punct("}")
    decreases |ls|
  {
    if ls[0] == Punct("}") then Ok([], ls)
    else
      var (member, rest) :- ParseMember(ls);
      var (members, end) :- ParseMembers(rest);
      Ok([member] + members, end)
  }

  function ParseDefinition(ls: seq<Lexeme>): (p: Parsed<Definition>)
    requires ls != []
    ensures p.Ok? ==> 0 < |p.rest| < |ls|
  {
    if ls[0] != Name("definition") then Fail
    else
      var (_, at) :- Step(ls);
      var (name, brace) :- TakeName(at);
      var (_, after) :- Expect(brace, "{");
      var (members, close) :- ParseMembers(after);
      var (_, end) :- Step(close);
      Ok(Definition(name, members), end)
  }

  function ParseFile(ls: seq<Lexeme>): (p: Parsed<seq<Definition>>)
    requires ls != []
    decreases |ls|
  {
    if ls[0].End? then Ok([], ls)
    else
      var (def, rest) :- ParseDefinition(ls);
      var (defs, end) :- ParseFile(rest);
      Ok([def] + defs, end)
  }

  // ---- Writing ----

  datatype WrittenMember =
    | WrittenRelation(name: string, types: seq<Kind>)
    | WrittenPermission(name: string, w: Written)

  datatype WrittenDefinition = WrittenDefinition(name: string, members: seq<WrittenMember>)

  predicate GoodKind(k: Kind) { !Reserved(k.typ) && !Reserved(k.relation) && (k.wildcard ==> k.relation == "") }

  predicate GoodMember(m: WrittenMember) {
    && !Reserved(m.name)
    && match m
       case WrittenRelation(_, types) => types != [] && forall k | k in types :: GoodKind(k)
       case WrittenPermission(_, w) => WellWritten(w)
  }

  predicate GoodDefinition(d: WrittenDefinition) { !Reserved(d.name) && forall m | m in d.members :: GoodMember(m) }

  function KindText(k: Kind): (ls: seq<Lexeme>)
    ensures |ls| > 0
  {
    if k.wildcard then [Name(k.typ), Punct(":"), Punct("*")]
    else if k.relation != "" then [Name(k.typ), Punct("#"), Name(k.relation)]
    else [Name(k.typ)]
  }

  function KindsText(kinds: seq<Kind>): seq<Lexeme> {
    if kinds == [] then []
    else if |kinds| == 1 then KindText(kinds[0])
    else KindText(kinds[0]) + [Punct("|")] + KindsText(kinds[1..])
  }

  function MemberText(m: WrittenMember): (ls: seq<Lexeme>)
    ensures |ls| > 0
  {
    match m
    case WrittenRelation(name, types) => [Name("relation"), Name(name), Punct(":")] + KindsText(types)
    case WrittenPermission(name, w) => [Name("permission"), Name(name), Punct("=")] + Text(w)
  }

  function MembersText(ms: seq<WrittenMember>): seq<Lexeme> {
    if ms == [] then [] else MemberText(ms[0]) + MembersText(ms[1..])
  }

  function DefinitionText(d: WrittenDefinition): seq<Lexeme> {
    [Name("definition"), Name(d.name), Punct("{")] + MembersText(d.members) + [Punct("}")]
  }

  function FileText(ds: seq<WrittenDefinition>): seq<Lexeme> {
    if ds == [] then [] else DefinitionText(ds[0]) + FileText(ds[1..])
  }

  function MemberTree(m: WrittenMember): Member {
    match m
    case WrittenRelation(name, types) => Relation(name, types)
    case WrittenPermission(name, w) => Permission(name, Tree(w))
  }

  function MembersTree(ms: seq<WrittenMember>): seq<Member> {
    if ms == [] then [] else [MemberTree(ms[0])] + MembersTree(ms[1..])
  }

  function DefinitionTree(d: WrittenDefinition): Definition { Definition(d.name, MembersTree(d.members)) }

  function FileTree(ds: seq<WrittenDefinition>): seq<Definition> {
    if ds == [] then [] else [DefinitionTree(ds[0])] + FileTree(ds[1..])
  }

  // ---- What is written reads back ----

  /** A member or the end of its definition starts here. */
  predicate AtMember(ls: seq<Lexeme>) {
    ls != [] && (ls[0] == Name("relation") || ls[0] == Name("permission") || ls[0] == Punct("}"))
  }

  lemma ReadsKind(k: Kind, rest: seq<Lexeme>)
    requires GoodKind(k) && rest != [] && !rest[0].Bad? && rest[0] != Punct("#") && rest[0] != Punct(":")
    ensures ParseKind(KindText(k) + rest) == Ok(k, rest)
  {
  }

  lemma {:induction false} ReadsKinds(kinds: seq<Kind>, rest: seq<Lexeme>)
    requires kinds != [] && (forall k :: k in kinds ==> GoodKind(k)) && AtMember(rest)
    ensures ParseKinds(KindsText(kinds) + rest) == Ok(kinds, rest)
  {
    hide ParseKind, KindText;
    if |kinds| == 1 {
      ReadsKind(kinds[0], rest);
      assert [kinds[0]] == kinds;
    } else {
      var more := KindsText(kinds[1..]) + rest;
      assert KindsText(kinds) + rest == KindText(kinds[0]) + ([Punct("|")] + more);
      ReadsKind(kinds[0], [Punct("|")] + more);
      ReadsKinds(kinds[1..], rest);
      KindsStart(kinds[1..], rest);
      hide ParseKinds, KindsText;
      AnotherKind(KindText(kinds[0]) + ([Punct("|")] + more), kinds[0], more, kinds[1..], rest);
      assert kinds == [kinds[0]] + kinds[1..];
    }
  }

  lemma AnotherKind(ls: seq<Lexeme>, k: Kind, more: seq<Lexeme>, kinds: seq<Kind>, rest: seq<Lexeme>)
    requires ParseKind(ls) == Ok(k, [Punct("|")] + more) && more != [] && !more[0].Bad?
    requires ParseKinds(more) == Ok(kinds, rest)
    ensures ParseKinds(ls) == Ok([k] + kinds, rest)
  {
    hide ParseKind;
    assert ([Punct("|")] + more)[1..] == more;
  }

  lemma KindsStart(kinds: seq<Kind>, rest: seq<Lexeme>)
    requires kinds != []
    ensures KindsText(kinds) != [] && (KindsText(kinds) + rest)[0].Name?
  {
  }

  lemma WrittenStarts(w: Written)
    requires WellWritten(w)
    ensures Text(w) != [] && !Text(w)[0].Bad?
  {
  }

  /** The three lexemes before a body, read one by one. */
  lemma ReadsHeader(word: string, name: string, punct: string, body: seq<Lexeme>)
    requires !Reserved(name) && body != [] && !body[0].Bad?
    ensures var ls := [Name(word), Name(name), Punct(punct)] + body;
            Step(ls) == Ok((), ls[1..]) && TakeName(ls[1..]) == Ok(name, ls[1..][1..]) && Expect(ls[1..][1..], punct) == Ok((), body)
  {
  }

  lemma ReadsRelation(name: string, types: seq<Kind>, rest: seq<Lexeme>)
    requires GoodMember(WrittenRelation(name, types)) && AtMember(rest)
    ensures ParseMember([Name("relation"), Name(name), Punct(":")] + (KindsText(types) + rest)) == Ok(Relation(name, types), rest)
  {
    KindsStart(types, rest);
    ReadsKinds(types, rest);
    hide ParseKinds, KindsText, Step, TakeName, Expect, GoodKind, Reserved;
    ReadsHeader("relation", name, ":", KindsText(types) + rest);
  }

  lemma ReadsPermission(name: string, w: Written, rest: seq<Lexeme>)
    requires GoodMember(WrittenPermission(name, w)) && AtMember(rest)
    ensures ParseMember([Name("permission"), Name(name), Punct("=")] + (Text(w) + rest)) == Ok(Permission(name, Tree(w)), rest)
  {
    WrittenStarts(w);
    assert Ends(w, rest);
    ReadsWritten(w, rest);
    hide ParseExpr, Text, Step, TakeName, Expect, WellWritten, Tree, Reserved, EndsInParens;
    ReadsHeader("permission", name, "=", Text(w) + rest);
  }

  lemma ReadsMember(m: WrittenMember, rest: seq<Lexeme>)
    requires GoodMember(m) && AtMember(rest)
    ensures ParseMember(MemberText(m) + rest) == Ok(MemberTree(m), rest)
  {
    hide GoodMember, ParseMember, Text, KindsText, Tree, AtMember;
    match m
    case WrittenRelation(name, types) =>
      ReadsRelation(name, types, rest);
      assert MemberText(m) + rest == [Name("relation"), Name(name), Punct(":")] + (KindsText(types) + rest);
    case WrittenPermission(name, w) =>
      ReadsPermission(name, w, rest);
      assert MemberText(m) + rest == [Name("permission"), Name(name), Punct("=")] + (Text(w) + rest);
  }

  lemma {:induction false} ReadsMembers(ms: seq<WrittenMember>, rest: seq<Lexeme>)
    requires (forall m :: m in ms ==> GoodMember(m)) && rest != [] && rest[0] == Punct("}")
    ensures ParseMembers(MembersText(ms) + rest) == Ok(MembersTree(ms), rest)
  {
    hide ParseMember, MemberText, MemberTree, GoodMember;
    if ms == [] {
      assert MembersText(ms) + rest == rest;
    } else {
      var more := MembersText(ms[1..]) + rest;
      assert MembersText(ms) + rest == MemberText(ms[0]) + more;
      MembersStart(ms[1..], rest);
      MemberStarts(ms[0]);
      ReadsMember(ms[0], more);
      ReadsMembers(ms[1..], rest);
    }
  }

  lemma MemberStarts(m: WrittenMember)
    ensures MemberText(m)[0] == Name("relation") || MemberText(m)[0] == Name("permission")
  {
  }

  lemma MembersStart(ms: seq<WrittenMember>, rest: seq<Lexeme>)
    requires rest != [] && rest[0] == Punct("}")
    ensures AtMember(MembersText(ms) + rest)
  {
  }

  lemma ReadsDefinition(d: WrittenDefinition, rest: seq<Lexeme>)
    requires GoodDefinition(d) && rest != [] && !rest[0].Bad?
    ensures ParseDefinition(DefinitionText(d) + rest) == Ok(DefinitionTree(d), rest)
  {
    hide GoodMember, Reserved, ParseMembers, MembersText, TakeName, Expect, MembersTree;
    var close := [Punct("}")] + rest;
    var body := MembersText(d.members) + close;
    MembersStart(d.members, close);
    ReadsMembers(d.members, close);
    ReadsHeader("definition", d.name, "{", body);
    assert Step(close) == Ok((), rest) by { assert close[1..] == rest; }
    hide Step;
    assert DefinitionText(d) + rest == [Name("definition"), Name(d.name), Punct("{")] + body;
  }

  /** Every well-written source reads as the definitions it means. */
  lemma {:induction false} ReadsFile(ds: seq<WrittenDefinition>)
    requires forall d :: d in ds ==> GoodDefinition(d)
    ensures ParseFile(FileText(ds) + [End]) == Ok(FileTree(ds), [End])
  {
    hide ParseDefinition, DefinitionText, DefinitionTree, GoodDefinition;
    if ds == [] {
      assert FileText(ds) + [End] == [End];
    } else {
      var more := FileText(ds[1..]) + [End];
      assert FileText(ds) + [End] == DefinitionText(ds[0]) + more;
      FileStarts(ds[1..]);
      FileStarts(ds);
      ReadsDefinition(ds[0], more);
      ReadsFile(ds[1..]);
    }
  }

  lemma FileStarts(ds: seq<WrittenDefinition>)
    ensures (FileText(ds) + [End])[0] == if ds == [] then End else Name("definition")
  {
  }

  // ---- Definitions, printed ----

  predicate GoodMemberTree(m: Member) {
    && !Reserved(m.name)
    && match m
       case Relation(_, types) => types != [] && forall k | k in types :: GoodKind(k)
       case Permission(_, expr) => Shaped(expr)
  }

  predicate GoodTree(d: Definition) { !Reserved(d.name) && forall m | m in d.members :: GoodMemberTree(m) }

  function PrintMember(m: Member): WrittenMember {
    if m.Relation? then WrittenRelation(m.name, m.types) else WrittenPermission(m.name, Print(m.expr))
  }

  function PrintMembers(ms: seq<Member>): seq<WrittenMember> {
    if ms == [] then [] else [PrintMember(ms[0])] + PrintMembers(ms[1..])
  }

  function PrintFile(ds: seq<Definition>): seq<WrittenDefinition> {
    if ds == [] then [] else [WrittenDefinition(ds[0].name, PrintMembers(ds[0].members))] + PrintFile(ds[1..])
  }

  lemma {:induction false} PrintMembersMeans(ms: seq<Member>)
    requires forall m :: m in ms ==> GoodMemberTree(m)
    ensures MembersTree(PrintMembers(ms)) == ms && forall m :: m in PrintMembers(ms) ==> GoodMember(m)
  {
    if ms != [] {
      assert GoodMemberTree(ms[0]);
      if ms[0].Permission? { PrintMeans(ms[0].expr); }
      hide Shaped, WellWritten, Print, Tree, GoodKind;
      PrintMembersMeans(ms[1..]);
      assert ms == [ms[0]] + ms[1..];
    }
  }

  lemma {:induction false} PrintFileMeans(ds: seq<Definition>)
    requires forall d :: d in ds ==> GoodTree(d)
    ensures FileTree(PrintFile(ds)) == ds && forall d :: d in PrintFile(ds) ==> GoodDefinition(d)
  {
    hide GoodMember;
    if ds != [] {
      assert GoodTree(ds[0]);
      PrintMembersMeans(ds[0].members);
      PrintFileMeans(ds[1..]);
      assert ds == [ds[0]] + ds[1..];
    }
  }

  /** Definitions written out as source, in any layout, lexed and read come back as they were. */
  lemma SourceRoundTrip(ds: seq<Definition>, lead: seq<Layout>, gaps: seq<seq<Layout>>)
    requires (forall d :: d in ds ==> GoodTree(d)) && LaidOut(FileText(PrintFile(ds)), gaps) && forall p :: p in lead ==> Fits(p)
    ensures ParseFile(Lexemes(LayoutText(lead) + Source(FileText(PrintFile(ds)), gaps))) == Ok(ds, [End])
  {
    hide GoodTree, GoodDefinition, ParseFile, FileText, Source, LayoutText, Lexemes, PrintFile, FileTree, Fits;
    PrintFileMeans(ds);
    ReadsFile(PrintFile(ds));
    LexesBack(FileText(PrintFile(ds)), gaps);
    SkipsLayout(lead, Source(FileText(PrintFile(ds)), gaps));
  }

  // ---- Whatever is read was well written ----

  /** No name is empty, as in what a source is split into. */
  predicate Named(ls: seq<Lexeme>) { forall l | l in ls :: l.Name? ==> l.text != "" }

  lemma KindWasWritten(ls: seq<Lexeme>)
    requires ParseKind(ls).Ok? && Named(ls)
    ensures GoodKind(ParseKind(ls).value) && ls == KindText(ParseKind(ls).value) + ParseKind(ls).rest
  {
    var rest := ls[1..];
    if rest[0] == Punct(":") {
      assert rest[1..] == ls[2..] && ls[2..][1..] == ls[3..];
      assert ls == [ls[0], ls[1], ls[2]] + ls[3..];
    } else if rest[0] == Punct("#") {
      assert rest[1..] == ls[2..] && ls[2..][1..] == ls[3..] && ls[2] in ls;
      assert ls == [ls[0], ls[1], ls[2]] + ls[3..];
    } else {
      assert ls == [ls[0]] + ls[1..];
    }
  }

  lemma {:induction false} KindsWereWritten(ls: seq<Lexeme>)
    requires ParseKinds(ls).Ok? && Named(ls)
    ensures var p := ParseKinds(ls);
            p.value != [] && (forall k :: k in p.value ==> GoodKind(k)) && ls == KindsText(p.value) + p.rest
    decreases |ls|
  {
    hide ParseKind, KindText, GoodKind;
    KindWasWritten(ls);
    var kind, rest := ParseKind(ls).value, ParseKind(ls).rest;
    if rest[0] == Punct("|") {
      assert rest == [rest[0]] + rest[1..];
      KindsWereWritten(rest[1..]);
      var more := ParseKinds(rest[1..]);
      assert ParseKinds(ls) == Ok([kind] + more.value, more.rest);
      assert ([kind] + more.value)[1..] == more.value;
      assert ls == KindText(kind) + ([Punct("|")] + (KindsText(more.value) + more.rest));
    }
  }

  /** The three lexemes before a body. */
  lemma HeaderWasWritten(ls: seq<Lexeme>, punct: string)
    requires Step(ls).Ok? && TakeName(ls[1..]).Ok? && Expect(ls[1..][1..], punct).Ok?
    ensures ls == [ls[0], Name(ls[1].text), Punct(punct)] + ls[3..] && !Reserved(ls[1].text)
    ensures ls[1..][1..][1..] == ls[3..] && TakeName(ls[1..]) == Ok(ls[1].text, ls[1..][1..])
    ensures Expect(ls[1..][1..], punct) == Ok((), ls[3..])
  {
    assert ls[1..][1..] == ls[2..];
    assert ls == [ls[0], ls[1], ls[2]] + ls[3..];
  }

  lemma MemberWasWritten(ls: seq<Lexeme>) returns (m: WrittenMember)
    requires ls != [] && ParseMember(ls).Ok? && Named(ls)
    ensures GoodMember(m) && MemberTree(m) == ParseMember(ls).value && ls == MemberText(m) + ParseMember(ls).rest
  {
    hide ParseKinds, ParseExpr, KindsText, Text, Tree, GoodKind, WellWritten;
    var rest := ParseMember(ls).rest;
    if ls[0] == Name("relation") {
      HeaderWasWritten(ls, ":");
      KindsWereWritten(ls[3..]);
      m := WrittenRelation(ls[1].text, ParseKinds(ls[3..]).value);
      assert ls == [ls[0], Name(ls[1].text), Punct(":")] + (KindsText(m.types) + rest);
    } else {
      HeaderWasWritten(ls, "=");
      var w := ExprWasWritten(ls[3..]);
      m := WrittenPermission(ls[1].text, w);
      assert ls == [ls[0], Name(ls[1].text), Punct("=")] + (Text(w) + rest);
    }
  }

  lemma {:induction false} MembersWereWritten(ls: seq<Lexeme>) returns (ms: seq<WrittenMember>)
    requires ls != [] && ParseMembers(ls).Ok? && Named(ls)
    ensures forall m :: m in ms ==> GoodMember(m)
    ensures MembersTree(ms) == ParseMembers(ls).value && ls == MembersText(ms) + ParseMembers(ls).rest
    decreases |ls|
  {
    hide ParseMember, GoodMember, MemberTree, MemberText;
    ms := [];
    if ls[0] != Punct("}") {
      var m := MemberWasWritten(ls);
      var more := MembersWereWritten(ParseMember(ls).rest);
      ms := [m] + more;
      assert ms[1..] == more;
    }
  }

  lemma DefinitionWasWritten(ls: seq<Lexeme>) returns (d: WrittenDefinition)
    requires ls != [] && ParseDefinition(ls).Ok? && Named(ls)
    ensures GoodDefinition(d) && DefinitionTree(d) == ParseDefinition(ls).value
    ensures ls == DefinitionText(d) + ParseDefinition(ls).rest
  {
    hide ParseMembers, GoodMember, MembersTree, MembersText;
    HeaderWasWritten(ls, "{");
    var ms := MembersWereWritten(ls[3..]);
    d := WrittenDefinition(ls[1].text, ms);
    var close, rest := ParseMembers(ls[3..]).rest, ParseDefinition(ls).rest;
    assert close == [Punct("}")] + rest;
    assert ls == [ls[0], Name(ls[1].text), Punct("{")] + (MembersText(ms) + close);
  }

  /** ds is a way of writing value, and ls is its text. */
  ghost predicate IsWritten(ls: seq<Lexeme>, ds: seq<WrittenDefinition>, value: seq<Definition>) {
    (forall d :: d in ds ==> GoodDefinition(d)) && ls == FileText(ds) + [End] && FileTree(ds) == value
  }

  /** Nothing stands behind the end. */
  predicate EndsOnce(ls: seq<Lexeme>) { forall i | 0 <= i < |ls| :: ls[i].End? ==> i == |ls| - 1 }

  /** Whatever file is read, its lexemes are a way of writing what was read. */
  lemma {:induction false} FileWasWritten(ls: seq<Lexeme>) returns (ds: seq<WrittenDefinition>)
    requires ls != [] && ParseFile(ls).Ok? && Named(ls) && EndsOnce(ls)
    ensures IsWritten(ls, ds, ParseFile(ls).value)
    decreases |ls|
  {
    hide ParseDefinition, GoodDefinition, DefinitionTree, DefinitionText;
    ds := [];
    if !ls[0].End? {
      var d := DefinitionWasWritten(ls);
      var rest := ParseDefinition(ls).rest;
      forall i | 0 <= i < |rest| ensures rest[i].End? ==> i == |rest| - 1 { assert rest[i] == ls[i + |DefinitionText(d)|]; }
      var more := FileWasWritten(rest);
      ds := [d] + more;
      assert ds[1..] == more;
    }
  }

  lemma {:induction false} LexemesAreNamed(src: string)
    ensures Named(Lexemes(src)) && EndsOnce(Lexemes(src))
    decreases |src|
  {
    hide Skip, First;
    var (l, rest) := Scan(src);
    if !l.End? && !l.Bad? { LexemesAreNamed(rest); }
  }

  // ---- Whatever is read is good ----

  lemma {:induction false} KindsAreGood(ls: seq<Lexeme>)
    requires ParseKinds(ls).Ok?
    ensures ParseKinds(ls).value != [] && forall k :: k in ParseKinds(ls).value ==> GoodKind(k)
  {
    var rest := ParseKind(ls).rest;
    if rest[0] == Punct("|") { KindsAreGood(rest[1..]); }
  }

  lemma MemberIsGood(ls: seq<Lexeme>)
    requires ls != [] && ParseMember(ls).Ok?
    ensures GoodMemberTree(ParseMember(ls).value)
  {
    hide ParseKinds, ParseExpr, GoodKind, Shaped;
    var after := ls[1..][1..][1..];
    if ls[0] == Name("relation") {
      KindsAreGood(after);
    } else {
      var w := ExprWasWritten(after);
      WrittenIsShaped(w);
    }
  }

  lemma {:induction false} MembersAreGood(ls: seq<Lexeme>)
    requires ls != [] && ParseMembers(ls).Ok?
    ensures forall m :: m in ParseMembers(ls).value ==> GoodMemberTree(m)
    decreases |ls|
  {
    hide ParseMember, GoodMemberTree;
    if ls[0] != Punct("}") {
      MemberIsGood(ls);
      MembersAreGood(ParseMember(ls).rest);
    }
  }

  /** Every expression read from a source, and every list of kinds, has the shape the builder asks for. */
  lemma {:induction false} FileIsGood(ls: seq<Lexeme>)
    requires ls != [] && ParseFile(ls).Ok?
    ensures forall d :: d in ParseFile(ls).value ==> GoodTree(d)
    decreases |ls|
  {
    hide ParseMembers, GoodMemberTree;
    if !ls[0].End? {
      MembersAreGood(ls[1..][1..][1..]);
      FileIsGood(ParseDefinition(ls).rest);
    }
  }
}
