/** Which strings may name what: the alphabet that keeps formatted tuples and lock names unambiguous. */
module Names {
  /** The id part of a wildcard subject. */
  const WILDCARD_MARKER := "*"

  const MAX_TYPE_LEN := 64
  const MAX_RELATION_LEN := 64
  const MAX_OBJECT_ID_LEN := 1024

  predicate Lower(c: char) { 'a' <= c <= 'z' }
  predicate Upper(c: char) { 'A' <= c <= 'Z' }
  predicate Digit(c: char) { '0' <= c <= '9' }
  predicate DSLChar(c: char) { Lower(c) || Digit(c) || c == '_' }
  predicate ObjectIDChar(c: char) { Lower(c) || Upper(c) || Digit(c) || c in "_.-/=+" }

  predicate IsDSLName(s: string, maxLen: nat) {
    0 < |s| <= maxLen && Lower(s[0]) && forall i :: 0 <= i < |s| ==> DSLChar(s[i])
  }

  predicate IsObjectID(s: string) {
    0 < |s| <= MAX_OBJECT_ID_LEN && forall i :: 0 <= i < |s| ==> ObjectIDChar(s[i])
  }

  predicate IsType(s: string) { IsDSLName(s, MAX_TYPE_LEN) }
  predicate IsRelation(s: string) { IsDSLName(s, MAX_RELATION_LEN) }
  predicate IsObject(typ: string, id: string) { IsType(typ) && IsObjectID(id) }

  /** A subject relation may also be absent, and a subject id may be the marker, but not both of a userset and
      the marker. */
  predicate IsSubject(typ: string, id: string, relation: string) {
    IsType(typ) && if id == WILDCARD_MARKER then relation == "" else IsObjectID(id) && (relation == "" || IsRelation(relation))
  }

  method ValidObjectID(s: string) returns (ok: bool)
    ensures ok <==> IsObjectID(s)
  {
    if s == "" || |s| > MAX_OBJECT_ID_LEN { return false; }
    for i := 0 to |s|
      invariant forall j :: 0 <= j < i ==> ObjectIDChar(s[j])
    {
      if !ObjectIDChar(s[i]) { return false; }
    }
    return true;
  }

  method ValidDSLName(s: string, maxLen: nat) returns (ok: bool)
    ensures ok <==> IsDSLName(s, maxLen)
  {
    if s == "" || |s| > maxLen { return false; }
    if s[0] < 'a' || s[0] > 'z' { return false; }
    for i := 1 to |s|
      invariant forall j :: 0 <= j < i ==> DSLChar(s[j])
    {
      var c := s[i];
      if (c < 'a' || c > 'z') && (c < '0' || c > '9') && c != '_' { return false; }
    }
    return true;
  }

  // ---- Separators ----

  function Join(a: string, separator: char, b: string): string { a + [separator] + b }

  /** Where the separator stands in neither first part, joined strings come apart one way only. */
  lemma JoinUnique(a: string, b: string, separator: char, a': string, b': string)
    requires separator !in a && separator !in a'
    requires Join(a, separator, b) == Join(a', separator, b')
    ensures a == a' && b == b'
  {
    var s := Join(a, separator, b);
    assert s[|a|] == separator && s[|a'|] == separator;
    assert forall i :: 0 <= i < |a| ==> s[i] == a[i];
    assert forall i :: 0 <= i < |a'| ==> s[i] == a'[i];
    assert a == s[..|a|] && a' == s[..|a'|];
    assert b == s[|a| + 1..] && b' == s[|a'| + 1..];
  }

  // ---- Byte order ----

  predicate Less(a: string, b: string) {
    if b == "" then false
    else if a == "" then true
    else a[0] < b[0] || (a[0] == b[0] && Less(a[1..], b[1..]))
  }

  lemma {:induction false} LessTotal(a: string, b: string)
    ensures a == b || Less(a, b) || Less(b, a)
    ensures !(Less(a, b) && Less(b, a)) && (a == b ==> !Less(a, b))
  {
    if a != "" && b != "" {
      LessTotal(a[1..], b[1..]);
      if a[0] == b[0] && a[1..] == b[1..] { assert a == [a[0]] + a[1..] == b; }
    }
  }

  lemma {:induction false} LessTrans(a: string, b: string, c: string)
    requires Less(a, b) && Less(b, c)
    ensures Less(a, c)
  {
    if a != "" && a[0] == b[0] == c[0] { LessTrans(a[1..], b[1..], c[1..]); }
  }

  ghost predicate Ascending(names: seq<string>) {
    forall i, j :: 0 <= i < j < |names| ==> Less(names[i], names[j])
  }

  /** The names of a set, each once, in byte order. */
  method SortedNames(names: set<string>) returns (out: seq<string>)
    ensures Ascending(out) && forall n :: n in out <==> n in names
  {
    out := [];
    var rest := names;
    while rest != {}
      invariant rest <= names && Ascending(out)
      invariant forall n :: n in out <==> n in names - rest
      invariant forall n, m :: n in out && m in rest ==> Less(n, m)
    {
      var least := LeastName(rest);
      forall n | n in out ensures Less(n, least) {}
      rest, out := rest - {least}, out + [least];
    }
  }

  method LeastName(names: set<string>) returns (least: string)
    requires names != {}
    ensures least in names && forall n :: n in names && n != least ==> Less(least, n)
  {
    least :| least in names;
    var rest := names - {least};
    while rest != {}
      invariant rest <= names && least in names - rest
      invariant forall n :: n in names - rest && n != least ==> Less(least, n)
    {
      var next :| next in rest;
      LessTotal(least, next);
      if Less(next, least) {
        forall n | n in names - rest && n != least ensures Less(next, n) { LessTrans(next, least, n); }
        least := next;
      }
      rest := rest - {next};
    }
  }
}
