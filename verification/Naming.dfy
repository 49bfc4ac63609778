/** Names of the naming service as strings: components separated by '/', and in each an id
    and a kind separated by '.'. */
module Naming {

  datatype NameComponent = NameComponent(id: string, kind: string)

  type Name = seq<NameComponent>

  predicate IsSep(c: char) {
    c == '/' || c == '.'
  }

  predicate NoSep(s: string) {
    forall i :: 0 <= i < |s| ==> !IsSep(s[i])
  }

  predicate Proper(c: NameComponent) {
    c.id != "" && NoSep(c.id) && NoSep(c.kind)
  }

  predicate AllProper(name: Name) {
    forall i :: 0 <= i < |name| ==> Proper(name[i])
  }

  // ---------- printing ----------

  function ComponentText(c: NameComponent): string {
    "/" + c.id + if c.kind == "" then "" else "." + c.kind
  }

  function NameText(name: Name): string {
    if name == [] then "" else ComponentText(name[0]) + NameText(name[1..])
  }

  /** operator<<: what is written to the stream. */
  method Print(os: string, n: Name) returns (os': string)
    ensures os' == os + NameText(n)
  {
    hide NameText;
    os' := os;
    PrintStarts(n);
    for i := 0 to |n|
      invariant os' + NameText(n[i..]) == os + NameText(n)
    {
      PrintStep(os', n, i);
      os' := os' + "/" + n[i].id;
      if n[i].kind != "" {
        os' := os' + "." + n[i].kind;
      }
    }
  }

  lemma PrintStarts(n: Name)
    ensures n[0..] == n && NameText(n[|n|..]) == ""
  {
  }

  lemma PrintStep(os: string, n: Name, i: nat)
    requires i < |n|
    ensures var os' := os + "/" + n[i].id;
      (if n[i].kind == "" then os' else os' + "." + n[i].kind) + NameText(n[i + 1..]) == os + NameText(n[i..])
  {
    var rest := NameText(n[i + 1..]);
    assert n[i..][1..] == n[i + 1..];
    assert NameText(n[i..]) == ComponentText(n[i]) + rest;
    hide NameText;
    if n[i].kind == "" {
      assert os + "/" + n[i].id == os + ComponentText(n[i]);
    } else {
      assert os + "/" + n[i].id + "." + n[i].kind == os + ComponentText(n[i]);
    }
    assert os + ComponentText(n[i]) + rest == os + (ComponentText(n[i]) + rest);
  }

  // ---------- reading ----------

  /** What is left when leading separators are dropped. */
  function SkipSeps(s: string): (t: string)
    ensures |t| <= |s| && (t != "" ==> !IsSep(t[0]))
  {
    if s == "" || !IsSep(s[0]) then s else SkipSeps(s[1..])
  }

  /** What comes before the first separator. */
  function Piece(s: string): (p: string)
    ensures p <= s && NoSep(p) && (|p| < |s| ==> IsSep(s[|p|]))
  {
    if s == "" || IsSep(s[0]) then "" else [s[0]] + Piece(s[1..])
  }

  /** One more piece: an id, or the kind of the component read last. */
  function WithPiece(name: Name, last: char, piece: string): Name
    requires name == [] ==> last == '/'
  {
    if last == '/' then name + [NameComponent(piece, "")]
    else name[|name| - 1 := name[|name| - 1].(kind := piece)]
  }

  /** The name read from s, the components in `name` having been read before, up to the
      separator `last`. There is always a component to give the kind to. */
  function ReadName(s: string, last: char, name: Name): (r: Name)
    requires name == [] ==> last == '/'
    decreases |s|
  {
    var t := SkipSeps(s);
    if t == "" then name
    else
      var piece := Piece(t);
      var name' := WithPiece(name, last, piece);
      var rest := t[|piece|..];
      if rest == "" then name' else ReadName(rest, rest[0], name')
  }

  function Parse(s: string): Name {
    ReadName(s, '/', [])
  }

  function FirstNotOf(n: string, pos: nat): (i: nat)
    requires pos <= |n|
    ensures pos <= i <= |n| && n[i..] == SkipSeps(n[pos..]) && (i < |n| ==> !IsSep(n[i]))
    decreases |n| - pos
  {
    if pos == |n| || !IsSep(n[pos]) then pos else FirstNotOf(n, pos + 1)
  }

  function FirstOf(n: string, pos: nat): (i: nat)
    requires pos <= |n|
    ensures pos <= i <= |n| && n[pos..i] == Piece(n[pos..])
    ensures pos < |n| && !IsSep(n[pos]) ==> pos < i
    decreases |n| - pos
  {
    if pos == |n| || IsSep(n[pos]) then pos
    else
      assert n[pos..][1..] == n[pos + 1..];
      FirstOf(n, pos + 1)
  }

  /** One round of the loop. */
  lemma ReadStep(n: string, pos: nat, last: char, name: Name)
    requires pos <= |n| && (name == [] ==> last == '/')
    ensures var p := FirstNotOf(n, pos); var sep := FirstOf(n, p);
      ReadName(n[pos..], last, name) ==
      if p == |n| then name
      else if sep == |n| then WithPiece(name, last, n[p..sep])
      else ReadName(n[sep..], n[sep], WithPiece(name, last, n[p..sep]))
  {
    hide SkipSeps, Piece, FirstOf, FirstNotOf;
    var p := FirstNotOf(n, pos);
    var sep := FirstOf(n, p);
    assert n[p..][|n[p..sep]|..] == n[sep..];
    if p < |n| {
      assert n[p..] != "";
    }
  }

  /** str2name. */
  method Str2Name(n: string) returns (name: Name)
    ensures name == Parse(n)
  {
    assert n[0..] == n;
    name := [];
    var pos, last := 0, '/';
    while true
      invariant pos <= |n| && (name == [] ==> last == '/')
      invariant ReadName(n[pos..], last, name) == Parse(n)
      decreases |n| - pos
    {
      hide ReadName, SkipSeps, Piece, FirstOf, FirstNotOf;
      ReadStep(n, pos, last, name);
      pos := FirstNotOf(n, pos);
      if pos == |n| {
        break;
      }
      var sep := FirstOf(n, pos);
      var piece := n[pos..sep];
      if last == '/' {
        name := name + [NameComponent(piece, "")];
      } else {
        name := name[|name| - 1 := name[|name| - 1].(kind := piece)];
      }
      if sep == |n| {
        break;
      }
      pos := sep;
      last := n[sep];
    }
  }

  // ---------- round trips ----------

  predicate Ends(rest: string) {
    rest != "" ==> IsSep(rest[0])
  }

  lemma {:induction false} PieceOf(p: string, rest: string)
    requires NoSep(p) && Ends(rest)
    ensures Piece(p + rest) == p
  {
    if p == "" {
      assert p + rest == rest;
    } else {
      assert (p + rest)[1..] == p[1..] + rest;
      PieceOf(p[1..], rest);
    }
  }

  predicate AllSeps(s: string) {
    forall i :: 0 <= i < |s| ==> IsSep(s[i])
  }

  /** What is read from the rest of a string, which starts at a separator. */
  function ReadOn(rest: string, name: Name): Name
    requires name == [] ==> rest == ""
  {
    if rest == "" then name else ReadName(rest, rest[0], name)
  }

  lemma {:induction false} SkipAll(seps: string, t: string)
    requires AllSeps(seps) && t != "" && !IsSep(t[0])
    ensures SkipSeps(seps + t) == t
  {
    if seps == "" {
      assert seps + t == t;
    } else {
      assert (seps + t)[1..] == seps[1..] + t;
      SkipAll(seps[1..], t);
    }
  }

  /** A piece after any run of separators. */
  lemma ReadPiece(seps: string, p: string, rest: string, last: char, name: Name)
    requires AllSeps(seps) && p != "" && NoSep(p) && Ends(rest) && (name == [] ==> last == '/')
    ensures ReadName(seps + (p + rest), last, name) == ReadOn(rest, WithPiece(name, last, p))
  {
    hide SkipSeps, Piece;
    SkipAll(seps, p + rest);
    PieceOf(p, rest);
    assert (p + rest)[|p|..] == rest;
  }

  /** It is the separator right behind a piece that says what the next piece is, whatever
      other separators stand before the two. */
  lemma SeparatorDecides(lead: string, a: string, seps: string, b: string, rest: string, last: char, name: Name)
    requires AllSeps(lead) && a != "" && NoSep(a) && seps != "" && AllSeps(seps) && b != "" && NoSep(b) && Ends(rest)
    requires name == [] ==> last == '/'
    ensures ReadName(lead + (a + (seps + (b + rest))), last, name)
         == ReadOn(rest, WithPiece(WithPiece(name, last, a), seps[0], b))
  {
    hide ReadName;
    ReadPiece(lead, a, seps + (b + rest), last, name);
    ReadPiece(seps, b, rest, seps[0], WithPiece(name, last, a));
  }

  /** So of two pieces the second is a kind if a dot stands right behind the first, though
      slashes follow, and an id if a slash does, though dots follow. */
  lemma TwoPieces(lead: string, a: string, seps: string, b: string)
    requires AllSeps(lead) && a != "" && NoSep(a) && seps != "" && AllSeps(seps) && b != "" && NoSep(b)
    ensures Parse(lead + (a + (seps + b))) ==
      if seps[0] == '.' then [NameComponent(a, b)] else [NameComponent(a, ""), NameComponent(b, "")]
  {
    assert b + "" == b;
    SeparatorDecides(lead, a, seps, b, "", '/', []);
  }

  /** A component is read back, if another one or nothing follows. */
  lemma ReadComponent(c: NameComponent, rest: string, name: Name)
    requires Proper(c) && (rest != "" ==> rest[0] == '/')
    ensures ReadName(ComponentText(c) + rest, '/', name)
         == if rest == "" then name + [c] else ReadName(rest, '/', name + [c])
  {
    hide ReadName;
    if c.kind == "" {
      ReadPiece("/", c.id, rest, '/', name);
    } else {
      SeparatorDecides("/", c.id, ".", c.kind, rest, '/', name);
      assert WithPiece(WithPiece(name, '/', c.id), '.', c.kind) == name + [c];
    }
    TextParts(c, rest);
  }

  lemma TextParts(c: NameComponent, rest: string)
    ensures ComponentText(c) + rest == "/" + (c.id + if c.kind == "" then rest else "." + (c.kind + rest))
  {
    if c.kind == "" {
      assert ComponentText(c) == "/" + c.id;
    } else {
      assert ComponentText(c) == "/" + (c.id + ("." + c.kind));
    }
  }

  lemma ReadNothing(name: Name)
    ensures ReadName("", '/', name) == name
  {
  }

  lemma TextCons(name: Name)
    requires name != []
    ensures NameText(name) == ComponentText(name[0]) + NameText(name[1..])
    ensures NameText(name[1..]) != "" ==> NameText(name[1..])[0] == '/'
    ensures NameText(name[1..]) == "" <==> name[1..] == []
  {
  }

  lemma {:induction false} ReadText(name: Name, before: Name)
    requires AllProper(name)
    ensures ReadName(NameText(name), '/', before) == before + name
  {
    ReadNothing(before);
    if name == [] {
      assert before + name == before;
    } else {
      hide ReadName, NameText, ComponentText, Proper;
      TextCons(name);
      ReadComponent(name[0], NameText(name[1..]), before);
      ReadText(name[1..], before + [name[0]]);
      assert before + [name[0]] + name[1..] == before + name;
      if name[1..] == [] {
        assert before + [name[0]] == before + name;
      }
    }
  }

  lemma {:induction false} ReadIsProper(s: string, last: char, name: Name)
    requires (name == [] ==> last == '/') && AllProper(name)
    ensures AllProper(ReadName(s, last, name))
    decreases |s|
  {
    var t := SkipSeps(s);
    if t != "" {
      var piece := Piece(t);
      var rest := t[|piece|..];
      if rest != "" {
        ReadIsProper(rest, rest[0], WithPiece(name, last, piece));
      }
    }
  }

  /** A name is read back from what is printed if and only if its ids are not empty and
      nothing in it is a separator. */
  lemma RoundTripIff(name: Name)
    ensures Parse(NameText(name)) == name <==> AllProper(name)
  {
    if AllProper(name) {
      ReadText(name, []);
      assert [] + name == name;
    }
    ReadIsProper(NameText(name), '/', []);
  }

  /** Reading any string at all gives a name that prints and reads as itself. */
  lemma ReadPrintRead(s: string)
    ensures Parse(NameText(Parse(s))) == Parse(s)
  {
    ReadIsProper(s, '/', []);
    RoundTripIff(Parse(s));
  }
}
