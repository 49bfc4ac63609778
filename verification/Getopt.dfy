/** The command line parser of the Java examples, in its default mode: options are
    recognised wherever they stand, and argv is permuted in place so that what is left
    when the scan ends are the other arguments, in their order. */
module Getopt {
  import opened Text
  import opened Wrappers

  datatype HasArg = NoArgument | RequiredArgument | OptionalArgument

  datatype LongOpt = LongOpt(name: string, hasArg: HasArg, hasFlag: bool, val: int)

  // ---------- the rotation ----------

  /** Where the element at x comes from when two blocks of the same length change places. */
  function Other(i: nat, j: nat, len: nat, x: int): int {
    if i <= x < i + len then x + (j - i) else if j <= x < j + len then x - (j - i) else x
  }

  ghost predicate Swapped<T(!new)>(s: seq<T>, s': seq<T>, i: nat, j: nat, len: nat)
    requires i + len <= j && j + len <= |s|
  {
    |s'| == |s| && forall x :: 0 <= x < |s| ==> s'[x] == s[Other(i, j, len, x)]
  }

  /** The inner loop of exchange. */
  method SwapBlocks<T(!new)>(a: array<T>, i: nat, j: nat, len: nat)
    requires i + len <= j && j + len <= a.Length
    modifies a
    ensures Swapped(old(a[..]), a[..], i, j, len)
  {
    assert forall x :: 0 <= x < a.Length ==> Other(i, j, 0, x) == x;
    hide Other;
    for k := 0 to len
      invariant forall x :: 0 <= x < a.Length ==> 0 <= Other(i, j, k, x) < a.Length && a[x] == old(a[Other(i, j, k, x)])
    {
      ghost var s := a[..];
      var tem := a[i + k];
      a[i + k] := a[j + k];
      a[j + k] := tem;
      forall x | 0 <= x < a.Length
        ensures 0 <= Other(i, j, k + 1, x) < a.Length && a[x] == old(a[Other(i, j, k + 1, x)])
      {
        OtherStep(i, j, k, x);
        assert a[x] == if x == i + k then s[j + k] else if x == j + k then s[i + k] else s[x];
      }
    }
  }

  lemma OtherStep(i: nat, j: nat, k: nat, x: int)
    requires i + k < j
    ensures Other(i, j, k, i + k) == i + k && Other(i, j, k, j + k) == j + k
    ensures Other(i, j, k + 1, x) == if x == i + k then j + k else if x == j + k then i + k else Other(i, j, k, x)
  {
  }

  /** The middle two segments change places. */
  function Rotated<T>(s: seq<T>, bottom: nat, middle: nat, top: nat): seq<T>
    requires bottom <= middle <= top <= |s|
  {
    s[..bottom] + s[middle..top] + s[bottom..middle] + s[top..]
  }

  /** exchange: the segments [first, last) and [last, optind) change places, each keeping
      its order, and nothing else moves. */
  method Exchange<T(!new)>(argv: array<T>, first: nat, last: nat, optind: nat) returns (first': nat, last': nat)
    requires first <= last <= optind <= argv.Length
    modifies argv
    ensures argv[..] == Rotated(old(argv[..]), first, last, optind)
    ensures first' == first + (optind - last) && last' == optind
  {
    hide Rotated, Swapped;
    var bottom, middle, top := first, last, optind;
    while top > middle && middle > bottom
      invariant first <= bottom <= middle <= top <= optind
      invariant Rotated(argv[..], bottom, middle, top) == Rotated(old(argv[..]), first, last, optind)
      decreases top - bottom
    {
      ghost var s := argv[..];
      if top - middle > middle - bottom {
        var len := middle - bottom;
        SwapBlocks(argv, bottom, top - len, len);
        ShortBottom(s, argv[..], bottom, middle, top);
        top := top - len;
      } else {
        var len := top - middle;
        SwapBlocks(argv, bottom, middle, len);
        ShortTop(s, argv[..], bottom, middle, top);
        bottom := bottom + len;
      }
    }
    RotatedAlready(argv[..], bottom, middle, top);
    first', last' := first + (optind - last), optind;
  }

  lemma RotatedAlready<T>(s: seq<T>, bottom: nat, middle: nat, top: nat)
    requires bottom <= middle <= top <= |s| && (top == middle || middle == bottom)
    ensures Rotated(s, bottom, middle, top) == s
  {
  }

  lemma ShortBottom<T(!new)>(s: seq<T>, s': seq<T>, bottom: nat, middle: nat, top: nat)
    requires bottom <= middle <= top <= |s| && top - middle > middle - bottom
    requires Swapped(s, s', bottom, top - (middle - bottom), middle - bottom)
    ensures Rotated(s', bottom, middle, top - (middle - bottom)) == Rotated(s, bottom, middle, top)
  {
    var j := top - (middle - bottom);
    assert s'[..bottom] == s[..bottom] && s'[bottom..middle] == s[j..top];
    assert s'[middle..j] == s[middle..j] && s'[j..] == s[bottom..middle] + s[top..];
    assert s[middle..top] == s[middle..j] + s[j..top];
  }

  lemma ShortTop<T(!new)>(s: seq<T>, s': seq<T>, bottom: nat, middle: nat, top: nat)
    requires bottom <= middle <= top <= |s| && top - middle <= middle - bottom
    requires Swapped(s, s', bottom, middle, top - middle)
    ensures Rotated(s', bottom + (top - middle), middle, top) == Rotated(s, bottom, middle, top)
  {
    var b := bottom + (top - middle);
    assert s'[..b] == s[..bottom] + s[middle..top] && s'[b..middle] == s[b..middle];
    assert s'[middle..top] == s[bottom..b] && s'[top..] == s[top..];
    assert s[bottom..middle] == s[bottom..b] + s[b..middle];
  }

  // ---------- what one option element says ----------

  datatype Arg = Unknown | Plain | Required | Optional

  /** What optstring says about an option character. */
  function ArgOf(optstring: string, c: char): Arg {
    var i := IndexOf(optstring, c);
    if i == |optstring| || c == ':' then Unknown
    else if i + 1 < |optstring| && optstring[i + 1] == ':' then
      if i + 2 < |optstring| && optstring[i + 2] == ':' then Optional else Required
    else Plain
  }

  /** One answer of getopt: the value it returns, optarg and optopt, the rest of the
      element, and how many elements it has stepped over. */
  datatype Decoded = Decoded(ret: int, optarg: Option<string>, optopt: Option<int>, rest: string, used: nat)

  function Missing(optstring: string): int {
    if optstring != "" && optstring[0] == ':' then ':' as int else '?' as int
  }

  function DecodeShort(optstring: string, cs: string, next: Option<string>): Decoded
    requires cs != ""
  {
    var c, rest := cs[0], cs[1..];
    var over := if rest == "" then 1 else 0;
    match ArgOf(optstring, c)
    case Unknown => Decoded('?' as int, None, Some(c as int), rest, over)
    case Plain => Decoded(c as int, None, None, rest, over)
    case Optional => Decoded(c as int, if rest == "" then None else Some(rest), None, "", 1)
    case Required =>
      if rest != "" then Decoded(c as int, Some(rest), None, "", 1)
      else if next.None? then Decoded(Missing(optstring), None, Some(c as int), "", 1)
      else Decoded(c as int, next, None, "", 2)
  }

  datatype Match = NoMatch | Ambiguous | Found(i: nat)

  function FirstExact(longs: seq<LongOpt>, name: string, i: nat): (r: Option<nat>)
    requires i <= |longs|
    ensures r.Some? ==> i <= r.value < |longs|
    decreases |longs| - i
  {
    if i == |longs| then None
    else if longs[i].name == name then Some(i)
    else FirstExact(longs, name, i + 1)
  }

  function FirstPrefix(longs: seq<LongOpt>, name: string, i: nat): (r: Option<nat>)
    requires i <= |longs|
    ensures r.Some? ==> i <= r.value < |longs|
    decreases |longs| - i
  {
    if i == |longs| then None
    else if name <= longs[i].name then Some(i)
    else FirstPrefix(longs, name, i + 1)
  }

  /** The option that a name or an abbreviation stands for. */
  function FindLong(longs: seq<LongOpt>, name: string): (m: Match)
    ensures m.Found? ==> m.i < |longs|
  {
    var exact, first := FirstExact(longs, name, 0), FirstPrefix(longs, name, 0);
    if exact.Some? then Found(exact.value)
    else if first.None? then NoMatch
    else if FirstPrefix(longs, name, first.value + 1).Some? then Ambiguous
    else Found(first.value)
  }

  function DecodeLong(optstring: string, longs: seq<LongOpt>, body: string, next: Option<string>): Decoded {
    var nameend := IndexOf(body, '=');
    match FindLong(longs, body[..nameend])
    case NoMatch => Decoded('?' as int, None, Some(0), "", 1)
    case Ambiguous => Decoded('?' as int, None, Some(0), "", 1)
    case Found(i) =>
      var l := longs[i];
      var ret := if l.hasFlag then 0 else l.val;
      if nameend < |body| then
        if l.hasArg == NoArgument then Decoded('?' as int, None, Some(l.val), "", 1)
        else Decoded(ret, Some(body[nameend + 1..]), None, "", 1)
      else if l.hasArg == RequiredArgument then
        if next.None? then Decoded(Missing(optstring), None, Some(l.val), "", 1)
        else Decoded(ret, next, None, "", 2)
      else Decoded(ret, None, None, "", 1)
  }

  // ---------- which arguments are taken as options ----------

  predicate IsOperand(s: string) {
    s == "" || s[0] != '-' || s == "-"
  }

  /** The element without its dashes. */
  function Body(s: string): (r: string)
    requires !IsOperand(s)
    ensures s != "--" ==> r != ""
  {
    if "--" <= s then s[2..] else s[1..]
  }

  datatype Grammar = Grammar(optstring: string, longs: Option<seq<LongOpt>>)

  /** What the characters cs left in the element at the front of s say. */
  function Decode(g: Grammar, cs: string, s: seq<string>): (d: Decoded)
    requires cs != "" && s != []
    ensures d.used <= |s| && (d.used == 0 <==> d.rest != "") && |d.rest| < |cs|
  {
    var next := if |s| > 1 then Some(s[1]) else None;
    if g.longs.Some? && "--" <= s[0] then DecodeLong(g.optstring, g.longs.value, cs, next)
    else DecodeShort(g.optstring, cs, next)
  }

  function Same(n: nat, b: bool): (m: seq<bool>)
    ensures |m| == n && forall i :: 0 <= i < n ==> m[i] == b
  {
    seq(n, i => b)
  }

  /** Reading the arguments once from left to right, moving nothing: which of them belong to
      options. cs is what is left to read of the first of them. */
  function Marks(g: Grammar, cs: string, s: seq<string>): (m: seq<bool>)
    ensures |m| == |s|
    decreases |s|, cs == "", |cs|
  {
    if s == [] then []
    else if cs != "" then
      var d := Decode(g, cs, s);
      Same(d.used, true) + Marks(g, d.rest, s[d.used..])
    else if IsOperand(s[0]) then Same(1, false) + Marks(g, "", s[1..])
    else if s[0] == "--" then Same(1, true) + Same(|s| - 1, false)
    else Marks(g, Body(s[0]), s)
  }

  datatype Answer = Answer(ret: int, optarg: Option<string>, optopt: Option<int>)

  /** What the same reading finds, in order. */
  function Answers(g: Grammar, cs: string, s: seq<string>): seq<Answer>
    decreases |s|, cs == "", |cs|
  {
    if s == [] then []
    else if cs != "" then
      var d := Decode(g, cs, s);
      [Answer(d.ret, d.optarg, d.optopt)] + Answers(g, d.rest, s[d.used..])
    else if IsOperand(s[0]) then Answers(g, "", s[1..])
    else if s[0] == "--" then []
    else Answers(g, Body(s[0]), s)
  }

  /** The elements with the given mark, in order. */
  function Pick(s: seq<string>, m: seq<bool>, b: bool): seq<string>
    requires |s| == |m|
  {
    if s == [] then [] else (if m[0] == b then [s[0]] else []) + Pick(s[1..], m[1..], b)
  }

  lemma {:induction false} PickConcat(s: seq<string>, m: seq<bool>, s': seq<string>, m': seq<bool>, b: bool)
    requires |s| == |m| && |s'| == |m'|
    ensures Pick(s + s', m + m', b) == Pick(s, m, b) + Pick(s', m', b)
  {
    if s == [] {
      assert s + s' == s' && m + m' == m';
    } else {
      assert (s + s')[1..] == s[1..] + s' && (m + m')[1..] == m[1..] + m';
      PickConcat(s[1..], m[1..], s', m', b);
    }
  }

  lemma {:induction false} PickSame(s: seq<string>, m: seq<bool>, b: bool)
    requires |s| == |m| && forall i :: 0 <= i < |m| ==> m[i] == b
    ensures Pick(s, m, b) == s && Pick(s, m, !b) == []
  {
    if s != [] {
      PickSame(s[1..], m[1..], b);
    }
  }

  /** The result is a permutation of the input. */
  lemma {:induction false} PickPermutes(s: seq<string>, m: seq<bool>)
    requires |s| == |m|
    ensures multiset(Pick(s, m, true)) + multiset(Pick(s, m, false)) == multiset(s)
  {
    if s != [] {
      PickPermutes(s[1..], m[1..]);
      var a, b := Pick(s[1..], m[1..], true), Pick(s[1..], m[1..], false);
      assert multiset(s) == multiset([s[0]]) + multiset(s[1..]) by {
        assert s == [s[0]] + s[1..];
      }
      if m[0] {
        assert Pick(s, m, true) == [s[0]] + a && Pick(s, m, false) == b;
      } else {
        assert Pick(s, m, true) == a && Pick(s, m, false) == [s[0]] + b;
      }
    }
  }

  // ---------- the state of the scan ----------

  /** Of the first o elements of the input, those marked stand in argv before f and from l
      to o, the others from f to l; the rest is where it was. */
  ghost predicate Shape(argv: seq<string>, f: nat, l: nat, o: nat, input: seq<string>, done: seq<bool>) {
    && |argv| == |input| && f <= l <= o <= |input| && |done| == o
    && argv[..f] + argv[l..o] == Pick(input[..o], done, true)
    && argv[f..l] == Pick(input[..o], done, false)
    && argv[o..] == input[o..]
  }

  /** What the next k elements add. */
  lemma PickMore(input: seq<string>, o: nat, done: seq<bool>, k: nat, b: bool)
    requires |done| == o && o + k <= |input|
    ensures Pick(input[..o + k], done + Same(k, b), b) == Pick(input[..o], done, b) + input[o..o + k]
    ensures Pick(input[..o + k], done + Same(k, b), !b) == Pick(input[..o], done, !b)
  {
    var es, m := input[o..o + k], Same(k, b);
    assert input[..o + k] == input[..o] + es;
    PickConcat(input[..o], done, es, m, b);
    PickConcat(input[..o], done, es, m, !b);
    PickSame(es, m, b);
  }

  /** A piece of a common tail is common. */
  lemma TailPiece(argv: seq<string>, input: seq<string>, o: nat, k: nat)
    requires |argv| == |input| && o + k <= |argv| && argv[o..] == input[o..]
    ensures argv[o..o + k] == input[o..o + k] && argv[o + k..] == input[o + k..]
  {
    assert argv[o..o + k] == argv[o..][..k] && input[o..o + k] == input[o..][..k];
    assert argv[o + k..] == argv[o..][k..] && input[o + k..] == input[o..][k..];
  }

  /** k elements are stepped over as options. */
  lemma ShapeTake(argv: seq<string>, f: nat, l: nat, o: nat, input: seq<string>, done: seq<bool>, k: nat)
    requires Shape(argv, f, l, o, input, done) && o + k <= |argv|
    ensures Shape(argv, f, l, o + k, input, done + Same(k, true))
  {
    hide Pick, Same;
    TailPiece(argv, input, o, k);
    PickMore(input, o, done, k, true);
    assert argv[..f] + argv[l..o + k] == argv[..f] + argv[l..o] + argv[o..o + k];
  }

  /** k elements are passed as operands, next to those passed before. */
  lemma ShapeSkip(argv: seq<string>, f: nat, o: nat, input: seq<string>, done: seq<bool>, k: nat)
    requires Shape(argv, f, o, o, input, done) && o + k <= |argv|
    ensures Shape(argv, f, o + k, o + k, input, done + Same(k, false))
  {
    hide Pick, Same;
    TailPiece(argv, input, o, k);
    PickMore(input, o, done, k, false);
    assert argv[f..o + k] == argv[f..o] + argv[o..o + k];
    assert argv[..f] + argv[o + k..o + k] == argv[..f] + argv[o..o];
  }

  /** With no operands passed yet, the gap may be anywhere. */
  lemma ShapeMove(argv: seq<string>, f: nat, o: nat, input: seq<string>, done: seq<bool>)
    requires Shape(argv, f, f, o, input, done)
    ensures Shape(argv, o, o, o, input, done)
  {
    assert argv[..f] + argv[f..o] == argv[..o] + argv[o..o];
  }

  lemma ShapeRotate(argv: seq<string>, f: nat, l: nat, o: nat, input: seq<string>, done: seq<bool>)
    requires Shape(argv, f, l, o, input, done)
    ensures Shape(Rotated(argv, f, l, o), f + (o - l), o, o, input, done)
  {
    var r := Rotated(argv, f, l, o);
    assert r[..f + (o - l)] + r[o..o] == argv[..f] + argv[l..o];
    assert r[f + (o - l)..o] == argv[f..l];
    assert r[o..] == argv[o..];
  }

  /** Nothing more is to be answered, and argv is sorted out. */
  ghost predicate Permuted(g: Grammar, argv: seq<string>, optind: nat, input: seq<string>) {
    var m := Marks(g, "", input);
    argv == Pick(input, m, true) + Pick(input, m, false) && optind == |Pick(input, m, true)|
  }

  lemma ShapeEnd(g: Grammar, argv: seq<string>, f: nat, input: seq<string>, done: seq<bool>)
    requires Shape(argv, f, |argv|, |argv|, input, done) && done == Marks(g, "", input)
    ensures Permuted(g, argv, f, input)
  {
    assert input[..|argv|] == input && argv[|argv|..|argv|] == [];
    assert argv[..f] + argv[|argv|..|argv|] == argv[..f];
    assert argv == argv[..f] + argv[f..|argv|];
  }

  function Min(a: nat, b: nat): nat {
    if a < b then a else b
  }

  class Getopt {
    const argv: array<string>
    const g: Grammar
    var optind: nat
    var firstNonopt: nat
    var lastNonopt: nat
    var nextchar: Option<string>
    var optarg: Option<string>
    var optopt: int
    var longind: int
    var longoptHandled: bool
    ghost const input: seq<string>
    ghost var done: seq<bool>
    ghost var finished: bool

    /** What is left to read of the element at optind. */
    function Chars(): string
      reads this`nextchar
    {
      if nextchar.None? then "" else nextchar.value
    }

    /** The answers still to come. */
    ghost function Pending(): seq<Answer>
      requires optind <= |input|
      reads this`finished, this`nextchar, this`optind
    {
      if finished then [] else Answers(g, Chars(), input[optind..])
    }

    ghost predicate Scanned()
      reads this`firstNonopt, this`lastNonopt, this`optind, this`nextchar, this`done, argv
    {
      && Shape(argv[..], Min(firstNonopt, optind), Min(lastNonopt, optind), optind, input, done)
      && (Chars() != "" ==> optind < argv.Length && firstNonopt <= optind && lastNonopt <= optind)
      && done + Marks(g, Chars(), input[optind..]) == Marks(g, "", input)
    }

    ghost predicate Valid()
      reads this`firstNonopt, this`lastNonopt, this`optind, this`nextchar, this`done, this`finished, argv
    {
      optind <= |input| &&
      if finished then Permuted(g, argv[..], optind, input) else Scanned()
    }

    constructor (argv: array<string>, optstring: string, longs: Option<seq<LongOpt>>)
      requires optstring != "" ==> optstring[0] != '-' && optstring[0] != '+'
      requires var w := IndexOf(optstring, 'W'); w + 1 < |optstring| ==> optstring[w + 1] != ';'
      ensures Valid() && !finished && this.argv == argv && input == argv[..]
      ensures g == Grammar(if optstring == "" then " " else optstring, longs)
      ensures Pending() == Answers(g, "", argv[..])
    {
      this.argv, this.g := argv, Grammar(if optstring == "" then " " else optstring, longs);
      optind, firstNonopt, lastNonopt, nextchar := 0, 1, 1, None;
      optarg, optopt, longind, longoptHandled := None, '?' as int, -1, false;
      input, done, finished := argv[..], [], false;
      new;
      assert input[optind..] == input;
    }

    /** Every operand passed so far stands right before optind. */
    ghost predicate Level()
      reads this`firstNonopt, this`optind, this`nextchar, this`done, this`finished, argv
    {
      && !finished && Chars() == ""
      && Shape(argv[..], firstNonopt, optind, optind, input, done)
      && done + Marks(g, "", input[optind..]) == Marks(g, "", input)
    }

    /** Operands passed before the last options go behind them. */
    method Permute()
      requires Scanned() && !finished && Chars() == ""
      modifies this`firstNonopt, this`lastNonopt, argv
      ensures Level()
    {
      hide Marks, Answers, Pick, Rotated;
      if lastNonopt > optind {
        lastNonopt := optind;
      }
      if firstNonopt > optind {
        firstNonopt := optind;
      }
      if firstNonopt != lastNonopt && lastNonopt != optind {
        ShapeRotate(argv[..], firstNonopt, lastNonopt, optind, input, done);
        firstNonopt, lastNonopt := Exchange(argv, firstNonopt, lastNonopt, optind);
      } else if lastNonopt != optind {
        ShapeMove(argv[..], firstNonopt, optind, input, done);
        firstNonopt := optind;
      }
    }

    method PassOperands()
      requires Level()
      modifies this`optind, this`lastNonopt, this`done
      ensures Level() && lastNonopt == optind
      ensures optind < argv.Length ==> !IsOperand(argv[optind])
      ensures Answers(g, "", input[optind..]) == old(Answers(g, "", input[optind..]))
    {
      hide Marks, Answers, Pick, Same;
      while optind < argv.Length && (argv[optind] == "" || argv[optind][0] != '-' || argv[optind] == "-")
        invariant Level()
        invariant Answers(g, "", input[optind..]) == old(Answers(g, "", input[optind..]))
      {
        Ahead(argv[..], input, optind);
        OneOperand(g, input, optind, done);
        ShapeSkip(argv[..], firstNonopt, optind, input, done, 1);
        done := done + Same(1, false);
        optind := optind + 1;
      }
      lastNonopt := optind;
    }

    /** The element "--" is an option; everything after it is an operand. */
    method DoubleDash()
      requires Level() && lastNonopt == optind < argv.Length && argv[optind] == "--"
      modifies this`optind, this`firstNonopt, this`lastNonopt, this`done, argv
      ensures Level() && lastNonopt == optind == argv.Length
      ensures old(Answers(g, "", input[optind..])) == []
    {
      hide Marks, Answers, Pick, Same, Rotated;
      ghost var rest := Same(argv.Length - optind - 1, false);
      Ahead(argv[..], input, optind);
      DashDash(g, input, optind, done);
      ShapeTake(argv[..], firstNonopt, optind, optind, input, done, 1);
      done := done + Same(1, true);
      optind := optind + 1;
      if firstNonopt != lastNonopt && lastNonopt != optind {
        ShapeRotate(argv[..], firstNonopt, lastNonopt, optind, input, done);
        firstNonopt, lastNonopt := Exchange(argv, firstNonopt, lastNonopt, optind);
      } else if firstNonopt == lastNonopt {
        ShapeMove(argv[..], firstNonopt, optind, input, done);
        firstNonopt := optind;
      }
      assert Shape(argv[..], firstNonopt, optind, optind, input, done);
      ShapeSkip(argv[..], firstNonopt, optind, input, done, argv.Length - optind);
      done := done + rest;
      lastNonopt := argv.Length;
      optind := argv.Length;
      NothingLeft(g, input, done);
    }

    /** The elements up to the next option are behind optind. */
    method Advance()
      requires Scanned() && !finished && Chars() == ""
      modifies this`optind, this`firstNonopt, this`lastNonopt, this`done, argv
      ensures Level() && lastNonopt == optind
      ensures Answers(g, "", input[optind..]) == old(Answers(g, "", input[optind..]))
      ensures optind < argv.Length ==> !IsOperand(argv[optind]) && argv[optind] != "--"
    {
      Permute();
      PassOperands();
      if optind != argv.Length && argv[optind] == "--" {
        DoubleDash();
      }
    }

    /** The first half of getopt: comes to the next option or to the end. */
    method NextElement() returns (more: bool)
      requires Scanned() && !finished && Chars() == ""
      modifies this`optind, this`firstNonopt, this`lastNonopt, this`nextchar, this`done, this`finished, argv
      ensures Valid() && Pending() == old(Pending()) && finished == !more
      ensures more ==> Chars() != ""
    {
      Advance();
      if optind == argv.Length {
        ShapeEnd(g, argv[..], firstNonopt, input, done);
        if firstNonopt != lastNonopt {
          optind := firstNonopt;
        }
        finished := true;
        return false;
      }
      assert argv[optind] == argv[optind..][0] == input[optind..][0];
      nextchar := Some(Body(argv[optind]));
      return true;
    }

    /** The loop of checkLongOption over the long options. */
    method SearchLong(longs: seq<LongOpt>, name: string) returns (pfound: Option<nat>, ambig: bool, exact: bool)
      modifies this`longind
      ensures var m := FindLong(longs, name);
        if ambig && !exact then m == Ambiguous
        else if pfound.Some? then m == Found(pfound.value) && longind == pfound.value
        else m == NoMatch && longind == -1
    {
      pfound, ambig, exact, longind := None, false, false, -1;
      for i := 0 to |longs|
        invariant !exact && FirstExact(longs, name, 0) == FirstExact(longs, name, i)
        invariant pfound.None? ==> !ambig && longind == -1 && FirstPrefix(longs, name, 0) == FirstPrefix(longs, name, i)
        invariant pfound.Some? ==>
          && FirstPrefix(longs, name, 0) == pfound && longind == pfound.value < i
          && if ambig then FirstPrefix(longs, name, pfound.value + 1).Some?
             else FirstPrefix(longs, name, pfound.value + 1) == FirstPrefix(longs, name, i)
      {
        if name <= longs[i].name {
          if longs[i].name == name {
            pfound, longind, exact := Some(i), i, true;
            break;
          } else if pfound.None? {
            pfound, longind := Some(i), i;
          } else {
            ambig := true;
          }
        }
      }
    }

    /** Reading at nextchar has given d. */
    twostate predicate Moved(d: Decoded)
      reads this
    {
      && Chars() == d.rest && optind == old(optind) + d.used && optarg == d.optarg
      && optopt == if d.optopt.Some? then d.optopt.value else old(optopt)
    }

    ghost function Next(): Option<string>
      requires optind < argv.Length
      reads this, argv
    {
      if optind + 1 < argv.Length then Some(argv[optind + 1]) else None
    }

    method CheckLongOption() returns (c: int)
      requires optind < argv.Length && g.longs.Some? && g.optstring != "" && optarg == None && nextchar.Some?
      modifies this`longind, this`longoptHandled, this`optind, this`nextchar, this`optopt, this`optarg
      ensures var d := old(DecodeLong(g.optstring, g.longs.value, Chars(), Next()));
        if longoptHandled then c == d.ret && Moved(d) else
          && d == Decoded('?' as int, None, Some(0), "", 1) && c == 0
          && optind == old(optind) && optarg == None && optopt == old(optopt)
    {
      hide FindLong, IndexOf;
      ghost var d := DecodeLong(g.optstring, g.longs.value, Chars(), Next());
      longoptHandled := true;
      var nameend := IndexOf(nextchar.value, '=');
      var pfound, ambig, exact := SearchLong(g.longs.value, nextchar.value[..nameend]);
      if ambig && !exact {
        nextchar, optopt, optind := Some(""), 0, optind + 1;
        return '?' as int;
      }
      if pfound.Some? {
        var l := g.longs.value[pfound.value];
        optind := optind + 1;
        if nameend != |nextchar.value| {
          if l.hasArg != NoArgument {
            if |nextchar.value[nameend..]| > 1 {
              optarg := Some(nextchar.value[nameend + 1..]);
            } else {
              assert nextchar.value[nameend + 1..] == "";
              optarg := Some("");
            }
          } else {
            nextchar, optopt := Some(""), l.val;
            return '?' as int;
          }
        } else if l.hasArg == RequiredArgument {
          if optind < argv.Length {
            optarg := Some(argv[optind]);
            optind := optind + 1;
          } else {
            nextchar, optopt := Some(""), l.val;
            return if g.optstring[0] == ':' then ':' as int else '?' as int;
          }
        }
        nextchar := Some("");
        return if l.hasFlag then 0 else l.val;
      }
      longoptHandled := false;
      return 0;
    }

    method LongOption() returns (c: int)
      requires optind < argv.Length && g.longs.Some? && g.optstring != "" && optarg == None && nextchar.Some?
      modifies this`longind, this`longoptHandled, this`optind, this`nextchar, this`optopt, this`optarg
      ensures var d := old(DecodeLong(g.optstring, g.longs.value, Chars(), Next())); c == d.ret && Moved(d)
    {
      c := CheckLongOption();
      if !longoptHandled {
        nextchar, optind, optopt := Some(""), optind + 1, 0;
        c := '?' as int;
      }
    }

    method ShortOption() returns (c: int)
      requires optind < argv.Length && g.optstring != "" && optarg == None && Chars() != ""
      modifies this`optind, this`nextchar, this`optopt, this`optarg
      ensures var d := old(DecodeShort(g.optstring, Chars(), Next())); c == d.ret && Moved(d)
    {
      var ch := nextchar.value[0];
      c := ch as int;
      nextchar := Some(nextchar.value[1..]);
      var i := IndexOf(g.optstring, ch);
      var temp := g.optstring[i..];
      if nextchar.value == "" {
        optind := optind + 1;
      }
      if temp == "" || ch == ':' {
        optopt := c;
        return '?' as int;
      }
      if |temp| > 1 && temp[1] == ':' {
        if |temp| > 2 && temp[2] == ':' {
          if nextchar.value != "" {
            optarg, optind := nextchar, optind + 1;
          } else {
            optarg := None;
          }
          nextchar := None;
        } else {
          if nextchar.value != "" {
            optarg, optind := nextchar, optind + 1;
          } else if optind == argv.Length {
            optopt := c;
            return if g.optstring[0] == ':' then ':' as int else '?' as int;
          } else {
            optarg, optind := Some(argv[optind]), optind + 1;
          }
          nextchar := None;
        }
      }
    }

    /** The answer given is a. */
    twostate predicate Says(a: Answer, c: int)
      reads this
    {
      && c == a.ret && optarg == a.optarg
      && optopt == if a.optopt.Some? then a.optopt.value else old(optopt)
    }

    /** The second half of getopt: the option at nextchar. */
    method ReadOption(ghost s: seq<string>) returns (c: int)
      requires optind < argv.Length && |s| == argv.Length - optind && argv[optind] == s[0]
      requires optind + 1 < argv.Length ==> argv[optind + 1] == s[1]
      requires g.optstring != "" && optarg == None && Chars() != ""
      modifies this`longind, this`longoptHandled, this`optind, this`nextchar, this`optopt, this`optarg
      ensures var d := Decode(g, old(Chars()), s); c == d.ret && Moved(d)
    {
      if g.longs.Some? && "--" <= argv[optind] {
        c := LongOption();
      } else {
        c := ShortOption();
      }
    }

    /** What the option at nextchar takes is counted among the options. */
    ghost method StepOver() returns (d: Decoded)
      requires Scanned() && !finished && Chars() != ""
      modifies this`done
      ensures d == Decode(g, Chars(), input[optind..])
      ensures Shape(argv[..], firstNonopt, lastNonopt, optind + d.used, input, done)
      ensures done + Marks(g, d.rest, input[optind + d.used..]) == Marks(g, "", input)
      ensures var p := Answers(g, Chars(), input[optind..]);
        && p != [] && p[0] == Answer(d.ret, d.optarg, d.optopt)
        && p[1..] == Answers(g, d.rest, input[optind + d.used..])
    {
      hide Decode, Marks, Answers;
      d := Decode(g, Chars(), input[optind..]);
      OneOption(g, Chars(), input, optind, done);
      ShapeTake(argv[..], firstNonopt, lastNonopt, optind, input, done, d.used);
      done := done + Same(d.used, true);
    }

    /** The option is read, and the elements it took are stepped over. */
    method DecodeElement() returns (c: int)
      requires Valid() && !finished && Chars() != "" && g.optstring != "" && optarg == None
      modifies this`longind, this`longoptHandled, this`optind, this`nextchar, this`optopt, this`optarg, this`done
      ensures Valid()
      ensures old(Pending()) != [] && Says(old(Pending())[0], c) && Pending() == old(Pending())[1..]
    {
      hide Decode, Marks, Answers;
      ghost var d := StepOver();
      Ahead(argv[..], input, optind);
      c := ReadOption(input[optind..]);
    }

    /** getopt: the next answer, or, instead of -1, nothing. */
    method GetOpt() returns (c: Option<int>)
      requires Valid() && !finished && g.optstring != ""
      modifies this, argv
      ensures Valid() && finished == c.None?
      ensures c.None? ==> old(Pending()) == []
      ensures c.Some? ==>
        old(Pending()) != [] && Says(old(Pending())[0], c.value) && Pending() == old(Pending())[1..]
    {
      hide Decode, Marks, Answers, Shape, Permuted;
      optarg := None;
      if nextchar.None? || nextchar.value == "" {
        var more := NextElement();
        if !more {
          return None;
        }
      }
      var r := DecodeElement();
      c := Some(r);
    }
  }

  lemma OneOption(g: Grammar, cs: string, input: seq<string>, o: nat, done: seq<bool>)
    requires o < |input| && cs != ""
    ensures var d, p := Decode(g, cs, input[o..]), Answers(g, cs, input[o..]);
      && p != [] && p[0] == Answer(d.ret, d.optarg, d.optopt) && p[1..] == Answers(g, d.rest, input[o + d.used..])
      && done + Marks(g, cs, input[o..]) == done + Same(d.used, true) + Marks(g, d.rest, input[o + d.used..])
  {
    hide Decode;
    var d := Decode(g, cs, input[o..]);
    assert input[o..][d.used..] == input[o + d.used..];
    ConcatAssoc(done, Same(d.used, true), Marks(g, d.rest, input[o + d.used..]));
  }

  lemma OneOperand(g: Grammar, input: seq<string>, o: nat, done: seq<bool>)
    requires o < |input| && IsOperand(input[o..][0])
    ensures Answers(g, "", input[o..]) == Answers(g, "", input[o + 1..])
    ensures done + Marks(g, "", input[o..]) == done + Same(1, false) + Marks(g, "", input[o + 1..])
  {
    assert input[o..][1..] == input[o + 1..];
    ConcatAssoc(done, Same(1, false), Marks(g, "", input[o + 1..]));
  }

  lemma DashDash(g: Grammar, input: seq<string>, o: nat, done: seq<bool>)
    requires o < |input| && input[o..][0] == "--"
    ensures Answers(g, "", input[o..]) == []
    ensures done + Marks(g, "", input[o..]) == done + Same(1, true) + Same(|input| - o - 1, false)
  {
    ConcatAssoc(done, Same(1, true), Same(|input| - o - 1, false));
  }

  lemma NothingLeft(g: Grammar, input: seq<string>, done: seq<bool>)
    ensures done + Marks(g, "", input[|input|..]) == done
    ensures Answers(g, "", input[|input|..]) == []
  {
  }

  lemma Ahead(argv: seq<string>, input: seq<string>, o: nat)
    requires |argv| == |input| && o < |argv| && argv[o..] == input[o..]
    ensures argv[o] == input[o..][0] && (o + 1 < |argv| ==> argv[o + 1] == input[o..][1])
  {
    assert argv[o] == argv[o..][0] && (o + 1 < |argv| ==> argv[o + 1] == argv[o..][1]);
  }

  lemma ConcatAssoc(a: seq<bool>, b: seq<bool>, c: seq<bool>)
    ensures a + (b + c) == a + b + c
  {
  }

  /** The answers given are the first ones of all. */
  ghost predicate FoundSoFar(found: seq<(int, Option<string>)>, all: seq<Answer>) {
    |found| <= |all| && forall i :: 0 <= i < |found| ==> found[i] == (all[i].ret, all[i].optarg)
  }

  lemma FoundOne(found: seq<(int, Option<string>)>, all: seq<Answer>, x: (int, Option<string>))
    requires FoundSoFar(found, all) && all[|found|..] != []
    requires x == (all[|found|..][0].ret, all[|found|..][0].optarg)
    ensures FoundSoFar(found + [x], all) && all[|found + [x]|..] == all[|found|..][1..]
  {
  }

  /** The loop in which the parser is used. The answers are those of a reading from left to
      right, whatever is moved on the way, and argv ends up with the elements that belong
      to options, in their order, before the operands, in theirs. */
  method ScanAll(argv: array<string>, optstring: string, longs: Option<seq<LongOpt>>)
    returns (found: seq<(int, Option<string>)>, optind: nat)
    requires optstring != "" ==> optstring[0] != '-' && optstring[0] != '+'
    requires var w := IndexOf(optstring, 'W'); w + 1 < |optstring| ==> optstring[w + 1] != ';'
    modifies argv
    ensures var g := Grammar(if optstring == "" then " " else optstring, longs);
      var all := Answers(g, "", old(argv[..]));
      && Permuted(g, argv[..], optind, old(argv[..]))
      && FoundSoFar(found, all) && |found| == |all|
  {
    var getopt := new Getopt(argv, optstring, longs);
    ghost var all := getopt.Pending();
    found := [];
    while true
      invariant getopt.Valid() && !getopt.finished && fresh(getopt) && getopt.argv == argv
      invariant getopt.input == old(argv[..]) && getopt.g.optstring != ""
      invariant FoundSoFar(found, all) && getopt.Pending() == all[|found|..]
      decreases |getopt.Pending()|
    {
      var c := getopt.GetOpt();
      if c.None? {
        break;
      }
      FoundOne(found, all, (c.value, getopt.optarg));
      found := found + [(c.value, getopt.optarg)];
    }
    optind := getopt.optind;
  }

  /** What that means for the caller: nothing is lost, and from optind on there are the
      operands. */
  lemma PermutedMeans(g: Grammar, argv: seq<string>, optind: nat, input: seq<string>)
    requires Permuted(g, argv, optind, input)
    ensures optind <= |argv| && multiset(argv) == multiset(input)
    ensures argv[..optind] == Pick(input, Marks(g, "", input), true)
    ensures argv[optind..] == Pick(input, Marks(g, "", input), false)
  {
    PickPermutes(input, Marks(g, "", input));
  }

  /** A long option is found by its own name, or else by an abbreviation of one name only. */
  lemma FindLongMeans(longs: seq<LongOpt>, name: string, i: nat)
    requires i < |longs|
    ensures FindLong(longs, name) == Found(i) <==>
      if exists k :: 0 <= k < |longs| && longs[k].name == name
      then longs[i].name == name && forall k :: 0 <= k < i ==> longs[k].name != name
      else name <= longs[i].name && forall k :: 0 <= k < |longs| && k != i ==> !(name <= longs[k].name)
  {
    FirstExactIsFirst(longs, name, 0);
    FirstPrefixIsFirst(longs, name, 0);
    var first := FirstPrefix(longs, name, 0);
    if first.Some? {
      FirstPrefixIsFirst(longs, name, first.value + 1);
    }
  }

  /** None is found if and only if the name abbreviates none. */
  lemma FindLongNone(longs: seq<LongOpt>, name: string)
    ensures FindLong(longs, name) == NoMatch <==> forall k :: 0 <= k < |longs| ==> !(name <= longs[k].name)
  {
    FirstExactIsFirst(longs, name, 0);
    FirstPrefixIsFirst(longs, name, 0);
  }

  lemma {:induction false} FirstExactIsFirst(longs: seq<LongOpt>, name: string, i: nat)
    requires i <= |longs|
    ensures match FirstExact(longs, name, i)
      case None => forall k :: i <= k < |longs| ==> longs[k].name != name
      case Some(r) => longs[r].name == name && forall k :: i <= k < r ==> longs[k].name != name
    decreases |longs| - i
  {
    if i < |longs| {
      FirstExactIsFirst(longs, name, i + 1);
    }
  }

  lemma {:induction false} FirstPrefixIsFirst(longs: seq<LongOpt>, name: string, i: nat)
    requires i <= |longs|
    ensures match FirstPrefix(longs, name, i)
      case None => forall k :: i <= k < |longs| ==> !(name <= longs[k].name)
      case Some(r) => name <= longs[r].name && forall k :: i <= k < r ==> !(name <= longs[k].name)
    decreases |longs| - i
  {
    if i < |longs| {
      FirstPrefixIsFirst(longs, name, i + 1);
    }
  }

  // ---------- forms of the same options ----------

  predicate IsShort(e: string) {
    |e| > 1 && e[0] == '-' && e[1] != '-'
  }

  lemma SameDecode(g: Grammar, cs: string, e: string, e': string, s: seq<string>)
    requires IsShort(e) && IsShort(e') && cs != ""
    ensures Decode(g, cs, [e] + s) == Decode(g, cs, [e'] + s)
  {
    hide DecodeShort, DecodeLong;
  }

  /** What short options are read does not depend on what has been read before them. */
  lemma {:induction false} SameRest(g: Grammar, cs: string, e: string, e': string, s: seq<string>)
    requires IsShort(e) && IsShort(e') && cs != ""
    ensures Answers(g, cs, [e] + s) == Answers(g, cs, [e'] + s)
    decreases |cs|
  {
    hide Decode;
    SameDecode(g, cs, e, e', s);
    var d := Decode(g, cs, [e] + s);
    if d.used == 0 {
      SameRest(g, d.rest, e, e', s);
      assert ([e] + s)[0..] == [e] + s && ([e'] + s)[0..] == [e'] + s;
    } else {
      assert ([e] + s)[d.used..] == s[d.used - 1..] == ([e'] + s)[d.used..];
    }
  }

  /** A group of short options is read from behind its dash. */
  lemma ReadGroup(g: Grammar, c: char, cs: string, s: seq<string>)
    requires c != '-'
    ensures IsShort("-" + [c] + cs)
    ensures Answers(g, "", ["-" + [c] + cs] + s) == Answers(g, [c] + cs, ["-" + [c] + cs] + s)
    ensures Marks(g, "", ["-" + [c] + cs] + s) == Marks(g, [c] + cs, ["-" + [c] + cs] + s)
  {
    var e := "-" + [c] + cs;
    assert e[0] == '-' && e[1] == c && e[1..] == [c] + cs;
    assert Body(e) == [c] + cs && ([e] + s)[0] == e;
  }

  lemma ReadPlain(g: Grammar, c: char, cs: string, e: string, s: seq<string>)
    requires ArgOf(g.optstring, c) == Plain && IsShort(e)
    ensures Answers(g, [c] + cs, [e] + s)
         == [Answer(c as int, None, None)] + if cs == "" then Answers(g, "", s) else Answers(g, cs, [e] + s)
  {
    hide ArgOf;
    assert ([c] + cs)[0] == c && ([c] + cs)[1..] == cs;
    assert ([e] + s)[0..] == [e] + s && ([e] + s)[1..] == s;
  }

  /** Options without arguments may be written together. */
  lemma Clustered(g: Grammar, c: char, d: char, cs: string, s: seq<string>)
    requires ArgOf(g.optstring, c) == Plain && c != '-' && d != '-'
    ensures Answers(g, "", ["-" + [c] + ([d] + cs)] + s) == Answers(g, "", ["-" + [c] + ""] + (["-" + [d] + cs] + s))
  {
    hide Answers, ArgOf;
    ReadGroup(g, c, [d] + cs, s);
    ReadPlain(g, c, [d] + cs, "-" + [c] + ([d] + cs), s);
    ReadGroup(g, c, "", ["-" + [d] + cs] + s);
    ReadPlain(g, c, "", "-" + [c] + "", ["-" + [d] + cs] + s);
    ReadGroup(g, d, cs, s);
    SameRest(g, [d] + cs, "-" + [c] + ([d] + cs), "-" + [d] + cs, s);
  }

  /** An argument may stand behind its option or be the next element. */
  lemma JoinedArgument(g: Grammar, c: char, arg: string, s: seq<string>)
    requires ArgOf(g.optstring, c) == Required && c != '-' && arg != ""
    ensures Answers(g, "", ["-" + [c] + arg] + s) == Answers(g, "", ["-" + [c] + ""] + ([arg] + s))
  {
    hide ArgOf;
    ReadGroup(g, c, arg, s);
    ReadGroup(g, c, "", [arg] + s);
    assert ([c] + arg)[1..] == arg && ([c] + "")[1..] == "";
    assert (["-" + [c] + arg] + s)[1..] == s && (["-" + [c] + ""] + ([arg] + s))[2..] == s;
  }

  /** So may the argument of a long option, behind an equals sign. */
  lemma JoinedLongArgument(g: Grammar, name: string, i: nat, arg: string, s: seq<string>)
    requires g.longs.Some? && name != "" && '=' !in name && FindLong(g.longs.value, name) == Found(i)
    requires g.longs.value[i].hasArg == RequiredArgument
    ensures Answers(g, "", ["--" + name + "=" + arg] + s) == Answers(g, "", ["--" + name] + ([arg] + s))
  {
    hide FindLong;
    var e, more := "--" + name + "=" + arg, [arg] + s;
    var body := name + ['='] + arg;
    IndexOfConcat(name, '=', arg);
    assert e[2..] == body && ("--" + name)[2..] == name;
    assert Body(e) == body && Body("--" + name) == name;
    assert body[..|name|] == name && body[|name| + 1..] == arg && name[..|name|] == name;
    assert ([e] + s)[1..] == s && (["--" + name] + more)[2..] == s;
    assert Answers(g, "", [e] + s) == Answers(g, body, [e] + s);
    assert Answers(g, "", ["--" + name] + more) == Answers(g, name, ["--" + name] + more);
  }

  // ---------- every answer itself ----------

  /** An argument that is no option is passed over; the two dashes end the options. */
  lemma OperandAnswer(g: Grammar, e: string, s: seq<string>)
    requires e == "" || e[0] != '-' || e == "-" || e == "--"
    ensures e != "--" ==>
      Answers(g, "", [e] + s) == Answers(g, "", s) && Marks(g, "", [e] + s) == [false] + Marks(g, "", s)
    ensures e == "--" ==>
      && Answers(g, "", [e] + s) == [] && Marks(g, "", [e] + s)[0]
      && forall i :: 0 < i < |s| + 1 ==> !Marks(g, "", [e] + s)[i]
  {
    assert ([e] + s)[0] == e && ([e] + s)[1..] == s;
  }

  /** What optstring says of a character: its first occurrence decides, by the colons behind
      it; the colon itself is no option. */
  lemma ArgMeans(pre: string, c: char, post: string)
    requires c !in pre && c != ':'
    ensures ArgOf(pre + [c] + post, c) ==
      if "::" <= post then Optional else if ":" <= post then Required else Plain
  {
    IndexOfConcat(pre, c, post);
    var o := pre + [c] + post;
    assert o[|pre| + 1..] == post;
    assert |post| > 0 ==> o[|pre| + 1] == post[0];
    assert |post| > 1 ==> o[|pre| + 2] == post[1];
  }

  lemma ArgUnknown(optstring: string, c: char)
    requires c !in optstring || c == ':'
    ensures ArgOf(optstring, c) == Unknown
  {
  }

  /** What the missing of an argument is answered with. */
  function Missed(optstring: string): int {
    (if ":" <= optstring then ':' else '?') as int
  }

  /** The answer to the first of a group of short options, and what is read after it: the rest
      of the group, the next element, or the one after that. */
  lemma ShortAnswer(g: Grammar, c: char, cs: string, e: string, s: seq<string>)
    requires IsShort(e) || g.longs.None?
    ensures var all := Answers(g, [c] + cs, [e] + s);
      var rest := if cs == "" then Answers(g, "", s) else Answers(g, cs, [e] + s);
      match ArgOf(g.optstring, c)
      case Unknown => all == [Answer('?' as int, None, Some(c as int))] + rest
      case Plain => all == [Answer(c as int, None, None)] + rest
      case Optional => all == [Answer(c as int, if cs == "" then None else Some(cs), None)] + Answers(g, "", s)
      case Required =>
        if cs != "" then all == [Answer(c as int, Some(cs), None)] + Answers(g, "", s)
        else if s != [] then all == [Answer(c as int, Some(s[0]), None)] + Answers(g, "", s[1..])
        else all == [Answer(Missed(g.optstring), None, Some(c as int))]
  {
    hide ArgOf;
    Openers(e, s);
    assert ([c] + cs)[0] == c && ([c] + cs)[1..] == cs;
  }

  /** The elements of argv that the option and its argument take. */
  lemma ShortTakes(g: Grammar, c: char, cs: string, e: string, s: seq<string>)
    requires IsShort(e) || g.longs.None?
    ensures var m := Marks(g, [c] + cs, [e] + s);
      match ArgOf(g.optstring, c)
      case Unknown => cs == "" ==> m == [true] + Marks(g, "", s)
      case Plain => cs == "" ==> m == [true] + Marks(g, "", s)
      case Optional => m == [true] + Marks(g, "", s)
      case Required =>
        if cs == "" && s != [] then m == [true, true] + Marks(g, "", s[1..]) else m == [true] + Marks(g, "", s)
  {
    hide ArgOf;
    Openers(e, s);
    assert ([c] + cs)[0] == c && ([c] + cs)[1..] == cs;
  }

  /** Without long options two dashes open a group as one does. */
  lemma DashedGroup(g: Grammar, c: char, cs: string, s: seq<string>)
    requires g.longs.None?
    ensures Answers(g, "", ["--" + [c] + cs] + s) == Answers(g, [c] + cs, ["--" + [c] + cs] + s)
    ensures Marks(g, "", ["--" + [c] + cs] + s) == Marks(g, [c] + cs, ["--" + [c] + cs] + s)
  {
    var e := "--" + [c] + cs;
    assert |e| > 2 && e[2..] == [c] + cs && Body(e) == [c] + cs;
    assert ([e] + s)[0] == e;
  }

  lemma Openers(e: string, s: seq<string>)
    ensures ([e] + s)[0] == e && ([e] + s)[0..] == [e] + s && ([e] + s)[1..] == s
    ensures s != [] ==> ([e] + s)[1] == s[0] && ([e] + s)[2..] == s[1..]
  {
  }

  /** The answer to a long option without an equals sign. */
  lemma LongAnswer(g: Grammar, name: string, s: seq<string>)
    requires g.longs.Some? && name != "" && '=' !in name
    ensures var all := Answers(g, "", ["--" + name] + s);
      match FindLong(g.longs.value, name)
      case Found(i) =>
        var l := g.longs.value[i];
        var value := if l.hasFlag then 0 else l.val;
        if l.hasArg != RequiredArgument then all == [Answer(value, None, None)] + Answers(g, "", s)
        else if s != [] then all == [Answer(value, Some(s[0]), None)] + Answers(g, "", s[1..])
        else all == [Answer(Missed(g.optstring), None, Some(l.val))]
      case _ => all == [Answer('?' as int, None, Some(0))] + Answers(g, "", s)
  {
    hide FindLong;
    var e := "--" + name;
    Openers(e, s);
    assert e[2..] == name && e != "--" && Body(e) == name;
    assert IndexOf(name, '=') == |name| && name[..|name|] == name;
    var d := Decode(g, name, [e] + s);
    assert Answers(g, "", [e] + s) == Answers(g, name, [e] + s);
    assert Answers(g, name, [e] + s) == [Answer(d.ret, d.optarg, d.optopt)] + Answers(g, d.rest, ([e] + s)[d.used..]);
    assert d.rest == "" && (s == [] ==> d.used == 1 && Answers(g, "", s) == []);
  }

  /** The answer to one with an equals sign: the argument is what stands behind the first. */
  lemma LongAnswerWith(g: Grammar, name: string, arg: string, s: seq<string>)
    requires g.longs.Some? && '=' !in name
    ensures var all := Answers(g, "", ["--" + name + "=" + arg] + s);
      match FindLong(g.longs.value, name)
      case Found(i) =>
        var l := g.longs.value[i];
        if l.hasArg == NoArgument then all == [Answer('?' as int, None, Some(l.val))] + Answers(g, "", s)
        else all == [Answer(if l.hasFlag then 0 else l.val, Some(arg), None)] + Answers(g, "", s)
      case _ => all == [Answer('?' as int, None, Some(0))] + Answers(g, "", s)
  {
    hide FindLong;
    var e, body := "--" + name + "=" + arg, name + ['='] + arg;
    Openers(e, s);
    IndexOfConcat(name, '=', arg);
    assert e[2..] == body && |e| > 2 && Body(e) == body;
    assert body[..|name|] == name && body[|name| + 1..] == arg;
    assert Answers(g, "", [e] + s) == Answers(g, body, [e] + s);
  }

  /** The elements of argv that a long option takes: two if it has to have an argument, none is
      given behind an equals sign, and there is a next element; else one. */
  lemma LongTakes(g: Grammar, name: string, s: seq<string>)
    requires g.longs.Some? && name != "" && '=' !in name
    ensures var m, f := Marks(g, "", ["--" + name] + s), FindLong(g.longs.value, name);
      if f.Found? && g.longs.value[f.i].hasArg == RequiredArgument && s != []
      then m == [true, true] + Marks(g, "", s[1..]) else m == [true] + Marks(g, "", s)
  {
    hide FindLong;
    var e := "--" + name;
    Openers(e, s);
    assert e[2..] == name && e != "--" && Body(e) == name;
    assert IndexOf(name, '=') == |name| && name[..|name|] == name;
    assert Marks(g, "", [e] + s) == Marks(g, name, [e] + s);
  }

  lemma LongTakesOne(g: Grammar, name: string, arg: string, s: seq<string>)
    requires g.longs.Some? && '=' !in name
    ensures Marks(g, "", ["--" + name + "=" + arg] + s) == [true] + Marks(g, "", s)
  {
    hide FindLong;
    var e, body := "--" + name + "=" + arg, name + ['='] + arg;
    Openers(e, s);
    IndexOfConcat(name, '=', arg);
    assert e[2..] == body && |e| > 2 && Body(e) == body;
    assert body[..|name|] == name && body[|name| + 1..] == arg;
    assert Marks(g, "", [e] + s) == Marks(g, body, [e] + s);
  }
}
