/** Finding a JSON object inside surrounding text, with the string literals of section 7 of RFC 8259 respected. */
module Scanner {
  import opened Basics

  // ----- lexical view of a text -----

  /** Outside a string, inside one, or right after a backslash inside one. */
  datatype Lex = Out | In | Esc

  function LexStep(l: Lex, c: char): Lex {
    match l
    case Out => if c == '"' then In else Out
    case In => if c == '\\' then Esc else if c == '"' then Out else In
    case Esc => In
  }

  function LexRun(l: Lex, s: string): Lex {
    if s == "" then l else LexStep(LexRun(l, s[..|s| - 1]), s[|s| - 1])
  }

  /** Change of nesting depth: only braces outside strings count. */
  function Delta(l: Lex, c: char): int {
    if l.Out? && c == '{' then 1 else if l.Out? && c == '}' then -1 else 0
  }

  /** Opening minus closing braces of `s`, read from lexical state `l`. */
  function Depth(l: Lex, s: string): int {
    if s == "" then 0 else Depth(l, s[..|s| - 1]) + Delta(LexRun(l, s[..|s| - 1]), s[|s| - 1])
  }

  lemma {:induction false} RunAppend(l: Lex, a: string, b: string)
    ensures LexRun(l, a + b) == LexRun(LexRun(l, a), b)
    ensures Depth(l, a + b) == Depth(l, a) + Depth(LexRun(l, a), b)
  {
    if b == "" {
      assert a + b == a;
    } else {
      RunAppend(l, a, b[..|b| - 1]);
      assert (a + b)[..|a + b| - 1] == a + b[..|b| - 1];
    }
  }

  /** An unquoted brace of the given kind at position `i`. */
  predicate BraceAt(text: string, i: nat, c: char) {
    i < |text| && text[i] == c && LexRun(Out, text[..i]).Out?
  }

  ghost predicate FirstOpen(text: string, s: nat) {
    BraceAt(text, s, '{') && forall i | 0 <= i < s :: !BraceAt(text, i, '{')
  }

  /** `e` closes: an unquoted closing brace where the running depth returns to 0. */
  predicate ClosesAt(text: string, e: nat) {
    BraceAt(text, e, '}') && Depth(Out, text[..e + 1]) == 0
  }

  // ----- the scanner -----

  /** The text from the first opening brace to the first place after it where the depth is back at 0. */
  ghost predicate Extracts(text: string, r: Option<string>) {
    if r.Some? then exists s: nat, e: nat :: Window(text, s, e) && r.value == text[s..e + 1]
    else forall s: nat, e: nat :: !Window(text, s, e)
  }

  ghost predicate Window(text: string, s: nat, e: nat) {
    s < e < |text| && FirstOpen(text, s) && ClosesAt(text, e) && forall i | s < i < e :: !ClosesAt(text, i)
  }

  method ExtractFirstJsonObject(text: string) returns (r: Option<string>)
    ensures Extracts(text, r)
  {
    var start: Option<nat> := None;
    var depth, inString, escaped := 0, false, false;
    for i := 0 to |text|
      invariant depth == Depth(Out, text[..i])
      invariant LexRun(Out, text[..i]) == if !inString then Out else if escaped then Esc else In
      invariant !inString ==> !escaped
      invariant start.None? ==> depth <= 0 && forall j | 0 <= j < i :: !BraceAt(text, j, '{')
      invariant start.Some? ==> start.value < i && FirstOpen(text, start.value)
      invariant start.Some? ==> forall j | start.value < j < i :: !ClosesAt(text, j)
    {
      var c := text[i];
      assert text[..i + 1][..i] == text[..i];
      if inString {
        if escaped {
          escaped := false;
        } else if c == '\\' {
          escaped := true;
        } else if c == '"' {
          inString := false;
        }
      } else if c == '"' {
        inString := true;
      } else if c == '{' {
        if start.None? {
          start := Some(i);
        }
        depth := depth + 1;
      } else if c == '}' {
        depth := depth - 1;
        if depth == 0 && start.Some? {
          assert Window(text, start.value, i);
          return Some(text[start.value..i + 1]);
        }
      }
    }
    assert text[..|text|] == text;
    return None;
  }

  lemma WindowUnique(text: string, s: nat, e: nat, s': nat, e': nat)
    requires Window(text, s, e) && Window(text, s', e')
    ensures s == s' && e == e'
  {
  }

  lemma SameWindow(text: string, s: nat, e: nat, a: string, b: string)
    requires Window(text, s, e) && a == text[s..e + 1] && Extracts(text, Some(b))
    ensures a == b
  {
    var s': nat, e': nat :| Window(text, s', e') && b == text[s'..e' + 1];
    WindowUnique(text, s, e, s', e');
  }

  /** The contract leaves the scanner no choice. */
  lemma ResultUnique(text: string, a: Option<string>, b: Option<string>)
    requires Extracts(text, a) && Extracts(text, b)
    ensures a == b
  {
    if a.Some? {
      var s: nat, e: nat :| Window(text, s, e) && a.value == text[s..e + 1];
      if b.Some? {
        SameWindow(text, s, e, a.value, b.value);
      }
    }
  }

  // ----- balanced objects -----

  /** Starts and ends outside strings, never dips below its starting depth, and ends at it. */
  ghost predicate Neutral(s: string) {
    && LexRun(Out, s).Out? && Depth(Out, s) == 0
    && forall i | 0 <= i <= |s| :: Depth(Out, s[..i]) >= 0
  }

  /** An opening brace, its matching closing brace, and nothing after it. */
  ghost predicate BalancedObject(o: string) {
    && |o| >= 2 && o[0] == '{' && BraceAt(o, |o| - 1, '}')
    && Depth(Out, o) == 0
    && forall i | 0 < i < |o| :: Depth(Out, o[..i]) > 0
  }

  /** Reading on from a point outside strings. */
  lemma Suffix(text: string, s: nat, i: nat)
    requires s <= i <= |text| && LexRun(Out, text[..s]).Out?
    ensures LexRun(Out, text[..i]) == LexRun(Out, text[s..][..i - s])
    ensures Depth(Out, text[..i]) == Depth(Out, text[..s]) + Depth(Out, text[s..][..i - s])
  {
    assert text[..i] == text[..s] + text[s..][..i - s];
    RunAppend(Out, text[..s], text[s..][..i - s]);
  }

  /** Unquoted closing braces before the first opening one push the depth below 0. */
  lemma {:induction false} DepthBeforeOpen(text: string, s: nat)
    requires s <= |text| && forall i | 0 <= i < s :: !BraceAt(text, i, '{')
    ensures Depth(Out, text[..s]) <= 0
    ensures Depth(Out, text[..s]) == 0 <==> forall i | 0 <= i < s :: !BraceAt(text, i, '}')
  {
    if s > 0 {
      DepthBeforeOpen(text, s - 1);
      assert text[..s][..s - 1] == text[..s - 1];
      assert !BraceAt(text, s - 1, '{');
      assert BraceAt(text, s - 1, '}') <==> Delta(LexRun(Out, text[..s - 1]), text[s - 1]) == -1;
    }
  }

  ghost predicate NoCloseBeforeOpen(text: string) {
    forall s: nat, i: nat | FirstOpen(text, s) && i < s :: !BraceAt(text, i, '}')
  }

  /** The depth moves by at most one, so before it first returns to 0 it stays positive. */
  lemma {:induction false} StaysPositive(o: string, n: nat)
    requires 0 < n <= |o| && o[0] == '{'
    requires forall i | 0 < i < n :: !ClosesAt(o, i)
    ensures forall i | 0 < i <= n :: Depth(Out, o[..i]) > 0
  {
    if n == 1 {
      assert o[..1][..0] == "" && o[..1][0] == '{';
    } else {
      StaysPositive(o, n - 1);
      assert o[..n][..n - 1] == o[..n - 1];
      assert !ClosesAt(o, n - 1);
    }
  }

  /** Position `s + i` of the text, seen from the window's start. */
  lemma InWindow(text: string, s: nat, e: nat, i: nat)
    requires s < e < |text| && LexRun(Out, text[..s]).Out? && i <= e + 1 - s
    ensures var o := text[s..e + 1];
            && LexRun(Out, o[..i]) == LexRun(Out, text[..s + i])
            && Depth(Out, o[..i]) == Depth(Out, text[..s + i]) - Depth(Out, text[..s])
  {
    Suffix(text, s, s + i);
    assert text[s..][..i] == text[s..e + 1][..i];
  }

  lemma WindowBalance(text: string, s: nat, e: nat)
    requires Window(text, s, e)
    ensures Depth(Out, text[s..e + 1]) == -Depth(Out, text[..s])
    ensures BraceAt(text[s..e + 1], e - s, '}')
  {
    var o := text[s..e + 1];
    InWindow(text, s, e, e + 1 - s);
    assert o[..e + 1 - s] == o;
    InWindow(text, s, e, e - s);
    assert text[..s + (e - s)] == text[..e] && text[..s + (e + 1 - s)] == text[..e + 1];
  }

  lemma WindowPositive(text: string, s: nat, e: nat, i: nat)
    requires Window(text, s, e) && Depth(Out, text[..s]) == 0 && 0 < i < e + 1 - s
    ensures Depth(Out, text[s..e + 1][..i]) > 0
  {
    var o := text[s..e + 1];
    forall j | 0 < j < i ensures !ClosesAt(o, j) {
      InWindow(text, s, e, j);
      InWindow(text, s, e, j + 1);
      assert text[..s + j + 1] == text[..s + (j + 1)];
      assert !ClosesAt(text, s + j);
    }
    StaysPositive(o, i);
  }

  /** Whatever is returned is a balanced object exactly if no unquoted closing brace precedes the first unquoted
      opening one; otherwise it has more opening than closing braces. */
  lemma ResultBalancedIff(text: string, o: string)
    requires Extracts(text, Some(o))
    ensures BalancedObject(o) <==> NoCloseBeforeOpen(text)
    ensures !NoCloseBeforeOpen(text) ==> Depth(Out, o) > 0
  {
    var s: nat, e: nat :| Window(text, s, e) && o == text[s..e + 1];
    DepthBeforeOpen(text, s);
    WindowBalance(text, s, e);
    assert NoCloseBeforeOpen(text) <==> Depth(Out, text[..s]) == 0;
    if NoCloseBeforeOpen(text) {
      forall i | 0 < i < |o| ensures Depth(Out, o[..i]) > 0 {
        WindowPositive(text, s, e, i);
      }
    }
  }

  /** With a stray closing brace in front, an unbalanced text is returned. */
  lemma StrayCloseMisleads()
    ensures Extracts("}{{}", Some("{{}")) && !BalancedObject("{{}")
  {
    var text := "}{{}";
    assert text[..0] == "" && text[..1] == "}" && text[..2] == "}{" && text[..3] == "}{{" && text[..4] == text;
    assert "}"[..0] == "" && "}{"[..1] == "}" && "}{{"[..2] == "}{" && text[..4][..3] == "}{{";
    assert Depth(Out, "}") == -1 && Depth(Out, "}{") == 0 && Depth(Out, "}{{") == 1 && Depth(Out, text) == 0;
    assert FirstOpen(text, 1);
    assert Window(text, 1, 3);
    assert text[1..4] == "{{}";
    ResultBalancedIff(text, "{{}");
    assert BraceAt(text, 0, '}');
  }

  // ----- every JSON object is found -----

  /** One element of a string literal: a plain character, or a backslash with the character it escapes. The digits
      after an escaped `u` are plain characters. */
  datatype Piece = Plain(c: char) | Escape(c: char)

  predicate PlainOk(p: Piece) {
    p.Plain? ==> p.c != '"' && p.c != '\\'
  }

  /** Concrete syntax of a JSON value with arbitrary white space: a literal or number, a string, an array, an object. */
  datatype Cst =
    | Scalar(text: string)
    | Text(pieces: seq<Piece>)
    | List(open: string, items: seq<Item>)
    | Dict(open: string, members: seq<Member>)

  datatype Item = Item(before: string, value: Cst, after: string)

  datatype Member = Member(before: string, key: seq<Piece>, colon: string, value: Item)

  predicate Inert(s: string) {
    forall i | 0 <= i < |s| :: s[i] != '"' && s[i] != '{' && s[i] != '}'
  }

  predicate PiecesOk(pieces: seq<Piece>) {
    forall i | 0 <= i < |pieces| :: PlainOk(pieces[i])
  }

  /** White space, separators and scalars contain no quote and no brace; string elements are well formed. */
  predicate WellFormed(v: Cst) {
    match v
    case Scalar(t) => Inert(t)
    case Text(ps) => PiecesOk(ps)
    case List(o, items) => Inert(o) && forall i | 0 <= i < |items| :: ItemOk(items[i])
    case Dict(o, ms) => Inert(o) && forall i | 0 <= i < |ms| :: MemberOk(ms[i])
  }

  predicate ItemOk(i: Item) {
    Inert(i.before) && WellFormed(i.value) && Inert(i.after)
  }

  predicate MemberOk(m: Member) {
    Inert(m.before) && PiecesOk(m.key) && Inert(m.colon) && ItemOk(m.value)
  }

  function PrintPieces(ps: seq<Piece>): string {
    if ps == [] then ""
    else PrintPieces(ps[..|ps| - 1]) + PrintPiece(ps[|ps| - 1])
  }

  function PrintString(ps: seq<Piece>): string {
    "\"" + PrintPieces(ps) + "\""
  }

  function Print(v: Cst): string {
    match v
    case Scalar(t) => t
    case Text(ps) => PrintString(ps)
    case List(o, items) => "[" + o + PrintItems(items) + "]"
    case Dict(o, ms) => "{" + (o + PrintMembers(ms)) + "}"
  }

  function PrintItem(i: Item): string {
    i.before + Print(i.value) + i.after
  }

  function PrintItems(items: seq<Item>): string {
    if items == [] then ""
    else if |items| == 1 then PrintItem(items[0])
    else PrintItem(items[0]) + "," + PrintItems(items[1..])
  }

  function PrintMember(m: Member): string {
    m.before + PrintString(m.key) + (m.colon + ":") + PrintItem(m.value)
  }

  function PrintMembers(ms: seq<Member>): string {
    if ms == [] then ""
    else if |ms| == 1 then PrintMember(ms[0])
    else PrintMember(ms[0]) + "," + PrintMembers(ms[1..])
  }

  lemma NeutralAppend(a: string, b: string)
    requires Neutral(a) && Neutral(b)
    ensures Neutral(a + b)
  {
    RunAppend(Out, a, b);
    forall i | 0 <= i <= |a + b| ensures Depth(Out, (a + b)[..i]) >= 0 {
      if i <= |a| {
        assert (a + b)[..i] == a[..i];
      } else {
        assert (a + b)[..i] == a + b[..i - |a|];
        RunAppend(Out, a, b[..i - |a|]);
      }
    }
  }

  lemma {:induction false} InertNeutral(s: string)
    requires Inert(s)
    ensures Neutral(s)
  {
    if s != "" {
      var front := s[..|s| - 1];
      InertNeutral(front);
      forall i | 0 <= i <= |s| ensures Depth(Out, s[..i]) >= 0 {
        if i < |s| {
          assert s[..i] == front[..i];
        } else {
          assert s[..i] == s;
        }
      }
    }
  }

  function PrintPiece(p: Piece): string {
    if p.Plain? then [p.c] else ['\\', p.c]
  }

  /** Part of a string literal's body: stays inside the string and moves no depth. */
  ghost predicate Inside(s: string) {
    LexRun(In, s).In? && forall i | 0 <= i <= |s| :: Depth(In, s[..i]) == 0
  }

  lemma InsideAppend(a: string, b: string)
    requires Inside(a) && Inside(b)
    ensures Inside(a + b)
  {
    RunAppend(In, a, b);
    forall i | 0 <= i <= |a + b| ensures Depth(In, (a + b)[..i]) == 0 {
      if i <= |a| {
        assert (a + b)[..i] == a[..i];
      } else {
        assert (a + b)[..i] == a + b[..i - |a|];
        RunAppend(In, a, b[..i - |a|]);
        assert a[..|a|] == a;
      }
    }
  }

  lemma PieceInside(p: Piece)
    requires PlainOk(p)
    ensures Inside(PrintPiece(p))
  {
    var b := PrintPiece(p);
    var one := b[..1];
    assert one[..0] == "" && b[..0] == "" && b[..|b|] == b;
    assert LexRun(In, "") == In && Depth(In, "") == 0;
    assert Depth(In, one) == Delta(In, b[0]) == 0;
    if p.Escape? {
      assert b[..|b| - 1] == one;
      assert LexRun(In, one) == Esc;
      assert Depth(In, b) == Delta(Esc, p.c);
    } else {
      assert b == one;
    }
    forall i | 0 <= i <= |b| ensures Depth(In, b[..i]) == 0 {
      assert b[..i] == if i == 0 then "" else if i == 1 then one else b;
    }
  }

  lemma {:induction false} PiecesInside(ps: seq<Piece>)
    requires PiecesOk(ps)
    ensures Inside(PrintPieces(ps))
  {
    if ps != [] {
      PiecesInside(ps[..|ps| - 1]);
      PieceInside(ps[|ps| - 1]);
      InsideAppend(PrintPieces(ps[..|ps| - 1]), PrintPiece(ps[|ps| - 1]));
    }
  }

  /** A closed string literal. */
  lemma QuotedNeutral(body: string)
    requires Inside(body)
    ensures Neutral("\"" + body + "\"")
  {
    var q := "\"";
    var s := q + body + q;
    assert q[..0] == "" && body[..|body|] == body;
    assert LexRun(Out, q) == In && Depth(Out, q) == 0 && LexRun(In, q) == Out && Depth(In, q) == 0;
    RunAppend(Out, q, body);
    RunAppend(Out, q + body, q);
    forall i | 0 <= i <= |s| ensures Depth(Out, s[..i]) >= 0 {
      if i == |s| {
        assert s[..i] == s;
      } else if i > 0 {
        assert s[..i] == q + body[..i - 1];
        RunAppend(Out, q, body[..i - 1]);
      }
    }
  }

  lemma StringNeutral(ps: seq<Piece>)
    requires PiecesOk(ps)
    ensures Neutral(PrintString(ps))
  {
    PiecesInside(ps);
    QuotedNeutral(PrintPieces(ps));
  }

  lemma WrapBalanced(inner: string)
    requires Neutral(inner)
    ensures BalancedObject("{" + inner + "}")
    ensures Neutral("{" + inner + "}")
  {
    var o := "{" + inner + "}";
    assert "{"[..0] == "" && "}"[..0] == "";
    RunAppend(Out, "{", inner);
    RunAppend(Out, "{" + inner, "}");
    assert o[..|o| - 1] == "{" + inner;
    forall i | 0 < i < |o| ensures Depth(Out, o[..i]) > 0 {
      assert o[..i] == "{" + inner[..i - 1];
      RunAppend(Out, "{", inner[..i - 1]);
    }
    forall i | 0 <= i <= |o| ensures Depth(Out, o[..i]) >= 0 {
      assert i == 0 ==> o[..i] == "";
      assert i == |o| ==> o[..i] == o;
    }
  }

  lemma {:induction false} PrintNeutral(v: Cst)
    requires WellFormed(v)
    ensures Neutral(Print(v))
    decreases v, 0
  {
    match v
    case Scalar(t) => InertNeutral(t);
    case Text(ps) => StringNeutral(ps);
    case List(o, items) =>
      ItemsNeutral(v, items);
      InertNeutral("[");
      InertNeutral(o);
      InertNeutral("]");
      NeutralAppend("[", o);
      NeutralAppend("[" + o, PrintItems(items));
      NeutralAppend("[" + o + PrintItems(items), "]");
    case Dict(o, ms) =>
      MembersNeutral(v, ms);
      InertNeutral(o);
      NeutralAppend(o, PrintMembers(ms));
      WrapBalanced(o + PrintMembers(ms));
  }

  lemma {:induction false} ItemNeutral(i: Item)
    requires ItemOk(i)
    ensures Neutral(PrintItem(i))
    decreases i, 1
  {
    InertNeutral(i.before);
    PrintNeutral(i.value);
    InertNeutral(i.after);
    NeutralAppend(i.before, Print(i.value));
    NeutralAppend(i.before + Print(i.value), i.after);
  }

  lemma {:induction false} ItemsNeutral(v: Cst, items: seq<Item>)
    requires forall i | 0 <= i < |items| :: ItemOk(items[i]) && items[i] < v
    ensures Neutral(PrintItems(items))
    decreases v, 0, |items|
  {
    if items == [] {
      InertNeutral("");
    } else {
      ItemNeutral(items[0]);
      if |items| > 1 {
        ItemsNeutral(v, items[1..]);
        InertNeutral(",");
        NeutralAppend(PrintItem(items[0]), ",");
        NeutralAppend(PrintItem(items[0]) + ",", PrintItems(items[1..]));
      }
    }
  }

  lemma {:induction false} MembersNeutral(v: Cst, ms: seq<Member>)
    requires forall i | 0 <= i < |ms| :: MemberOk(ms[i]) && ms[i] < v
    ensures Neutral(PrintMembers(ms))
    decreases v, 0, |ms|
  {
    if ms == [] {
      InertNeutral("");
    } else {
      MemberNeutral(ms[0]);
      if |ms| > 1 {
        MembersNeutral(v, ms[1..]);
        InertNeutral(",");
        NeutralAppend(PrintMember(ms[0]), ",");
        NeutralAppend(PrintMember(ms[0]) + ",", PrintMembers(ms[1..]));
      }
    }
  }

  lemma {:induction false} MemberNeutral(m: Member)
    requires MemberOk(m)
    ensures Neutral(PrintMember(m))
    decreases m, 1
  {
    InertNeutral(m.before);
    StringNeutral(m.key);
    InertNeutral(m.colon + ":");
    ItemNeutral(m.value);
    NeutralAppend(m.before, PrintString(m.key));
    NeutralAppend(m.before + PrintString(m.key), m.colon + ":");
    NeutralAppend(m.before + PrintString(m.key) + (m.colon + ":"), PrintItem(m.value));
  }

  /** A prefix that ends outside strings and has no unquoted brace. */
  ghost predicate Skippable(prefix: string) {
    && LexRun(Out, prefix).Out?
    && forall i: nat | i < |prefix| :: !BraceAt(prefix, i, '{') && !BraceAt(prefix, i, '}')
  }

  lemma PrefixSkipped(prefix: string, rest: string)
    requires Skippable(prefix)
    ensures forall i | 0 <= i < |prefix| :: !BraceAt(prefix + rest, i, '{')
    ensures LexRun(Out, (prefix + rest)[..|prefix|]).Out? && Depth(Out, (prefix + rest)[..|prefix|]) == 0
  {
    var text := prefix + rest;
    assert text[..|prefix|] == prefix;
    forall i | 0 <= i < |prefix| ensures !BraceAt(text, i, '{') && !BraceAt(text, i, '}') {
      assert text[..i] == prefix[..i];
      assert !BraceAt(prefix, i, '{') && !BraceAt(prefix, i, '}');
    }
    DepthBeforeOpen(text, |prefix|);
  }

  lemma ObjectCloses(text: string, s: nat, e: nat)
    requires s < e < |text| && LexRun(Out, text[..s]).Out? && Depth(Out, text[..s]) == 0
    requires BalancedObject(text[s..e + 1])
    ensures ClosesAt(text, e)
  {
    var o := text[s..e + 1];
    assert o[..e + 1 - s] == o;
    InWindow(text, s, e, e + 1 - s);
    InWindow(text, s, e, e - s);
    assert s + (e + 1 - s) == e + 1 && s + (e - s) == e;
  }

  lemma ObjectOpenUntil(text: string, s: nat, e: nat, i: nat)
    requires s < i < e < |text| && LexRun(Out, text[..s]).Out? && Depth(Out, text[..s]) == 0
    requires BalancedObject(text[s..e + 1])
    ensures !ClosesAt(text, i)
  {
    InWindow(text, s, e, i + 1 - s);
    assert s + (i + 1 - s) == i + 1;
    assert Depth(Out, text[s..e + 1][..i + 1 - s]) > 0;
  }

  /** Any balanced object, after any such prefix and before any suffix, is exactly what is extracted. */
  lemma BalancedObjectFound(prefix: string, o: string, suffix: string)
    requires Skippable(prefix) && BalancedObject(o)
    ensures Extracts(prefix + o + suffix, Some(o))
  {
    var text, s := prefix + o + suffix, |prefix|;
    var e := s + |o| - 1;
    assert text == prefix + (o + suffix);
    PrefixSkipped(prefix, o + suffix);
    assert text[s..e + 1] == o;
    assert FirstOpen(text, s);
    ObjectCloses(text, s, e);
    forall i | s < i < e ensures !ClosesAt(text, i) {
      ObjectOpenUntil(text, s, e, i);
    }
    assert Window(text, s, e);
  }

  /** A balanced object starts at the first unquoted opening brace. */
  ghost predicate ObjectAtFirstOpen(text: string, s: nat, e: nat) {
    s < e < |text| && FirstOpen(text, s) && BalancedObject(text[s..e + 1])
  }

  /** As long as no unquoted closing brace precedes the first opening one, something is returned exactly if a balanced
      object starts there, and then it is that object. */
  lemma FoundIff(text: string, r: Option<string>)
    requires Extracts(text, r) && NoCloseBeforeOpen(text)
    ensures r.Some? <==> exists s: nat, e: nat :: ObjectAtFirstOpen(text, s, e)
    ensures forall s: nat, e: nat | ObjectAtFirstOpen(text, s, e) :: r == Some(text[s..e + 1])
  {
    if r.Some? {
      var s: nat, e: nat :| Window(text, s, e) && r.value == text[s..e + 1];
      ResultBalancedIff(text, r.value);
      assert ObjectAtFirstOpen(text, s, e);
    }
    forall s: nat, e: nat | ObjectAtFirstOpen(text, s, e) ensures r == Some(text[s..e + 1]) {
      ObjectIsWindow(text, s, e);
      ResultUnique(text, r, Some(text[s..e + 1]));
    }
  }

  lemma ObjectIsWindow(text: string, s: nat, e: nat)
    requires NoCloseBeforeOpen(text) && ObjectAtFirstOpen(text, s, e)
    ensures Window(text, s, e)
  {
    DepthBeforeOpen(text, s);
    ObjectCloses(text, s, e);
    forall i | s < i < e ensures !ClosesAt(text, i) {
      ObjectOpenUntil(text, s, e, i);
    }
  }

  /** With a stray closing brace in front, a balanced object can also go unnoticed. */
  lemma StrayCloseHides()
    ensures Extracts("}{}", None)
  {
    var text := "}{}";
    assert text[..0] == "" && text[..1] == "}" && text[..2] == "}{" && text[..3] == text;
    assert "}"[..0] == "" && "}{"[..1] == "}" && text[..3][..2] == "}{";
    assert Depth(Out, "}") == -1 && Depth(Out, "}{") == 0 && Depth(Out, text) == -1;
    assert !ClosesAt(text, 1) && !ClosesAt(text, 2);
  }

  /** Every JSON object, with any white space and any string escapes, is found whole after any text without quotes
      or braces and before any text at all. */
  lemma JsonObjectFound(prefix: string, v: Cst, suffix: string)
    requires Inert(prefix) && v.Dict? && WellFormed(v)
    ensures Extracts(prefix + Print(v) + suffix, Some(Print(v)))
  {
    MembersNeutral(v, v.members);
    InertNeutral(v.open);
    NeutralAppend(v.open, PrintMembers(v.members));
    WrapBalanced(v.open + PrintMembers(v.members));
    InertNeutral(prefix);
    BalancedObjectFound(prefix, Print(v), suffix);
  }
}
