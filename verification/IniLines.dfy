/** The lines that an INI file may have, as a grammar of its own, and what Load makes
    of each: every line is in the grammar, and every line is read as it says. */
module IniLines {
  import opened Ini
  import opened IniProofs

  // ---------------------------------------------------------------- the grammar

  ghost predicate Blank(w: string) { forall i {:trigger w[i]} :: 0 <= i < |w| ==> IsSpace(w[i]) }

  /** What follows a line's data: nothing, or "#" and a comment. */
  datatype Right = NoRight | Right(before: string, text: string, after: string)

  /** The kinds of lines, with the white space between their parts. */
  datatype Line =
    | Empty(w: string)
    | Remark(w1: string, text: string, w2: string)
    | Header(w1: string, w2: string, name: string, w3: string, rest: string, right: Right)
    | Unclosed(w1: string, rest: string, right: Right)
    | Pair(w1: string, key: string, w2: string, w3: string, value: string, w4: string, right: Right)
    | Bare(w1: string, text: string, w2: string, right: Right)

  function RightText(r: Right): string {
    match r case NoRight => "" case Right(b, t, a) => ['#'] + (b + t + a)
  }

  function RightValue(r: Right): string {
    match r case NoRight => "" case Right(_, t, _) => t
  }

  /** The line without its right-hand comment. */
  function Data(l: Line): string
    requires !l.Empty? && !l.Remark?
  {
    match l
    case Header(w1, w2, name, w3, rest, _) => w1 + ("[" + (w2 + name + w3) + "]") + rest
    case Unclosed(w1, rest, _) => w1 + "[" + rest
    case Pair(w1, k, w2, w3, v, w4, _) => (w1 + k + w2) + ['='] + (w3 + v + w4)
    case Bare(w1, text, w2, _) => w1 + text + w2
  }

  function Text(l: Line): string {
    match l
    case Empty(w) => w
    case Remark(w1, text, w2) => w1 + ("#" + text) + w2
    case _ => Data(l) + RightText(l.right)
  }

  ghost predicate GoodRight(r: Right) {
    r.Right? ==> Blank(r.before) && Trimmed(r.text) && Blank(r.after)
  }

  ghost predicate GoodLine(l: Line) {
    match l
    case Empty(w) => Blank(w)
    case Remark(w1, text, w2) => Blank(w1) && Blank(w2) && Trimmed("#" + text)
    case Header(w1, w2, name, w3, rest, right) =>
      && Blank(w1) && Blank(w2) && Trimmed(name) && Blank(w3) && ']' !in name && '#' !in name && '#' !in rest
      && GoodRight(right)
    case Unclosed(w1, rest, right) => Blank(w1) && ']' !in rest && '#' !in rest && GoodRight(right)
    case Pair(w1, k, w2, w3, v, w4, right) =>
      && Blank(w1) && Trimmed(k) && Blank(w2) && Blank(w3) && Trimmed(v) && Blank(w4) && GoodRight(right)
      && '#' !in k && '=' !in k && (k != "" ==> k[0] != '[') && '#' !in v
    case Bare(w1, text, w2, right) =>
      && Blank(w1) && text != "" && Trimmed(text) && Blank(w2) && GoodRight(right)
      && '#' !in text && '=' !in text && text[0] != '['
  }

  // ---------------------------------------------------------------- the reference reader

  /** What a line does to the document: comments gather until a section or an item
      takes them; a line that is none of these stops the reader. */
  function Read(r: Reader, l: Line): Reader
    requires r.sections != []
  {
    match l
    case Empty(_) => r.(comment := r.comment + "\n")
    case Remark(_, text, _) => r.(comment := r.comment + "#" + text + "\n")
    case Header(_, w2, name, w3, _, right) =>
      if w2 == "" && name == "" && w3 == "" then r.(err := ERR_SECTION_EMPTY)
      else if exists i :: 0 <= i < |r.sections| && r.sections[i].name == name then r.(err := ERR_SECTION_ALREADY_EXISTS)
      else Reader(r.sections + [Section(name, r.comment, RightValue(right), [])], "", OK)
    case Unclosed(_, _, _) => r.(err := ERR_UNMATCHED_BRACKETS)
    case Pair(_, k, _, _, v, _, right) =>
      var n := |r.sections| - 1;
      var items := r.sections[n].items + [Item(k, v, r.comment, RightValue(right))];
      Reader(r.sections[n := r.sections[n].(items := items)], "", OK)
    case Bare(_, _, _, _) => r.(err := ERR_PARSE_KEY_VALUE_FAILED)
  }

  // ---------------------------------------------------------------- trimming

  lemma {:induction false} TrimLeftBlank(w: string, s: string)
    requires Blank(w)
    ensures TrimLeft(w + s) == TrimLeft(s)
    decreases |w|
  {
    if w != "" {
      assert (w + s)[1..] == w[1..] + s && IsSpace(w[0]);
      TrimLeftBlank(w[1..], s);
    } else {
      assert w + s == s;
    }
  }

  lemma {:induction false} TrimRightBlank(s: string, w: string)
    requires Blank(w)
    ensures TrimRight(s + w) == TrimRight(s)
    decreases |w|
  {
    if w != "" {
      var n := |w| - 1;
      assert (s + w)[..|s + w| - 1] == s + w[..n] && IsSpace(w[n]);
      TrimRightBlank(s, w[..n]);
    } else {
      assert s + w == s;
    }
  }

  /** White space at both ends, and nothing else, is taken off. */
  lemma TrimIs(w1: string, s: string, w2: string)
    requires Blank(w1) && Blank(w2) && Trimmed(s)
    ensures Trim(w1 + s + w2) == s
  {
    assert w1 + s + w2 == w1 + (s + w2);
    TrimLeftBlank(w1, s + w2);
    if s == "" {
      TrimLeftBlank(w2, "");
      assert s + w2 == w2 + "";
    } else {
      assert TrimLeft(s + w2) == s + w2;
      TrimRightBlank(s, w2);
    }
  }

  /** Every text is white space, its trimmed part, and white space. */
  lemma TrimParts(s: string) returns (w1: string, w2: string)
    ensures Blank(w1) && Blank(w2) && s == w1 + Trim(s) + w2 && Trimmed(Trim(s))
  {
    TrimGives(s);
    var i: nat :| StretchAt(s, Trim(s), i);
    w1, w2 := s[..i], s[i + |Trim(s)|..];
  }

  /** What begins and ends with other characters is kept, and what follows it only
      loses white space at its end. */
  lemma TrimKeeps(w: string, mid: string, rest: string) returns (tail: string)
    requires Blank(w) && mid != "" && Trimmed(mid)
    ensures tail <= rest && Trim(w + mid + rest) == mid + tail
  {
    var w1, w2 := TrimParts(rest);
    var t := Trim(rest);
    if t == "" {
      tail := "";
      assert rest == w1 + w2;
      TrimIs(w, mid, rest);
      assert mid + tail == mid;
    } else {
      tail := w1 + t;
      assert Trimmed(mid + tail);
      assert w + mid + rest == w + (mid + tail) + w2;
      TrimIs(w, mid + tail, w2);
    }
  }

  // ---------------------------------------------------------------- splitting

  /** With a separator in the text, split gives what stands before the first one and
      what stands behind it, each without the white space around it. */
  lemma SplitIs(a: string, c: char, b: string)
    requires c !in a
    ensures Split(a + [c] + b, c) == (true, Trim(a), Trim(b))
    ensures Trimmed(Trim(a)) && Trimmed(Trim(b))
    ensures (exists i :: StretchAt(a, Trim(a), i)) && (exists i :: StretchAt(b, Trim(b), i))
  {
    hide Trim;
    IndexAfter(a, c, b);
    TrimGives(a);
    TrimGives(b);
  }

  /** And without one the text itself. */
  lemma SplitNone(s: string, c: char)
    requires c !in s
    ensures Split(s, c) == (false, Trim(s), "")
    ensures Trimmed(Trim(s)) && exists i :: StretchAt(s, Trim(s), i)
  {
    hide Trim;
    IndexNone(s, c);
    TrimGives(s);
  }

  /** More white space around a text is taken off with its own. */
  lemma TrimSame(w1: string, s: string, w2: string)
    requires Blank(w1) && Blank(w2)
    ensures Trim(w1 + s + w2) == Trim(s)
  {
    hide Trim;
    var u1, u2 := TrimParts(s);
    assert w1 + s + w2 == (w1 + u1) + Trim(s) + (u2 + w2);
    TrimIs(w1 + u1, Trim(s), u2 + w2);
  }

  lemma FirstOf(s: string, c: char) returns (a: string, b: string)
    requires c in s
    ensures s == a + [c] + b && c !in a
  {
    var i := IndexOf(s, c);
    assert s[..|s|] == s;
    a, b := s[..i], s[i + 1..];
  }

  lemma NotInBlank(w: string, c: char)
    requires Blank(w) && !IsSpace(c)
    ensures c !in w
  { }

  /** Trimming first makes no difference. */
  lemma SplitTrim(s: string, c: char)
    requires !IsSpace(c)
    ensures Split(Trim(s), c) == Split(s, c)
  {
    hide Trim, Split, IndexOf, IsSpace;
    var w1, w2 := TrimParts(s);
    var t := Trim(s);
    NotInBlank(w1, c);
    NotInBlank(w2, c);
    if c in t {
      var a, b := FirstOf(t, c);
      assert s == (w1 + a) + [c] + (b + w2);
      SplitIs(a, c, b);
      SplitIs(w1 + a, c, b + w2);
      TrimSame(w1, a, "");
      TrimSame("", b, w2);
      assert w1 + a + "" == w1 + a && "" + b + w2 == b + w2;
    } else {
      SplitNone(t, c);
      SplitNone(s, c);
      TrimSame("", t, "");
      TrimIs("", t, "");
      assert "" + t + "" == t;
    }
  }

  // ---------------------------------------------------------------- the pieces of a line

  /** The part before "#" and the comment behind it, of a line that is neither empty
      nor a remark. */
  lemma DataIs(l: Line)
    requires GoodLine(l) && !l.Empty? && !l.Remark?
    ensures '#' !in Data(l)
  {
    match l
    case Header(w1, w2, name, w3, _, _) => NotInBlank(w1, '#'); NotInBlank(w2, '#'); NotInBlank(w3, '#');
    case Unclosed(w1, _, _) => NotInBlank(w1, '#');
    case Pair(w1, _, w2, w3, _, w4, _) =>
      NotInBlank(w1, '#');
      NotInBlank(w2, '#');
      NotInBlank(w3, '#');
      NotInBlank(w4, '#');
    case Bare(w1, _, w2, _) => NotInBlank(w1, '#'); NotInBlank(w2, '#');
  }

  lemma RightSplits(d: string, right: Right)
    requires '#' !in d && GoodRight(right)
    ensures Split(Trim(d + RightText(right)), '#') == (right.Right?, Trim(d), RightValue(right))
  {
    hide Trim, Split;
    SplitTrim(d + RightText(right), '#');
    match right
    case NoRight =>
      assert d + "" == d;
      SplitNone(d, '#');
    case Right(b, t, a) =>
      assert d + RightText(right) == d + ['#'] + (b + t + a);
      SplitIs(d, '#', b + t + a);
      TrimIs(b, t, a);
  }

  /** The first character that is not white space is the first of the trimmed text. */
  lemma FirstKept(w: string, x: char, rest: string)
    requires Blank(w) && !IsSpace(x)
    ensures Trim(w + [x] + rest) != "" && Trim(w + [x] + rest)[0] == x
  {
    hide Trim;
    var tail := TrimKeeps(w, [x], rest);
  }

  lemma HeadOf(w: string, s: string, tail: string)
    requires s != ""
    ensures w + s + tail == w + [s[0]] + (s[1..] + tail)
  { }

  /** A line with data starts with something else than "#". */
  lemma DataStarts(l: Line) returns (w: string, x: char, rest: string)
    requires GoodLine(l) && !l.Empty? && !l.Remark?
    ensures Blank(w) && !IsSpace(x) && x != '#' && (x == '[' <==> l.Header? || l.Unclosed?)
    ensures Data(l) == w + [x] + rest
  {
    match l
    case Header(w1, w2, name, w3, after, _) =>
      w, x, rest := w1, '[', (w2 + name + w3 + "]") + after;
      assert "[" + (w2 + name + w3) + "]" == ['['] + (w2 + name + w3 + "]");
      HeadOf(w1, "[" + (w2 + name + w3) + "]", after);
    case Unclosed(w1, after, _) =>
      w, x, rest := w1, '[', after;
    case Pair(w1, k, w2, w3, v, w4, _) => w, x, rest := PairStarts(w1, k, w2, w3 + v + w4);
    case Bare(w1, text, w2, _) =>
      w, x, rest := w1, text[0], text[1..] + w2;
      HeadOf(w1, text, w2);
      assert text[0] in text;
  }

  lemma PairStarts(w1: string, k: string, w2: string, tail: string) returns (w: string, x: char, rest: string)
    requires Blank(w1) && Trimmed(k) && Blank(w2) && '#' !in k && (k != "" ==> k[0] != '[')
    ensures Blank(w) && !IsSpace(x) && x != '#' && x != '['
    ensures (w1 + k + w2) + ['='] + tail == w + [x] + rest
  {
    if k == "" {
      w, x, rest := w1 + w2, '=', tail;
      assert w1 + k + w2 == w;
    } else {
      w, x, rest := w1, k[0], k[1..] + (w2 + ['='] + tail);
      HeadOf(w1, k, w2 + ['='] + tail);
      assert (w1 + k + w2) + ['='] + tail == w1 + k + (w2 + ['='] + tail);
      assert k[0] in k;
    }
  }

  // ---------------------------------------------------------------- every line is read as it says

  lemma FeedData(r: Reader, l: Line)
    requires r.sections != [] && GoodLine(l) && !l.Empty? && !l.Remark?
    ensures var clean := Trim(Data(l));
      && clean != "" && (clean[0] == '[' <==> l.Header? || l.Unclosed?)
      && Feed(r, Text(l)) ==
           if clean[0] == '[' then FeedSection(r, clean, RightValue(l.right))
           else FeedItem(r, clean, RightValue(l.right))
  {
    hide Trim, Split, FeedSection, FeedItem, Data, RightText;
    var w, x, rest := DataStarts(l);
    DataIs(l);
    RightSplits(Data(l), l.right);
    FirstKept(w, x, rest);
    FirstKept(w, x, rest + RightText(l.right));
    assert Text(l) == w + [x] + (rest + RightText(l.right));
  }

  lemma PairIs(r: Reader, l: Line)
    requires r.sections != [] && GoodLine(l) && l.Pair?
    ensures FeedItem(r, Trim(Data(l)), RightValue(l.right)) == Read(r, l)
  {
    hide Trim, Split, RightValue;
    var Pair(w1, k, w2, w3, v, w4, _) := l;
    NotInBlank(w1, '=');
    NotInBlank(w2, '=');
    SplitTrim(Data(l), '=');
    SplitIs(w1 + k + w2, '=', w3 + v + w4);
    TrimIs(w1, k, w2);
    TrimIs(w3, v, w4);
    var item := Item(k, v, r.comment, RightValue(l.right));
    var n := |r.sections| - 1;
    assert AddItem(r.sections, item) == r.sections[n := r.sections[n].(items := r.sections[n].items + [item])];
  }

  lemma BareIs(r: Reader, l: Line)
    requires r.sections != [] && GoodLine(l) && l.Bare?
    ensures FeedItem(r, Trim(Data(l)), RightValue(l.right)) == Read(r, l)
  {
    hide Trim, Split, IsSpace;
    TrimIs(l.w1, l.text, l.w2);
    SplitNone(l.text, '=');
  }

  lemma HeaderIs(r: Reader, l: Line)
    requires r.sections != [] && GoodLine(l) && l.Header?
    ensures var clean := Trim(Data(l));
      clean != "" && clean[0] == '[' && FeedSection(r, clean, RightValue(l.right)) == Read(r, l)
  {
    hide Trim, IndexOf, RightValue;
    var inner := l.w2 + l.name + l.w3;
    NotInBlank(l.w2, ']');
    NotInBlank(l.w3, ']');
    TrimmedBrackets(inner);
    var tail := TrimKeeps(l.w1, "[" + inner + "]", l.rest);
    var clean := "[" + inner + "]" + tail;
    assert clean == ("[" + inner) + [']'] + tail;
    IndexAfter("[" + inner, ']', tail);
    assert clean[1..|inner| + 1] == inner;
    TrimIs(l.w2, l.name, l.w3);
  }

  lemma TrimmedBrackets(inner: string)
    ensures Trimmed("[" + inner + "]") && Trimmed("[")
  { }

  lemma UnclosedIs(r: Reader, l: Line)
    requires r.sections != [] && GoodLine(l) && l.Unclosed?
    ensures var clean := Trim(Data(l));
      clean != "" && clean[0] == '[' && FeedSection(r, clean, RightValue(l.right)) == Read(r, l)
  {
    hide Trim, IsSpace, IndexOf;
    TrimmedBrackets("");
    var tail := TrimKeeps(l.w1, "[", l.rest);
    assert ']' !in "[" + tail;
    IndexNone("[" + tail, ']');
  }

  /** Load does with every line of the grammar what the grammar says. */
  lemma FeedIs(r: Reader, l: Line)
    requires r.sections != [] && GoodLine(l)
    ensures Feed(r, Text(l)) == Read(r, l)
  {
    hide Trim, Split, IsSpace, FeedSection, FeedItem, Data;
    match l
    case Empty(w) =>
      TrimIs(w, "", "");
      assert w + "" + "" == w;
    case Remark(w1, text, w2) =>
      TrimIs(w1, "#" + text, w2);
      assert r.comment + ("#" + text) + "\n" == r.comment + "#" + text + "\n";
    case Header(_, _, _, _, _, _) => FeedData(r, l); HeaderIs(r, l);
    case Unclosed(_, _, _) => FeedData(r, l); UnclosedIs(r, l);
    case Pair(_, _, _, _, _, _, _) => FeedData(r, l); PairIs(r, l);
    case Bare(_, _, _, _) => FeedData(r, l); BareIs(r, l);
  }

  // ---------------------------------------------------------------- every line is in the grammar

  lemma RightOf(s: string) returns (d: string, right: Right)
    ensures s == d + RightText(right) && '#' !in d && GoodRight(right)
  {
    hide Trim;
    if '#' in s {
      var a, b := FirstOf(s, '#');
      var b1, b2 := TrimParts(b);
      d, right := a, Right(b1, Trim(b), b2);
      assert s == a + (['#'] + b);
    } else {
      d, right := s, NoRight;
      assert s == s + "";
    }
  }

  /** What trimming leaves has no character that was not there. */
  lemma TrimPartsNoNew(s: string, c: char) returns (w1: string, w2: string)
    ensures Blank(w1) && Blank(w2) && s == w1 + Trim(s) + w2 && Trimmed(Trim(s))
    ensures c !in s ==> c !in Trim(s)
  {
    hide Trim;
    w1, w2 := TrimParts(s);
    TrimGives(s);
  }

  lemma ClosedHeader(w1: string, inner: string, rest: string, right: Right) returns (l: Line)
    requires Blank(w1) && ']' !in inner && '#' !in inner && '#' !in rest && GoodRight(right)
    ensures GoodLine(l) && l.Header? && Data(l) == w1 + ("[" + inner + "]") + rest && l.right == right
  {
    hide Trim, IsSpace, GoodRight, Trimmed, Blank;
    var u1, u2 := TrimPartsNoNew(inner, '#');
    TrimGives(inner);
    l := Header(w1, u1, Trim(inner), u2, rest, right);
  }

  lemma Regroup(w: string, a: string, b: string, c: string)
    ensures w + (a + b) + c == w + a + (b + c)
  { }

  lemma BracketParts(t: string) returns (closed: bool, inner: string, rest: string)
    requires t != "" && t[0] == '[' && '#' !in t
    ensures '#' !in inner && '#' !in rest
    ensures if closed then t == ("[" + inner + "]") + rest && ']' !in inner else t == "[" + rest && ']' !in rest
  {
    var u := t[1..];
    assert t == "[" + u && '#' !in u;
    closed, inner, rest := ']' in u, "", u;
    if closed {
      inner, rest := FirstOf(u, ']');
      assert forall c :: c in inner || c in rest ==> c in u;
      assert "[" + (inner + [']'] + rest) == ("[" + inner + "]") + rest;
    }
  }

  lemma BracketLine(w1: string, t: string, w2: string, right: Right) returns (l: Line)
    requires Blank(w1) && Blank(w2) && t != "" && t[0] == '[' && '#' !in t && GoodRight(right)
    ensures GoodLine(l) && (l.Header? || l.Unclosed?) && Data(l) == w1 + t + w2 && l.right == right
  {
    NotInBlank(w2, '#');
    NotInBlank(w2, ']');
    hide Trim, GoodRight, Trimmed, IsSpace, Blank;
    var closed, inner, rest := BracketParts(t);
    if closed {
      l := ClosedHeader(w1, inner, rest + w2, right);
      Regroup(w1, "[" + inner + "]", rest, w2);
    } else {
      l := Unclosed(w1, rest + w2, right);
      Regroup(w1, "[", rest, w2);
    }
  }

  lemma PairOf(w1: string, k: string, w2: string, b: string, right: Right) returns (l: Line)
    requires Blank(w1) && Trimmed(k) && Blank(w2) && '=' !in k && '#' !in k && (k != "" ==> k[0] != '[')
    requires '#' !in b && GoodRight(right)
    ensures GoodLine(l) && l.Pair? && Data(l) == (w1 + k + w2) + ['='] + b && l.right == right
  {
    hide Trim, IsSpace, GoodRight, Trimmed, Blank;
    var v1, v2 := TrimPartsNoNew(b, '#');
    l := Pair(w1, k, w2, v1, Trim(b), v2, right);
  }

  lemma ItemParts(t: string) returns (k: string, w: string, b: string)
    requires t != "" && Trimmed(t) && t[0] != '[' && '#' !in t && '=' in t
    ensures t == (k + w + ['=']) + b && Trimmed(k) && Blank(w) && '=' !in k && '#' !in k && '#' !in b
    ensures k != "" ==> k[0] != '['
  {
    hide Trim;
    var a;
    a, b := FirstOf(t, '=');
    assert forall c :: c in a || c in b ==> c in t;
    assert a + (['='] + b) == t;
    KeyStarts(a, ['='] + b);
    TrimGives(a);
    w := KeyParts(a, t);
    k := Trim(a);
  }

  lemma ItemLine(w1: string, t: string, w2: string, right: Right) returns (l: Line)
    requires Blank(w1) && Trimmed(t) && Blank(w2) && t != "" && t[0] != '[' && '#' !in t && GoodRight(right)
    ensures GoodLine(l) && (l.Pair? || l.Bare?) && Data(l) == w1 + t + w2 && l.right == right
  {
    NotInBlank(w2, '#');
    if '=' in t {
      hide Trim, GoodRight, IsSpace, Blank, Trimmed;
      var k, w, b := ItemParts(t);
      l := PairOf(w1, k, w, b + w2, right);
      Regroup(w1, k + w + ['='], b, w2);
      Regroup(w1, k, w, ['=']);
    } else {
      hide Trim, GoodRight;
      l := Bare(w1, t, w2, right);
    }
  }

  lemma KeyStarts(a: string, b: string)
    requires b != ""
    ensures a <= a + b && (a + b)[..|a|] == a && |a| < |a + b|
  { }

  lemma NoBlankFirst(w: string, rest: string)
    requires Blank(w) && w + rest != "" && !IsSpace((w + rest)[0])
    ensures w == ""
  { }

  /** A key starts where the trimmed line does. */
  lemma KeyParts(a: string, t: string) returns (w: string)
    requires t != "" && !IsSpace(t[0]) && a < t
    ensures Blank(w) && a == Trim(a) + w && (Trim(a) != "" ==> Trim(a)[0] == t[0])
  {
    hide Trim, IsSpace;
    var u1, u2 := TrimParts(a);
    w := u2;
    if a != "" {
      assert a[0] == t[0] && a == u1 + (Trim(a) + u2);
      NoBlankFirst(u1, Trim(a) + u2);
    }
  }

  /** The grammar leaves no line out. */
  lemma EveryLine(s: string) returns (l: Line)
    ensures GoodLine(l) && Text(l) == s
  {
    hide Trim, Data, RightText;
    var w1, w2 := TrimParts(s);
    var t := Trim(s);
    if t == "" {
      l := Empty(s);
    } else if t[0] == '#' {
      l := Remark(w1, t[1..], w2);
      assert t == "#" + t[1..];
    } else {
      var d, right := RightOf(s);
      var u1, u2 := TrimParts(d);
      StartsWithData(s, w1, t, w2, d, right);
      TrimGives(d);
      if Trim(d)[0] == '[' { l := BracketLine(u1, Trim(d), u2, right); } else { l := ItemLine(u1, Trim(d), u2, right); }
    }
  }

  /** When the first character of a line is not "#", there is something before it. */
  lemma StartsWithData(s: string, w1: string, t: string, w2: string, d: string, right: Right)
    requires s == w1 + t + w2 && Blank(w1) && t != "" && !IsSpace(t[0]) && t[0] != '#'
    requires s == d + RightText(right) && '#' !in d
    ensures Trim(d) != ""
  {
    hide Trim;
    var i := |w1|;
    assert s[i] == t[0];
    assert forall k :: 0 <= k < i ==> s[k] == w1[k];
    if right.Right? { assert s[|d|] == '#' && !IsSpace('#'); }
    assert i < |d| && d[i] == s[i];
    NotAllBlank(d, i);
  }

  lemma NotAllBlank(d: string, i: nat)
    requires i < |d| && !IsSpace(d[i])
    ensures Trim(d) != ""
  {
    hide Trim;
    var u1, u2 := TrimParts(d);
    assert Blank(u1 + u2);
    assert Trim(d) == "" ==> d == u1 + u2;
  }

  // ---------------------------------------------------------------- files

  function Texts(ls: seq<Line>): (r: seq<string>)
    ensures |r| == |ls| && forall i :: 0 <= i < |ls| ==> r[i] == Text(ls[i])
  {
    seq(|ls|, i requires 0 <= i < |ls| => Text(ls[i]))
  }

  ghost predicate GoodLines(ls: seq<Line>) { forall i {:trigger ls[i]} :: 0 <= i < |ls| ==> GoodLine(ls[i]) }

  lemma {:induction false} SectionsStay(r: Reader, l: Line)
    requires r.sections != []
    ensures Read(r, l).sections != []
  { }

  /** The lines in order, up to the first that cannot be read. */
  function ReadAll(r: Reader, ls: seq<Line>): Reader
    requires r.sections != []
    decreases |ls|
  {
    if ls == [] || r.err != OK then r
    else
      SectionsStay(r, ls[0]);
      ReadAll(Read(r, ls[0]), ls[1..])
  }

  lemma {:induction false} FeedAllIs(r: Reader, ls: seq<Line>)
    requires r.sections != [] && GoodLines(ls)
    ensures FeedAll(r, Texts(ls)) == ReadAll(r, ls)
    decreases |ls|
  {
    hide Feed, Read, Text, GoodLine;
    if ls != [] && r.err == OK {
      FeedIs(r, ls[0]);
      assert Texts(ls)[1..] == Texts(ls[1..]);
      FeedAllIs(Feed(r, Text(ls[0])), ls[1..]);
    }
  }

  lemma {:induction false} EveryLines(ss: seq<string>) returns (ls: seq<Line>)
    ensures GoodLines(ls) && Texts(ls) == ss
    decreases |ss|
  {
    hide GoodLine, Text;
    if ss == [] {
      ls := [];
    } else {
      var l := EveryLine(ss[0]);
      var rest := EveryLines(ss[1..]);
      ls := [l] + rest;
    }
  }

  /** Load of any text is the reference reader on its lines, whatever way these are
      taken apart. */
  lemma LoadReads(text: string, ls: seq<Line>)
    requires GoodLines(ls) && Texts(ls) == LinesOf(text)
    ensures Loaded(text) == ReadAll(Start(), ls)
  {
    hide Feed, Read, Text, GoodLine;
    FeedAllIs(Start(), ls);
  }

  /** And every text can be taken apart. */
  lemma LoadIsRead(text: string) returns (ls: seq<Line>)
    ensures GoodLines(ls) && Texts(ls) == LinesOf(text) && Loaded(text) == ReadAll(Start(), ls)
  {
    ls := EveryLines(LinesOf(text));
    LoadReads(text, ls);
  }

  ghost predicate Padding(w: string) { forall c :: c in w ==> c == ' ' || c == '\t' || c == '\r' }

  /** A section and a setting in it, as in the repository's own configuration files:
      spaces and tabs around "=", a line end of either kind. */
  lemma SettingIsRead(name: string, key: string, value: string, p1: string, p2: string, p3: string)
    requires name != "" && GoodWord(name) && ']' !in name && '#' !in name
    requires key != "" && GoodWord(key) && '=' !in key && '#' !in key && key[0] != '['
    requires GoodWord(value) && '#' !in value
    requires Padding(p1) && Padding(p2) && Padding(p3)
    ensures var text := ("[" + name + "]" + "\n") + (((key + p1) + "=" + (p2 + value + p3)) + "\n");
      Loaded(text) ==
        Reader([Section("", "", "", []), Section(name, "", "", [Item(key, value, "", "")])], "", OK)
  {
    hide Trimmed, IsSpace, LinesOf, ReadAll, Blank, Padding, GoodLine, Text, Texts, Read, GoodWord;
    var l1 := Header("", "", name, "", "", NoRight);
    var l2 := Pair("", key, p1, p2, value, p3, NoRight);
    NameLine(name);
    ValueLine(key, value, p1, p2, p3);
    TwoLines(Text(l1), Text(l2));
    assert Texts([l1, l2]) == [Text(l1), Text(l2)];
    LoadReads((Text(l1) + "\n") + (Text(l2) + "\n"), [l1, l2]);
    BothRead(name, key, value, p1, p2, p3);
    TwoReads(Start(), l1, l2);
  }

  lemma NameLine(name: string)
    requires GoodWord(name) && ']' !in name && '#' !in name
    ensures var l := Header("", "", name, "", "", NoRight);
      GoodLine(l) && Text(l) == "[" + name + "]" && OneLine(Text(l))
  {
    hide Trimmed, IsSpace;
    var t := "[" + name + "]";
    assert "" + name + "" == name;
    assert "" + t + "" + "" == t;
    forall i | 0 <= i < |t| ensures t[i] != '\n' { assert 0 < i <= |name| ==> t[i] == name[i - 1]; }
  }

  lemma ValueLine(key: string, value: string, p1: string, p2: string, p3: string)
    requires key != "" && GoodWord(key) && '=' !in key && '#' !in key && key[0] != '['
    requires GoodWord(value) && '#' !in value
    requires Padding(p1) && Padding(p2) && Padding(p3)
    ensures var l := Pair("", key, p1, p2, value, p3, NoRight);
      GoodLine(l) && Text(l) == (key + p1) + "=" + (p2 + value + p3) && OneLine(Text(l))
  {
    hide Trimmed, IsSpace, Blank, Padding;
    PaddingIsBlank(p1);
    PaddingIsBlank(p2);
    PaddingIsBlank(p3);
    PaddingIsBlank("");
    var l := Pair("", key, p1, p2, value, p3, NoRight);
    assert Data(l) + "" == (key + p1) + "=" + (p2 + value + p3);
    assert OneLine(key + p1) && OneLine(p2 + value + p3);
  }

  lemma BothRead(name: string, key: string, value: string, p1: string, p2: string, p3: string)
    requires name != ""
    ensures var r := Read(Start(), Header("", "", name, "", "", NoRight));
      && r == Reader([Section("", "", "", []), Section(name, "", "", [])], "", OK)
      && Read(r, Pair("", key, p1, p2, value, p3, NoRight)) ==
           Reader([Section("", "", "", []), Section(name, "", "", [Item(key, value, "", "")])], "", OK)
  {
    var r := Read(Start(), Header("", "", name, "", "", NoRight));
    var n := Read(r, Pair("", key, p1, p2, value, p3, NoRight));
    assert [] + [Item(key, value, "", "")] == [Item(key, value, "", "")];
    assert n.sections == [Section("", "", "", []), Section(name, "", "", [Item(key, value, "", "")])];
  }

  lemma PaddingIsBlank(w: string)
    requires w == "" || Padding(w)
    ensures Blank(w) && OneLine(w)
  {
    forall i | 0 <= i < |w| ensures IsSpace(w[i]) { assert w[i] in w; }
  }

  lemma TwoLines(a: string, b: string)
    requires OneLine(a) && OneLine(b)
    ensures LinesOf((a + "\n") + (b + "\n")) == [a, b]
  {
    hide LinesOf, OneLine;
    LinesOfUnlines([a, b], "");
    UnlinesOne(b);
    assert [a, b][1..] == [b];
    assert Unlines([a, b]) == (a + "\n") + (b + "\n");
    assert Unlines([a, b]) + "" == Unlines([a, b]) && [a, b] + [] == [a, b];
  }

  lemma TwoReads(r: Reader, a: Line, b: Line)
    requires r.sections != [] && r.err == OK && Read(r, a).err == OK
    ensures Read(r, a).sections != [] && ReadAll(r, [a, b]) == Read(Read(r, a), b)
  {
    hide Read;
    SectionsStay(r, a);
    SectionsStay(Read(r, a), b);
    assert [a, b][1..] == [b] && [b][1..] == [];
    var m := Read(r, a);
    assert ReadAll(Read(m, b), []) == Read(m, b) && ReadAll(m, [b]) == ReadAll(Read(m, b), []);
  }
}
