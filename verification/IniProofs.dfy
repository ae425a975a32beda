/** What Load accepts SaveAs can write back: the exact condition for the round
    trip through a file. */
module IniProofs {
  import opened Ini

  // ---------------------------------------------------------------- strings

  predicate Trimmed(s: string) {
    s == "" || (!IsSpace(s[0]) && !IsSpace(s[|s| - 1]))
  }

  lemma {:induction false} TrimLeftGives(s: string)
    ensures TrimLeft(s) == "" || !IsSpace(TrimLeft(s)[0])
    ensures forall c :: c in TrimLeft(s) ==> c in s
  {
    if s != "" && IsSpace(s[0]) { TrimLeftGives(s[1..]); }
  }

  lemma {:induction false} TrimRightGives(s: string)
    ensures TrimRight(s) == "" || !IsSpace(TrimRight(s)[|TrimRight(s)| - 1])
    ensures TrimRight(s) <= s && forall c :: c in TrimRight(s) ==> c in s
    ensures s != "" && !IsSpace(s[0]) ==> TrimRight(s) != ""
  {
    if s != "" && IsSpace(s[|s| - 1]) { TrimRightGives(s[..|s| - 1]); }
  }

  /** `r` is the stretch of `s` from `i` on, and all around it is white space. */
  ghost predicate StretchAt(s: string, r: string, i: nat) {
    && i + |r| <= |s| && r == s[i..i + |r|]
    && (forall k :: 0 <= k < i ==> IsSpace(s[k]))
    && (forall k :: i + |r| <= k < |s| ==> IsSpace(s[k]))
  }

  lemma {:induction false} TrimLeftStretch(s: string)
    ensures |TrimLeft(s)| <= |s| && StretchAt(s, TrimLeft(s), |s| - |TrimLeft(s)|)
  {
    if s != "" && IsSpace(s[0]) {
      TrimLeftStretch(s[1..]);
      var i := |s| - |TrimLeft(s)|;
      forall k | 0 <= k < i ensures IsSpace(s[k]) { assert k > 0 ==> s[k] == s[1..][k - 1]; }
    }
  }

  lemma {:induction false} TrimRightStretch(s: string)
    ensures |TrimRight(s)| <= |s| && StretchAt(s, TrimRight(s), 0)
  {
    if s != "" && IsSpace(s[|s| - 1]) {
      var n := |s| - 1;
      TrimRightStretch(s[..n]);
      forall k | |TrimRight(s)| <= k < |s| ensures IsSpace(s[k]) { assert k < n ==> s[k] == s[..n][k]; }
    }
  }

  /** Trimming leaves one stretch of the text, in order, without white space at
      its ends, and takes nothing but white space away. */
  lemma TrimGives(s: string)
    ensures Trimmed(Trim(s)) && forall c :: c in Trim(s) ==> c in s
    ensures exists i :: StretchAt(s, Trim(s), i)
    ensures s != "" && !IsSpace(s[0]) ==> Trim(s) != "" && Trim(s)[0] == s[0]
  {
    TrimLeftGives(s);
    TrimRightGives(TrimLeft(s));
    TrimLeftStretch(s);
    var t := TrimLeft(s);
    TrimRightStretch(t);
    var i := |s| - |t|;
    var r := Trim(s);
    forall k | i + |r| <= k < |s| ensures IsSpace(s[k]) { assert s[k] == t[k - i]; }
    assert StretchAt(s, r, i);
  }

  lemma TrimIdle(s: string)
    requires Trimmed(s)
    ensures Trim(s) == s && Trim(s + " ") == s
  {
    var t := s + " ";
    assert t[|s|] == ' ' && t[..|s|] == s;
    if s == "" { assert TrimLeft(t) == TrimLeft(t[1..]) == ""; } else { assert TrimLeft(t) == t; }
  }

  /** A line that starts with " #" is a comment. */
  lemma TrimHash(s: string)
    requires |s| >= 2 && s[0] == ' ' && s[1] == '#'
    ensures Trim(s) != "" && Trim(s)[0] == '#'
  {
    var t := s[1..];
    assert TrimLeft(s) == TrimLeft(t) == t;
    TrimRightGives(t);
  }

  lemma BeforeIndex(s: string, c: char)
    ensures forall k :: 0 <= k < IndexOf(s, c) ==> s[k] != c
  {
    var i := IndexOf(s, c);
    forall k | 0 <= k < i ensures s[k] != c { assert s[..i][k] == s[k]; }
  }

  lemma IndexAfter(a: string, c: char, b: string)
    requires c !in a
    ensures IndexOf(a + [c] + b, c) == |a|
    ensures (a + [c] + b)[..|a|] == a && (a + [c] + b)[|a| + 1..] == b
  {
    var s := a + [c] + b;
    BeforeIndex(s, c);
    assert s[|a|] == c;
    forall k | 0 <= k < |a| ensures s[k] != c { assert s[k] == a[k]; }
  }

  lemma IndexNone(s: string, c: char)
    requires c !in s
    ensures IndexOf(s, c) == |s|
  {
    assert forall k :: 0 <= k < |s| ==> s[k] != c;
  }

  // ---------------------------------------------------------------- lines

  function Unlines(ls: seq<string>): string {
    if ls == [] then "" else ls[0] + "\n" + Unlines(ls[1..])
  }

  predicate OneLine(s: string) { '\n' !in s }

  ghost predicate OneLiners(ls: seq<string>) { forall i {:trigger ls[i]} :: 0 <= i < |ls| ==> OneLine(ls[i]) }

  lemma {:induction false} UnlinesAppend(a: seq<string>, b: seq<string>)
    ensures Unlines(a + b) == Unlines(a) + Unlines(b)
    decreases |a|
  {
    if a == [] {
      assert a + b == b;
    } else {
      UnlinesAppend(a[1..], b);
      assert (a + b)[1..] == a[1..] + b;
    }
  }

  /** Reading lines undoes writing them; an unfinished last line counts too. */
  lemma {:induction false} LinesOfUnlines(ls: seq<string>, open: string)
    requires OneLiners(ls) && OneLine(open)
    ensures LinesOf(Unlines(ls) + open) == ls + if open == "" then [] else [open]
    decreases |ls|
  {
    if ls == [] {
      IndexNone(open, '\n');
      assert Unlines(ls) + open == open;
    } else {
      var rest := Unlines(ls[1..]) + open;
      assert Unlines(ls) + open == ls[0] + ['\n'] + rest;
      IndexAfter(ls[0], '\n', rest);
      LinesOfUnlines(ls[1..], open);
    }
  }

  lemma {:induction false} LinesAreLines(text: string)
    ensures OneLiners(LinesOf(text))
    decreases |text|
  {
    var i := IndexOf(text, '\n');
    if i < |text| {
      LinesAreLines(text[i + 1..]);
    } else {
      assert text[..i] == text;
    }
  }

  // ---------------------------------------------------------------- what Load produces

  predicate CommentLine(s: string) {
    s == "" || (s[0] == '#' && Trimmed(s))
  }

  ghost predicate CommentLines(ls: seq<string>) {
    OneLiners(ls) && forall i {:trigger ls[i]} :: 0 <= i < |ls| ==> CommentLine(ls[i])
  }

  /** Comments are whole lines, each blank or a trimmed "#" line. */
  ghost predicate GoodComment(c: string) {
    c == Unlines(LinesOf(c)) && CommentLines(LinesOf(c))
  }

  ghost predicate GoodWord(s: string) { Trimmed(s) && OneLine(s) }

  ghost predicate GoodItem(x: Item) {
    && GoodWord(x.key) && GoodWord(x.value) && GoodWord(x.right) && GoodComment(x.comment)
    && '#' !in x.key && '#' !in x.value && '=' !in x.key && (x.key != "" ==> x.key[0] != '[')
  }

  ghost predicate GoodHead(s: Section) {
    && s.name != "" && GoodWord(s.name) && ']' !in s.name && '#' !in s.name
    && GoodWord(s.right) && GoodComment(s.comment)
  }

  ghost predicate GoodSection(sections: seq<Section>, k: nat) {
    && k < |sections|
    && (if k == 0 then sections[k].(items := []) == Section("", "", "", []) else GoodHead(sections[k]))
    && forall j {:trigger sections[k].items[j]} :: 0 <= j < |sections[k].items| ==> GoodItem(sections[k].items[j])
  }

  ghost predicate NamesDiffer(sections: seq<Section>) {
    forall i, j :: 0 <= i < j < |sections| ==> sections[i].name != sections[j].name
  }

  /** The unnamed section comes first and no name occurs twice. */
  ghost predicate GoodDoc(sections: seq<Section>) {
    && sections != [] && NamesDiffer(sections)
    && forall k {:trigger GoodSection(sections, k)} :: 0 <= k < |sections| ==> GoodSection(sections, k)
  }

  lemma MoreComment(c: string, line: string)
    requires GoodComment(c) && CommentLine(line) && OneLine(line)
    ensures GoodComment(c + line + "\n")
  {
    hide LinesOf, CommentLine, OneLine;
    var ls := LinesOf(c) + [line];
    var t := c + line + "\n";
    UnlinesAppend(LinesOf(c), [line]);
    UnlinesOne(line);
    LinesOfUnlines(ls, "");
    assert Unlines(ls) + "" == t && ls + [] == ls;
  }

  lemma UnlinesOne(line: string)
    ensures Unlines([line]) == line + "\n"
  { }

  lemma SplitGives(s: string, c: char)
    requires OneLine(s)
    ensures var (found, left, right) := Split(s, c);
      && GoodWord(left) && GoodWord(right) && c !in left && (forall d :: d in left || d in right ==> d in s)
      && (s != "" && !IsSpace(s[0]) && s[0] != c ==> left != "" && left[0] == s[0])
      && (s != "" && s[0] == c ==> left == "")
  {
    var i := IndexOf(s, c);
    BeforeIndex(s, c);
    TrimGives(s[..i]);
    if i < |s| { TrimGives(s[i + 1..]); } else { assert s[..i] == s; }
  }

  ghost predicate ReaderOK(r: Reader) {
    r.sections != [] && (r.err == OK ==> GoodDoc(r.sections) && GoodComment(r.comment))
  }

  lemma SectionAdded(sections: seq<Section>, s: Section)
    requires GoodDoc(sections) && GoodHead(s) && s.items == [] && !HasSection(sections, s.name)
    ensures GoodDoc(sections + [s])
  {
    var more := sections + [s];
    forall k: nat | k < |more| ensures GoodSection(more, k) {
      if k < |sections| { assert GoodSection(sections, k); }
    }
  }

  lemma ItemAdded(sections: seq<Section>, x: Item)
    requires GoodDoc(sections) && GoodItem(x)
    ensures GoodDoc(AddItem(sections, x))
  {
    hide GoodItem, GoodHead;
    var more := AddItem(sections, x);
    forall k: nat | k < |more| ensures GoodSection(more, k) {
      assert GoodSection(sections, k);
      HeadsSame(sections[k], more[k]);
    }
  }

  lemma HeadsSame(s: Section, t: Section)
    ensures s.name == t.name && s.comment == t.comment && s.right == t.right ==> (GoodHead(s) <==> GoodHead(t))
  { }

  lemma FeedIsOK(r: Reader, raw: string)
    requires ReaderOK(r) && r.err == OK && OneLine(raw)
    ensures ReaderOK(Feed(r, raw))
  {
    hide GoodDoc, GoodComment, Split, Trim, AddItem;
    var line := Trim(raw);
    TrimGives(raw);
    if line == "" {
      MoreComment(r.comment, "");
      assert r.comment + "" + "\n" == r.comment + "\n";
    } else if line[0] == '#' {
      MoreComment(r.comment, line);
    } else {
      SplitGives(line, '#');
      var (_, clean, right) := Split(line, '#');
      if clean[0] == '[' { FeedSectionIsOK(r, clean, right); } else { FeedItemIsOK(r, clean, right); }
    }
  }

  lemma EmptyComment()
    ensures GoodComment("")
  { }

  lemma FeedSectionIsOK(r: Reader, clean: string, right: string)
    requires ReaderOK(r) && r.err == OK && GoodWord(clean) && GoodWord(right) && clean != "" && clean[0] == '['
    requires '#' !in clean
    ensures ReaderOK(FeedSection(r, clean, right))
  {
    hide GoodDoc, GoodComment;
    EmptyComment();
    var i := IndexOf(clean, ']');
    if 1 < i < |clean| {
      var name := Trim(clean[1..i]);
      TrimGives(clean[1..i]);
      assert forall c :: c in clean[1..i] ==> c in clean[..i] && c in clean;
      if !HasSection(r.sections, name) {
        UnnamedFirst(r.sections);
        SectionAdded(r.sections, Section(name, r.comment, right, []));
      }
    }
  }

  lemma UnnamedFirst(sections: seq<Section>)
    requires GoodDoc(sections)
    ensures HasSection(sections, "")
  {
    assert GoodSection(sections, 0);
    assert sections[0].name == "";
  }

  lemma FeedItemIsOK(r: Reader, clean: string, right: string)
    requires ReaderOK(r) && r.err == OK && GoodWord(clean) && GoodWord(right) && clean != "" && clean[0] != '['
    requires '#' !in clean
    ensures ReaderOK(FeedItem(r, clean, right))
  {
    hide GoodDoc, GoodComment, Split;
    EmptyComment();
    SplitGives(clean, '=');
    var (found, key, value) := Split(clean, '=');
    if found { ItemAdded(r.sections, Item(key, value, r.comment, right)); }
  }

  lemma {:induction false} FeedAllIsOK(r: Reader, lines: seq<string>)
    requires ReaderOK(r) && OneLiners(lines)
    ensures ReaderOK(FeedAll(r, lines))
    decreases |lines|
  {
    hide GoodDoc, GoodComment, Feed;
    if lines != [] && r.err == OK {
      FeedIsOK(r, lines[0]);
      FeedAllIsOK(Feed(r, lines[0]), lines[1..]);
    }
  }

  /** A successful load gives the unnamed section first, unique names, trimmed
      keys and values. */
  lemma LoadIsGood(text: string)
    requires Loaded(text).err == OK
    ensures GoodDoc(Loaded(text).sections)
  {
    LinesAreLines(text);
    EmptyComment();
    assert GoodSection(Start().sections, 0);
    FeedAllIsOK(Start(), LinesOf(text));
  }
}
