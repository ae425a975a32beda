/** Load undoes SaveAs, and exactly when. */
module IniRoundTrip {
  import opened Ini
  import opened IniProofs

  // ---------------------------------------------------------------- SaveAs as a printer of lines

  /** Whole lines, and what stands after the last of them: a section's right
      comment is printed there, so it runs into whatever comes next. */
  datatype Printed = Printed(done: seq<string>, open: string)

  function TextOf(p: Printed): string { Unlines(p.done) + p.open }

  function Emit(p: Printed, line: string): Printed {
    Printed(p.done + [p.open + line], "")
  }

  function EmitAll(p: Printed, ls: seq<string>): Printed
    decreases |ls|
  {
    if ls == [] then p else EmitAll(Emit(p, ls[0]), ls[1..])
  }

  function ItemLine(x: Item): string {
    if x.right == "" then x.key + "=" + x.value else x.key + "=" + x.value + " #" + x.right
  }

  function PrintItem(p: Printed, x: Item): Printed {
    Emit(EmitAll(p, LinesOf(x.comment)), ItemLine(x))
  }

  function PrintItems(p: Printed, items: seq<Item>): Printed
    decreases |items|
  {
    if items == [] then p else PrintItem(PrintItems(p, items[..|items| - 1]), items[|items| - 1])
  }

  function PrintHead(p: Printed, s: Section): Printed {
    var p1 := EmitAll(p, LinesOf(s.comment));
    var p2 := if s.name == "" then p1 else Emit(p1, "[" + s.name + "]");
    if s.right == "" then p2 else p2.(open := p2.open + " #" + s.right)
  }

  function PrintAll(sections: seq<Section>): Printed
    decreases |sections|
  {
    if sections == [] then Printed([], "")
    else
      var s := sections[|sections| - 1];
      PrintItems(PrintHead(PrintAll(sections[..|sections| - 1]), s), s.items)
  }

  // ---------------------------------------------------------------- the printed lines are the saved text

  lemma EmitText(p: Printed, line: string)
    ensures TextOf(Emit(p, line)) == TextOf(p) + line + "\n"
  {
    UnlinesAppend(p.done, [p.open + line]);
    UnlinesOne(p.open + line);
  }

  lemma {:induction false} EmitAllText(p: Printed, ls: seq<string>)
    ensures TextOf(EmitAll(p, ls)) == TextOf(p) + Unlines(ls)
    decreases |ls|
  {
    hide TextOf;
    if ls == [] {
      assert TextOf(p) + "" == TextOf(p);
    } else {
      EmitText(p, ls[0]);
      EmitAllText(Emit(p, ls[0]), ls[1..]);
      assert TextOf(p) + ls[0] + "\n" + Unlines(ls[1..]) == TextOf(p) + (ls[0] + "\n" + Unlines(ls[1..]));
    }
  }

  lemma {:induction false} UnlinesEnd(ls: seq<string>)
    requires ls != []
    ensures Unlines(ls) != "" && Unlines(ls)[|Unlines(ls)| - 1] == '\n'
    decreases |ls|
  {
    if |ls| > 1 { UnlinesEnd(ls[1..]); }
  }

  lemma ItemIsPrinted(p: Printed, x: Item)
    requires GoodItem(x)
    ensures ItemText(TextOf(p), x) == TextOf(PrintItem(p, x))
  {
    hide LinesOf, TextOf, CommentLines;
    var ls := LinesOf(x.comment);
    EmitAllText(p, ls);
    EmitText(EmitAll(p, ls), ItemLine(x));
    if x.comment == "" { assert TextOf(p) + x.comment == TextOf(p); } else { UnlinesEnd(ls); }
    ItemLineEnd(x);
    var d := TextOf(p) + x.comment;
    assert d + x.key + "=" + x.value == d + (x.key + "=" + x.value);
    if x.right != "" {
      assert d + x.key + "=" + x.value + " #" + x.right == d + (x.key + "=" + x.value + " #" + x.right);
    }
    assert (d + ItemLine(x))[|d + ItemLine(x)| - 1] == ItemLine(x)[|ItemLine(x)| - 1];
  }

  lemma ItemLineEnd(x: Item)
    requires GoodItem(x)
    ensures ItemLine(x) != "" && ItemLine(x)[|ItemLine(x)| - 1] != '\n' && OneLine(ItemLine(x))
  {
    hide GoodComment;
    var l := ItemLine(x);
    forall i | 0 <= i < |l| ensures l[i] != '\n' {
      if i < |x.key| {
        assert l[i] == x.key[i];
      } else if |x.key| < i < |x.key| + 1 + |x.value| {
        assert l[i] == x.value[i - |x.key| - 1];
      } else if i >= |x.key| + |x.value| + 3 {
        assert l[i] == x.right[i - |x.key| - |x.value| - 3];
      }
    }
  }

  lemma {:induction false} ItemsArePrinted(p: Printed, items: seq<Item>)
    requires forall j {:trigger items[j]} :: 0 <= j < |items| ==> GoodItem(items[j])
    ensures ItemsText(TextOf(p), items) == TextOf(PrintItems(p, items))
    decreases |items|
  {
    hide TextOf, ItemText, PrintItem, GoodItem;
    if items != [] {
      ItemsArePrinted(p, items[..|items| - 1]);
      ItemIsPrinted(PrintItems(p, items[..|items| - 1]), items[|items| - 1]);
    }
  }

  lemma HeadIsPrinted(p: Printed, s: Section)
    requires GoodComment(s.comment)
    ensures HeadText(TextOf(p), s) == TextOf(PrintHead(p, s))
  {
    hide LinesOf, Emit;
    var p1 := EmitAll(p, LinesOf(s.comment));
    EmitAllText(p, LinesOf(s.comment));
    EmitText(p1, "[" + s.name + "]");
    assert TextOf(p1) + ("[" + s.name + "]") + "\n" == TextOf(p1) + "[" + s.name + "]" + "\n";
    var p2 := if s.name == "" then p1 else Emit(p1, "[" + s.name + "]");
    assert TextOf(p2.(open := p2.open + " #" + s.right)) == TextOf(p2) + " #" + s.right;
  }

  lemma {:induction false} SavedIsPrinted(doc: seq<Section>, k: nat)
    requires GoodDoc(doc) && k <= |doc|
    ensures Saved(doc[..k]) == TextOf(PrintAll(doc[..k]))
  {
    hide PrintHead, HeadText, GoodItem, GoodHead, TextOf;
    if k > 0 {
      SavedIsPrinted(doc, k - 1);
      assert doc[..k][..k - 1] == doc[..k - 1];
      assert GoodSection(doc, k - 1);
      var s := doc[k - 1];
      EmptyOrGood(s, k - 1);
      HeadIsPrinted(PrintAll(doc[..k - 1]), s);
      ItemsArePrinted(PrintHead(PrintAll(doc[..k - 1]), s), s.items);
    } else {
      assert TextOf(Printed([], "")) == "" by { NothingPrinted(); }
    }
  }

  lemma NothingPrinted()
    ensures TextOf(Printed([], "")) == ""
  { }

  lemma EmptyOrGood(s: Section, k: nat)
    requires if k == 0 then s.(items := []) == Section("", "", "", []) else GoodHead(s)
    ensures GoodComment(s.comment) && (k > 0 ==> s.name != "") && OneLine(s.right)
    ensures (OneLine(s.name) && '#' !in s.name)
  {
    EmptyComment();
  }

  // ---------------------------------------------------------------- what the lines look like

  /** A line that reads as a section header has no right comment. */
  predicate Clean(line: string) {
    Trim(line) != "" && Trim(line)[0] == '[' ==> '#' !in Trim(line)
  }

  predicate Dangling(s: string) { |s| >= 2 && s[0] == ' ' && s[1] == '#' }

  ghost predicate Tidy(p: Printed) {
    && OneLiners(p.done) && OneLine(p.open) && (p.open == "" || Dangling(p.open))
    && forall i {:trigger p.done[i]} :: 0 <= i < |p.done| ==> Clean(p.done[i])
  }

  lemma EmitIsTidy(p: Printed, line: string)
    requires Tidy(p) && OneLine(line) && Clean(line)
    ensures Tidy(Emit(p, line))
  {
    hide Clean;
    var l := p.open + line;
    if p.open == "" { assert l == line; } else { HashIsClean(l); }
    assert OneLine(l);
  }

  lemma HashIsClean(s: string)
    requires Dangling(s)
    ensures Clean(s)
  {
    TrimHash(s);
  }

  lemma {:induction false} EmitAllIsTidy(p: Printed, ls: seq<string>)
    requires Tidy(p) && CommentLines(ls)
    ensures Tidy(EmitAll(p, ls))
    decreases |ls|
  {
    hide Tidy, Trim;
    if ls != [] {
      assert CommentLine(ls[0]) && OneLine(ls[0]);
      TrimIdle(ls[0]);
      EmitIsTidy(p, ls[0]);
      EmitAllIsTidy(Emit(p, ls[0]), ls[1..]);
    }
  }

  lemma ItemLineTrimmed(x: Item)
    requires GoodItem(x)
    ensures Trimmed(ItemLine(x)) && ItemLine(x)[0] != '[' && ItemLine(x)[0] != '#' && ItemLine(x) != ""
  {
    hide GoodComment;
    var l := ItemLine(x);
    if x.key != "" { assert l[0] == x.key[0]; }
    if x.right != "" { assert l[|l| - 1] == x.right[|x.right| - 1]; }
    else if x.value != "" { assert l[|l| - 1] == x.value[|x.value| - 1]; }
  }

  lemma ItemIsTidy(p: Printed, x: Item)
    requires Tidy(p) && GoodItem(x)
    ensures Tidy(PrintItem(p, x))
  {
    hide Tidy, Trim, ItemLine, LinesOf;
    EmitAllIsTidy(p, LinesOf(x.comment));
    ItemLineEnd(x);
    ItemLineTrimmed(x);
    TrimIdle(ItemLine(x));
    EmitIsTidy(EmitAll(p, LinesOf(x.comment)), ItemLine(x));
  }

  lemma {:induction false} ItemsAreTidy(p: Printed, items: seq<Item>)
    requires Tidy(p) && forall j {:trigger items[j]} :: 0 <= j < |items| ==> GoodItem(items[j])
    ensures Tidy(PrintItems(p, items))
    decreases |items|
  {
    hide Tidy, PrintItem, GoodItem;
    if items != [] {
      ItemsAreTidy(p, items[..|items| - 1]);
      ItemIsTidy(PrintItems(p, items[..|items| - 1]), items[|items| - 1]);
    }
  }

  lemma TrimSubset(s: string)
    requires '#' !in s
    ensures Clean(s)
  {
    TrimGives(s);
  }

  lemma HeadIsTidy(p: Printed, s: Section)
    requires Tidy(p) && GoodComment(s.comment) && OneLine(s.right) && OneLine(s.name) && '#' !in s.name
    ensures Tidy(PrintHead(p, s))
  {
    hide LinesOf, Trim, Clean, CommentLines;
    var p1 := EmitAll(p, LinesOf(s.comment));
    EmitAllIsTidy(p, LinesOf(s.comment));
    var l := "[" + s.name + "]";
    TrimSubset(l);
    EmitIsTidy(p1, l);
  }

  lemma {:induction false} AllAreTidy(doc: seq<Section>, k: nat)
    requires GoodDoc(doc) && k <= |doc|
    ensures Tidy(PrintAll(doc[..k]))
  {
    hide PrintHead, GoodItem, GoodHead;
    if k > 0 {
      AllAreTidy(doc, k - 1);
      assert doc[..k][..k - 1] == doc[..k - 1];
      assert GoodSection(doc, k - 1);
      EmptyOrGood(doc[k - 1], k - 1);
      HeadIsTidy(PrintAll(doc[..k - 1]), doc[k - 1]);
      ItemsAreTidy(PrintHead(PrintAll(doc[..k - 1]), doc[k - 1]), doc[k - 1].items);
    }
  }

  /** The lines that a load of the saved text sees. */
  function SavedLines(doc: seq<Section>): seq<string> {
    var p := PrintAll(doc);
    p.done + if p.open == "" then [] else [p.open]
  }

  lemma SavedHasLines(doc: seq<Section>)
    requires GoodDoc(doc)
    ensures LinesOf(Saved(doc)) == SavedLines(doc)
  {
    hide PrintAll, Saved;
    assert doc[..|doc|] == doc;
    SavedIsPrinted(doc, |doc|);
    AllAreTidy(doc, |doc|);
    LinesOfUnlines(PrintAll(doc).done, PrintAll(doc).open);
  }

  // ---------------------------------------------------------------- no header keeps a right comment

  ghost predicate NoRights(sections: seq<Section>) {
    forall i {:trigger sections[i]} :: 0 <= i < |sections| ==> sections[i].right == ""
  }

  lemma FeedIsPlain(r: Reader, line: string)
    requires r.sections != [] && NoRights(r.sections) && Clean(line)
    ensures NoRights(Feed(r, line).sections)
  {
    hide TrimLeft, TrimRight;
    var l := Trim(line);
    if l != "" && l[0] != '#' {
      var (found, clean, right) := Split(l, '#');
      TrimGives(line);
      SplitFirst(l, '#');
    }
  }

  lemma SplitFirst(s: string, c: char)
    requires s != "" && !IsSpace(s[0]) && s[0] != c
    ensures Split(s, c).1 != "" && Split(s, c).1[0] == s[0] && (c !in s ==> Split(s, c).2 == "")
  {
    var i := IndexOf(s, c);
    BeforeIndex(s, c);
    TrimGives(s[..i]);
    if i == |s| { assert s[..i] == s; } else { assert s[i] in s; }
  }

  lemma {:induction false} FeedAllIsPlain(r: Reader, lines: seq<string>)
    requires r.sections != [] && NoRights(r.sections)
    requires forall i {:trigger lines[i]} :: 0 <= i < |lines| ==> Clean(lines[i])
    ensures NoRights(FeedAll(r, lines).sections)
    decreases |lines|
  {
    hide Feed, Clean, NoRights;
    if lines != [] && r.err == OK {
      FeedIsPlain(r, lines[0]);
      FeedAllIsPlain(Feed(r, lines[0]), lines[1..]);
    }
  }

  lemma ReloadIsPlain(doc: seq<Section>)
    requires GoodDoc(doc)
    ensures NoRights(Loaded(Saved(doc)).sections)
  {
    SavedHasLines(doc);
    assert doc[..|doc|] == doc;
    AllAreTidy(doc, |doc|);
    var p := PrintAll(doc);
    if p.open != "" { HashIsClean(p.open); }
    FeedAllIsPlain(Start(), SavedLines(doc));
  }

  // ---------------------------------------------------------------- reading back

  /** The printed lines, fed to a fresh reader, leave it in state `r`. */
  ghost predicate Reads(p: Printed, r: Reader) {
    p.open == "" && FeedAll(Start(), p.done) == r
  }

  lemma {:induction false} FeedAppend(r: Reader, a: seq<string>, line: string)
    requires r.sections != []
    ensures FeedAll(r, a + [line]) == if FeedAll(r, a).err == OK then Feed(FeedAll(r, a), line) else FeedAll(r, a)
    decreases |a|
  {
    hide Feed;
    if a == [] {
      assert a + [line] == [line];
      assert [line][1..] == [];
    } else if r.err == OK {
      assert (a + [line])[1..] == a[1..] + [line];
      FeedAppend(Feed(r, a[0]), a[1..], line);
    }
  }

  lemma EmitReads(p: Printed, r: Reader, line: string)
    requires r.sections != [] && r.err == OK && Reads(p, r)
    ensures Reads(Emit(p, line), Feed(r, line))
  {
    hide Feed;
    assert "" + line == line;
    FeedAppend(Start(), p.done, line);
  }

  lemma {:induction false} CommentReads(p: Printed, r: Reader, ls: seq<string>)
    requires r.sections != [] && r.err == OK && Reads(p, r) && CommentLines(ls)
    ensures Reads(EmitAll(p, ls), r.(comment := r.comment + Unlines(ls)))
    decreases |ls|
  {
    hide Reads, Trim, Split;
    if ls == [] {
      assert r.comment + "" == r.comment;
    } else {
      assert CommentLine(ls[0]);
      TrimIdle(ls[0]);
      EmitReads(p, r, ls[0]);
      var c := r.comment + ls[0] + "\n";
      assert r.comment + "" + "\n" == r.comment + "\n";
      assert Feed(r, ls[0]) == r.(comment := c);
      CommentReads(Emit(p, ls[0]), r.(comment := c), ls[1..]);
      assert c + Unlines(ls[1..]) == r.comment + (ls[0] + "\n" + Unlines(ls[1..]));
    }
  }

  lemma ItemLineSplits(x: Item)
    requires GoodItem(x)
    ensures Split(ItemLine(x), '#') == (x.right != "", x.key + "=" + x.value, x.right)
    ensures Split(x.key + "=" + x.value, '=') == (true, x.key, x.value)
  {
    hide GoodComment;
    var kv := x.key + "=" + x.value;
    assert '#' !in kv;
    assert Trimmed(kv) by {
      if x.key != "" { assert kv[0] == x.key[0]; }
      if x.value != "" { assert kv[|kv| - 1] == x.value[|x.value| - 1]; }
    }
    TrimIdle(kv);
    TrimIdle(x.key);
    TrimIdle(x.value);
    TrimIdle(x.right);
    assert kv == x.key + ['='] + x.value;
    IndexAfter(x.key, '=', x.value);
    if x.right == "" {
      IndexNone(kv, '#');
    } else {
      assert ItemLine(x) == (kv + " ") + ['#'] + x.right;
      IndexAfter(kv + " ", '#', x.right);
    }
  }

  lemma ItemReads(p: Printed, sections: seq<Section>, x: Item)
    requires sections != [] && Reads(p, Reader(sections, "", OK)) && GoodItem(x)
    ensures Reads(PrintItem(p, x), Reader(AddItem(sections, x), "", OK))
  {
    hide Reads, Trim, Split, ItemLine, LinesOf, Emit, EmitAll;
    var ls := LinesOf(x.comment);
    CommentReads(p, Reader(sections, "", OK), ls);
    assert "" + Unlines(ls) == x.comment;
    var r := Reader(sections, x.comment, OK);
    EmitReads(EmitAll(p, ls), r, ItemLine(x));
    ItemLineTrimmed(x);
    TrimIdle(ItemLine(x));
    ItemLineSplits(x);
    KeyValueStart(x);
    assert Feed(r, ItemLine(x)) == Reader(AddItem(sections, x), "", OK);
  }

  lemma KeyValueStart(x: Item)
    requires GoodItem(x)
    ensures (x.key + "=" + x.value)[0] != '['
  { }

  lemma {:induction false} ItemsRead(p: Printed, before: seq<Section>, s: Section, j: nat)
    requires Reads(p, Reader(before + [s.(items := [])], "", OK)) && j <= |s.items|
    requires forall i {:trigger s.items[i]} :: 0 <= i < |s.items| ==> GoodItem(s.items[i])
    ensures Reads(PrintItems(p, s.items[..j]), Reader(before + [s.(items := s.items[..j])], "", OK))
  {
    hide Reads, PrintItem, GoodItem;
    if j > 0 {
      ItemsRead(p, before, s, j - 1);
      var now := before + [s.(items := s.items[..j - 1])];
      assert s.items[..j][..j - 1] == s.items[..j - 1];
      ItemReads(PrintItems(p, s.items[..j - 1]), now, s.items[j - 1]);
      assert now[..|now| - 1] == before;
      assert s.items[..j - 1] + [s.items[j - 1]] == s.items[..j];
      assert AddItem(now, s.items[j - 1]) == before + [s.(items := s.items[..j])];
    }
  }

  lemma HeaderReads(r: Reader, name: string)
    requires r.sections != [] && r.err == OK && name != "" && GoodWord(name) && ']' !in name && '#' !in name
    requires !HasSection(r.sections, name)
    ensures Feed(r, "[" + name + "]") == Reader(r.sections + [Section(name, r.comment, "", [])], "", OK)
  {
    var l := "[" + name + "]";
    TrimIdle(l);
    IndexNone(l, '#');
    assert l == ("[" + name) + [']'] + "";
    IndexAfter("[" + name, ']', "");
    assert l[1..|name| + 1] == name;
    TrimIdle(name);
  }

  lemma HeadReads(p: Printed, before: seq<Section>, s: Section)
    requires before != [] && Reads(p, Reader(before, "", OK)) && GoodHead(s) && s.right == ""
    requires !HasSection(before, s.name)
    ensures Reads(PrintHead(p, s), Reader(before + [s.(items := [])], "", OK))
  {
    hide Reads, Feed, LinesOf, HasSection, Emit, EmitAll;
    var ls := LinesOf(s.comment);
    CommentReads(p, Reader(before, "", OK), ls);
    assert "" + Unlines(ls) == s.comment;
    var r := Reader(before, s.comment, OK);
    HeaderReads(r, s.name);
    EmitReads(EmitAll(p, ls), r, "[" + s.name + "]");
  }

  lemma {:induction false} AllRead(doc: seq<Section>, k: nat)
    requires GoodDoc(doc) && NoRights(doc) && 0 < k <= |doc|
    ensures Reads(PrintAll(doc[..k]), Reader(doc[..k], "", OK))
  {
    hide Reads, PrintHead, GoodItem, GoodHead;
    assert GoodSection(doc, k - 1);
    var s := doc[k - 1];
    var before := doc[..k - 1];
    var p := PrintAll(before);
    assert doc[..k][..k - 1] == before && doc[..k] == before + [s];
    assert s.(items := s.items[..|s.items|]) == s by { assert s.items[..|s.items|] == s.items; }
    if k == 1 {
      FirstHead(s);
    } else {
      AllRead(doc, k - 1);
      assert !HasSection(before, s.name);
      HeadReads(p, before, s);
    }
    ItemsRead(PrintHead(p, s), before, s, |s.items|);
  }

  lemma FirstHead(s: Section)
    requires s.(items := []) == Section("", "", "", [])
    ensures Reads(PrintHead(PrintAll([]), s), Reader([] + [s.(items := [])], "", OK))
  { }

  /** The round trip: what was loaded can be saved and loaded again, section by
      section and comment by comment, exactly when no section has a comment on the
      right of its header; it is printed behind the line break and lost. */
  lemma RoundTripIff(text: string)
    requires Loaded(text).err == OK
    ensures GoodDoc(Loaded(text).sections)
    ensures var doc := Loaded(text).sections;
      (Loaded(Saved(doc)).err == OK && Loaded(Saved(doc)).sections == doc) <==> NoRights(doc)
  {
    hide Saved, Loaded, GoodDoc;
    LoadIsGood(text);
    var doc := Loaded(text).sections;
    ReloadIsPlain(doc);
    if NoRights(doc) { ReloadIsSame(doc); }
  }

  lemma ReloadIsSame(doc: seq<Section>)
    requires GoodDoc(doc) && NoRights(doc)
    ensures Loaded(Saved(doc)) == Reader(doc, "", OK)
  {
    SavedHasLines(doc);
    assert doc[..|doc|] == doc;
    AllRead(doc, |doc|);
    var p := PrintAll(doc);
    assert p.done + [] == p.done;
  }
}
