/** lib/config_parser.cc: the INI document, how Load reads it from the lines of a
    text, and the text that SaveAs writes. The comment delimiter is "#". */
module Ini {

  datatype Item = Item(key: string, value: string, comment: string, right: string)

  datatype Section = Section(name: string, comment: string, right: string, items: seq<Item>)

  const OK := 0
  const ERR_UNMATCHED_BRACKETS := 2
  const ERR_SECTION_EMPTY := 3
  const ERR_SECTION_ALREADY_EXISTS := 4
  const ERR_PARSE_KEY_VALUE_FAILED := 5

  // ---------------------------------------------------------------- strings

  /** isspace in the C locale. */
  predicate IsSpace(c: char) {
    c == ' ' || ('\t' <= c <= '\r')
  }

  function TrimLeft(s: string): string {
    if s != "" && IsSpace(s[0]) then TrimLeft(s[1..]) else s
  }

  function TrimRight(s: string): string {
    if s != "" && IsSpace(s[|s| - 1]) then TrimRight(s[..|s| - 1]) else s
  }

  function Trim(s: string): string {
    TrimRight(TrimLeft(s))
  }

  /** The first place of `c` in `s`, or |s|. */
  function IndexOf(s: string, c: char): (i: nat)
    ensures i <= |s| && c !in s[..i] && (i < |s| ==> s[i] == c)
  {
    if s == "" || s[0] == c then 0
    else
      assert s[..1 + IndexOf(s[1..], c)] == [s[0]] + s[1..][..IndexOf(s[1..], c)];
      1 + IndexOf(s[1..], c)
  }

  /** ConfigParser::split at a one-character separator. */
  function Split(s: string, c: char): (bool, string, string) {
    var i := IndexOf(s, c);
    if i < |s| then (true, Trim(s[..i]), Trim(s[i + 1..])) else (false, Trim(s), "")
  }

  /** What std::getline hands out until the end of the text. */
  function LinesOf(text: string): seq<string>
    decreases |text|
  {
    var i := IndexOf(text, '\n');
    if text == "" then [] else if i == |text| then [text] else [text[..i]] + LinesOf(text[i + 1..])
  }

  // ---------------------------------------------------------------- reading

  /** Load's variables: what is read so far, the comment that waits for its line,
      and the error that stopped it. currSection is the last section. */
  datatype Reader = Reader(sections: seq<Section>, comment: string, err: int)

  function Start(): Reader { Reader([Section("", "", "", [])], "", OK) }

  predicate HasSection(sections: seq<Section>, name: string) {
    exists i :: 0 <= i < |sections| && sections[i].name == name
  }

  /** UpdateSection. */
  function FeedSection(r: Reader, clean: string, right: string): Reader
    requires clean != "" && clean[0] == '['
  {
    var i := IndexOf(clean, ']');
    if i == |clean| then r.(err := ERR_UNMATCHED_BRACKETS)
    else if i <= 1 then r.(err := ERR_SECTION_EMPTY)
    else
      var name := Trim(clean[1..i]);
      if HasSection(r.sections, name) then r.(err := ERR_SECTION_ALREADY_EXISTS)
      else Reader(r.sections + [Section(name, r.comment, right, [])], "", OK)
  }

  function AddItem(sections: seq<Section>, item: Item): seq<Section>
    requires sections != []
  {
    var n := |sections| - 1;
    sections[..n] + [sections[n].(items := sections[n].items + [item])]
  }

  /** AddKeyValuePair. */
  function FeedItem(r: Reader, clean: string, right: string): Reader
    requires r.sections != []
  {
    var (found, key, value) := Split(clean, '=');
    if !found then r.(err := ERR_PARSE_KEY_VALUE_FAILED)
    else Reader(AddItem(r.sections, Item(key, value, r.comment, right)), "", OK)
  }

  /** One turn of Load's loop. */
  function Feed(r: Reader, raw: string): (n: Reader)
    requires r.sections != []
    ensures n.sections != []
  {
    var line := Trim(raw);
    if line == "" then r.(comment := r.comment + "\n")
    else if line[0] == '#' then r.(comment := r.comment + line + "\n")
    else
      var (found, clean, right) := Split(line, '#');
      if clean != "" && clean[0] == '[' then FeedSection(r, clean, right) else FeedItem(r, clean, right)
  }

  function FeedAll(r: Reader, lines: seq<string>): (n: Reader)
    requires r.sections != []
    ensures n.sections != []
    decreases |lines|
  {
    if lines == [] || r.err != OK then r else FeedAll(Feed(r, lines[0]), lines[1..])
  }

  lemma FeedLine(r: Reader, text: string)
    requires r.sections != [] && r.err == OK && text != ""
    ensures var i := IndexOf(text, '\n');
      FeedAll(r, LinesOf(text)) == FeedAll(Feed(r, text[..i]), LinesOf(if i < |text| then text[i + 1..] else ""))
  {
    var i := IndexOf(text, '\n');
    assert text[..|text|] == text;
    if i < |text| { assert ([text[..i]] + LinesOf(text[i + 1..]))[1..] == LinesOf(text[i + 1..]); }
  }

  lemma FeedStops(r: Reader, lines: seq<string>)
    requires r.sections != [] && r.err != OK
    ensures FeedAll(r, lines) == r
  { }

  lemma FeedNothing(r: Reader)
    requires r.sections != []
    ensures FeedAll(r, LinesOf("")) == r
  { }

  /** A line that was used up takes its comment with it. */
  lemma FedComment(r: Reader, clean: string, right: string)
    requires r.sections != []
    ensures clean != "" && clean[0] == '[' && FeedSection(r.(err := OK), clean, right).err == OK ==>
      FeedSection(r.(err := OK), clean, right).comment == ""
    ensures FeedItem(r.(err := OK), clean, right).err == OK ==> FeedItem(r.(err := OK), clean, right).comment == ""
  { }

  function Loaded(text: string): Reader {
    FeedAll(Start(), LinesOf(text))
  }

  // ---------------------------------------------------------------- writing

  function Ended(data: string): string {
    if data != "" && data[|data| - 1] == '\n' then data else data + "\n"
  }

  function ItemText(data: string, item: Item): string {
    var d1 := if item.comment == "" then data else Ended(data + item.comment);
    var d2 := d1 + item.key + "=" + item.value;
    Ended(if item.right == "" then d2 else d2 + " #" + item.right)
  }

  function ItemsText(data: string, items: seq<Item>): string
    decreases |items|
  {
    if items == [] then data else ItemText(ItemsText(data, items[..|items| - 1]), items[|items| - 1])
  }

  function HeadText(data: string, s: Section): string {
    var d1 := data + s.comment;
    var d2 := if s.name == "" then d1 else d1 + "[" + s.name + "]" + "\n";
    if s.right == "" then d2 else d2 + " #" + s.right
  }

  function Saved(sections: seq<Section>): string
    decreases |sections|
  {
    if sections == [] then ""
    else
      var s := sections[|sections| - 1];
      ItemsText(HeadText(Saved(sections[..|sections| - 1]), s), s.items)
  }

  // ---------------------------------------------------------------- the parser object

  method TrimInPlace(s: string) returns (str: string)
    ensures str == Trim(s)
  {
    str := s;
    var i := 0;
    while i < |str| && IsSpace(str[i])
      invariant i <= |str| && TrimLeft(s) == TrimLeft(str[i..])
    {
      assert str[i..][1..] == str[i + 1..];
      i := i + 1;
    }
    str := str[i..];
    assert str[..|str|] == str;
    var j := |str| - 1;
    while j >= 0 && IsSpace(str[j])
      invariant -1 <= j < |str| && TrimRight(str[..j + 1]) == TrimRight(str)
    {
      assert str[..j + 1][..j] == str[..j];
      j := j - 1;
    }
    str := str[..j + 1];
  }

  class ConfigParser {
    var sections: seq<Section>

    constructor ()
      ensures sections == []
    {
      sections := [];
    }

    /** getSection != NULL. */
    method FindSection(name: string) returns (found: bool)
      ensures found == HasSection(sections, name)
    {
      for i := 0 to |sections|
        invariant forall k :: 0 <= k < i ==> sections[k].name != name
      {
        if sections[i].name == name { return true; }
      }
      found := false;
    }

    /** Load from the text of a file; a failed load leaves what it has read. */
    method Load(text: string) returns (err: int)
      modifies this
      ensures sections == Loaded(text).sections && err == Loaded(text).err
    {
      hide Trim, Split, LinesOf, FeedAll, FeedSection, FeedItem;
      var comment, rest := "", text;
      sections := [Section("", "", "", [])];
      while rest != ""
        invariant sections != []
        invariant Loaded(text) == FeedAll(Reader(sections, comment, OK), LinesOf(rest))
        decreases |rest|
      {
        ghost var before := Reader(sections, comment, OK);
        FeedLine(before, rest);
        var i := IndexOf(rest, '\n');
        var raw := rest[..i];
        rest := if i < |rest| then rest[i + 1..] else "";
        var line := TrimInPlace(raw);
        if |line| == 0 {
          comment := comment + "\n";
          continue;
        }
        if line[0] == '#' {
          comment := comment + line + "\n";
          continue;
        }
        var (found, clean, right) := Split(line, '#');
        if clean != "" && clean[0] == '[' {
          err := UpdateSection(clean, comment, right);
        } else {
          err := AddKeyValuePair(clean, comment, right);
        }
        if err != OK {
          FeedStops(Feed(before, raw), LinesOf(rest));
          return;
        }
        comment := "";
        FedComment(before, clean, right);
      }
      FeedNothing(Reader(sections, comment, OK));
      err := OK;
    }

    method UpdateSection(clean: string, comment: string, right: string) returns (err: int)
      requires clean != "" && clean[0] == '[' && sections != []
      modifies this
      ensures var r := FeedSection(Reader(old(sections), comment, OK), clean, right);
        sections == r.sections && err == r.err
      ensures sections != []
    {
      var i := IndexOf(clean, ']');
      if i == |clean| { return ERR_UNMATCHED_BRACKETS; }
      if i - 1 <= 0 { return ERR_SECTION_EMPTY; }
      var name := TrimInPlace(clean[1..i]);
      var known := FindSection(name);
      if known { return ERR_SECTION_ALREADY_EXISTS; }
      sections := sections + [Section(name, comment, right, [])];
      err := OK;
    }

    method AddKeyValuePair(clean: string, comment: string, right: string) returns (err: int)
      requires sections != []
      modifies this
      ensures var r := FeedItem(Reader(old(sections), comment, OK), clean, right);
        sections == r.sections && err == r.err
      ensures sections != []
    {
      var (found, key, value) := Split(clean, '=');
      if !found { return ERR_PARSE_KEY_VALUE_FAILED; }
      var n := |sections| - 1;
      sections := sections[n := sections[n].(items := sections[n].items + [Item(key, value, comment, right)])];
      err := OK;
    }

    /** What SaveAs writes for a section before its items. */
    static method WriteHead(before: string, sect: Section) returns (data: string)
      ensures data == HeadText(before, sect)
    {
      data := before;
      if sect.comment != "" { data := data + sect.comment; } else { assert before + sect.comment == before; }
      if sect.name != "" { data := data + "[" + sect.name + "]" + "\n"; }
      if sect.right != "" { data := data + " #" + sect.right; }
    }

    /** The body of SaveAs's inner loop. */
    static method WriteItem(before: string, item: Item) returns (data: string)
      ensures data == ItemText(before, item)
    {
      data := before;
      if item.comment != "" {
        data := data + item.comment;
        if data[|data| - 1] != '\n' { data := data + "\n"; }
      }
      data := data + item.key + "=" + item.value;
      if item.right != "" { data := data + " #" + item.right; }
      if data[|data| - 1] != '\n' { data := data + "\n"; }
    }

    /** SaveAs: the text that goes into the file. */
    method SaveAs() returns (data: string)
      ensures data == Saved(sections)
    {
      hide ItemText, HeadText;
      data := "";
      for i := 0 to |sections|
        invariant data == Saved(sections[..i])
      {
        var sect := sections[i];
        data := WriteHead(data, sect);
        ghost var head := data;
        for j := 0 to |sect.items|
          invariant data == ItemsText(head, sect.items[..j])
        {
          assert sect.items[..j + 1][..j] == sect.items[..j];
          data := WriteItem(data, sect.items[j]);
        }
        assert sect.items[..|sect.items|] == sect.items;
        assert sections[..i + 1][..i] == sections[..i];
      }
      assert sections[..|sections|] == sections;
    }
  }
}
