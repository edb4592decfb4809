/**
 Layout of the configuration file: blank lines, comment lines and the kind of line ends do not matter, as long as no
 value is a list.
 */
module ConfigLines {
  import opened Wrappers
  import opened ConfigText
  import opened ConfigRoundTrip

  datatype Line = Line(text: string, crlf: bool)

  function LineEnd(line: Line): string {
    if line.crlf then "\r\n" else "\n"
  }

  function Render(lines: seq<Line>): string {
    if lines == [] then "" else lines[0].text + LineEnd(lines[0]) + Render(lines[1..])
  }

  /** What a line sets when it stands alone. */
  function LineEntry(line: string): Option<Entry> {
    ParseOption(line, 0).1
  }

  /** The value of the line, if it has one, starts with a bracket. */
  predicate StartsList(line: string) {
    var begin := Find(line, 0, |line|, Visible);
    var comment := Find(line, begin, |line|, Hash);
    var endc := Back(line, begin, comment, Visible);
    var eq := Find(line, begin, endc, Equals);
    eq < endc &&
    var first := Find(line, eq + 1, endc, NotBlank);
    first < |line| && line[first] == '['
  }

  predicate Plain(line: Line) {
    OneLine(line.text) && !StartsList(line.text)
  }

  /** A blank line, or one whose first visible character starts a comment. */
  predicate Idle(line: string) {
    var begin := Find(line, 0, |line|, Visible);
    begin == |line| || line[begin] == '#'
  }

  predicate AllPlain(lines: seq<Line>) {
    forall i :: 0 <= i < |lines| ==> Plain(lines[i])
  }

  /** The lines that are not idle, without their ends. */
  function Meaningful(lines: seq<Line>): seq<string> {
    if lines == [] then []
    else if Idle(lines[0].text) then Meaningful(lines[1..])
    else [lines[0].text] + Meaningful(lines[1..])
  }

  /** Line by line: the meaning of a file without lists. */
  function SettingsOf(lines: seq<string>, vars: map<string, string>): map<string, string>
    decreases |lines|
  {
    if lines == [] then vars else SettingsOf(lines[1..], Emplace(vars, LineEntry(lines[0])))
  }

  // ---------------------------------------------------------------------------------------------------
  // A line inside a text
  // ---------------------------------------------------------------------------------------------------

  /** A line with its end behind it, or the last one without. */
  predicate LineAt(text: string, pos: nat, line: string) {
    && pos + |line| <= |text| && text[pos..pos + |line|] == line && OneLine(line)
    && (pos + |line| < |text| ==> Endline(text[pos + |line|]))
  }

  lemma FindShifts(text: string, pos: nat, line: string, from: nat, end: nat, wanted: char -> bool)
    requires pos + |line| <= |text| && text[pos..pos + |line|] == line && from <= end <= |line|
    ensures Find(text, pos + from, pos + end, wanted) == pos + Find(line, from, end, wanted)
  {
    var k := Find(line, from, end, wanted);
    FindSpec(line, from, end, wanted);
    forall i | pos + from <= i < pos + k ensures !wanted(text[i]) {
      assert text[i] == line[i - pos];
    }
    assert k < end ==> text[pos + k] == line[k];
    FoundAt(text, pos + from, pos + end, wanted, pos + k);
  }

  lemma BackShifts(text: string, pos: nat, line: string, from: nat, end: nat, wanted: char -> bool)
    requires pos + |line| <= |text| && text[pos..pos + |line|] == line && from <= end <= |line|
    ensures Back(text, pos + from, pos + end, wanted) == pos + Back(line, from, end, wanted)
  {
    var k := Back(line, from, end, wanted);
    BackSpec(line, from, end, wanted);
    forall i | pos + k <= i < pos + end ensures !wanted(text[i]) {
      assert text[i] == line[i - pos];
    }
    assert from < k ==> text[pos + (k - 1)] == line[k - 1];
    BackAt(text, pos + from, pos + end, wanted, pos + k);
  }

  lemma {:induction false} ToStringShifts(text: string, pos: nat, line: string, from: nat, end: nat)
    requires pos + |line| <= |text| && text[pos..pos + |line|] == line && from <= end <= |line|
    ensures ToString(text, pos + from, pos + end) == ToString(line, from, end)
    decreases end - from
  {
    hide Find, ToString;
    if from == end {
      EmptyString(text, pos + from);
      EmptyString(line, from);
    } else {
      var comment := Find(line, from, end, Hash);
      var endl := Find(line, comment, end, Endline);
      FindShifts(text, pos, line, from, end, Hash);
      FindShifts(text, pos, line, comment, end, Endline);
      StringStep(line, from, end, comment, endl);
      StringStep(text, pos + from, pos + end, pos + comment, pos + endl);
      ToStringShifts(text, pos, line, endl, end);
      SliceShifts(text, pos, line, from, comment);
    }
  }

  lemma SliceShifts(text: string, pos: nat, line: string, from: nat, end: nat)
    requires pos + |line| <= |text| && text[pos..pos + |line|] == line && from <= end <= |line|
    ensures text[pos + from..pos + end] == line[from..end]
  {
    forall i | from <= i < end ensures text[pos + i] == line[i] {
      assert text[pos..pos + |line|][i] == line[i];
    }
  }

  /** Nothing in a line without a line end stops the search for one before the end of the line. */
  lemma LineEndsAt(text: string, pos: nat, line: string, begin: nat)
    requires LineAt(text, pos, line) && begin <= |line|
    ensures Find(text, pos + begin, |text|, Endline) == pos + |line|
    ensures Find(line, begin, |line|, Endline) == |line|
  {
    forall i | pos + begin <= i < pos + |line| ensures !Endline(text[i]) {
      assert text[i] == line[i - pos];
    }
    FoundAt(text, pos + begin, |text|, Endline, pos + |line|);
    FoundAt(line, begin, |line|, Endline, |line|);
  }

  lemma LineBegins(text: string, pos: nat, line: string)
    requires LineAt(text, pos, line) && Find(line, 0, |line|, Visible) < |line|
    ensures Find(text, pos, |text|, Visible) == pos + Find(line, 0, |line|, Visible)
  {
    var begin := Find(line, 0, |line|, Visible);
    FindSpec(line, 0, |line|, Visible);
    forall i | pos <= i < pos + begin ensures !Visible(text[i]) {
      assert text[i] == line[i - pos];
    }
    assert text[pos + begin] == line[begin];
    FoundAt(text, pos, |text|, Visible, pos + begin);
  }

  lemma ValueShifts(text: string, pos: nat, line: string, begin: nat, eq: nat, endc: nat)
    requires LineAt(text, pos, line) && begin < eq < endc <= |line|
    requires var first := Find(line, eq + 1, endc, NotBlank); first < |line| ==> line[first] != '['
    ensures ParseValue(line, begin, eq, endc, |line|).0 == |line|
    ensures ParseValue(text, pos + begin, pos + eq, pos + endc, pos + |line|)
         == (pos + |line|, ParseValue(line, begin, eq, endc, |line|).1)
  {
    hide LineAt, Find, Back, ToString, SkipList;
    LineFits(text, pos, line);
    var first := Find(line, eq + 1, endc, NotBlank);
    FindShifts(text, pos, line, eq + 1, endc, NotBlank);
    BackShifts(text, pos, line, begin, eq, NotBlank);
    ToStringShifts(text, pos, line, begin, Back(line, begin, eq, NotBlank));
    ToStringShifts(text, pos, line, first, |line|);
    assert first < |line| ==> text[pos..pos + |line|][first] == line[first];
  }

  /** A line that is not blank is read as if it stood alone. */
  lemma LineIsRead(text: string, pos: nat, line: string)
    requires LineAt(text, pos, line) && !StartsList(line) && Find(line, 0, |line|, Visible) < |line|
    ensures ParseOption(text, pos) == (pos + |line|, LineEntry(line))
  {
    hide LineAt, Find, Back, ParseValue;
    var begin := Find(line, 0, |line|, Visible);
    LineBegins(text, pos, line);
    LineEndsAt(text, pos, line, begin);
    LineFits(text, pos, line);
    var comment := Find(line, begin, |line|, Hash);
    FindShifts(text, pos, line, begin, |line|, Hash);
    var endc := Back(line, begin, comment, Visible);
    BackShifts(text, pos, line, begin, comment, Visible);
    var eq := Find(line, begin, endc, Equals);
    FindShifts(text, pos, line, begin, endc, Equals);
    if eq != endc && eq != begin {
      ValueShifts(text, pos, line, begin, eq, endc);
    }
  }

  lemma LineFits(text: string, pos: nat, line: string)
    requires LineAt(text, pos, line)
    ensures pos + |line| <= |text| && text[pos..pos + |line|] == line
  {
  }

  predicate Blank(s: string) {
    forall i :: 0 <= i < |s| ==> SpaceTab(s[i])
  }

  /** A value on one line: visible from its first character on, which is no bracket, and without a comment. */
  predicate PlainValue(v: string) {
    v != "" && OneLine(v) && Free(v, '#') && !SpaceTab(v[0]) && v[0] != '['
  }

  /** Nothing, or a comment. */
  predicate IsComment(s: string) {
    s == "" || (s[0] == '#' && OneLine(s))
  }

  function Setting(indent: string, name: string, gap: string, space: string, v: string, comment: string): string {
    indent + name + gap + "=" + space + v + comment
  }

  /** Where the parts of a setting stand in its line. */
  lemma SettingParts(indent: string, name: string, gap: string, space: string, v: string, comment: string)
    ensures var line := Setting(indent, name, gap, space, v, comment);
      var (n, g, e) := (|indent|, |indent| + |name|, |indent| + |name| + |gap|);
      var s, c := e + 1 + |space|, e + 1 + |space| + |v|;
      && |line| == c + |comment| && line[e] == '='
      && line[n..g] == name && line[s..c] == v
      && (forall i :: 0 <= i < n ==> line[i] == indent[i])
      && (forall i :: n <= i < g ==> line[i] == name[i - n])
      && (forall i :: g <= i < e ==> line[i] == gap[i - g])
      && (forall i :: e < i < s ==> line[i] == space[i - e - 1])
      && (forall i :: s <= i < c ==> line[i] == v[i - s])
      && (forall i :: c <= i < |line| ==> line[i] == comment[i - c])
  {
  }

  /** The layout of a setting, as far as the characters matter. */
  ghost predicate LaidOut(line: string, n: nat, g: nat, e: nat, s: nat, c: nat) {
    && n < g <= e < s < c <= |line|
    && (forall i :: 0 <= i < n ==> SpaceTab(line[i]))
    && !SpaceTab(line[n]) && !SpaceTab(line[g - 1])
    && (forall i :: n <= i < g ==> line[i] != '=')
    && (forall i :: g <= i < e ==> SpaceTab(line[i]))
    && line[e] == '='
    && (forall i :: e < i < s ==> SpaceTab(line[i]))
    && !SpaceTab(line[s]) && line[s] != '['
    && (forall i :: 0 <= i < c ==> line[i] != '#')
    && (c < |line| ==> line[c] == '#')
    && (forall i :: 0 <= i < |line| ==> !Endline(line[i]))
  }

  /** The positions that are found in it. */
  lemma LaidOutIsFound(line: string, n: nat, g: nat, e: nat, s: nat, c: nat) returns (endc: nat)
    requires LaidOut(line, n, g, e, s, c)
    ensures Find(line, 0, |line|, Visible) == n && Find(line, n, |line|, Endline) == |line|
    ensures Find(line, n, |line|, Hash) == c && endc == Back(line, n, c, Visible) && s < endc <= c
    ensures Find(line, n, endc, Equals) == e && Back(line, n, e, NotBlank) == g
    ensures Find(line, e + 1, endc, NotBlank) == s
  {
    hide Find, Back;
    FoundAt(line, 0, |line|, Visible, n);
    FoundAt(line, n, |line|, Endline, |line|);
    FoundAt(line, n, |line|, Hash, c);
    endc := Back(line, n, c, Visible);
    BackSpec(line, n, c, Visible);
    assert Visible(line[s]);
    FoundAt(line, n, endc, Equals, e);
    BackAt(line, n, e, NotBlank, g);
    FoundAt(line, e + 1, endc, NotBlank, s);
  }

  lemma LaidOutIsRead(line: string, n: nat, g: nat, e: nat, s: nat, c: nat)
    requires LaidOut(line, n, g, e, s, c)
    ensures LineEntry(line) == Some((line[n..g], line[s..c]))
  {
    var endc := LaidOutIsFound(line, n, g, e, s, c);
    NoComment(line, n, g);
    ValueOfLine(line, s, c);
    assert line[s] != '[' && n < e && s < |line|;
    hide Find, Back, ToString, LaidOut, SkipList;
  }

  lemma ValueOfLine(line: string, s: nat, c: nat)
    requires s < c <= |line| && (forall i :: s <= i < c ==> line[i] != '#') && (c < |line| ==> line[c] == '#')
    requires forall i :: s <= i < |line| ==> !Endline(line[i])
    ensures ToString(line, s, |line|) == line[s..c]
  {
    if c == |line| {
      NoComment(line, s, c);
    } else {
      CommentIsDropped(line, s, c, |line|, |line|);
    }
  }

  /**
   A setting is read from its line whatever blanks stand in front of its name and around its `=`, and whatever comment
   behind it; the blanks between a value and the comment belong to the value.
   */
  lemma SettingIsRead(indent: string, name: string, gap: string, space: string, v: string, comment: string)
    requires Blank(indent) && Blank(gap) && Blank(space) && GoodName(name) && PlainValue(v) && IsComment(comment)
    ensures LineEntry(Setting(indent, name, gap, space, v, comment)) == Some((name, v))
  {
    hide LineEntry;
    SettingParts(indent, name, gap, space, v, comment);
    var (n, e) := (|indent|, |indent| + |name| + |gap|);
    var s := e + 1 + |space|;
    LaidOutIsRead(Setting(indent, name, gap, space, v, comment), n, n + |name|, e, s, s + |v|);
  }

  lemma IdleSetsNothing(line: string)
    requires Idle(line) && OneLine(line)
    ensures LineEntry(line).None?
  {
    var begin := Find(line, 0, |line|, Visible);
    var endl := Find(line, begin, |line|, Endline);
    FindSpec(line, 0, |line|, Visible);
    if begin < |line| {
      FindSpec(line, begin, |line|, Endline);
      assert Hash(line[begin]);
      FoundAt(line, begin, endl, Hash, begin);
    }
  }

  /** Blank stretches are passed over together with what comes after them. */
  lemma BlankIsSkipped(text: string, pos: nat, next: nat, vars: map<string, string>)
    requires pos < next <= |text| && forall i :: pos <= i < next ==> !Visible(text[i])
    ensures ParseFrom(text, pos, vars) == ParseFrom(text, next, vars)
  {
    var begin := Find(text, next, |text|, Visible);
    FindSpec(text, next, |text|, Visible);
    FoundAt(text, pos, |text|, Visible, begin);
    assert next < |text| ==> ParseOption(text, pos) == ParseOption(text, next);
  }

  // ---------------------------------------------------------------------------------------------------
  // A whole text
  // ---------------------------------------------------------------------------------------------------

  lemma ThreeParts(text: string, pos: nat, a: string, b: string, c: string)
    requires pos <= |text| && text[pos..] == a + b + c
    ensures pos + |a| + |b| + |c| == |text|
    ensures text[pos..pos + |a|] == a && text[pos + |a| + |b|..] == c
    ensures forall i :: 0 <= i < |b| ==> text[pos + |a| + i] == b[i]
  {
    var whole := a + b + c;
    assert text[pos..pos + |a|] == whole[..|a|] == a;
    assert text[pos + |a| + |b|..] == whole[|a| + |b|..] == c;
    forall i | 0 <= i < |b| ensures text[pos + |a| + i] == b[i] {
      assert text[pos..][|a| + i] == whole[|a| + i];
    }
  }

  lemma RenderFirst(lines: seq<Line>, tail: string)
    requires lines != []
    ensures Render(lines) + tail == lines[0].text + LineEnd(lines[0]) + (Render(lines[1..]) + tail)
  {
  }

  lemma LineOfText(text: string, pos: nat, lines: seq<Line>, tail: string)
    requires lines != [] && pos <= |text| && text[pos..] == Render(lines) + tail && OneLine(lines[0].text)
    ensures LineAt(text, pos, lines[0].text)
    ensures var end := pos + |lines[0].text|;
      && end < |text| && text[end] == (if lines[0].crlf then '\r' else '\n')
      && end + |LineEnd(lines[0])| <= |text| && text[end + |LineEnd(lines[0])|..] == Render(lines[1..]) + tail
      && (lines[0].crlf ==> text[end + 1] == '\n')
  {
    hide Render, OneLine;
    RenderFirst(lines, tail);
    var line, ending := lines[0].text, LineEnd(lines[0]);
    ThreeParts(text, pos, line, ending, Render(lines[1..]) + tail);
    assert text[pos + |line| + 0] == ending[0];
    if lines[0].crlf {
      assert text[pos + |line| + 1] == ending[1];
    }
  }

  lemma LineIsParsed(text: string, pos: nat, lines: seq<Line>, tail: string, vars: map<string, string>)
    requires lines != [] && pos <= |text| && text[pos..] == Render(lines) + tail && Plain(lines[0])
    ensures var next := pos + |lines[0].text| + |LineEnd(lines[0])|;
      && next <= |text| && text[next..] == Render(lines[1..]) + tail
      && ParseFrom(text, pos, vars) == ParseFrom(text, next, Emplace(vars, LineEntry(lines[0].text)))
  {
    hide ParseOption, Find, StartsList, Render;
    var line := lines[0].text;
    var end := pos + |line|;
    LineOfText(text, pos, lines, tail);
    if Find(line, 0, |line|, Visible) == |line| {
      BlankLine(text, pos, line);
      IdleSetsNothing(line);
      BlankIsSkipped(text, pos, end + |LineEnd(lines[0])|, vars);
    } else {
      LineIsRead(text, pos, line);
      ParseStep(text, pos, vars, end, LineEntry(line));
    }
  }

  /** A last line without an end. */
  lemma TailIsParsed(text: string, pos: nat, tail: string, vars: map<string, string>)
    requires pos <= |text| && text[pos..] == tail && OneLine(tail) && !StartsList(tail)
    ensures ParseFrom(text, pos, vars) == Emplace(vars, LineEntry(tail))
  {
    hide ParseOption, Find, StartsList;
    assert text[pos..pos + |tail|] == tail;
    if Find(tail, 0, |tail|, Visible) == |tail| {
      BlankLine(text, pos, tail);
      IdleSetsNothing(tail);
      if tail != "" {
        BlankIsSkipped(text, pos, |text|, vars);
      }
    } else {
      LineIsRead(text, pos, tail);
      assert pos < |text| by {
        FindSpec(tail, 0, |tail|, Visible);
      }
      ParseStep(text, pos, vars, |text|, LineEntry(tail));
    }
  }

  lemma BlankLine(text: string, pos: nat, line: string)
    requires LineAt(text, pos, line) && Find(line, 0, |line|, Visible) == |line|
    ensures forall i :: pos <= i < pos + |line| ==> !Visible(text[i])
  {
    FindSpec(line, 0, |line|, Visible);
    forall i | pos <= i < pos + |line| ensures !Visible(text[i]) {
      assert text[i] == line[i - pos];
    }
  }

  /** The lines that mean something, the last one included, which need not have an end. */
  function MeaningfulWith(lines: seq<Line>, tail: string): seq<string> {
    Meaningful(lines) + if Idle(tail) then [] else [tail]
  }

  lemma {:induction false} TextIsParsed(text: string, pos: nat, lines: seq<Line>, tail: string,
                                        vars: map<string, string>)
    requires pos <= |text| && text[pos..] == Render(lines) + tail
    requires AllPlain(lines) && OneLine(tail) && !StartsList(tail)
    ensures ParseFrom(text, pos, vars) == Emplace(SettingsOf(Meaningful(lines), vars), LineEntry(tail))
    decreases |lines|
  {
    hide ParseOption, Find, StartsList, OneLine, Idle, LineEntry;
    if lines == [] {
      TailIsParsed(text, pos, tail, vars);
    } else {
      assert Plain(lines[0]) && AllPlain(lines[1..]);
      var next := pos + |lines[0].text| + |LineEnd(lines[0])|;
      LineIsParsed(text, pos, lines, tail, vars);
      TextIsParsed(text, next, lines[1..], tail, Emplace(vars, LineEntry(lines[0].text)));
      if Idle(lines[0].text) {
        IdleSetsNothing(lines[0].text);
      } else {
        assert Meaningful(lines)[1..] == Meaningful(lines[1..]);
      }
    }
  }

  lemma {:induction false} LastSetting(lines: seq<string>, last: string, vars: map<string, string>)
    ensures SettingsOf(lines + [last], vars) == Emplace(SettingsOf(lines, vars), LineEntry(last))
    decreases |lines|
  {
    if lines == [] {
      assert SettingsOf([last], vars) == SettingsOf([], Emplace(vars, LineEntry(last)));
    } else {
      assert (lines + [last])[1..] == lines[1..] + [last];
      LastSetting(lines[1..], last, Emplace(vars, LineEntry(lines[0])));
    }
  }

  /** The meaning of a file without lists is that of its meaningful lines, one by one. */
  lemma FileMeansItsLines(lines: seq<Line>, tail: string)
    requires AllPlain(lines) && OneLine(tail) && !StartsList(tail)
    ensures ParseConfig(Render(lines) + tail) == SettingsOf(MeaningfulWith(lines, tail), map[])
  {
    hide LineEntry, StartsList, OneLine;
    var text := Render(lines) + tail;
    assert text[0..] == text;
    TextIsParsed(text, 0, lines, tail, map[]);
    if Idle(tail) {
      IdleSetsNothing(tail);
      assert Meaningful(lines) + [] == Meaningful(lines);
    } else {
      LastSetting(Meaningful(lines), tail, map[]);
    }
  }

  /**
   So inserting or dropping blank and comment lines, changing line ends between LF and CRLF, and leaving out the end of
   the last line leave the settings as they are.
   */
  lemma LayoutDoesNotMatter(lines: seq<Line>, tail: string, others: seq<Line>, otherTail: string)
    requires AllPlain(lines) && OneLine(tail) && !StartsList(tail)
    requires AllPlain(others) && OneLine(otherTail) && !StartsList(otherTail)
    requires MeaningfulWith(lines, tail) == MeaningfulWith(others, otherTail)
    ensures ParseConfig(Render(lines) + tail) == ParseConfig(Render(others) + otherTail)
  {
    FileMeansItsLines(lines, tail);
    FileMeansItsLines(others, otherTail);
  }
}
