/**
 The configuration file (src/config.cpp: `to_string`, `skip_list`, `parse_option`, `parse_config`) and its printer
 (src/confighttp.cpp: `saveConfig`). Iterators are positions in the text.
 */
module ConfigText {
  import opened Wrappers

  predicate Endline(c: char) {
    c == '\r' || c == '\n'
  }

  predicate SpaceTab(c: char) {
    c == ' ' || c == '\t'
  }

  predicate Whitespace(c: char) {
    SpaceTab(c) || Endline(c)
  }

  predicate Visible(c: char) {
    !Whitespace(c)
  }

  predicate NotBlank(c: char) {
    !SpaceTab(c)
  }

  predicate Hash(c: char) {
    c == '#'
  }

  predicate Equals(c: char) {
    c == '='
  }

  /** The first position from `from` whose character is wanted, or `end`. */
  function Find(text: string, from: nat, end: nat, wanted: char -> bool): (k: nat)
    requires from <= end <= |text|
    ensures from <= k <= end
    decreases end - from
  {
    if from == end || wanted(text[from]) then from else Find(text, from + 1, end, wanted)
  }

  /** The position behind the last wanted character before `end`, or `from`. */
  function Back(text: string, from: nat, end: nat, wanted: char -> bool): (k: nat)
    requires from <= end <= |text|
    ensures from <= k <= end
    decreases end
  {
    if from == end || wanted(text[end - 1]) then end else Back(text, from, end - 1, wanted)
  }

  lemma {:induction false} FindSpec(text: string, from: nat, end: nat, wanted: char -> bool)
    requires from <= end <= |text|
    ensures var k := Find(text, from, end, wanted);
      (forall i :: from <= i < k ==> !wanted(text[i])) && (k < end ==> wanted(text[k]))
    decreases end - from
  {
    if from < end && !wanted(text[from]) {
      FindSpec(text, from + 1, end, wanted);
    }
  }

  lemma {:induction false} BackSpec(text: string, from: nat, end: nat, wanted: char -> bool)
    requires from <= end <= |text|
    ensures var k := Back(text, from, end, wanted);
      (forall i :: k <= i < end ==> !wanted(text[i])) && (from < k ==> wanted(text[k - 1]))
    decreases end
  {
    if from < end && !wanted(text[end - 1]) {
      BackSpec(text, from, end - 1, wanted);
    }
  }

  /** The text between two positions without its comments; the line ends behind them stay. */
  function ToString(text: string, from: nat, end: nat): string
    requires from <= end <= |text|
    decreases end - from
  {
    if from == end then ""
    else
      var comment := Find(text, from, end, Hash);
      var endl := Find(text, comment, end, Endline);
      StringAdvances(text, from, end);
      text[from..comment] + ToString(text, endl, end)
  }

  lemma StringAdvances(text: string, from: nat, end: nat)
    requires from < end <= |text|
    ensures from < Find(text, Find(text, from, end, Hash), end, Endline)
  {
    var comment := Find(text, from, end, Hash);
    FindSpec(text, from, end, Hash);
    FindSpec(text, comment, end, Endline);
    var c := text[from];
    assert !(Hash(c) && Endline(c));
  }

  lemma EmptyString(text: string, pos: nat)
    requires pos <= |text|
    ensures ToString(text, pos, pos) == ""
  {
  }

  lemma StringStep(text: string, from: nat, end: nat, comment: nat, endl: nat)
    requires from < end <= |text| && comment == Find(text, from, end, Hash) && endl == Find(text, comment, end, Endline)
    ensures from < endl && ToString(text, from, end) == text[from..comment] + ToString(text, endl, end)
  {
    StringAdvances(text, from, end);
  }

  /** Where the search for the bracket that closes `depth` open ones stops, and how many are still open there. */
  function SkipList(text: string, from: nat, depth: nat): (r: (nat, nat))
    requires from <= |text|
    ensures from <= r.0 <= |text| && (r.1 != 0 ==> r.0 == |text|)
    decreases |text| - from
  {
    if from == |text| || depth == 0 then (from, depth)
    else
      var nested := if text[from] == '[' then depth + 1 else if text[from] == ']' then depth - 1 else depth;
      SkipList(text, from + 1, nested)
  }

  /** How often a character stands between two positions. */
  function Count(text: string, from: nat, end: nat, c: char): nat
    requires from <= end <= |text|
    decreases end - from
  {
    if from == end then 0 else (if text[from] == c then 1 else 0) + Count(text, from + 1, end, c)
  }

  /**
   The search stops where as many brackets have been closed as were open and have been opened, at the first such
   position, or at the end of the text.
   */
  lemma {:induction false} SkipListStops(text: string, from: nat, depth: nat)
    requires from <= |text|
    ensures var (stop, open) := SkipList(text, from, depth);
      && open + Count(text, from, stop, ']') == depth + Count(text, from, stop, '[')
      && (open != 0 ==> stop == |text|)
      && forall k :: from <= k < stop ==> Count(text, from, k, ']') < depth + Count(text, from, k, '[')
    decreases |text| - from
  {
    if from < |text| && depth != 0 {
      SkipListStops(text, from + 1,
        if text[from] == '[' then depth + 1 else if text[from] == ']' then depth - 1 else depth);
    }
  }

  type Entry = (string, string)

  /** What the line from `begin` to `endl`, whose content ends at `endc`, sets with its `=` at `eq`. */
  function ParseValue(text: string, begin: nat, eq: nat, endc: nat, endl: nat): (r: (nat, Option<Entry>))
    requires begin < eq < endc <= endl <= |text|
    ensures endl <= r.0 <= |text| || eq + 1 < r.0 <= |text|
  {
    var endName := Back(text, begin, eq, NotBlank);
    var beginVal := Find(text, eq + 1, endc, NotBlank);
    if beginVal == endl then (endl, None)
    else if text[beginVal] == '[' then
      // lists might contain newlines
      var close := SkipList(text, beginVal + 1, 1).0;
      if close == |text| && |text| == beginVal + 1 then (close, None)
      else (close, Some((ToString(text, begin, endName), ToString(text, beginVal, close))))
    else (endl, Some((ToString(text, begin, endName), ToString(text, beginVal, endl))))
  }

  /** One option from `from` on: where its line, or its list, ends, and what it sets. */
  function ParseOption(text: string, from: nat): (r: (nat, Option<Entry>))
    requires from <= |text|
    ensures from <= r.0 <= |text|
  {
    var begin := Find(text, from, |text|, Visible);
    var endl := Find(text, begin, |text|, Endline);
    var comment := Find(text, begin, endl, Hash);
    var endc := Back(text, begin, comment, Visible);
    var eq := Find(text, begin, endc, Equals);
    if eq == endc || eq == begin then (endl, None) else ParseValue(text, begin, eq, endc, endl)
  }

  /** Behind the end of an option; a carriage return takes the character after it along. */
  function Advance(text: string, endl: nat): nat
    requires endl <= |text|
  {
    if endl == |text| then endl else if text[endl] == '\r' then endl + 2 else endl + 1
  }

  function Emplace(vars: map<string, string>, entry: Option<Entry>): map<string, string> {
    if entry.None? || entry.value.0 in vars then vars else vars[entry.value.0 := entry.value.1]
  }

  /** The settings from `pos` on; every option moves the position forward. */
  function ParseFrom(text: string, pos: nat, vars: map<string, string>): map<string, string>
    decreases |text| - pos
  {
    if pos >= |text| then vars
    else
      var (endl, entry) := ParseOption(text, pos);
      ParseFrom(text, Advance(text, endl), Emplace(vars, entry))
  }

  function ParseConfig(text: string): map<string, string> {
    ParseFrom(text, 0, map[])
  }

  // ---------------------------------------------------------------------------------------------------
  // The loops
  // ---------------------------------------------------------------------------------------------------

  method ReadString(text: string, begin: nat, end: nat) returns (result: string)
    requires begin <= end <= |text|
    ensures result == ToString(text, begin, end)
  {
    hide Find, ToString;
    result := "";
    var pos := begin;
    while pos != end
      invariant begin <= pos <= end
      invariant result + ToString(text, pos, end) == ToString(text, begin, end)
      decreases end - pos
    {
      var comment := Find(text, pos, end, Hash);
      var endl := Find(text, comment, end, Endline);
      StringStep(text, pos, end, comment, endl);
      assert result + ToString(text, pos, end) == result + text[pos..comment] + ToString(text, endl, end);
      result := result + text[pos..comment];
      pos := endl;
    }
    EmptyString(text, end);
  }

  method ScanList(text: string, begin: nat) returns (skipper: nat)
    requires begin <= |text|
    ensures skipper == SkipList(text, begin, 1).0
  {
    skipper := begin;
    var stack := 1;
    while skipper != |text| && stack != 0
      invariant begin <= skipper <= |text| && stack >= 0
      invariant SkipList(text, skipper, stack) == SkipList(text, begin, 1)
      decreases |text| - skipper
    {
      if text[skipper] == '[' {
        stack := stack + 1;
      }
      if text[skipper] == ']' {
        stack := stack - 1;
      }
      skipper := skipper + 1;
    }
  }

  lemma ParseStep(text: string, pos: nat, vars: map<string, string>, endl: nat, entry: Option<Entry>)
    requires pos < |text| && ParseOption(text, pos) == (endl, entry)
    ensures pos < Advance(text, endl)
    ensures ParseFrom(text, pos, vars) == ParseFrom(text, Advance(text, endl), Emplace(vars, entry))
  {
  }

  method ReadOption(text: string, pos: nat) returns (endl: nat, entry: Option<Entry>)
    requires pos <= |text|
    ensures endl <= |text| && (endl, entry) == ParseOption(text, pos)
  {
    var option := ParseOption(text, pos);
    endl, entry := option.0, option.1;
  }

  method ReadConfig(text: string) returns (vars: map<string, string>)
    ensures vars == ParseConfig(text)
  {
    vars := map[];
    var pos := 0;
    while pos < |text|
      invariant ParseFrom(text, pos, vars) == ParseFrom(text, 0, map[])
      decreases |text| - pos
    {
      var endl, entry := ReadOption(text, pos);
      ParseStep(text, pos, vars, endl, entry);
      pos := Advance(text, endl);
      if entry.Some? && entry.value.0 !in vars {
        vars := vars[entry.value.0 := entry.value.1];
      }
    }
  }

  // ---------------------------------------------------------------------------------------------------
  // The printer
  // ---------------------------------------------------------------------------------------------------

  function PrintEntry(entry: Entry): string {
    entry.0 + " = " + entry.1 + "\n"
  }

  function Print(entries: seq<Entry>): string {
    if entries == [] then ""
    else (if entries[0].1 == "" then "" else PrintEntry(entries[0])) + Print(entries[1..])
  }

  lemma PrintStep(stream: string, entries: seq<Entry>, i: nat)
    requires i < |entries|
    ensures stream + Print(entries[i..])
         == (if entries[i].1 == "" then stream else stream + PrintEntry(entries[i])) + Print(entries[i + 1..])
  {
    assert entries[i..][1..] == entries[i + 1..];
  }

  /** The text of a JSON value that is neither null nor a string; the library never gives an empty one. */
  type Dump = s: string | s != "" witness "0"

  datatype Json = Null | Text(value: string) | Other(dump: Dump)

  function TextOf(v: Json): string {
    match v
    case Null => ""
    case Text(value) => value
    case Other(dump) => dump
  }

  /** The settings of a JSON object, in the order in which the library lists them. */
  function EntriesOf(items: seq<(string, Json)>): (entries: seq<Entry>)
    ensures |entries| == |items|
  {
    seq(|items|, i requires 0 <= i < |items| => (items[i].0, TextOf(items[i].1)))
  }

  datatype SaveError = NothingToSave | NotWritten

  /**
   Settings without a value are not written; an object without any setting is refused; and the file system has the
   last word.
   */
  method SaveConfig(items: seq<(string, Json)>, written: bool) returns (file: Result<string, SaveError>)
    ensures var text := Print(EntriesOf(items));
      file == if text == "" then Failure(NothingToSave) else if !written then Failure(NotWritten) else Success(text)
  {
    ghost var entries := EntriesOf(items);
    var stream := "";
    var i := 0;
    while i < |items|
      invariant 0 <= i <= |items|
      invariant stream + Print(entries[i..]) == Print(entries)
    {
      var (k, v) := items[i];
      PrintStep(stream, entries, i);
      if !v.Null? && v != Text("") {
        stream := stream + PrintEntry((k, if v.Text? then v.value else v.dump));
      }
      i := i + 1;
    }
    assert stream == Print(entries);
    if stream == "" {
      return Failure(NothingToSave);
    }
    if !written {
      return Failure(NotWritten);
    }
    return Success(stream);
  }
}
