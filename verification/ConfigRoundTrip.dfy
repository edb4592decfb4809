/**
 Which settings survive being printed and parsed again: exactly those whose name and value the grammar can carry.
 */
module ConfigRoundTrip {
  import opened Wrappers
  import opened ConfigText

  // ---------------------------------------------------------------------------------------------------
  // What the grammar can carry
  // ---------------------------------------------------------------------------------------------------

  predicate OneLine(s: string) {
    forall i :: 0 <= i < |s| ==> !Endline(s[i])
  }

  predicate Free(s: string, c: char) {
    forall i :: 0 <= i < |s| ==> s[i] != c
  }

  /** A name: not empty, on one line, without `=` and `#`, and without blanks around it. */
  predicate GoodName(k: string) {
    k != "" && OneLine(k) && Free(k, '=') && Free(k, '#') && !SpaceTab(k[0]) && !SpaceTab(k[|k| - 1])
  }

  /** A list whose first bracket is closed by its last character, and not before; it may span lines. */
  predicate ClosedList(v: string) {
    && v != "" && v[0] == '[' && Count(v, 0, |v|, '[') == Count(v, 0, |v|, ']')
    && forall k :: 0 < k < |v| ==> Count(v, 0, k, ']') < Count(v, 0, k, '[')
  }

  /** The search for the bracket that closes the list ends behind it. */
  lemma ClosedListIff(v: string)
    requires v != "" && v[0] == '['
    ensures ClosedList(v) <==> SkipList(v, 1, 1) == (|v|, 0)
  {
    SkipListStops(v, 1, 1);
    forall k | 0 < k <= |v|
      ensures Count(v, 0, k, '[') == 1 + Count(v, 1, k, '[') && Count(v, 0, k, ']') == Count(v, 1, k, ']')
    {
    }
  }

  /** A value: not empty, without comments, not starting with a blank, and a single line or a closed list. */
  predicate GoodValue(v: string) {
    v != "" && Free(v, '#') && !SpaceTab(v[0]) && if v[0] == '[' then ClosedList(v) else OneLine(v)
  }

  predicate Printable(entry: Entry) {
    GoodName(entry.0) && GoodValue(entry.1)
  }

  // ---------------------------------------------------------------------------------------------------
  // One printed entry inside a text
  // ---------------------------------------------------------------------------------------------------

  function EndOf(at: nat, entry: Entry): nat {
    at + |entry.0| + 3 + |entry.1|
  }

  /** At `at` the text continues with the printed entry: the name, the separator, the value and a line end. */
  predicate EntryAt(text: string, at: nat, entry: Entry) {
    var eq := at + |entry.0| + 1;
    && EndOf(at, entry) < |text| && text[EndOf(at, entry)] == '\n'
    && text[at..eq - 1] == entry.0 && text[eq - 1] == ' ' && text[eq] == '=' && text[eq + 1] == ' '
    && text[eq + 2..EndOf(at, entry)] == entry.1
  }

  lemma NoComment(text: string, from: nat, end: nat)
    requires from <= end <= |text| && forall i :: from <= i < end ==> text[i] != '#'
    ensures ToString(text, from, end) == text[from..end]
  {
    if from < end {
      FoundAt(text, from, end, Hash, end);
      assert text[from..end] + "" == text[from..end];
    }
  }

  /** A comment is dropped up to the end of its line. */
  lemma CommentIsDropped(text: string, from: nat, comment: nat, endl: nat, end: nat)
    requires from <= comment < endl <= end <= |text| && text[comment] == '#'
    requires forall i :: from <= i < comment ==> text[i] != '#'
    requires forall i :: comment <= i < endl ==> !Endline(text[i])
    requires endl == end || Endline(text[endl])
    ensures ToString(text, from, end) == text[from..comment] + ToString(text, endl, end)
  {
    FoundAt(text, from, end, Hash, comment);
    FoundAt(text, comment, end, Endline, endl);
  }

  lemma {:induction false} SkipListInside(text: string, v: string, offset: nat, from: nat, depth: nat)
    requires offset + |v| <= |text| && text[offset..offset + |v|] == v && from <= |v|
    ensures var (stop, open) := SkipList(v, from, depth);
      if open == 0 then SkipList(text, offset + from, depth) == (offset + stop, 0)
      else SkipList(text, offset + from, depth) == SkipList(text, offset + |v|, open)
    decreases |v| - from
  {
    if from < |v| && depth != 0 {
      assert text[offset + from] == v[from];
      SkipListInside(text, v, offset, from + 1,
        if v[from] == '[' then depth + 1 else if v[from] == ']' then depth - 1 else depth);
    }
  }

  lemma {:induction false} FoundAt(text: string, from: nat, end: nat, wanted: char -> bool, k: nat)
    requires from <= k <= end <= |text|
    requires forall i :: from <= i < k ==> !wanted(text[i])
    requires k == end || wanted(text[k])
    ensures Find(text, from, end, wanted) == k
    decreases end - from
  {
    if from < k {
      FoundAt(text, from + 1, end, wanted, k);
    }
  }

  lemma {:induction false} BackAt(text: string, from: nat, end: nat, wanted: char -> bool, k: nat)
    requires from <= k <= end <= |text|
    requires forall i :: k <= i < end ==> !wanted(text[i])
    requires k == from || wanted(text[k - 1])
    ensures Back(text, from, end, wanted) == k
    decreases end
  {
    if k < end {
      BackAt(text, from, end - 1, wanted, k);
    }
  }

  /** What a good name means for the characters in front of the value. */
  lemma NameChars(text: string, at: nat, entry: Entry)
    requires EntryAt(text, at, entry) && GoodName(entry.0)
    ensures var eq := at + |entry.0| + 1;
      && eq + 2 < |text| && EndOf(at, entry) < |text|
      && Visible(text[at]) && NotBlank(text[eq - 2]) && text[eq - 1] == ' ' && text[eq] == '=' && text[eq + 1] == ' '
      && (forall i :: at <= i < eq + 2 ==> !Endline(text[i]) && !Hash(text[i]))
      && (forall i :: at <= i < eq ==> !Equals(text[i]))
      && text[EndOf(at, entry)] == '\n'
  {
    var k := entry.0;
    assert text[at + (|k| - 1)] == k[|k| - 1] && text[at + 0] == k[0];
    forall i | at <= i < at + |k|
      ensures !Endline(text[i]) && !Hash(text[i]) && !Equals(text[i])
    {
      assert text[i] == text[at..at + |k|][i - at] == k[i - at];
    }
  }

  /** The positions `ParseOption` finds on its way to the value of an entry with a good name. */
  lemma NameIsFound(text: string, at: nat, entry: Entry) returns (endl: nat, comment: nat, endc: nat)
    requires EntryAt(text, at, entry) && GoodName(entry.0)
    ensures var eq := at + |entry.0| + 1;
      && eq + 2 <= endl <= EndOf(at, entry) < |text| && eq + 1 <= endc <= comment <= endl
      && endl == Find(text, at, |text|, Endline)
      && comment == Find(text, at, endl, Hash)
      && endc == Back(text, at, comment, Visible)
    ensures var begin := Find(text, at, |text|, Visible); begin == at
    ensures Find(text, at, endc, Equals) == at + |entry.0| + 1
    ensures Back(text, at, at + |entry.0| + 1, NotBlank) == at + |entry.0|
    ensures ToString(text, at, at + |entry.0|) == entry.0
  {
    assert text[at..at + |entry.0|] == entry.0;
    hide Find, Back, ToString, GoodName, EntryAt;
    NameChars(text, at, entry);
    var eq := at + |entry.0| + 1;
    FoundAt(text, at, |text|, Visible, at);
    endl := Find(text, at, |text|, Endline);
    FindSpec(text, at, |text|, Endline);
    assert endl >= eq + 2;
    comment := Find(text, at, endl, Hash);
    FindSpec(text, at, endl, Hash);
    endc := Back(text, at, comment, Visible);
    BackSpec(text, at, comment, Visible);
    assert Visible(text[eq]);
    assert endc > eq;
    FoundAt(text, at, endc, Equals, eq);
    BackAt(text, at, eq, NotBlank, eq - 1);
    NoComment(text, at, at + |entry.0|);
  }

  /** What is left to decide at an entry with a good name. */
  lemma OptionOfEntry(text: string, at: nat, entry: Entry) returns (endl: nat, comment: nat, endc: nat)
    requires EntryAt(text, at, entry) && GoodName(entry.0)
    ensures var eq := at + |entry.0| + 1;
      && eq + 2 <= endl <= EndOf(at, entry) < |text| && eq + 1 <= endc <= comment <= endl
      && endl == Find(text, at, |text|, Endline)
      && comment == Find(text, at, endl, Hash)
      && endc == Back(text, at, comment, Visible)
      && ParseOption(text, at) == ParseValue(text, at, eq, endc, endl)
    ensures Back(text, at, at + |entry.0| + 1, NotBlank) == at + |entry.0|
    ensures ToString(text, at, at + |entry.0|) == entry.0
  {
    endl, comment, endc := NameIsFound(text, at, entry);
  }

  lemma ValueChars(text: string, at: nat, entry: Entry)
    requires EntryAt(text, at, entry)
    ensures var first, last := at + |entry.0| + 3, EndOf(at, entry);
      && last < |text| && text[last] == '\n' && text[first - 1] == ' ' && text[first - 2] == '='
      && text[first..last] == entry.1
      && (forall i :: first <= i < last ==> text[i] == entry.1[i - first])
  {
    var first := at + |entry.0| + 3;
    forall i | first <= i < EndOf(at, entry) ensures text[i] == entry.1[i - first] {
      assert text[first..EndOf(at, entry)][i - first] == entry.1[i - first];
    }
  }

  /** A value that starts with a visible character starts right behind the separator. */
  lemma VisibleValueStarts(text: string, at: nat, entry: Entry, comment: nat, endl: nat)
    requires EntryAt(text, at, entry) && entry.1 != "" && Visible(entry.1[0]) && entry.1[0] != '#'
    requires at + |entry.0| + 3 <= endl <= EndOf(at, entry) < |text|
    requires endl == Find(text, at, |text|, Endline) && comment == Find(text, at, endl, Hash)
    requires comment >= at + |entry.0| + 2
    ensures var first := at + |entry.0| + 3;
      && first < endl
      && (first < comment ==>
          var endc := Back(text, at, comment, Visible);
          first < endc && Find(text, first - 1, endc, NotBlank) == first)
  {
    ValueChars(text, at, entry);
    var first := at + |entry.0| + 3;
    assert text[first] == entry.1[0];
    FindSpec(text, at, |text|, Endline);
    assert endl != first;
    if first < comment {
      var endc := Back(text, at, comment, Visible);
      BackSpec(text, at, comment, Visible);
      assert first < endc;
      FoundAt(text, first - 1, endc, NotBlank, first);
    }
  }

  lemma LineIsWhole(text: string, at: nat, entry: Entry)
    requires EntryAt(text, at, entry) && GoodName(entry.0) && OneLine(entry.1)
    ensures Find(text, at, |text|, Endline) == EndOf(at, entry)
  {
    NameChars(text, at, entry);
    ValueChars(text, at, entry);
    var first, last := at + |entry.0| + 3, EndOf(at, entry);
    forall i | at <= i < last ensures !Endline(text[i]) {
      if i >= first {
        assert text[i] == entry.1[i - first];
      }
    }
    FoundAt(text, at, |text|, Endline, last);
  }

  lemma ListIsWhole(text: string, at: nat, entry: Entry)
    requires EntryAt(text, at, entry) && ClosedList(entry.1)
    ensures SkipList(text, at + |entry.0| + 4, 1) == (EndOf(at, entry), 0)
  {
    ValueChars(text, at, entry);
    ClosedListIff(entry.1);
    SkipListInside(text, entry.1, at + |entry.0| + 3, 1, 1);
  }

  lemma NoCommentInEntry(text: string, at: nat, entry: Entry, endl: nat)
    requires EntryAt(text, at, entry) && GoodName(entry.0) && Free(entry.1, '#')
    requires at <= endl <= EndOf(at, entry) < |text|
    ensures Find(text, at, endl, Hash) == endl
    ensures ToString(text, at + |entry.0| + 3, EndOf(at, entry)) == entry.1
  {
    NameChars(text, at, entry);
    ValueChars(text, at, entry);
    var first := at + |entry.0| + 3;
    forall i | at <= i < EndOf(at, entry) ensures !Hash(text[i]) {
      if i >= first {
        assert text[i] == entry.1[i - first];
      }
    }
    FoundAt(text, at, endl, Hash, endl);
    NoComment(text, first, EndOf(at, entry));
  }

  /** `ParseValue` once the positions it finds are known. */
  lemma ParseValueAt(text: string, begin: nat, eq: nat, endc: nat, endl: nat, endName: nat, first: nat)
    requires begin < eq < endc <= endl <= |text| && endName == Back(text, begin, eq, NotBlank)
    requires eq + 1 <= first == Find(text, eq + 1, endc, NotBlank)
    ensures ParseValue(text, begin, eq, endc, endl) ==
      if first == endl then (endl, None)
      else if text[first] == '[' then
        var close := SkipList(text, first + 1, 1).0;
        if close == |text| && |text| == first + 1 then (close, None)
        else (close, Some((ToString(text, begin, endName), ToString(text, first, close))))
      else (endl, Some((ToString(text, begin, endName), ToString(text, first, endl))))
  {
  }

  /** A printable entry is read back as it is, up to the line end behind it. */
  lemma PrintableIsRead(text: string, at: nat, entry: Entry)
    requires EntryAt(text, at, entry) && Printable(entry)
    ensures ParseOption(text, at) == (EndOf(at, entry), Some(entry))
  {
    hide ParseOption, ParseValue, EntryAt, ToString, Find, Back, SkipList, OneLine, Free;
    var endl, comment, endc := OptionOfEntry(text, at, entry);
    var first := at + |entry.0| + 3;
    ValueIsWhole(text, at, entry, endl, comment, endc);
    ParseValueAt(text, at, first - 2, endc, endl, at + |entry.0|, first);
  }

  /** A good value is found behind the separator, and its end is the end of the entry. */
  lemma ValueIsWhole(text: string, at: nat, entry: Entry, endl: nat, comment: nat, endc: nat)
    requires EntryAt(text, at, entry) && Printable(entry)
    requires at + |entry.0| + 3 <= endl <= EndOf(at, entry) < |text| && at + |entry.0| + 2 <= endc <= comment <= endl
    requires endl == Find(text, at, |text|, Endline) && comment == Find(text, at, endl, Hash)
    requires endc == Back(text, at, comment, Visible)
    ensures var first, last := at + |entry.0| + 3, EndOf(at, entry);
      && first < endl && Find(text, first - 1, endc, NotBlank) == first
      && ToString(text, first, last) == entry.1
      && if text[first] == '[' then SkipList(text, first + 1, 1).0 == last else endl == last
  {
    hide ParseOption, ParseValue, ToString, Find, Back, SkipList;
    NoCommentInEntry(text, at, entry, endl);
    VisibleValueStarts(text, at, entry, comment, endl);
    ValueChars(text, at, entry);
    if entry.1[0] == '[' {
      ListIsWhole(text, at, entry);
    } else {
      LineIsWhole(text, at, entry);
    }
  }

  // ---------------------------------------------------------------------------------------------------
  // What is not printable does not come back
  // ---------------------------------------------------------------------------------------------------

  lemma {:induction false} StringHasNoHash(text: string, from: nat, end: nat)
    requires from <= end <= |text|
    ensures Free(ToString(text, from, end), '#')
    decreases end - from
  {
    if from < end {
      var comment := Find(text, from, end, Hash);
      var endl := Find(text, comment, end, Endline);
      StringAdvances(text, from, end);
      FindSpec(text, from, end, Hash);
      StringHasNoHash(text, endl, end);
      forall i | 0 <= i < comment - from ensures text[from..comment][i] != '#' {
        assert !Hash(text[from + i]);
      }
    }
  }

  lemma {:induction false} StringOnOneLine(text: string, from: nat, end: nat)
    requires from <= end <= |text| && forall i :: from <= i < end ==> !Endline(text[i])
    ensures OneLine(ToString(text, from, end))
    decreases end - from
  {
    if from < end {
      var comment := Find(text, from, end, Hash);
      StringAdvances(text, from, end);
      StringOnOneLine(text, Find(text, comment, end, Endline), end);
    }
  }

  /** What stands in front of the first comment is all there. */
  lemma StringBegins(text: string, from: nat, upTo: nat, end: nat)
    requires from < upTo <= end <= |text| && forall i :: from <= i < upTo ==> !Hash(text[i])
    ensures |ToString(text, from, end)| >= upTo - from && ToString(text, from, end)[0] == text[from]
  {
    var comment := Find(text, from, end, Hash);
    FindSpec(text, from, end, Hash);
    assert comment >= upTo by {
      assert comment < end ==> Hash(text[comment]);
    }
    StringAdvances(text, from, end);
  }

  /** The first character of the value is in front of the trimmed end of the line, or nothing is. */
  lemma ValueBegins(text: string, eq: nat, at: nat, comment: nat, endc: nat, endl: nat)
    requires at <= eq < endc <= comment <= endl <= |text| && eq + 2 <= endl
    requires comment == Find(text, at, endl, Hash) && endc == Back(text, at, comment, Visible)
    ensures var first := Find(text, eq + 1, endc, NotBlank);
      && first < endl && !Hash(text[eq])
      && (first < endc ==> NotBlank(text[first]) && !Hash(text[first]))
      && (first == endc ==> first == eq + 1 && text[first] != '[')
  {
    var first := Find(text, eq + 1, endc, NotBlank);
    FindSpec(text, eq + 1, endc, NotBlank);
    BackSpec(text, at, comment, Visible);
    FindSpec(text, at, endl, Hash);
    var trimmed := text[endc - 1];
    assert Visible(trimmed);
    if first == endc {
      assert endc > eq + 1 ==> !NotBlank(trimmed);
      assert endc < comment ==> !Visible(text[endc]);
      assert comment < endl ==> Hash(text[comment]);
    }
  }

  lemma UnclosedListIsLost(text: string, at: nat, entry: Entry)
    requires EntryAt(text, at, entry) && entry.1 != "" && entry.1[0] == '['
    requires !ClosedList(entry.1) && Free(entry.1, '#')
    ensures var first := at + |entry.0| + 3;
      ToString(text, first, SkipList(text, first + 1, 1).0) != entry.1
  {
    var v := entry.1;
    var first, last := at + |entry.0| + 3, EndOf(at, entry);
    ValueChars(text, at, entry);
    forall i | first <= i < last + 1 ensures !Hash(text[i]) {
      assert i < last ==> text[i] == v[i - first];
    }
    ClosedListIff(v);
    SkipListInside(text, v, first, 1, 1);
    var (stop, open) := SkipList(v, 1, 1);
    var close := SkipList(text, first + 1, 1).0;
    if open == 0 {
      assert close == first + stop < last;
      NoComment(text, first, close);
    } else {
      assert close >= last + 1;
      StringBegins(text, first, last + 1, close);
    }
  }

  lemma BlankStartIsLost(text: string, at: nat, entry: Entry, comment: nat, endc: nat)
    requires EntryAt(text, at, entry) && GoodName(entry.0) && entry.1 != "" && Free(entry.1, '#')
    requires OneLine(entry.1) && SpaceTab(entry.1[0])
    requires at + |entry.0| + 2 <= endc <= comment <= EndOf(at, entry) < |text|
    requires comment == Find(text, at, EndOf(at, entry), Hash) && endc == Back(text, at, comment, Visible)
    ensures ToString(text, Find(text, at + |entry.0| + 2, endc, NotBlank), EndOf(at, entry)) != entry.1
  {
    var eq, last := at + |entry.0| + 1, EndOf(at, entry);
    var first := Find(text, eq + 1, endc, NotBlank);
    ValueBegins(text, eq, at, comment, endc, last);
    if first < endc {
      StringBegins(text, first, first + 1, last);
      assert NotBlank(text[first]);
    } else {
      NoCommentInEntry(text, at, entry, last);
      FindSpec(text, at, last, Hash);
      NoComment(text, first, last);
      assert |text[first..last]| == |entry.1| + 1;
    }
  }

  /** What is read once the name `k` is known to end at its `=`. */
  lemma ReadBehindName(text: string, at: nat, k: string, endl: nat, comment: nat, endc: nat, first: nat)
    requires k != "" && at + |k| + 3 <= endl < |text| && at + |k| + 2 <= endc <= comment <= endl
    requires comment == Find(text, at, endl, Hash)
    requires endc == Back(text, at, comment, Visible) && first == Find(text, at + |k| + 2, endc, NotBlank)
    requires Back(text, at, at + |k| + 1, NotBlank) == at + |k| && ToString(text, at, at + |k|) == k
    ensures first < endl && (text[first] == '[' ==> first < endc)
    ensures var stop := if text[first] == '[' then SkipList(text, first + 1, 1).0 else endl;
      ParseValue(text, at, at + |k| + 1, endc, endl) == (stop, Some((k, ToString(text, first, stop))))
  {
    ValueBegins(text, at + |k| + 1, at, comment, endc, endl);
    ParseValueAt(text, at, at + |k| + 1, endc, endl, at + |k|, first);
  }

  /** A value the grammar cannot carry comes back as another value of the same name. */
  lemma BadValueIsLost(text: string, at: nat, entry: Entry)
    requires EntryAt(text, at, entry) && GoodName(entry.0) && entry.1 != "" && !GoodValue(entry.1)
    ensures var option := ParseOption(text, at).1;
      option.Some? && option.value.0 == entry.0 && option.value.1 != entry.1
  {
    var endl, comment, endc := OptionOfEntry(text, at, entry);
    var first := Find(text, at + |entry.0| + 2, endc, NotBlank);
    ReadBehindName(text, at, entry.0, endl, comment, endc, first);
    if text[first] == '[' {
      BadListIsLost(text, at, entry, endl, comment, endc, first);
    } else {
      BadLineIsLost(text, at, entry, endl, comment, endc, first);
    }
  }

  lemma BadListIsLost(text: string, at: nat, entry: Entry, endl: nat, comment: nat, endc: nat, first: nat)
    requires EntryAt(text, at, entry) && GoodName(entry.0) && entry.1 != "" && !GoodValue(entry.1)
    requires at + |entry.0| + 3 <= endl <= EndOf(at, entry) < |text| && at + |entry.0| + 2 <= endc <= comment <= endl
    requires endl == Find(text, at, |text|, Endline) && comment == Find(text, at, endl, Hash)
    requires endc == Back(text, at, comment, Visible) && first == Find(text, at + |entry.0| + 2, endc, NotBlank)
    requires first < endc && text[first] == '['
    ensures ToString(text, first, SkipList(text, first + 1, 1).0) != entry.1
  {
    hide Find, Back, SkipList, ToString, EntryAt, GoodName;
    if entry.1[0] == '[' && Free(entry.1, '#') {
      VisibleStart(text, at, entry, endl, comment, endc, first);
      UnclosedListIsLost(text, at, entry);
    } else {
      ListBegins(text, first);
    }
  }

  lemma ListBegins(text: string, first: nat)
    requires first < |text| && text[first] == '['
    ensures var s := ToString(text, first, SkipList(text, first + 1, 1).0); s != "" && s[0] == '[' && Free(s, '#')
  {
    var close := SkipList(text, first + 1, 1).0;
    StringHasNoHash(text, first, close);
    StringBegins(text, first, first + 1, close);
  }

  lemma BadLineIsLost(text: string, at: nat, entry: Entry, endl: nat, comment: nat, endc: nat, first: nat)
    requires EntryAt(text, at, entry) && GoodName(entry.0) && entry.1 != "" && !GoodValue(entry.1)
    requires at + |entry.0| + 3 <= endl <= EndOf(at, entry) < |text| && at + |entry.0| + 2 <= endc <= comment <= endl
    requires endl == Find(text, at, |text|, Endline) && comment == Find(text, at, endl, Hash)
    requires endc == Back(text, at, comment, Visible) && first == Find(text, at + |entry.0| + 2, endc, NotBlank)
    requires first < endl && text[first] != '['
    ensures ToString(text, first, endl) != entry.1
  {
    StringHasNoHash(text, first, endl);
    FindSpec(text, at, |text|, Endline);
    StringOnOneLine(text, first, endl);
    if Free(entry.1, '#') && OneLine(entry.1) {
      LineIsWhole(text, at, entry);
      if SpaceTab(entry.1[0]) {
        BlankStartIsLost(text, at, entry, comment, endc);
      } else {
        VisibleStart(text, at, entry, endl, comment, endc, first);
      }
    }
  }

  lemma VisibleStart(text: string, at: nat, entry: Entry, endl: nat, comment: nat, endc: nat, first: nat)
    requires EntryAt(text, at, entry) && GoodName(entry.0) && entry.1 != "" && Visible(entry.1[0]) && Free(entry.1, '#')
    requires at + |entry.0| + 3 <= endl <= EndOf(at, entry) < |text| && at + |entry.0| + 2 <= endc <= comment <= endl
    requires endl == Find(text, at, |text|, Endline) && comment == Find(text, at, endl, Hash)
    requires endc == Back(text, at, comment, Visible) && first == Find(text, at + |entry.0| + 2, endc, NotBlank)
    ensures first == at + |entry.0| + 3 && text[first] == entry.1[0]
  {
    NoCommentInEntry(text, at, entry, endl);
    VisibleValueStarts(text, at, entry, comment, endl);
    ValueChars(text, at, entry);
  }

  // ---------------------------------------------------------------------------------------------------
  // Whole files
  // ---------------------------------------------------------------------------------------------------

  /** Whatever the text, a name that is parsed is a good one. */
  lemma ParsedNamesAreGood(text: string, from: nat)
    requires from <= |text|
    ensures ParseOption(text, from).1.Some? ==> GoodName(ParseOption(text, from).1.value.0)
  {
    hide GoodName, Find, Back, ToString, SkipList;
    var begin := Find(text, from, |text|, Visible);
    var endl := Find(text, begin, |text|, Endline);
    var comment := Find(text, begin, endl, Hash);
    var endc := Back(text, begin, comment, Visible);
    var eq := Find(text, begin, endc, Equals);
    if eq != endc && eq != begin {
      FindSpec(text, from, |text|, Visible);
      NameOfLine(text, begin, endl, comment, endc, eq);
    }
  }

  lemma NameOfLine(text: string, begin: nat, endl: nat, comment: nat, endc: nat, eq: nat)
    requires begin < eq < endc <= comment <= endl <= |text| && Visible(text[begin])
    requires endl == Find(text, begin, |text|, Endline) && comment == Find(text, begin, endl, Hash)
    requires eq == Find(text, begin, endc, Equals)
    ensures GoodName(ToString(text, begin, Back(text, begin, eq, NotBlank)))
  {
    FindSpec(text, begin, |text|, Endline);
    FindSpec(text, begin, endl, Hash);
    FindSpec(text, begin, endc, Equals);
    BackSpec(text, begin, eq, NotBlank);
    var endName := Back(text, begin, eq, NotBlank);
    assert NotBlank(text[begin]);
    NoComment(text, begin, endName);
    NameOfText(text, begin, endName);
  }

  lemma NameOfText(text: string, begin: nat, endName: nat)
    requires begin < endName <= |text| && Visible(text[begin]) && NotBlank(text[endName - 1])
    requires forall i :: begin <= i < endName ==> !Hash(text[i]) && !Endline(text[i]) && !Equals(text[i])
    ensures GoodName(text[begin..endName])
  {
    var k := text[begin..endName];
    forall i | 0 <= i < |k| ensures !Endline(k[i]) && k[i] != '#' && k[i] != '=' {
      assert !Hash(text[begin + i]) && !Endline(text[begin + i]) && !Equals(text[begin + i]);
    }
  }

  /** The first setting of a name stays, and every name that is added is a good one. */
  lemma {:induction false} ParseKeeps(text: string, pos: nat, vars: map<string, string>)
    ensures var after := ParseFrom(text, pos, vars);
      && (forall k :: k in vars ==> k in after && after[k] == vars[k])
      && (forall k :: k in after ==> k in vars || GoodName(k))
    decreases |text| - pos
  {
    if pos < |text| {
      var (endl, entry) := ParseOption(text, pos);
      ParsedNamesAreGood(text, pos);
      ParseStep(text, pos, vars, endl, entry);
      ParseKeeps(text, Advance(text, endl), Emplace(vars, entry));
    }
  }

  function Kept(entries: seq<Entry>): map<string, string> {
    if entries == [] then map[]
    else if entries[0].1 == "" then Kept(entries[1..])
    else Kept(entries[1..])[entries[0].0 := entries[0].1]
  }

  /** Settings as the web UI sends them: an object, so every name once. */
  ghost predicate Distinct(entries: seq<Entry>) {
    forall i, j :: 0 <= i < j < |entries| ==> entries[i].0 != entries[j].0
  }

  predicate AllPrintable(entries: seq<Entry>) {
    entries == [] || ((entries[0].1 == "" || Printable(entries[0])) && AllPrintable(entries[1..]))
  }

  lemma {:induction false} KeptNames(entries: seq<Entry>, k: string)
    requires forall i :: 0 <= i < |entries| ==> entries[i].0 != k
    ensures k !in Kept(entries)
    decreases |entries|
  {
    if entries != [] {
      KeptNames(entries[1..], k);
    }
  }

  lemma NothingLeft(text: string, pos: nat, vars: map<string, string>)
    requires pos >= |text|
    ensures ParseFrom(text, pos, vars) == vars + map[]
  {
    assert vars + map[] == vars;
  }

  /** Parsing from a point where printable settings begin. */
  lemma {:induction false} ParsePrinted(text: string, pos: nat, entries: seq<Entry>, vars: map<string, string>)
    requires pos <= |text| && text[pos..] == Print(entries) && Distinct(entries) && AllPrintable(entries)
    requires forall i :: 0 <= i < |entries| ==> entries[i].0 !in vars
    ensures ParseFrom(text, pos, vars) == vars + Kept(entries)
    decreases |entries|
  {
    hide ParseOption, ParseFrom, Printable, EntryAt, PrintEntry, Distinct;
    if entries == [] {
      NothingLeft(text, pos, vars);
    } else {
      var tail := entries[1..];
      TailStaysApart(entries, vars);
      if entries[0].1 == "" {
        ParsePrinted(text, pos, tail, vars);
      } else {
        PrintedEntryAt(text, pos, entries);
        PrintableEntry(text, pos, entries[0], vars);
        ParsePrinted(text, EndOf(pos, entries[0]) + 1, tail, vars[entries[0].0 := entries[0].1]);
      }
    }
  }

  /** Parsing from a point where settings begin that are not all printable: the first such setting is missed. */
  lemma {:induction false} ParseMisses(text: string, pos: nat, entries: seq<Entry>, vars: map<string, string>)
    returns (k: string)
    requires pos <= |text| && text[pos..] == Print(entries) && Distinct(entries) && !AllPrintable(entries)
    requires forall i :: 0 <= i < |entries| ==> entries[i].0 !in vars
    ensures k in Kept(entries)
    ensures var after := ParseFrom(text, pos, vars); !(k in after && after[k] == Kept(entries)[k])
    decreases |entries|
  {
    hide ParseOption, ParseFrom, Printable, EntryAt, PrintEntry, Distinct;
    var (name, v) := entries[0];
    var tail := entries[1..];
    TailStaysApart(entries, vars);
    if v == "" {
      k := ParseMisses(text, pos, tail, vars);
    } else {
      PrintedEntryAt(text, pos, entries);
      if Printable(entries[0]) {
        PrintableEntry(text, pos, entries[0], vars);
        k := ParseMisses(text, EndOf(pos, entries[0]) + 1, tail, vars[name := v]);
      } else {
        UnprintableEntry(text, pos, entries[0], vars);
        k := name;
      }
    }
  }

  lemma TailStaysApart(entries: seq<Entry>, vars: map<string, string>)
    requires entries != [] && Distinct(entries)
    requires forall i :: 0 <= i < |entries| ==> entries[i].0 !in vars
    ensures var (k, v) := entries[0];
      var tail := entries[1..];
      && Distinct(tail)
      && (forall i :: 0 <= i < |tail| ==> tail[i].0 !in vars[k := v])
      && (v != "" ==> vars[k := v] + Kept(tail) == vars + Kept(entries))
      && k !in Kept(tail)
  {
    var tail := entries[1..];
    forall i | 0 <= i < |tail| ensures tail[i] == entries[i + 1] && tail[i].0 != entries[0].0 {
    }
    KeptNames(tail, entries[0].0);
  }

  lemma PrintedEntryAt(text: string, pos: nat, entries: seq<Entry>)
    requires entries != [] && entries[0].1 != "" && pos <= |text| && text[pos..] == Print(entries)
    ensures EntryAt(text, pos, entries[0])
    ensures EndOf(pos, entries[0]) < |text| && text[EndOf(pos, entries[0]) + 1..] == Print(entries[1..])
  {
    var printed := PrintEntry(entries[0]);
    assert text[pos..] == printed + Print(entries[1..]);
    assert text[pos..pos + |printed|] == text[pos..][..|printed|] == printed;
    assert text[pos + |printed|..] == text[pos..][|printed|..];
    PrintedChars(text, pos, entries[0]);
  }

  lemma PrintedChars(text: string, at: nat, entry: Entry)
    requires at + |PrintEntry(entry)| <= |text| && text[at..at + |PrintEntry(entry)|] == PrintEntry(entry)
    ensures EntryAt(text, at, entry)
  {
    var (k, v) := entry;
    var p := PrintEntry(entry);
    assert p == k + " = " + v + "\n";
    assert p[..|k|] == k && p[|k| + 3..|k| + 3 + |v|] == v;
    assert p[|k|] == ' ' && p[|k| + 1] == '=' && p[|k| + 2] == ' ' && p[|p| - 1] == '\n';
    assert forall i :: 0 <= i < |p| ==> text[at + i] == p[i];
    assert text[at..at + |k|] == p[..|k|];
    assert text[at + |k| + 3..at + |k| + 3 + |v|] == p[|k| + 3..|k| + 3 + |v|];
  }

  lemma PrintableEntry(text: string, pos: nat, entry: Entry, vars: map<string, string>)
    requires EntryAt(text, pos, entry) && Printable(entry) && entry.0 !in vars
    ensures EndOf(pos, entry) < |text|
    ensures ParseFrom(text, pos, vars) == ParseFrom(text, EndOf(pos, entry) + 1, vars[entry.0 := entry.1])
  {
    PrintableIsRead(text, pos, entry);
    ValueChars(text, pos, entry);
    ParseStep(text, pos, vars, EndOf(pos, entry), Some(entry));
  }

  lemma UnprintableEntry(text: string, pos: nat, entry: Entry, vars: map<string, string>)
    requires EntryAt(text, pos, entry) && entry.1 != "" && !Printable(entry) && entry.0 !in vars
    ensures var after := ParseFrom(text, pos, vars); !(entry.0 in after && after[entry.0] == entry.1)
  {
    if GoodName(entry.0) {
      BadValueIsLost(text, pos, entry);
      var (endl, option) := ParseOption(text, pos);
      ParseStep(text, pos, vars, endl, option);
      ParseKeeps(text, Advance(text, endl), Emplace(vars, option));
    } else {
      ParseKeeps(text, pos, vars);
    }
  }

  /**
   The round trip, both ways: a saved configuration is read back as the very settings that were saved exactly when
   each of them has a name and a value the grammar can carry.
   */
  lemma RoundTripIff(entries: seq<Entry>)
    requires Distinct(entries)
    ensures ParseConfig(Print(entries)) == Kept(entries) <==> AllPrintable(entries)
  {
    if AllPrintable(entries) {
      ParsePrinted(Print(entries), 0, entries, map[]);
      assert map[] + Kept(entries) == Kept(entries);
    } else {
      var k := ParseMisses(Print(entries), 0, entries, map[]);
    }
  }
}
