/**
 Expansion of `$(NAME)` and `$$` in the applications file (src/process.cpp: `find_match`, `parse_env_val`).
 */
module Expansion {
  import opened Wrappers

  type Env = map<string, string>

  /** The environment yields an empty string for a name it does not have. */
  function Lookup(env: Env, name: string): string {
    if name in env then env[name] else ""
  }

  function DepthAfter(depth: int, c: char): int {
    if c == '(' then depth + 1 else if c == ')' then depth - 1 else depth
  }

  /** The position from `from` on at which `depth` open brackets are closed. */
  function Close(s: string, from: nat, depth: int): (r: Option<nat>)
    ensures r.Some? ==> from <= r.value < |s|
    decreases |s| - from
  {
    if from >= |s| then None
    else if DepthAfter(depth, s[from]) == 0 then Some(from)
    else Close(s, from + 1, DepthAfter(depth, s[from]))
  }

  function Append(prefix: string, rest: Option<string>): Option<string> {
    if rest.None? then None else Some(prefix + rest.value)
  }

  /** The meaning of a text, token by token; none if a bracket is missing. */
  function Expand(env: Env, s: string): Option<string>
    decreases |s|
  {
    if s == "" then Some("")
    else if s[0] != '$' then Append([s[0]], Expand(env, s[1..]))
    else if |s| == 1 then Some("$")
    else if s[1] == '(' then
      var close := Close(s, 1, 0);
      if close.None? then None else Append(Lookup(env, s[2..close.value]), Expand(env, s[close.value + 1..]))
    else if s[1] == '$' then Append("$", Expand(env, s[2..]))
    else Append("$", Expand(env, s[1..]))
  }

  // ---------------------------------------------------------------------------------------------------
  // The loops
  // ---------------------------------------------------------------------------------------------------

  /**
   The search reads one character past the end before it notices; what it finds there, `beyond`, makes no difference.
   */
  method FindMatch(s: string, begin: nat, beyond: char) returns (match_: Option<nat>)
    requires begin < |s| && s[begin] == '('
    ensures match_ == Close(s, begin, 0)
  {
    var at := begin;
    var stack := DepthAfter(0, s[at]);
    while at != |s| && stack != 0
      invariant begin <= at <= |s|
      invariant at < |s| && stack == 0 ==> Close(s, begin, 0) == Some(at)
      invariant at < |s| && stack != 0 ==> Close(s, begin, 0) == Close(s, at + 1, stack)
      invariant at == |s| ==> Close(s, begin, 0) == None
      decreases |s| - at
    {
      at := at + 1;
      stack := DepthAfter(stack, if at < |s| then s[at] else beyond);
    }
    if at == |s| {
      return None;
    }
    return Some(at);
  }

  method FindDollar(s: string, from: nat) returns (dollar: nat)
    requires from <= |s|
    ensures from <= dollar <= |s| && (dollar < |s| ==> s[dollar] == '$')
    ensures forall i :: from <= i < dollar ==> s[i] != '$'
  {
    dollar := from;
    while dollar < |s| && s[dollar] != '$'
      invariant from <= dollar <= |s|
      invariant forall i :: from <= i < dollar ==> s[i] != '$'
    {
      dollar := dollar + 1;
    }
  }

  lemma {:induction false} LiteralPrefix(env: Env, s: string, from: nat, end: nat)
    requires from <= end <= |s| && forall i :: from <= i < end ==> s[i] != '$'
    ensures Expand(env, s[from..]) == Append(s[from..end], Expand(env, s[end..]))
    decreases end - from
  {
    if from < end {
      LiteralPrefix(env, s, from + 1, end);
      assert s[from..][1..] == s[from + 1..];
      assert [s[from]] + s[from + 1..end] == s[from..end];
      AppendTwice([s[from]], s[from + 1..end], Expand(env, s[end..]));
    } else {
      assert s[from..end] == "";
      AppendNothing(Expand(env, s[end..]));
    }
  }

  lemma AppendTwice(a: string, b: string, rest: Option<string>)
    ensures Append(a, Append(b, rest)) == Append(a + b, rest)
  {
    if rest.Some? {
      assert a + (b + rest.value) == a + b + rest.value;
    }
  }

  lemma AppendNothing(rest: Option<string>)
    ensures Append("", rest) == rest
  {
    if rest.Some? {
      assert "" + rest.value == rest.value;
    }
  }

  /** What has been written, what is waiting to be written, and the rest make up the whole. */
  ghost predicate Progress(env: Env, s: string, written: string, pos: nat, dollar: nat) {
    pos <= dollar <= |s| && Expand(env, s) == Append(written + s[pos..dollar], Expand(env, s[dollar..]))
  }

  /** Moving from one dollar to the next over text that means itself. */
  lemma NextDollar(env: Env, s: string, written: string, pos: nat, next: nat, dollar: nat)
    requires Progress(env, s, written, pos, next) && next <= dollar <= |s|
    requires forall i :: next <= i < dollar ==> s[i] != '$'
    ensures Progress(env, s, written, pos, dollar)
  {
    LiteralPrefix(env, s, next, dollar);
    AppendTwice(written + s[pos..next], s[next..dollar], Expand(env, s[dollar..]));
    assert written + s[pos..next] + s[next..dollar] == written + s[pos..dollar] by {
      assert s[pos..next] + s[next..dollar] == s[pos..dollar];
    }
  }

  lemma VariableStep(env: Env, s: string, written: string, pos: nat, dollar: nat, close: nat)
    requires Progress(env, s, written, pos, dollar) && dollar + 1 < |s| && s[dollar] == '$' && s[dollar + 1] == '('
    requires Close(s, dollar + 1, 0) == Some(close)
    ensures Progress(env, s, written + s[pos..dollar] + Lookup(env, s[dollar + 2..close]), close + 1, close + 1)
  {
    var rest := s[dollar..];
    CloseShifts(s, dollar, 1, 0);
    assert rest[2..close - dollar] == s[dollar + 2..close] && rest[close - dollar + 1..] == s[close + 1..];
    var value := Lookup(env, s[dollar + 2..close]);
    AppendTwice(written + s[pos..dollar], value, Expand(env, s[close + 1..]));
    assert written + s[pos..dollar] + value + s[close + 1..close + 1] == written + s[pos..dollar] + value;
  }

  lemma UnclosedStep(env: Env, s: string, written: string, pos: nat, dollar: nat)
    requires Progress(env, s, written, pos, dollar) && dollar + 1 < |s| && s[dollar] == '$' && s[dollar + 1] == '('
    requires Close(s, dollar + 1, 0) == None
    ensures Expand(env, s) == None
  {
    CloseShifts(s, dollar, 1, 0);
  }

  lemma {:induction false} CloseShifts(s: string, offset: nat, from: nat, depth: int)
    requires offset <= |s|
    ensures var (all, part) := (Close(s, offset + from, depth), Close(s[offset..], from, depth));
      if part.None? then all.None? else all == Some(offset + part.value)
    decreases |s| - from
  {
    if from < |s| - offset {
      assert s[offset..][from] == s[offset + from];
      CloseShifts(s, offset, from + 1, DepthAfter(depth, s[offset + from]));
    }
  }

  lemma {:induction false} CloseIsBracket(s: string, from: nat, depth: int)
    requires depth > 0 && Close(s, from, depth).Some?
    ensures s[Close(s, from, depth).value] == ')'
    decreases |s| - from
  {
    if DepthAfter(depth, s[from]) != 0 {
      CloseIsBracket(s, from + 1, DepthAfter(depth, s[from]));
    }
  }

  lemma CloseIsBehind(s: string, from: nat, close: nat)
    requires from < |s| && s[from] == '(' && Close(s, from, 0) == Some(close)
    ensures from < close < |s| && s[close] == ')'
  {
    assert Close(s, from + 1, 1) == Some(close);
    CloseIsBracket(s, from + 1, 1);
  }

  lemma EscapeStep(env: Env, s: string, written: string, pos: nat, dollar: nat)
    requires Progress(env, s, written, pos, dollar) && dollar + 1 < |s| && s[dollar] == '$' && s[dollar + 1] == '$'
    ensures Progress(env, s, written + s[pos..dollar + 1], dollar + 2, dollar + 2)
  {
    assert s[dollar..][2..] == s[dollar + 2..];
    AppendTwice(written + s[pos..dollar], "$", Expand(env, s[dollar + 2..]));
    assert s[pos..dollar] + "$" == s[pos..dollar + 1];
    assert written + s[pos..dollar] + "$" == written + (s[pos..dollar] + "$");
    assert written + s[pos..dollar + 1] + s[dollar + 2..dollar + 2] == written + s[pos..dollar + 1];
  }

  lemma PlainDollarStep(env: Env, s: string, written: string, pos: nat, dollar: nat)
    requires Progress(env, s, written, pos, dollar) && dollar < |s| && s[dollar] == '$'
    requires dollar + 1 < |s| ==> s[dollar + 1] != '(' && s[dollar + 1] != '$'
    ensures Progress(env, s, written, pos, dollar + 1)
  {
    if dollar + 1 < |s| {
      assert s[dollar..][1..] == s[dollar + 1..];
    } else {
      assert s[dollar..] == "$" && s[dollar + 1..] == "";
      assert "$" + "" == "$";
      assert Append("$", Expand(env, s[dollar + 1..])) == Expand(env, s[dollar..]);
    }
    AppendTwice(written + s[pos..dollar], "$", Expand(env, s[dollar + 1..]));
    assert s[pos..dollar] + "$" == s[pos..dollar + 1];
    assert written + s[pos..dollar] + "$" == written + (s[pos..dollar] + "$");
  }

  lemma ProgressStarts(env: Env, s: string)
    ensures Progress(env, s, "", 0, 0)
  {
    assert "" + s[0..0] == "" && s[0..] == s;
    AppendNothing(Expand(env, s));
  }

  lemma ProgressEnds(env: Env, s: string, written: string, pos: nat)
    requires Progress(env, s, written, pos, |s|)
    ensures Expand(env, s) == Some(written + s[pos..])
  {
    assert s[|s|..] == "" && s[pos..|s|] == s[pos..];
    assert written + s[pos..] + "" == written + s[pos..];
  }

  /** One round of the loop: what is written, and where writing and searching go on; or a bracket is missing. */
  method ExpandDollar(env: Env, s: string, beyond: char, pos: nat, dollar: nat, stream: string)
    returns (found: bool, stream': string, pos': nat, next: nat)
    requires pos <= dollar && Progress(env, s, stream, pos, dollar) && dollar + 1 < |s| && s[dollar] == '$'
    ensures !found ==> Expand(env, s) == None
    ensures found ==> dollar < next <= |s| && pos' <= |s|
    ensures found && pos' <= next ==> Progress(env, s, stream', pos', next)
    ensures found && pos' > next ==> pos' == next + 1 && s[next] == ')' && Progress(env, s, stream', pos', pos')
  {
    hide Expand, Progress, Close, Append, Lookup;
    found, stream', pos', next := true, stream, pos, dollar + 1;
    if s[next] == '(' {
      var close := FindMatch(s, next, beyond);
      if close.None? {
        UnclosedStep(env, s, stream, pos, dollar);
        return false, stream, pos, next;
      }
      VariableStep(env, s, stream, pos, dollar, close.value);
      CloseIsBehind(s, next, close.value);
      stream' := stream + s[pos..dollar] + Lookup(env, s[next + 1..close.value]);
      pos' := close.value + 1;
      next := close.value;
    } else if s[next] == '$' {
      EscapeStep(env, s, stream, pos, dollar);
      stream' := stream + s[pos..next];
      pos' := next + 1;
      next := next + 1;
    } else {
      PlainDollarStep(env, s, stream, pos, dollar);
    }
  }

  /** The loop over moving positions computes the meaning; it fails where a bracket is missing. */
  method ParseEnvVal(env: Env, s: string, beyond: char) returns (result: Option<string>)
    ensures result == Expand(env, s)
  {
    hide Expand, Append;
    var pos: nat := 0;
    var stream := "";
    var dollar := FindDollar(s, 0);
    ProgressStarts(env, s);
    NextDollar(env, s, stream, 0, 0, dollar);
    while dollar != |s|
      invariant pos <= dollar <= |s| && Progress(env, s, stream, pos, dollar)
      invariant dollar < |s| ==> s[dollar] == '$'
      decreases |s| - dollar
    {
      var next := dollar + 1;
      if next != |s| {
        var found;
        found, stream, pos, next := ExpandDollar(env, s, beyond, pos, dollar, stream);
        if !found {
          return None;
        }
        dollar := FindDollar(s, next);
        NextDollar(env, s, stream, pos, if pos <= next then next else pos, dollar);
      } else {
        PlainDollarStep(env, s, stream, pos, dollar);
        dollar := next;
      }
    }
    ProgressEnds(env, s, stream, pos);
    stream := stream + s[pos..];
    return Some(stream);
  }

  // ---------------------------------------------------------------------------------------------------
  // What expansion undoes, and what it looks up
  // ---------------------------------------------------------------------------------------------------

  function Escape(s: string): string {
    if s == "" then "" else (if s[0] == '$' then "$$" else [s[0]]) + Escape(s[1..])
  }

  /** An escaped text in front means itself, whatever follows. */
  lemma {:induction false} EscapedPrefix(env: Env, a: string, rest: string)
    ensures Expand(env, Escape(a) + rest) == Append(a, Expand(env, rest))
    decreases |a|
  {
    if a == "" {
      assert Escape(a) + rest == rest;
      AppendNothing(Expand(env, rest));
    } else {
      var tail := Escape(a[1..]) + rest;
      EscapedPrefix(env, a[1..], rest);
      EscapedChar(env, a, rest);
      assert [a[0]] + a[1..] == a;
      AppendTwice([a[0]], a[1..], Expand(env, rest));
    }
  }

  lemma EscapedChar(env: Env, a: string, rest: string)
    requires a != ""
    ensures Expand(env, Escape(a) + rest) == Append([a[0]], Expand(env, Escape(a[1..]) + rest))
  {
    var whole, tail := Escape(a) + rest, Escape(a[1..]) + rest;
    if a[0] == '$' {
      assert whole == "$$" + tail;
      assert whole[2..] == tail;
    } else {
      assert whole == [a[0]] + tail;
      assert whole[1..] == tail;
    }
  }

  /** Expansion undoes the doubling of every dollar. */
  lemma ExpandUndoesEscape(env: Env, s: string)
    ensures Expand(env, Escape(s)) == Some(s)
  {
    EscapedPrefix(env, s, "");
    assert Escape(s) + "" == Escape(s);
    assert s + "" == s;
  }

  /** The brackets of `v` from `from` on are balanced when `depth` are open. */
  predicate Balanced(v: string, from: nat, depth: nat)
    decreases |v| - from
  {
    if from >= |v| then depth == 0
    else DepthAfter(depth, v[from]) >= 0 && Balanced(v, from + 1, DepthAfter(depth, v[from]))
  }

  /** The bracket behind `v` closes the one before it exactly when the brackets of `v` are balanced. */
  lemma {:induction false} ClosesBehind(v: string, b: string, from: nat, depth: nat)
    requires from <= |v|
    ensures Close("(" + v + ")" + b, from + 1, depth + 1) == Some(|v| + 1) <==> Balanced(v, from, depth)
    decreases |v| - from
  {
    var s := "(" + v + ")" + b;
    if from == |v| {
      assert s[from + 1] == ')';
    } else {
      assert s[from + 1] == v[from];
      if DepthAfter(depth, v[from]) >= 0 {
        ClosesBehind(v, b, from + 1, DepthAfter(depth, v[from]));
      }
    }
  }

  /**
   `$(V)` between escaped text and anything else is the value of `V` in the environment, or nothing if `V` is not set,
   for every balanced `V`; what comes behind decides whether the whole has a meaning.
   */
  lemma VariableIsLookedUp(env: Env, a: string, v: string, b: string)
    requires Balanced(v, 0, 0)
    ensures var text := Escape(a) + ("$(" + v + ")" + b);
      match Expand(env, b)
      case None => Expand(env, text) == None
      case Some(rest) => Expand(env, text) == Some(a + (if v in env then env[v] else "") + rest)
  {
    EscapedPrefix(env, a, "$(" + v + ")" + b);
    VariableFirst(env, v, b);
    AppendTwice(a, Lookup(env, v), Expand(env, b));
  }

  /** A dollar before anything but a bracket or another dollar stands for itself, and so does a last one. */
  lemma LoneDollarStays(env: Env, a: string, c: char, b: string)
    requires c != '(' && c != '$'
    ensures Expand(env, Escape(a) + "$") == Some(a + "$")
    ensures match Expand(env, b)
            case None => Expand(env, Escape(a) + ("$" + [c] + b)) == None
            case Some(rest) => Expand(env, Escape(a) + ("$" + [c] + b)) == Some(a + "$" + [c] + rest)
  {
    EscapedPrefix(env, a, "$");
    EscapedPrefix(env, a, "$" + [c] + b);
    var text := "$" + [c] + b;
    assert text[1..] == [c] + b && text[1..][1..] == b;
    AppendTwice("$", [c], Expand(env, b));
    AppendTwice(a, "$" + [c], Expand(env, b));
    if Expand(env, b).Some? {
      assert a + ("$" + [c]) == a + "$" + [c];
    }
  }

  lemma VariableFirst(env: Env, v: string, b: string)
    requires Balanced(v, 0, 0)
    ensures Expand(env, "$(" + v + ")" + b) == Append(Lookup(env, v), Expand(env, b))
  {
    var rest, brackets := "$(" + v + ")" + b, "(" + v + ")" + b;
    assert rest[1..] == brackets;
    ClosesBehind(v, b, 0, 0);
    assert Close(brackets, 0, 0) == Close(brackets, 1, 1);
    CloseShifts(rest, 1, 0, 0);
    assert Close(rest, 1, 0) == Some(|v| + 2);
    assert rest[2..|v| + 2] == v && rest[|v| + 3..] == b;
  }

  /** How many more brackets close in `s` than open. */
  function Surplus(s: string): int {
    if s == "" then 0 else (if s[0] == ')' then 1 else if s[0] == '(' then -1 else 0) + Surplus(s[1..])
  }

  function SurplusTo(s: string, from: nat, i: nat): int
    requires from <= i <= |s|
  {
    Surplus(s[from..i])
  }

  /** A search with `depth` open brackets fails exactly if nothing that it passes closes so many. */
  lemma {:induction false} NeverClosesIff(s: string, from: nat, depth: int)
    requires depth > 0 && from <= |s|
    ensures Close(s, from, depth) == None <==> forall i :: from <= i <= |s| ==> SurplusTo(s, from, i) < depth
    decreases |s| - from
  {
    assert s[from..from] == "";
    if from < |s| {
      var next := DepthAfter(depth, s[from]);
      forall i | from < i <= |s| ensures SurplusTo(s, from, i) == depth - next + SurplusTo(s, from + 1, i) {
        assert s[from..i][0] == s[from] && s[from..i][1..] == s[from + 1..i];
      }
      if next > 0 {
        var behind := from + 1;
        NeverClosesIff(s, behind, next);
        if i :| behind <= i <= |s| && SurplusTo(s, behind, i) >= next {
          assert SurplusTo(s, from, i) >= depth;
        }
      } else {
        assert s[from + 1..from + 1] == "";
        assert SurplusTo(s, from, from + 1) == depth;
      }
    }
  }

  /** A variable that no beginning of what follows closes makes the whole text fail, whatever stands before it. */
  lemma UnclosedVariableFails(env: Env, a: string, v: string)
    requires forall i :: 0 <= i <= |v| ==> Surplus(v[..i]) <= 0
    ensures Expand(env, Escape(a) + ("$(" + v)) == None
  {
    var rest := "$(" + v;
    EscapedPrefix(env, a, rest);
    forall i | 2 <= i <= |rest| ensures SurplusTo(rest, 2, i) < 1 {
      assert rest[2..i] == v[..i - 2];
    }
    NeverClosesIff(rest, 2, 1);
  }
}
