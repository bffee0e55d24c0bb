/** Text templates of `src/template.rs`: `{{name}}` holes and their rendering. */
module Template {
  import opened Sequences
  import opened Wrappers

  // ----- The matches of the pattern \{\{([^}]*)\}\}

  /** The first position from `j` on that holds a closing brace, or the end. */
  function NameEnd(s: string, j: nat): (e: nat)
    requires j <= |s|
    ensures j <= e <= |s|
    ensures forall k :: j <= k < e ==> s[k] != '}'
    ensures e < |s| ==> s[e] == '}'
    decreases |s| - j
  {
    if j < |s| && s[j] != '}' then NameEnd(s, j + 1) else j
  }

  /** Where the match that starts at `i` ends, if one does. */
  function MatchEnd(s: string, i: nat): (end: Option<nat>)
    ensures end.Some? ==> i + 4 <= end.value <= |s|
  {
    if i + 4 <= |s| && s[i] == '{' && s[i + 1] == '{' then
      var e := NameEnd(s, i + 2);
      if e + 2 <= |s| && s[e + 1] == '}' then Some(e + 2) else None
    else None
  }

  /** `find_iter` from position `from` on. */
  function FindMatches(s: string, from: nat): seq<(nat, nat)>
    requires from <= |s|
    decreases |s| - from
  {
    if from == |s| then []
    else if MatchEnd(s, from).Some? then
      var end := MatchEnd(s, from).value;
      [(from, end)] + FindMatches(s, end)
    else FindMatches(s, from + 1)
  }

  datatype Template = Template(src: string, matches: seq<(nat, nat)>)

  function New(template: string): Template {
    Template(template, FindMatches(template, 0))
  }

  /** `parts.join("")` */
  function Join(parts: seq<string>): string {
    if parts == [] then "" else parts[0] + Join(parts[1..])
  }

  /** The value bound to the name inside `arg`, or `arg` itself. */
  function Value(arg: string, vals: map<string, string>): string
    requires |arg| >= 4
  {
    var name := arg[2..|arg| - 2];
    if name in vals then vals[name] else arg
  }

  // ----- What a template means: its own characters and holes, each filled on its own

  datatype Segment = Literal(c: char) | Hole(name: string)

  /** The template's characters and holes, from left to right. */
  function Segments(s: string, from: nat): seq<Segment>
    requires from <= |s|
    decreases |s| - from
  {
    if from == |s| then []
    else if MatchEnd(s, from).Some? then
      var end := MatchEnd(s, from).value;
      [Hole(s[from + 2..end - 2])] + Segments(s, end)
    else [Literal(s[from])] + Segments(s, from + 1)
  }

  function Braced(name: string): string {
    ['{', '{'] + name + ['}', '}']
  }

  function FillOne(segment: Segment, vals: map<string, string>): string {
    match segment
    case Literal(c) => [c]
    case Hole(name) => if name in vals then vals[name] else Braced(name)
  }

  /** The values are put in place of the holes; no value is looked at again. */
  function Fill(segments: seq<Segment>, vals: map<string, string>): string {
    if segments == [] then "" else FillOne(segments[0], vals) + Fill(segments[1..], vals)
  }

  /** The rendering of `s` from position `from` on. */
  function Substitute(s: string, from: nat, vals: map<string, string>): string
    requires from <= |s|
  {
    Fill(Segments(s, from), vals)
  }

  lemma FillCons(segment: Segment, rest: seq<Segment>, vals: map<string, string>)
    ensures Fill([segment] + rest, vals) == FillOne(segment, vals) + Fill(rest, vals)
  {
    assert ([segment] + rest)[1..] == rest;
  }

  lemma NameInBraces(s: string, i: nat, e: nat)
    requires MatchEnd(s, i) == Some(e)
    ensures s[i..e] == Braced(s[i + 2..e - 2])
    ensures s[i..e][2..e - i - 2] == s[i + 2..e - 2]
  {
    var name := NameEnd(s, i + 2);
    assert e == name + 2 && s[name] == '}' && s[name + 1] == '}';
  }

  lemma SubstituteHole(s: string, i: nat, e: nat, vals: map<string, string>)
    requires MatchEnd(s, i) == Some(e)
    ensures Substitute(s, i, vals) == Value(s[i..e], vals) + Substitute(s, e, vals)
  {
    NameInBraces(s, i, e);
    var arg, hole, rest := s[i..e], Hole(s[i + 2..e - 2]), Segments(s, e);
    assert |arg| - 2 == e - i - 2;
    assert Segments(s, i) == [hole] + rest;
    FillCons(hole, rest, vals);
    assert Value(arg, vals) == FillOne(hole, vals);
  }

  lemma SubstituteLiteral(s: string, i: nat, vals: map<string, string>)
    requires i < |s| && MatchEnd(s, i).None?
    ensures Substitute(s, i, vals) == [s[i]] + Substitute(s, i + 1, vals)
  {
    FillCons(Literal(s[i]), Segments(s, i + 1), vals);
  }

  /** The parts are the result up to position `from`. */
  ghost predicate Rendered(src: string, vals: map<string, string>, parts: seq<string>, from: nat) {
    from <= |src| && Join(parts) + Substitute(src, from, vals) == Substitute(src, 0, vals)
  }

  lemma AppendPart(src: string, vals: map<string, string>, parts: seq<string>, from: nat, part: string, to: nat)
    requires Rendered(src, vals, parts, from) && to <= |src|
    requires Substitute(src, from, vals) == part + Substitute(src, to, vals)
    ensures Rendered(src, vals, parts + [part], to)
  {
    JoinSnoc(parts, part);
    Assoc(Join(parts), part, Substitute(src, to, vals));
  }

  lemma AllRendered(src: string, vals: map<string, string>, parts: seq<string>)
    requires Rendered(src, vals, parts, |src|)
    ensures Join(parts) == Substitute(src, 0, vals)
  {
    assert Join(parts) + "" == Join(parts);
  }

  /** The end of the match before match `i`. */
  function PreviousEnd(matches: seq<(nat, nat)>, i: nat): Option<nat>
    requires i <= |matches|
  {
    if i == 0 then None else Some(matches[i - 1].1)
  }

  /** How far the text is rendered in front of turn `i`: the first hole, or the end of the previous one. */
  function Reached(matches: seq<(nat, nat)>, i: nat): nat
    requires i <= |matches| && matches != []
  {
    if i == 0 then matches[0].0 else matches[i - 1].1
  }

  /** One turn of the loop: the text since the previous hole, then the hole's value. */
  method RenderHole(src: string, vals: map<string, string>, matches: seq<(nat, nat)>, i: nat,
                    parts: seq<string>, prevEnd: Option<nat>)
    returns (longer: seq<string>)
    requires matches == FindMatches(src, 0) && i < |matches| && prevEnd == PreviousEnd(matches, i)
    requires Rendered(src, vals, parts, Reached(matches, i))
    ensures Rendered(src, vals, longer, Reached(matches, i + 1))
  {
    var (start, end) := matches[i];
    MatchesFrom(src, i);
    longer := parts;
    if prevEnd.Some? {
      LiteralBefore(src, prevEnd.value, vals);
      AppendPart(src, vals, parts, prevEnd.value, src[prevEnd.value..start], start);
      longer := longer + [src[prevEnd.value..start]];
    }
    var arg := src[start..end];
    SubstituteHole(src, start, end, vals);
    AppendPart(src, vals, longer, start, Value(arg, vals), end);
    longer := longer + [Value(arg, vals)];
  }

  /** Before the loop: the text in front of the first hole, if there is any. */
  method RenderStart(src: string, vals: map<string, string>, matches: seq<(nat, nat)>) returns (parts: seq<string>)
    requires matches == FindMatches(src, 0) && matches != []
    ensures Rendered(src, vals, parts, Reached(matches, 0))
  {
    var first := matches[0].0;
    FirstMatch(src, 0);
    LiteralBefore(src, 0, vals);
    parts := [];
    if first > 0 {
      parts := [src[0..first]];
    }
    assert Join(parts) == src[0..first];
  }

  /** After the loop: the text behind the last hole, if there is any, and all parts in one. */
  method RenderEnd(src: string, vals: map<string, string>, matches: seq<(nat, nat)>, parts: seq<string>, prevEnd: nat)
    returns (text: string)
    requires matches == FindMatches(src, 0) && matches != [] && prevEnd == Reached(matches, |matches|)
    requires Rendered(src, vals, parts, prevEnd)
    ensures text == Substitute(src, 0, vals)
  {
    MatchesFrom(src, |matches|);
    var all := parts;
    if prevEnd < |src| {
      RestIsLiteral(src, prevEnd, vals);
      AppendPart(src, vals, parts, prevEnd, src[prevEnd..|src|], |src|);
      all := parts + [src[prevEnd..|src|]];
    }
    AllRendered(src, vals, all);
    return Join(all);
  }

  method RenderNamed(template: Template, vals: map<string, string>) returns (text: string)
    requires template == New(template.src)
    ensures text == Substitute(template.src, 0, vals)
  {
    var src, matches := template.src, template.matches;
    if matches == [] {
      LiteralEnd(src, 0, vals);
      return src;
    }
    var parts := RenderStart(src, vals, matches);
    var prevEnd: Option<nat> := None;
    for i := 0 to |matches|
      invariant prevEnd == PreviousEnd(matches, i)
      invariant Rendered(src, vals, parts, Reached(matches, i))
    {
      parts := RenderHole(src, vals, matches, i, parts, prevEnd);
      prevEnd := Some(matches[i].1);
    }
    text := RenderEnd(src, vals, matches, parts, prevEnd.value);
  }

  lemma {:induction false} JoinSnoc(parts: seq<string>, part: string)
    ensures Join(parts + [part]) == Join(parts) + part
  {
    if parts == [] {
      assert parts + [part] == [part];
    } else {
      JoinSnoc(parts[1..], part);
      assert (parts + [part])[1..] == parts[1..] + [part];
    }
  }

  /** Without a further match the rest is copied. */
  lemma {:induction false} LiteralEnd(s: string, from: nat, vals: map<string, string>)
    requires from <= |s| && FindMatches(s, from) == []
    ensures Substitute(s, from, vals) == s[from..]
    decreases |s| - from
  {
    if from < |s| {
      LiteralEnd(s, from + 1, vals);
      SubstituteLiteral(s, from, vals);
      assert s[from..] == [s[from]] + s[from + 1..];
    }
  }

  lemma RestIsLiteral(s: string, from: nat, vals: map<string, string>)
    requires from <= |s| && FindMatches(s, from) == []
    ensures Substitute(s, from, vals) == s[from..|s|] + Substitute(s, |s|, vals)
  {
    LiteralEnd(s, from, vals);
    assert s[from..|s|] + "" == s[from..];
  }

  lemma SliceCons(s: string, a: nat, b: nat)
    requires a < b <= |s|
    ensures s[a..b] == [s[a]] + s[a + 1..b]
  {
  }

  lemma {:induction false} FirstMatch(s: string, from: nat)
    requires from <= |s| && FindMatches(s, from) != []
    ensures var (start, end) := FindMatches(s, from)[0];
            && from <= start && MatchEnd(s, start) == Some(end)
            && FindMatches(s, end) == FindMatches(s, from)[1..]
    decreases |s| - from
  {
    if MatchEnd(s, from).None? {
      FirstMatch(s, from + 1);
    }
  }

  /** Behind the first `i` matches the others follow. */
  lemma {:induction false} MatchesFrom(s: string, i: nat)
    requires i <= |FindMatches(s, 0)|
    ensures var matches := FindMatches(s, 0);
            var from := if i == 0 then 0 else matches[i - 1].1;
            && from <= |s| && FindMatches(s, from) == matches[i..]
            && (i < |matches| ==> MatchEnd(s, matches[i].0) == Some(matches[i].1))
    decreases i
  {
    if i > 0 {
      var matches := FindMatches(s, 0);
      MatchesFrom(s, i - 1);
      var from := if i == 1 then 0 else matches[i - 2].1;
      assert matches[i - 1..][0] == matches[i - 1] && matches[i - 1..][1..] == matches[i..];
      FirstMatch(s, from);
      if i < |matches| {
        FirstMatch(s, matches[i - 1].1);
        assert matches[i..][0] == matches[i];
      }
    } else if FindMatches(s, 0) != [] {
      FirstMatch(s, 0);
    }
  }

  /** Up to the next match the text is copied. */
  lemma {:induction false} LiteralBefore(s: string, from: nat, vals: map<string, string>)
    requires from <= |s| && FindMatches(s, from) != []
    ensures var start := FindMatches(s, from)[0].0;
            from <= start <= |s| && Substitute(s, from, vals) == s[from..start] + Substitute(s, start, vals)
    decreases |s| - from
  {
    FirstMatch(s, from);
    var start := FindMatches(s, from)[0].0;
    if MatchEnd(s, from).None? {
      LiteralBefore(s, from + 1, vals);
      SubstituteLiteral(s, from, vals);
      Assoc([s[from]], s[from + 1..start], Substitute(s, start, vals));
      SliceCons(s, from, start);
    } else {
      assert s[from..start] == [];
    }
  }

  // ----- The matches are the leftmost ones that do not overlap

  /** `s[i..e]` matches the pattern. */
  ghost predicate IsMatch(s: string, i: nat, e: nat) {
    && i + 4 <= e <= |s|
    && s[i] == '{' && s[i + 1] == '{' && s[e - 2] == '}' && s[e - 1] == '}'
    && forall k :: i + 2 <= k < e - 2 ==> s[k] != '}'
  }

  lemma MatchEndIsMatch(s: string, i: nat, e: nat)
    ensures MatchEnd(s, i) == Some(e) <==> IsMatch(s, i, e)
  {
    if IsMatch(s, i, e) {
      assert s[e - 2] == '}';
      assert NameEnd(s, i + 2) == e - 2;
    }
  }

  ghost predicate NoMatchStarts(s: string, lo: nat, hi: nat) {
    forall i: nat, e: nat :: lo <= i < hi ==> !IsMatch(s, i, e)
  }

  /** Each match starts where the first one after the previous match's end starts; none is left out. */
  ghost predicate Leftmost(s: string, from: nat, matches: seq<(nat, nat)>)
    decreases |matches|
  {
    if matches == [] then NoMatchStarts(s, from, |s|)
    else
      var (start, end) := matches[0];
      from <= start && IsMatch(s, start, end) && NoMatchStarts(s, from, start) && Leftmost(s, end, matches[1..])
  }

  lemma {:induction false} FindMatchesIsLeftmost(s: string, from: nat)
    requires from <= |s|
    ensures Leftmost(s, from, FindMatches(s, from))
    decreases |s| - from
  {
    if from < |s| {
      forall e: nat ensures MatchEnd(s, from) == Some(e) <==> IsMatch(s, from, e) {
        MatchEndIsMatch(s, from, e);
      }
      match MatchEnd(s, from)
      case Some(end) =>
        FindMatchesIsLeftmost(s, end);
        assert FindMatches(s, from)[1..] == FindMatches(s, end);
      case None =>
        FindMatchesIsLeftmost(s, from + 1);
        SkipOne(s, from, FindMatches(s, from + 1));
    }
  }

  lemma SkipOne(s: string, from: nat, matches: seq<(nat, nat)>)
    requires Leftmost(s, from + 1, matches)
    requires forall e: nat :: !IsMatch(s, from, e)
    ensures Leftmost(s, from, matches)
  {
  }

  // ----- Templates that render to themselves

  lemma {:induction false} NothingBoundKeepsSource(s: string, from: nat)
    requires from <= |s|
    ensures Substitute(s, from, map[]) == s[from..]
    decreases |s| - from
  {
    if from < |s| {
      match MatchEnd(s, from)
      case Some(end) =>
        SubstituteHole(s, from, end, map[]);
        NothingBoundKeepsSource(s, end);
        SplitTail(s, from, end);
      case None =>
        SubstituteLiteral(s, from, map[]);
        NothingBoundKeepsSource(s, from + 1);
        SplitTail(s, from, from + 1);
        assert s[from..from + 1] == [s[from]];
    }
  }

  lemma {:induction false} FillWithOwnBraces(segments: seq<Segment>, vals: map<string, string>)
    requires forall name :: name in vals && Hole(name) in segments ==> vals[name] == Braced(name)
    ensures Fill(segments, vals) == Fill(segments, map[])
  {
    if segments != [] {
      FillWithOwnBraces(segments[1..], vals);
      assert segments[0] in segments;
      assert FillOne(segments[0], vals) == FillOne(segments[0], map[]);
    }
  }

  /** If every name of the template is unbound, or bound to its own braces, rendering returns the template. */
  lemma OwnBracesKeepSource(s: string, vals: map<string, string>)
    requires forall name :: name in vals && Hole(name) in Segments(s, 0) ==> vals[name] == Braced(name)
    ensures Substitute(s, 0, vals) == s
  {
    FillWithOwnBraces(Segments(s, 0), vals);
    NothingBoundKeepsSource(s, 0);
  }
}
