/** The parser of the subtopic service: it turns the free-form text the AI
    gateway answered with into the list of subtopic names, along one of
    three paths (supabase/functions/generate-subtopics/index.ts, lines 74-97):
    the bracketed span handed to `JSON.parse`, the marker-stripping fallback
    when there is no span, and the length-filter fallback when the parse
    throws. */
module SubtopicParser {
  import opened Wrappers
  import opened Seqs
  import opened Text
  import opened JsonValues

  /** `JSON.parse`, a foreign call supplied by the caller: `None` stands for
      "it throws". Nothing is assumed about the shape of what it returns. */
  type JsonParser = string -> Option<Json>

  // ---------------------------------------------------------------------
  // Path 1: the span matched by /\[[\s\S]*\]/

  /** The pattern `/\[[\s\S]*\]/` matches `s[p..e]`: an opening bracket, any
      characters at all (line feeds included), a closing bracket. */
  ghost predicate SpanAt(s: string, p: int, e: int) {
    0 <= p && p + 2 <= e <= |s| && s[p] == '[' && s[e - 1] == ']'
  }

  /** `s[p..e]` is the match `String.prototype.match` reports for that
      greedy pattern: the leftmost start at which it matches, and there the
      longest span. */
  ghost predicate IsFirstMatch(s: string, p: int, e: int) {
    && SpanAt(s, p, e)
    && (forall q, e' :: 0 <= q < p ==> !SpanAt(s, q, e'))
    && (forall e' :: e < e' ==> !SpanAt(s, p, e'))
  }

  /** `content.match(/\[[\s\S]*\]/)?.[0]`: from the first `[` to the last `]`,
      when that `]` comes after that `[`. */
  function BracketSpan(s: string): (r: Option<string>)
    ensures r.Some? ==> |r.value| >= 2 && r.value[0] == '[' && r.value[|r.value| - 1] == ']'
    ensures r.Some? ==> exists p, e :: SpanAt(s, p, e) && r.value == s[p..e]
  {
    match (FirstIndex(s, '['), LastIndex(s, ']'))
    case (Some(i), Some(j)) => if i < j then Some(s[i..j + 1]) else None
    case _ => None
  }

  /** Any match of the pattern starts at or after the first `[` and ends at
      or before the last `]`. */
  lemma SpanWithinBrackets(s: string, p: int, e: int)
    requires SpanAt(s, p, e)
    ensures FirstIndex(s, '[').Some? && FirstIndex(s, '[').value <= p
    ensures LastIndex(s, ']').Some? && e - 1 <= LastIndex(s, ']').value
  {
  }

  /** The span exists exactly when some `]` follows some `[`, and then it is
      the leftmost-longest match of the pattern. */
  lemma BracketSpanIsFirstMatch(s: string)
    ensures BracketSpan(s).Some? <==> exists p, e :: SpanAt(s, p, e)
    ensures BracketSpan(s).Some? ==> exists p, e :: IsFirstMatch(s, p, e) && BracketSpan(s).value == s[p..e]
  {
    forall p, e | SpanAt(s, p, e)
      ensures FirstIndex(s, '[').Some? && LastIndex(s, ']').Some?
      ensures FirstIndex(s, '[').value < LastIndex(s, ']').value
    {
      SpanWithinBrackets(s, p, e);
    }
    if BracketSpan(s).Some? {
      var i, j := FirstIndex(s, '[').value, LastIndex(s, ']').value;
      forall q, e' | 0 <= q < i ensures !SpanAt(s, q, e') { }
      forall e' | j + 1 < e' ensures !SpanAt(s, i, e') { }
      assert IsFirstMatch(s, i, j + 1);
    }
  }

  /** Whatever surrounds a bracketed array is excluded, provided the prose
      before it holds no `[` and the prose after it no `]`. */
  lemma SpanExcludesProse(before: string, arr: string, after: string)
    requires |arr| >= 2 && arr[0] == '[' && arr[|arr| - 1] == ']'
    requires '[' !in before && ']' !in after
    ensures BracketSpan(before + arr + after) == Some(arr)
  {
    var s := before + arr + after;
    var p, e := |before|, |before| + |arr|;
    assert s[p..e] == arr;
    assert s[p] == '[' && s[e - 1] == ']';
    assert forall k :: 0 <= k < p ==> s[k] == before[k];
    assert forall k :: e <= k < |s| ==> s[k] == after[k - e];
    SpanWithinBrackets(s, p, e);
  }

  // ---------------------------------------------------------------------
  // Path 2: the marker-stripping fallback, used when there is no span

  /** The characters of the class `[-•*\d.]`. */
  predicate IsMarker(c: char) {
    c == '-' || c == '\U{2022}' || c == '*' || ('0' <= c <= '9') || c == '.'
  }

  predicate IsQuote(c: char) {
    c == '"' || c == '\''
  }

  /** `line.replace` of the pattern `^[-•*\d.]+\s*` by nothing: when the line starts with a marker
      character, the whole run of markers and the whitespace after it go;
      otherwise the line is unchanged. */
  function StripListMarker(s: string): (r: string)
    ensures |r| <= |s| && r == s[|s| - |r|..]
    ensures s == [] || !IsMarker(s[0]) ==> r == s
    ensures s != [] && IsMarker(s[0]) ==> |r| < |s| && (r == [] || !IsSpace(r[0]))
  {
    if s != [] && IsMarker(s[0]) then TrimStart(DropWhile(s, IsMarker)) else s
  }

  /** A run of markers is removed up to the first non-marker, and with it
      the whitespace that follows. */
  lemma StripMarkerRun(marker: string, rest: string)
    requires marker != [] && forall i :: 0 <= i < |marker| ==> IsMarker(marker[i])
    requires rest == [] || !IsMarker(rest[0])
    ensures StripListMarker(marker + rest) == TrimStart(rest)
  {
    assert (marker + rest)[0] == marker[0];
    DropWhileAppend(marker, rest, IsMarker);
  }

  /** `StripListMarker` removes exactly what the greedy pattern matches: a
      non-empty maximal run `s[..m]` of markers followed by the maximal run
      `s[m..k]` of whitespace; with no marker at the start, nothing. */
  lemma StripListMarkerMatch(s: string) returns (m: nat, k: nat)
    ensures m <= k <= |s| && StripListMarker(s) == s[k..]
    ensures m == 0 <==> s == [] || !IsMarker(s[0])
    ensures m == 0 ==> k == 0
    ensures m > 0 ==> (forall i :: 0 <= i < m ==> IsMarker(s[i])) && (m == |s| || !IsMarker(s[m]))
    ensures forall i :: m <= i < k ==> IsSpace(s[i])
    ensures m > 0 ==> k == |s| || !IsSpace(s[k])
  {
    if s != [] && IsMarker(s[0]) {
      m, k := DropWhileTwice(s, IsMarker, IsSpace);
      assert StripListMarker(s) == DropWhile(DropWhile(s, IsMarker), IsSpace);
    } else {
      m, k := 0, 0;
    }
  }

  /** `line.replace(/^["']|["']$/g, '')`: one leading quote and one trailing
      quote go, the trailing one only when it is not the character already
      removed. */
  function StripQuotes(s: string): (r: string)
    ensures |r| <= |s| <= |r| + 2
    ensures exists a: nat, b: nat ::
      (&& a <= 1 && a <= b <= |s| <= b + 1 && r == s[a..b]
       && (a == 1 <==> s != [] && IsQuote(s[0]))
       && (b < |s| <==> |s| > a && IsQuote(s[|s| - 1])))
  {
    var a := if s != [] && IsQuote(s[0]) then 1 else 0;
    var b := if |s| > a && IsQuote(s[|s| - 1]) then |s| - 1 else |s|;
    s[a..b]
  }

  /** Quoting a name and stripping the quotes gives the name back, whatever
      the name holds. */
  lemma StripQuotesOfQuoted(q: char, q': char, name: string)
    requires IsQuote(q) && IsQuote(q')
    ensures StripQuotes([q] + name + [q']) == name
  {
  }

  /** A quote at the front only is removed, and nothing else. */
  lemma StripQuotesOfLeading(q: char, name: string)
    requires IsQuote(q)
    requires name == [] || !IsQuote(name[|name| - 1])
    ensures StripQuotes([q] + name) == name
  {
    var s := [q] + name;
    assert s[0] == q && s[1..] == name;
    if name != [] {
      assert s[|s| - 1] == name[|name| - 1];
    }
  }

  /** A quote at the back only is removed, and nothing else; a lone quote
      leaves the empty string. */
  lemma StripQuotesOfTrailing(q: char, name: string)
    requires IsQuote(q)
    requires name == [] || !IsQuote(name[0])
    ensures StripQuotes(name + [q]) == name
  {
    var s := name + [q];
    assert s[|s| - 1] == q && s[..|s| - 1] == name;
    if name != [] {
      assert s[0] == name[0];
    }
  }

  /** A name that neither starts nor ends with a quote is left alone. */
  lemma StripQuotesOfUnquoted(name: string)
    requires name == [] || (!IsQuote(name[0]) && !IsQuote(name[|name| - 1]))
    ensures StripQuotes(name) == name
  {
  }

  /** The per-line cleaning of the marker fallback: marker prefix, then the
      quotes, then `trim()`. */
  function CleanLine(t: string): (r: string)
    ensures IsTrimmed(r)
  {
    Trim(StripQuotes(StripListMarker(t)))
  }

  /** A bulleted or numbered name comes out as the bare name: `- Algebra`,
      `1. Algebra` and `*Algebra` all give `Algebra`. */
  lemma CleanBulletedName(marker: string, gap: string, name: string)
    requires marker != [] && forall i :: 0 <= i < |marker| ==> IsMarker(marker[i])
    requires IsBlank(gap)
    requires name != [] && IsTrimmed(name) && !IsMarker(name[0])
    requires !IsQuote(name[0]) && !IsQuote(name[|name| - 1])
    ensures CleanLine(marker + gap + name) == name
  {
    var rest := gap + name;
    assert marker + gap + name == marker + rest;
    if gap != [] {
      assert rest[0] == gap[0];
      assert IsSpace(gap[0]);
    } else {
      assert rest == name;
    }
    StripMarkerRun(marker, rest);
    DropWhileAppend(gap, name, IsSpace);
    StripQuotesOfUnquoted(name);
    TrimOfTrimmed(name);
  }

  /** The marker run is greedy over digits: a name that itself begins with a
      digit loses it even with no space after it. */
  lemma DigitPrefixIsStripped()
    ensures CleanLine("3D Printing") == "D Printing"
  {
    assert "3D Printing" == "3" + "" + "D Printing";
    CleanBulletedName("3", "", "D Printing");
  }

  /** What the marker fallback makes of one line: `None` when it is dropped. */
  function MarkerStep(line: string): (r: Option<string>)
    ensures r.Some? ==> r.value != [] && IsTrimmed(r.value)
  {
    var t := Trim(line);
    if t == [] || t[0] == '[' || t[0] == ']' then None
    else
      var c := CleanLine(t);
      if c == [] then None else Some(c)
  }

  /** A line survives the marker fallback: its trimmed form is non-empty,
      does not start with a bracket, and is non-empty once cleaned. */
  ghost predicate SurvivesMarkerFallback(line: string) {
    var t := Trim(line);
    t != [] && t[0] != '[' && t[0] != ']' && CleanLine(t) != []
  }

  /** The marker-stripping fallback: split on line feeds, trim, drop blank
      and bracket lines, clean each line, drop the lines left empty. */
  function MarkerFallback(content: string): (r: seq<string>)
    ensures |r| <= |SplitLines(content)|
  {
    FilterMap(SplitLines(content), MarkerStep)
  }

  /** Every element of the marker fallback is a non-empty, trimmed, cleaned
      line of its own, the lines keep their order, and a line is used exactly
      when it survives the filters; so there are at most as many elements as
      lines. */
  lemma MarkerFallbackLines(content: string) returns (src: seq<nat>)
    ensures var lines, r := SplitLines(content), MarkerFallback(content);
      && |r| <= |lines|
      && |src| == |r|
      && StrictlyIncreasing(src)
      && (forall k :: 0 <= k < |r| ==>
            r[k] != [] && IsTrimmed(r[k]) && src[k] < |lines| && r[k] == CleanLine(Trim(lines[src[k]])))
      && (forall i :: 0 <= i < |lines| ==> (i in src <==> SurvivesMarkerFallback(lines[i])))
  {
    var lines := SplitLines(content);
    src := FilterMapSources(lines, MarkerStep);
    forall i | 0 <= i < |lines| ensures MarkerStep(lines[i]).Some? <==> SurvivesMarkerFallback(lines[i]) { }
  }

  /** A non-empty run of list-marker characters, such as `-`, `*` or `12.`. */
  ghost predicate IsMarkerRun(m: string) {
    m != [] && forall i :: 0 <= i < |m| ==> IsMarker(m[i])
  }

  /** A name the fallback gives back unchanged: non-empty, trimmed, on one
      line, and neither starting with a marker character nor starting or
      ending with a quote. */
  ghost predicate IsPlainName(name: string) {
    && name != [] && IsTrimmed(name) && '\n' !in name
    && !IsMarker(name[0]) && !IsQuote(name[0]) && !IsQuote(name[|name| - 1])
  }

  /** The lines of a bulleted list: each marker, a space, the name. */
  function Bulleted(markers: seq<string>, names: seq<string>): (lines: seq<string>)
    requires |markers| == |names|
    ensures |lines| == |names|
    ensures forall k :: 0 <= k < |names| ==> lines[k] == markers[k] + " " + names[k]
  {
    seq(|names|, k requires 0 <= k < |names| => markers[k] + " " + names[k])
  }

  /** An answer written as a bulleted or numbered list (one item per line)
      comes out of the marker fallback as exactly its names, in order. */
  lemma BulletedListFallback(markers: seq<string>, names: seq<string>)
    requires |markers| == |names| >= 1
    requires forall k :: 0 <= k < |markers| ==> IsMarkerRun(markers[k]) && '\n' !in markers[k]
    requires forall k :: 0 <= k < |names| ==> IsPlainName(names[k])
    ensures MarkerFallback(JoinLines(Bulleted(markers, names))) == names
  {
    var lines := Bulleted(markers, names);
    forall k | 0 <= k < |lines| ensures '\n' !in lines[k] {
      assert lines[k] == markers[k] + " " + names[k];
    }
    SplitJoinLines(lines);
    forall k | 0 <= k < |lines| ensures MarkerStep(lines[k]) == Some(names[k]) {
      BulletedLine(markers[k], names[k]);
    }
    FilterMapAllKept(lines, MarkerStep, names);
  }

  /** One bulleted line is kept by the marker fallback as its bare name. */
  lemma BulletedLine(marker: string, name: string)
    requires IsMarkerRun(marker) && IsPlainName(name)
    ensures MarkerStep(marker + " " + name) == Some(name)
  {
    BulletedLineCleans(marker, name);
    BulletedLineShape(marker, name);
    MarkerStepOfTrimmed(marker + " " + name);
  }

  lemma BulletedLineCleans(marker: string, name: string)
    requires IsMarkerRun(marker) && IsPlainName(name)
    ensures CleanLine(marker + " " + name) == name
  {
    assert IsBlank(" ");
    CleanBulletedName(marker, " ", name);
  }

  /** A bulleted line is trimmed and starts with no bracket. */
  lemma BulletedLineShape(marker: string, name: string)
    requires IsMarkerRun(marker) && IsPlainName(name)
    ensures var line := marker + " " + name; IsTrimmed(line) && line[0] != '[' && line[0] != ']'
  {
    var line := marker + " " + name;
    assert line[0] == marker[0] && IsMarker(line[0]);
    assert line[|line| - 1] == name[|name| - 1];
  }

  /** A trimmed line that starts with no bracket is kept as its cleaned form,
      when that is not empty. */
  lemma MarkerStepOfTrimmed(t: string)
    requires t != [] && IsTrimmed(t) && t[0] != '[' && t[0] != ']'
    requires CleanLine(t) != []
    ensures MarkerStep(t) == Some(CleanLine(t))
  {
    TrimOfTrimmed(t);
  }

  /** Content without an opening bracket always takes the marker fallback,
      whatever `JSON.parse` would do. */
  lemma NoBracketTakesMarkerPath(content: string, parseJson: JsonParser)
    requires '[' !in content
    ensures ParseSubtopics(content, parseJson) == StringArray(MarkerFallback(content))
  {
  }

  // ---------------------------------------------------------------------
  // Path 3: the length-filter fallback, used when `JSON.parse` throws

  /** What the length-filter fallback makes of one line. */
  function LengthStep(line: string): (r: Option<string>)
    ensures r.Some? ==> |r.value| > 2 && IsTrimmed(r.value)
  {
    var t := Trim(line);
    if |t| > 2 then Some(t) else None
  }

  /** `xs.slice(0, 10)`. */
  function FirstTen<T>(xs: seq<T>): (r: seq<T>)
    ensures |r| <= 10 && |r| <= |xs| && r == xs[..|r|]
    ensures |r| == 10 || r == xs
  {
    if |xs| <= 10 then xs else xs[..10]
  }

  /** The length-filter fallback: split on line feeds, trim, keep the lines
      longer than two characters, keep the first ten of them. */
  function LengthFallback(content: string): (r: seq<string>)
    ensures |r| <= 10 && |r| <= |SplitLines(content)|
  {
    FirstTen(FilterMap(SplitLines(content), LengthStep))
  }

  /** The length-filter fallback holds at most ten elements, each a trimmed
      line of at least three characters, in line order; a line is used
      exactly when it is long enough and it is among the first ten such. */
  lemma LengthFallbackLines(content: string) returns (src: seq<nat>)
    ensures var lines, r := SplitLines(content), LengthFallback(content);
      && |r| <= 10
      && |src| == |r|
      && StrictlyIncreasing(src)
      && (forall k :: 0 <= k < |r| ==>
            |r[k]| >= 3 && IsTrimmed(r[k]) && src[k] < |lines| && r[k] == Trim(lines[src[k]]))
      && (forall i :: 0 <= i < |lines| ==>
            (i in src <==> |Trim(lines[i])| > 2 && (|src| < 10 || i <= src[|src| - 1])))
  {
    var lines := SplitLines(content);
    var all := FilterMapSources(lines, LengthStep);
    src := FirstTenSelected(lines, FilterMap(lines, LengthStep), all);
  }

  /** The first ten of the lines the length filter keeps, and where each of
      them comes from. */
  lemma FirstTenSelected(lines: seq<string>, long: seq<string>, all: seq<nat>) returns (src: seq<nat>)
    requires Selects(lines, LengthStep, long, all)
    ensures var r := FirstTen(long);
      && |src| == |r|
      && StrictlyIncreasing(src)
      && (forall k :: 0 <= k < |r| ==>
            |r[k]| >= 3 && IsTrimmed(r[k]) && src[k] < |lines| && r[k] == Trim(lines[src[k]]))
      && (forall i :: 0 <= i < |lines| ==>
            (i in src <==> |Trim(lines[i])| > 2 && (|src| < 10 || i <= src[|src| - 1])))
  {
    var r := FirstTen(long);
    if |long| <= 10 {
      assert r == long;
      src := all;
      forall i | 0 <= i < |lines|
        ensures i in src <==> |Trim(lines[i])| > 2 && (|src| < 10 || i <= src[|src| - 1])
      {
        if i in src && |src| == 10 {
          var k :| 0 <= k < |src| && src[k] == i;
          assert k == |src| - 1 || src[k] < src[|src| - 1];
        }
      }
    } else {
      assert r == long[..10];
      SelectsPrefix(lines, LengthStep, long, all, 10);
      src := all[..10];
    }
    LengthTaken(lines, r, src);
  }

  /** Each element the length filter takes is its line, trimmed. */
  lemma LengthTaken(lines: seq<string>, r: seq<string>, src: seq<nat>)
    requires TakenFrom(lines, LengthStep, r, src)
    ensures forall k :: 0 <= k < |r| ==>
              |r[k]| >= 3 && IsTrimmed(r[k]) && src[k] < |lines| && r[k] == Trim(lines[src[k]])
  {
  }

  // ---------------------------------------------------------------------
  // The parser

  lemma MarkerFallbackElements(content: string)
    ensures forall k :: 0 <= k < |MarkerFallback(content)| ==>
              MarkerFallback(content)[k] != [] && IsTrimmed(MarkerFallback(content)[k])
  {
    var src := MarkerFallbackLines(content);
  }

  lemma LengthFallbackElements(content: string)
    ensures forall k :: 0 <= k < |LengthFallback(content)| ==>
              |LengthFallback(content)[k]| >= 3 && IsTrimmed(LengthFallback(content)[k])
  {
    var src := LengthFallbackLines(content);
  }

  /** The three paths of the parser. The parsed span is returned unchanged,
      whatever JSON value it is. Without a span the result is the marker
      fallback: an array of non-empty, trimmed strings. When the parse throws
      it is the length-filter fallback: an array of at most ten trimmed
      strings of at least three characters. */
  function ParseSubtopics(content: string, parseJson: JsonParser): (r: Json)
    ensures BracketSpan(content).Some? && parseJson(BracketSpan(content).value).Some? ==>
              r == parseJson(BracketSpan(content).value).value
    ensures BracketSpan(content).None? ==>
              && r == StringArray(MarkerFallback(content))
              && forall k :: 0 <= k < |r.items| ==>
                   r.items[k].JString? && r.items[k].str != [] && IsTrimmed(r.items[k].str)
    ensures BracketSpan(content).Some? && parseJson(BracketSpan(content).value).None? ==>
              && r == StringArray(LengthFallback(content))
              && |r.items| <= 10
              && forall k :: 0 <= k < |r.items| ==>
                   r.items[k].JString? && |r.items[k].str| >= 3 && IsTrimmed(r.items[k].str)
  {
    match BracketSpan(content)
    case Some(span) =>
      (match parseJson(span)
       case Some(v) => v
       case None =>
         LengthFallbackElements(content);
         StringArray(LengthFallback(content)))
    case None =>
      MarkerFallbackElements(content);
      StringArray(MarkerFallback(content))
  }
}
