/** Helpers that read what an `openclaw` command printed: `trimOutputBlock`, which shortens
    output for display (src/server.js, lines 1095-1100), and `parseLooseJson`, which finds the
    JSON in output that may carry log lines around it (src/server.js, lines 1032-1053).
    `JSON.parse` is passed in as a function. */
module CommandOutput {
  import opened Text
  import opened Json

  /** The default of `maxChars`. */
  const DefaultMaxChars: nat := 1200

  /** What replaces the cut-off part of a long output. */
  function TruncationNote(dropped: nat): string {
    "\n...(truncated " + NatToString(dropped) + " chars)"
  }

  /** `trimOutputBlock(output, maxChars)`: the trimmed output when it fits, else its first
      `maxChars` characters followed by a note saying how many were cut off. */
  function TrimOutputBlock(output: string, maxChars: nat): (r: string)
    ensures r == "" <==> Trim(output) == ""
    ensures |Trim(output)| <= maxChars ==> r == Trim(output)
    ensures |Trim(output)| > maxChars ==>
      |r| > maxChars && r[..maxChars] == Trim(output)[..maxChars]
    ensures |Trim(output)| > maxChars ==>
      r[maxChars..] == TruncationNote(|Trim(output)| - maxChars)
  {
    var text := Trim(output);
    if text == "" then ""
    else if |text| <= maxChars then text
    else text[..maxChars] + TruncationNote(|text| - maxChars)
  }

  /** Nothing is lost without a trace: the note that replaces the cut-off part of a long
      output (`TrimOutputBlock`'s contract says it follows the first `maxChars` characters)
      carries the count between its 15 leading and 7 trailing characters, and that count
      reads back as the number of characters dropped. */
  lemma TruncationAccountsForAll(dropped: nat)
    ensures var note := TruncationNote(dropped);
      |note| == 15 + |NatToString(dropped)| + 7 && ParseInt(note[15..|note| - 7]) == Some(dropped)
  {
    var note := TruncationNote(dropped);
    assert note[15..|note| - 7] == NatToString(dropped) by {
      Middle("\n...(truncated ", NatToString(dropped), " chars)", note);
    }
    ParseIntNatToString(dropped);
  }

  lemma Middle(before: string, middle: string, after: string, s: string)
    requires s == before + middle + after
    ensures |s| == |before| + |middle| + |after| && s[|before|..|s| - |after|] == middle
  {
  }

  /** Output that fits comes back unchanged when trimmed for display a second time. */
  lemma ShortOutputIdempotent(output: string, maxChars: nat)
    requires |Trim(output)| <= maxChars
    ensures TrimOutputBlock(TrimOutputBlock(output, maxChars), maxChars) == TrimOutputBlock(output, maxChars)
  {
    TrimIdempotent(output);
  }

  predicate IsOpener(c: char) {
    c == '[' || c == '{'
  }

  predicate IsCloser(c: char) {
    c == ']' || c == '}'
  }

  /** `s.indexOf(c)` for one character: -1 when it does not occur. */
  function IndexOfChar(s: string, c: char): (r: int)
    ensures -1 <= r < |s|
    ensures r >= 0 ==> s[r] == c
    ensures r < 0 <==> c !in s
    ensures forall i :: 0 <= i < r || (r < 0 && 0 <= i < |s|) ==> s[i] != c
  {
    var i := FindChar(s, c);
    assert forall k :: 0 <= k < i ==> s[..i][k] == s[k];
    if i == |s| then (assert s[..i] == s; -1) else i
  }

  /** `s.lastIndexOf(c)` for one character: -1 when it does not occur. */
  function LastIndexOf(s: string, c: char): (r: int)
    ensures -1 <= r < |s|
    ensures r >= 0 ==> s[r] == c
    ensures forall i :: r < i < |s| ==> s[i] != c
  {
    if s == [] then -1
    else if s[|s| - 1] == c then |s| - 1
    else LastIndexOf(s[..|s| - 1], c)
  }

  /** The part of `text` `parseLooseJson` falls back to, as the first and last index: from
      the first `[` or `{` to the last `]` or `}`. There is none when no opening bracket has a
      closing one after it. */
  function BracketWindow(text: string): (w: Option<(nat, nat)>)
    ensures w.Some? ==> w.value.0 < w.value.1 < |text|
    ensures w.Some? ==> IsOpener(text[w.value.0]) && IsCloser(text[w.value.1])
    ensures w.Some? ==> forall i :: 0 <= i < w.value.0 ==> !IsOpener(text[i])
    ensures w.Some? ==> forall i :: w.value.1 < i < |text| ==> !IsCloser(text[i])
    ensures w.None? ==> forall i, j :: 0 <= i < j < |text| && IsOpener(text[i]) ==> !IsCloser(text[j])
  {
    var square := IndexOfChar(text, '[');
    var curly := IndexOfChar(text, '{');
    if square < 0 && curly < 0 then None
    else
      var start := if square < 0 then curly else if curly < 0 || square < curly then square else curly;
      var squareEnd := LastIndexOf(text, ']');
      var curlyEnd := LastIndexOf(text, '}');
      var end := if squareEnd < curlyEnd then curlyEnd else squareEnd;
      if end <= start then None
      else Some((start, end))
  }

  /** `JSON.parse`: None when it throws. */
  type JsonParse = string -> Option<Json>

  /** The text of the bracket window, if there is one. */
  function WindowText(text: string): (r: Option<string>)
    ensures r.None? <==> BracketWindow(text).None?
    ensures r.Some? ==> r.value == text[BracketWindow(text).value.0..BracketWindow(text).value.1 + 1]
  {
    var w := BracketWindow(text);
    if w.None? then None else Some(text[w.value.0..w.value.1 + 1])
  }

  /** `parseLooseJson(output)`: the trimmed output parsed whole if that succeeds, else its
      bracket window parsed, else nothing. (A parsed `null` is `Some(JNull)`; the caller treats
      it like nothing.) */
  function ParseLooseJson(output: string, parse: JsonParse): (r: Option<Json>)
    ensures Trim(output) == "" ==> r.None?
    ensures Trim(output) != "" && parse(Trim(output)).Some? ==> r == parse(Trim(output))
    ensures Trim(output) != "" && parse(Trim(output)).None? && WindowText(Trim(output)).None? ==> r.None?
    ensures Trim(output) != "" && parse(Trim(output)).None? && WindowText(Trim(output)).Some? ==>
      r == parse(WindowText(Trim(output)).value)
  {
    var text := Trim(output);
    if text == "" then None
    else if parse(text).Some? then parse(text)
    else
      match WindowText(text)
      case None => None
      case Some(inner) => parse(inner)
  }

  predicate NoOpener(s: string) {
    forall i :: 0 <= i < |s| ==> !IsOpener(s[i])
  }

  predicate NoCloser(s: string) {
    forall i :: 0 <= i < |s| ==> !IsCloser(s[i])
  }

  /** JSON wrapped in log noise: when nothing before it opens a bracket and nothing after it
      closes one, the bracket window is exactly the JSON text. */
  lemma WindowOfEmbedded(prefix: string, body: string, suffix: string, text: string)
    requires |body| >= 2 && IsOpener(body[0]) && IsCloser(body[|body| - 1])
    requires NoOpener(prefix) && NoCloser(suffix)
    requires text == prefix + body + suffix
    ensures BracketWindow(text) == Some((|prefix|, |prefix| + |body| - 1))
  {
    EmbeddedEdges(prefix, body, suffix, text);
    var w := BracketWindow(text);
  }

  /** Where the brackets of the embedded text are, and that the noise around it has none. */
  lemma EmbeddedEdges(prefix: string, body: string, suffix: string, text: string)
    requires |body| >= 2 && IsOpener(body[0]) && IsCloser(body[|body| - 1])
    requires NoOpener(prefix) && NoCloser(suffix)
    requires text == prefix + body + suffix
    ensures IsOpener(text[|prefix|]) && IsCloser(text[|prefix| + |body| - 1])
    ensures forall i :: 0 <= i < |prefix| ==> !IsOpener(text[i])
    ensures forall i :: |prefix| + |body| <= i < |text| ==> !IsCloser(text[i])
  {
    assert forall i :: |prefix| + |body| <= i < |text| ==> text[i] == suffix[i - |prefix| - |body|];
  }

  /** So a command that prints a line before and after its JSON still has its JSON read, as
      long as the whole output is not JSON itself. */
  lemma ParsesEmbeddedJson(prefix: string, body: string, suffix: string, output: string, parse: JsonParse)
    requires |body| >= 2 && IsOpener(body[0]) && IsCloser(body[|body| - 1])
    requires NoOpener(prefix) && NoCloser(suffix)
    requires prefix == [] || !IsJsSpace(prefix[0])
    requires suffix == [] || !IsJsSpace(suffix[|suffix| - 1])
    requires output == prefix + body + suffix && parse(output).None?
    ensures ParseLooseJson(output, parse) == parse(body)
  {
    EmbeddedIsTrimmed(prefix, body, suffix, output);
    WindowOfEmbedded(prefix, body, suffix, output);
    SliceOfEmbedded(prefix, body, suffix, output);
  }

  lemma SliceOfEmbedded(prefix: string, body: string, suffix: string, output: string)
    requires output == prefix + body + suffix
    ensures output[|prefix|..|prefix| + |body|] == body
  {
  }

  lemma EmbeddedIsTrimmed(prefix: string, body: string, suffix: string, output: string)
    requires |body| >= 2 && IsOpener(body[0]) && IsCloser(body[|body| - 1])
    requires prefix == [] || !IsJsSpace(prefix[0])
    requires suffix == [] || !IsJsSpace(suffix[|suffix| - 1])
    requires output == prefix + body + suffix
    ensures Trim(output) == output
  {
    assert output[0] == if prefix == [] then body[0] else prefix[0];
    assert output[|output| - 1] == if suffix == [] then body[|body| - 1] else suffix[|suffix| - 1];
    TrimFixed(output);
  }
}
