/** The text chunker `PollyTTS._chunk_text`: it splits text into slices of at
    most `maxLen` characters, cutting just after the last newline or space of a
    window that does not reach the end of the text. */
module Chunker {
  import opened PyValues

  /** The limit used by every caller (the service accepts about 3000 characters). */
  const DefaultMaxLength: nat := 2900

  /** The characters a natural cut ends on. */
  predicate IsBreak(c: char) {
    c == '\n' || c == ' '
  }

  /** Python's `s.rfind(c)` for a one-character needle. */
  function RFindChar(s: string, c: char): (r: int)
    ensures -1 <= r < |s|
    ensures r >= 0 ==> s[r] == c
    ensures forall j :: r < j < |s| ==> s[j] != c
  {
    if s == [] then -1
    else if s[|s| - 1] == c then |s| - 1
    else RFindChar(s[..|s| - 1], c)
  }

  /** Python's `s.rfind(". ")`. */
  function RFindDotSpace(s: string): (r: int)
    ensures r == -1 || 0 <= r < |s| - 1
    ensures r >= 0 ==> s[r] == '.' && s[r + 1] == ' '
    ensures forall j :: r < j < |s| - 1 ==> !(s[j] == '.' && s[j + 1] == ' ')
  {
    if |s| < 2 then -1
    else if s[|s| - 2] == '.' && s[|s| - 1] == ' ' then |s| - 2
    else RFindDotSpace(s[..|s| - 1])
  }

  function Max(a: int, b: int): int {
    if a >= b then a else b
  }

  /** `max(w.rfind("\n"), w.rfind(". "), w.rfind(" "))`: the greatest of the
      three indices, not a priority order. */
  function LastBreak(w: string): int {
    Max(Max(RFindChar(w, '\n'), RFindDotSpace(w)), RFindChar(w, ' '))
  }

  /** The ". " search never decides the cut: the space inside a ". " match always
      scores one higher. */
  lemma DotSpaceNeverDecides(w: string)
    ensures LastBreak(w) == Max(RFindChar(w, '\n'), RFindChar(w, ' '))
  {
    var d, sp := RFindDotSpace(w), RFindChar(w, ' ');
    if d >= 0 {
      assert w[d + 1] == ' ';
      assert sp >= d + 1;
    }
  }

  /** So the cut index is the last newline or space of the window, or -1 when
      it has neither. */
  lemma LastBreakIsLastNewlineOrSpace(w: string)
    ensures -1 <= LastBreak(w) < |w|
    ensures LastBreak(w) >= 0 ==> IsBreak(w[LastBreak(w)])
    ensures forall j :: LastBreak(w) < j < |w| ==> !IsBreak(w[j])
  {
    DotSpaceNeverDecides(w);
    var n, sp := RFindChar(w, '\n'), RFindChar(w, ' ');
    forall j | Max(n, sp) < j < |w| ensures !IsBreak(w[j]) {
      assert w[j] != '\n' && w[j] != ' ';
    }
  }

  /** Where the chunk starting at `start` ends (the value `end` takes in one
      iteration of the loop). */
  function CutEnd(text: string, start: nat, maxLen: nat): (end: nat)
    requires start < |text| && 0 < maxLen
    ensures start < end <= |text| && end - start <= maxLen
  {
    var end := if start + maxLen < |text| then start + maxLen else |text|;
    if end < |text| then
      var b := LastBreak(text[start..end]);
      if b > 0 then start + b + 1 else end
    else end
  }

  /** The chunks the loop appends from position `start` on. */
  function ChunksFrom(text: string, start: nat, maxLen: nat): seq<string>
    requires start <= |text| && 0 < maxLen
    decreases |text| - start
  {
    if start == |text| then []
    else
      var end := CutEnd(text, start, maxLen);
      [text[start..end]] + ChunksFrom(text, end, maxLen)
  }

  lemma ChunksFromStep(text: string, start: nat, maxLen: nat)
    requires start < |text| && 0 < maxLen
    ensures ChunksFrom(text, start, maxLen)
         == [text[start..CutEnd(text, start, maxLen)]] + ChunksFrom(text, CutEnd(text, start, maxLen), maxLen)
  {
  }

  /** One more iteration keeps "chunks so far, then the chunks still to come" unchanged. */
  lemma ChunksFromAppend(text: string, start: nat, maxLen: nat, done: seq<string>)
    requires start < |text| && 0 < maxLen
    ensures var end := CutEnd(text, start, maxLen);
            done + ChunksFrom(text, start, maxLen) == (done + [text[start..end]]) + ChunksFrom(text, end, maxLen)
  {
    ChunksFromStep(text, start, maxLen);
  }

  /** What `_chunk_text(text, maxLen)` returns. */
  function Chunks(text: string, maxLen: nat): seq<string>
    requires 0 < maxLen
  {
    if |text| <= maxLen then [text] else ChunksFrom(text, 0, maxLen)
  }

  /** `_chunk_text`. With `maxLen == 0` the source loops forever on non-empty
      text, so a positive limit is required. */
  method ChunkText(text: string, maxLen: nat) returns (chunks: seq<string>)
    requires 0 < maxLen
    ensures chunks == Chunks(text, maxLen)
  {
    if |text| <= maxLen {
      return [text];
    }
    chunks := [];
    var start := 0;
    ghost var all := ChunksFrom(text, 0, maxLen);
    while start < |text|
      invariant start <= |text|
      invariant chunks + ChunksFrom(text, start, maxLen) == all
      decreases |text| - start
    {
      var end := if start + maxLen < |text| then start + maxLen else |text|;
      var slice := text[start..end];
      if end < |text| {
        var lastBreak := LastBreak(slice);
        if lastBreak > 0 {
          end := start + lastBreak + 1;
          slice := text[start..end];
        }
      }
      assert end == CutEnd(text, start, maxLen);
      ChunksFromAppend(text, start, maxLen, chunks);
      chunks := chunks + [slice];
      start := end;
    }
  }

  lemma {:induction false} ChunksFromConcat(text: string, start: nat, maxLen: nat)
    requires start <= |text| && 0 < maxLen
    ensures Concat(ChunksFrom(text, start, maxLen)) == text[start..]
    decreases |text| - start
  {
    if start < |text| {
      var end := CutEnd(text, start, maxLen);
      ChunksFromConcat(text, end, maxLen);
      var cs := ChunksFrom(text, start, maxLen);
      assert cs[1..] == ChunksFrom(text, end, maxLen);
      assert text[start..] == text[start..end] + text[end..];
    }
  }

  /** Concatenating the chunks gives back the text: nothing is dropped or duplicated. */
  lemma ChunksRoundTrip(text: string, maxLen: nat)
    requires 0 < maxLen
    ensures Concat(Chunks(text, maxLen)) == text
  {
    if |text| > maxLen {
      ChunksFromConcat(text, 0, maxLen);
    } else {
      assert Concat([text]) == text + Concat<char>([]);
    }
  }

  lemma {:induction false} ChunksFromBounded(text: string, start: nat, maxLen: nat)
    requires start <= |text| && 0 < maxLen
    ensures var cs := ChunksFrom(text, start, maxLen);
            forall i :: 0 <= i < |cs| ==> 0 < |cs[i]| <= maxLen
    decreases |text| - start
  {
    if start < |text| {
      var end := CutEnd(text, start, maxLen);
      ChunksFromBounded(text, end, maxLen);
      ChunksFromStep(text, start, maxLen);
      var cs := ChunksFrom(text, start, maxLen);
      var rest := ChunksFrom(text, end, maxLen);
      forall i | 0 <= i < |cs| ensures 0 < |cs[i]| <= maxLen {
        if i > 0 {
          assert cs[i] == rest[i - 1];
        }
      }
    }
  }

  /** Short text is returned whole, even when it is empty; longer text gives
      non-empty chunks, none longer than the limit. */
  lemma ChunksBounded(text: string, maxLen: nat)
    requires 0 < maxLen
    ensures |text| <= maxLen ==> Chunks(text, maxLen) == [text]
    ensures var cs := Chunks(text, maxLen);
            cs != [] &&
            forall i :: 0 <= i < |cs| ==> |cs[i]| <= maxLen && (|text| > maxLen ==> cs[i] != "")
  {
    if |text| > maxLen {
      ChunksFromBounded(text, 0, maxLen);
      ChunksFromStep(text, 0, maxLen);
    }
  }

  /** A cut just after the last newline or space of the window, at offset 1 or more. */
  predicate NaturalCut(window: string, chunk: string) {
    2 <= |chunk| <= |window| && chunk == window[..|chunk|] && IsBreak(chunk[|chunk| - 1]) &&
    forall j :: |chunk| <= j < |window| ==> !IsBreak(window[j])
  }

  /** A cut at the full window, which has no newline or space past offset 0. */
  predicate HardCut(window: string, chunk: string) {
    chunk == window && forall j :: 1 <= j < |window| ==> !IsBreak(window[j])
  }

  /** The chunk `c` taken at offset `o` ends on a natural or a hard cut of the
      window of `maxLen` characters at `o`, which lies inside the text. */
  predicate CutAt(text: string, o: nat, maxLen: nat, c: string) {
    o + maxLen < |text| &&
    (NaturalCut(text[o..o + maxLen], c) || HardCut(text[o..o + maxLen], c))
  }

  /** One iteration that does not reach the end of the text cuts naturally or hard. */
  lemma CutInsideText(text: string, start: nat, maxLen: nat)
    requires start < |text| && 0 < maxLen
    requires CutEnd(text, start, maxLen) < |text|
    ensures CutAt(text, start, maxLen, text[start..CutEnd(text, start, maxLen)])
  {
    var w := text[start..start + maxLen];
    LastBreakIsLastNewlineOrSpace(w);
    var b := LastBreak(w);
    if b > 0 {
      assert text[start..start + b + 1] == w[..b + 1];
    }
  }

  lemma FirstChunkCut(text: string, start: nat, maxLen: nat)
    requires start <= |text| && 0 < maxLen
    requires 1 < |ChunksFrom(text, start, maxLen)|
    ensures CutAt(text, start, maxLen, ChunksFrom(text, start, maxLen)[0])
  {
    ChunksFromStep(text, start, maxLen);
    CutInsideText(text, start, maxLen);
  }

  /** The `i`-th chunk from `start` is the `(i-1)`-th chunk from where the first
      one ends, at the same offset in the text. */
  lemma ChunksFromShift(text: string, start: nat, maxLen: nat, i: nat)
    requires start < |text| && 0 < maxLen
    requires 0 < i < |ChunksFrom(text, start, maxLen)|
    ensures var end := CutEnd(text, start, maxLen);
            var cs, rest := ChunksFrom(text, start, maxLen), ChunksFrom(text, end, maxLen);
            |cs| == |rest| + 1 &&
            start + |Concat(cs[..i])| == end + |Concat(rest[..i - 1])| && cs[i] == rest[i - 1]
  {
    var end := CutEnd(text, start, maxLen);
    ChunksFromStep(text, start, maxLen);
    ConcatConsPrefix(text[start..end], ChunksFrom(text, end, maxLen), i);
  }

  /** A property that every first chunk, wherever the loop starts, has at its
      offset holds of every non-final chunk at its offset. */
  lemma {:induction false} ChunksFromEach(text: string, start: nat, maxLen: nat, i: nat, P: (nat, string) -> bool)
    requires start <= |text| && 0 < maxLen
    requires i + 1 < |ChunksFrom(text, start, maxLen)|
    requires forall s: nat :: s <= |text| && 1 < |ChunksFrom(text, s, maxLen)| ==> P(s, ChunksFrom(text, s, maxLen)[0])
    ensures var cs := ChunksFrom(text, start, maxLen);
            P(start + |Concat(cs[..i])|, cs[i])
    decreases |text| - start
  {
    var cs := ChunksFrom(text, start, maxLen);
    if i == 0 {
      assert cs[..0] == [];
    } else {
      var end := CutEnd(text, start, maxLen);
      ChunksFromShift(text, start, maxLen, i);
      ChunksFromEach(text, end, maxLen, i - 1, P);
    }
  }

  /** Every chunk but the last ends on a natural or a hard cut of the window of
      `maxLen` characters that starts where the chunk starts. */
  lemma ChunkCuts(text: string, maxLen: nat, i: nat)
    requires 0 < maxLen
    requires i + 1 < |Chunks(text, maxLen)|
    ensures var cs := Chunks(text, maxLen);
            CutAt(text, |Concat(cs[..i])|, maxLen, cs[i])
  {
    var cut := (o: nat, c: string) => CutAt(text, o, maxLen, c);
    forall s: nat | s <= |text| && 1 < |ChunksFrom(text, s, maxLen)|
      ensures cut(s, ChunksFrom(text, s, maxLen)[0])
    {
      FirstChunkCut(text, s, maxLen);
    }
    ChunksFromEach(text, 0, maxLen, i, cut);
  }
}
