/**
 * What the extraction of the JSON block and the response handling promise,
 * proved about the functions of module Extraction.
 */
module ExtractionProperties {
  import opened Wrappers
  import opened Json
  import opened PyStr
  import opened Extraction

  /** The opening fence begins with the closing fence. */
  lemma OpenFenceStartsWithCloseFence(s: string, i: int)
    requires OccursAt(s, OPEN_FENCE, i)
    ensures OccursAt(s, CLOSE_FENCE, i)
  {
    assert s[i..i + 3] == s[i..i + 7][..3];
  }

  /** No closing fence starts strictly inside an opening fence: each candidate
      would cover one of the letters of "json". */
  lemma NoCloseFenceInsideOpenFence(s: string, i: int)
    requires OccursAt(s, OPEN_FENCE, i)
    ensures forall j :: i < j < i + 7 ==> !OccursAt(s, CLOSE_FENCE, j)
  {
    forall j | i < j < i + 7
      ensures !OccursAt(s, CLOSE_FENCE, j)
    {
      var k := if j < i + 3 then i + 3 else j;
      assert s[k] == s[i..i + 7][k - i];
      if j + 3 <= |s| {
        assert s[j..j + 3][k - j] == s[k];
      }
    }
  }

  /** The check `end_index == -1` never decides the outcome: a reply holding the
      opening fence always holds a closing one. */
  lemma CloseCheckRedundant(content: string)
    ensures RFind(content, CLOSE_FENCE) == -1 ==> Find(content, OPEN_FENCE) == -1
  {
    var start := Find(content, OPEN_FENCE);
    if start != -1 {
      OpenFenceStartsWithCloseFence(content, start);
    }
  }

  /** The indices the extraction slices between: the first opening fence and the
      last closing fence, the latter either the opening fence's own backticks or
      at or past the end of the opening fence. */
  lemma FenceIndices(content: string, start: int, end: int)
    requires IsFirstOccurrence(content, OPEN_FENCE, start)
    requires IsLastOccurrence(content, CLOSE_FENCE, end)
    ensures Find(content, OPEN_FENCE) == start && RFind(content, CLOSE_FENCE) == end
    ensures 0 <= start <= end
    ensures end == start || start + 7 <= end
  {
    FindIsFirstOccurrence(content, OPEN_FENCE, start);
    RFindIsLastOccurrence(content, CLOSE_FENCE, end);
    OpenFenceStartsWithCloseFence(content, start);
    NoCloseFenceInsideOpenFence(content, start);
  }

  /** The extracted text is the stripped slice strictly between the end of the first
      opening fence and the last closing fence, and empty when the opening fence's
      own backticks are the last fence. */
  lemma ExtractionSpec(content: string, start: int, end: int)
    requires IsFirstOccurrence(content, OPEN_FENCE, start)
    requires IsLastOccurrence(content, CLOSE_FENCE, end)
    ensures end == start || start + 7 <= end <= |content|
    ensures ExtractJsonBlock(content) == Some(if end == start then [] else Strip(content[start + 7..end]))
  {
    FenceIndices(content, start, end);
  }

  /** Extraction fails exactly when the reply holds no opening fence. */
  lemma NoOpenFenceFails(content: string)
    ensures ExtractJsonBlock(content).None? <==> !Contains(content, OPEN_FENCE)
  {
    CloseCheckRedundant(content);
  }

  /** The extracted text carries no whitespace at its ends, so stripping it again changes nothing. */
  lemma ExtractedIsStripped(content: string)
    requires ExtractJsonBlock(content).Some?
    ensures NoEdgeSpace(ExtractJsonBlock(content).value)
    ensures Strip(ExtractJsonBlock(content).value) == ExtractJsonBlock(content).value
  {
    StripFixpoint(ExtractJsonBlock(content).value);
  }

  /** A block fenced as `pre ```json body ``` post` yields the stripped body, provided
      `pre` holds no opening fence and `post` no backtick. */
  lemma FencedBlock(pre: string, body: string, post: string)
    requires !Contains(pre, OPEN_FENCE)
    requires forall k :: 0 <= k < |post| ==> post[k] != '`'
    ensures ExtractJsonBlock(pre + OPEN_FENCE + body + CLOSE_FENCE + post) == Some(Strip(body))
  {
    var s := pre + OPEN_FENCE + body + CLOSE_FENCE + post;
    var p0, p1 := |pre|, |pre| + 7 + |body|;
    assert s[p0..p0 + 7] == OPEN_FENCE;
    forall j | 0 <= j < p0
      ensures !OccursAt(s, OPEN_FENCE, j)
    {
      if j + 7 <= p0 {
        assert s[j..j + 7] == pre[j..j + 7];
        assert !OccursAt(pre, OPEN_FENCE, j);
      } else {
        assert s[j + 6] == OPEN_FENCE[j + 6 - p0];
        assert s[j..j + 7][6] == s[j + 6];
      }
    }
    assert s[p1..p1 + 3] == CLOSE_FENCE;
    forall j | p1 < j
      ensures !OccursAt(s, CLOSE_FENCE, j)
    {
      if j + 3 <= |s| {
        var k := if j < p1 + 3 then p1 + 3 else j;
        assert s[k] == post[k - p1 - 3];
        assert s[j..j + 3][k - j] == s[k];
      }
    }
    assert s[p0 + 7..p1] == body;
    ExtractionSpec(s, p0, p1);
  }

  /** A reply whose only backticks are those of the opening fence yields the empty text. */
  lemma OnlyOpenFenceYieldsEmpty(pre: string, post: string)
    requires forall k :: 0 <= k < |pre| ==> pre[k] != '`'
    requires forall k :: 0 <= k < |post| ==> post[k] != '`'
    ensures ExtractJsonBlock(pre + OPEN_FENCE + post) == Some([])
  {
    var s := pre + OPEN_FENCE + post;
    var p := |pre|;
    assert s[p..p + 7] == OPEN_FENCE;
    forall j | 0 <= j < p
      ensures !OccursAt(s, OPEN_FENCE, j)
    {
      assert s[j..j + 7][0] == s[j] == pre[j];
    }
    NoCloseFenceInsideOpenFence(s, p);
    forall j | p + 7 <= j
      ensures !OccursAt(s, CLOSE_FENCE, j)
    {
      if j + 3 <= |s| {
        assert s[j..j + 3][0] == s[j] == post[j - p - 7];
      }
    }
    OpenFenceStartsWithCloseFence(s, p);
    ExtractionSpec(s, p, p);
  }

  /** A body without whitespace at its ends, fenced exactly as the prompt asks, is extracted verbatim. */
  lemma FencedReply(body: string)
    requires NoEdgeSpace(body)
    ensures ExtractJsonBlock(OPEN_FENCE + body + CLOSE_FENCE) == Some(body)
  {
    assert !OccursAt([], OPEN_FENCE, 0);
    assert [] + OPEN_FENCE + body + CLOSE_FENCE + [] == OPEN_FENCE + body + CLOSE_FENCE;
    FencedBlock([], body, []);
    StripFixpoint(body);
  }

  /** The JSON object the system prompt asks for, `{"dag": X}`, written as text around the code literal `x`. */
  function DagObjectText(x: string): (t: string)
    ensures NoEdgeSpace(t)
  {
    var t := "{\"dag\": " + x + "}";
    assert t[0] == '{' && t[|t| - 1] == '}';
    t
  }

  /** The reply format the system prompt requests, ```json{"dag": X}```, yields exactly {"dag": X}. */
  lemma PromptFormatReply(x: string)
    ensures ExtractJsonBlock(OPEN_FENCE + DagObjectText(x) + CLOSE_FENCE) == Some(DagObjectText(x))
  {
    FencedReply(DagObjectText(x));
  }
}
