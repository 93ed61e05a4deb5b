/**
  Replies that grow beyond the limit on what is read before the end (agently/utils/StreamingJSONParser.py:124-141).
 */
module LargeReplies {
  import opened Texts
  import opened Streaming

  /** Once a buffer is too large, nothing is read any more before the end, and nothing more is said about it. */
  lemma {:induction false} NothingMore(p: StreamingJSONParser, buffer: string, chunks: seq<string>)
    requires 0 < p.maxIncompleteParseChars < |buffer|
    ensures p.Read(buffer, chunks) == [] && p.Waiting(true, buffer, chunks) == []
    decreases |chunks|
  {
    if chunks != [] { NothingMore(p, buffer + chunks[0], chunks[1..]); }
  }

  lemma ConcatMore(buffer: string, chunks: seq<string>, j: nat)
    requires j < |chunks|
    ensures buffer + Concat(chunks[..j + 1]) == buffer + chunks[0] + Concat(chunks[1..][..j])
  {
    hide Concat;
    assert chunks[..j + 1][0] == chunks[0] && chunks[..j + 1][1..] == chunks[1..][..j];
    ConcatFirst(chunks[..j + 1]);
  }

  /**
    The first k chunks leave the buffer small enough, the next one, if there is one, does not: exactly the first
    k are read, and exactly one status event tells the size then reached.
   */
  lemma {:induction false} DeferredOnce(p: StreamingJSONParser, buffer: string, chunks: seq<string>, k: nat)
    requires var limit := p.maxIncompleteParseChars;
      k <= |chunks| && if limit <= 0 then k == |chunks| else
        && |buffer + Concat(chunks[..k])| <= limit
        && (k < |chunks| ==> limit < |buffer + Concat(chunks[..k + 1])|)
    ensures |p.Read(buffer, chunks)| == k
    ensures forall j :: 0 <= j < k ==> p.Read(buffer, chunks)[j] == buffer + Concat(chunks[..j + 1])
    ensures p.Waiting(false, buffer, chunks) ==
      if k == |chunks| then [] else [Status(|buffer + Concat(chunks[..k + 1])|, p.maxIncompleteParseChars)]
    decreases |chunks|
  {
    hide Concat;
    ConcatFirst([]);
    assert chunks[..0] == [] && buffer + "" == buffer;
    if chunks != [] {
      var limit, longer := p.maxIncompleteParseChars, buffer + chunks[0];
      forall j | 0 <= j < |chunks| ensures buffer + Concat(chunks[..j + 1]) == longer + Concat(chunks[1..][..j]) {
        ConcatMore(buffer, chunks, j);
      }
      if k == 0 {
        assert longer + Concat(chunks[1..][..0]) == longer;
        NothingMore(p, longer, chunks[1..]);
      } else {
        DeferredOnce(p, longer, chunks[1..], k - 1);
        forall j | 0 <= j < k ensures p.Read(buffer, chunks)[j] == buffer + Concat(chunks[..j + 1]) {
          if j == 0 { assert chunks[1..][..0] == [] && longer + "" == longer; }
        }
      }
    }
  }
}
