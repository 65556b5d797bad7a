/** `truncateText(text, limit)`: cut the text at the first space found at or
    after position `limit`. Only the ASCII space character counts as a cut
    point; tabs and line breaks do not. */
module Truncate {
  import opened Strings

  const Space: char := ' '

  /** No space occurs in `s` at an index `>= from`. */
  predicate NoSpaceFrom(s: string, from: nat)
  {
    NoneIn(s, Space, from, |s|)
  }

  /** `k` is the first space at or after `limit`: the position where the text
      is cut. */
  predicate IsCut(text: string, limit: nat, k: nat)
  {
    limit <= k < |text| && text[k] == Space && NoneIn(text, Space, limit, k)
  }

  function TruncateText(text: string, limit: nat): (r: string)
    ensures |r| <= |text| && r == text[..|r|]
    ensures r == text <==> NoSpaceFrom(text, limit)
    ensures r != text ==> IsCut(text, limit, |r|)
    ensures |text| <= limit ==> r == text
    ensures NoSpaceFrom(r, limit)
  {
    var shortened := IndexOf(text, Space, limit);
    if shortened == -1 then text else text[..shortened]
  }

  /** Independent description of a correct truncation of `text` at `limit`:
      either the text is kept whole because it has no space at or after
      `limit`, or it is cut just before the first such space. */
  ghost predicate IsTruncation(text: string, limit: nat, r: string)
  {
    || (NoSpaceFrom(text, limit) && r == text)
    || (exists k: nat :: IsCut(text, limit, k) && r == text[..k])
  }

  /** `TruncateText` computes exactly the truncation described above, and
      nothing else is one. */
  lemma TruncateTextIsTruncation(text: string, limit: nat, r: string)
    ensures IsTruncation(text, limit, r) <==> r == TruncateText(text, limit)
  {
  }

  /** Truncating a second time changes nothing. */
  lemma TruncateIdempotent(text: string, limit: nat)
    ensures TruncateText(TruncateText(text, limit), limit) == TruncateText(text, limit)
  {
  }

  /** A cut text is never shorter than `limit`: the limit is a minimum length. */
  lemma TruncatedKeepsLimit(text: string, limit: nat)
    requires TruncateText(text, limit) != text
    ensures limit <= |TruncateText(text, limit)| < |text|
  {
  }

  /** The worked examples of the widget's behaviour. */
  lemma TruncateExamples()
    ensures TruncateText("hello world foo", 5) == "hello"
    ensures TruncateText("short", 100) == "short"
    ensures TruncateText("", 10) == ""
    ensures TruncateText("ab\tcd ef", 1) == "ab\tcd"
  {
  }
}
