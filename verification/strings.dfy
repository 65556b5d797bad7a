/** String primitives of the JavaScript runtime that the widget relies on. */
module Strings {

  /** True when `c` occurs nowhere in `s` at an index in `[from, to)`. */
  predicate NoneIn(s: string, c: char, from: nat, to: int)
  {
    forall k :: from <= k < to && k < |s| ==> s[k] != c
  }

  /** `s.indexOf(c, from)` for a one-character search string: the least index
      at or after `from` holding `c`, or -1 when there is none (in particular
      whenever `from >= |s|`). */
  function IndexOf(s: string, c: char, from: nat): (r: int)
    ensures r == -1 || from <= r < |s|
    ensures r == -1 <==> NoneIn(s, c, from, |s|)
    ensures 0 <= r ==> s[r] == c && NoneIn(s, c, from, r)
    decreases |s| - from
  {
    if from >= |s| then -1
    else if s[from] == c then from
    else IndexOf(s, c, from + 1)
  }

  /** Glues `parts` together with `sep` between neighbours. */
  function Join(parts: seq<string>, sep: char): string
    requires |parts| >= 1
  {
    if |parts| == 1 then parts[0] else parts[0] + [sep] + Join(parts[1..], sep)
  }

  /** Cuts `s` at every occurrence of `sep`. */
  function Split(s: string, sep: char): (parts: seq<string>)
    ensures |parts| >= 1
    ensures forall i :: 0 <= i < |parts| ==> sep !in parts[i]
    ensures Join(parts, sep) == s
    decreases |s|
  {
    var i := IndexOf(s, sep, 0);
    if i == -1 then [s]
    else
      var rest := Split(s[i + 1..], sep);
      assert s == s[..i] + [sep] + s[i + 1..];
      [s[..i]] + rest
  }

  /** Splitting undoes joining, provided no part contains the separator. */
  lemma {:induction false} SplitJoin(parts: seq<string>, sep: char)
    requires |parts| >= 1
    requires forall i :: 0 <= i < |parts| ==> sep !in parts[i]
    ensures Split(Join(parts, sep), sep) == parts
    decreases |parts|
  {
    if |parts| > 1 {
      var s := Join(parts, sep);
      var tail := Join(parts[1..], sep);
      assert s == parts[0] + [sep] + tail;
      assert s[|parts[0]|] == sep;
      assert IndexOf(s, sep, 0) == |parts[0]|;
      assert s[..|parts[0]|] == parts[0];
      assert s[|parts[0]| + 1..] == tail;
      SplitJoin(parts[1..], sep);
    }
  }

  /** Fills the holes of a template literal: `chunks[0] + fields[0] + chunks[1]
      + ... + fields[n-1] + chunks[n]`, every field inserted verbatim. */
  function Interleave(chunks: seq<string>, fields: seq<string>): string
    requires |chunks| == |fields| + 1
    decreases |fields|
  {
    if |fields| == 0 then chunks[0]
    else chunks[0] + fields[0] + Interleave(chunks[1..], fields[1..])
  }

  /** The text rendered in front of field `i` is the template up to that hole,
      and the field itself follows unchanged. */
  lemma {:induction false} InterleaveAt(chunks: seq<string>, fields: seq<string>, i: nat)
    requires |chunks| == |fields| + 1
    requires i < |fields|
    ensures Interleave(chunks, fields)
         == Interleave(chunks[..i + 1], fields[..i]) + fields[i]
            + Interleave(chunks[i + 1..], fields[i + 1..])
    decreases i
  {
    if i > 0 {
      InterleaveAt(chunks[1..], fields[1..], i - 1);
      assert chunks[1..][..i] == chunks[1..i + 1];
      assert fields[1..][..i - 1] == fields[1..i];
      assert chunks[1..][i..] == chunks[i + 1..];
      assert fields[1..][i..] == fields[i + 1..];
      assert chunks[..i + 1][1..] == chunks[1..i + 1];
      assert fields[..i][1..] == fields[1..i];
    } else {
      assert chunks[..1][0] == chunks[0];
    }
  }

  /** A template with six holes, written out. */
  lemma Interleave6(c: seq<string>, f: seq<string>)
    requires |c| == 7 && |f| == 6
    ensures Interleave(c, f)
         == c[0] + f[0] + (c[1] + f[1] + (c[2] + f[2] + (c[3] + f[3] + (c[4] + f[4] + (c[5] + f[5] + c[6])))))
  {
    forall k | 0 <= k < 6
      ensures Interleave(c[k..], f[k..]) == c[k] + f[k] + Interleave(c[k + 1..], f[k + 1..])
    {
      assert c[k..][1..] == c[k + 1..];
      assert f[k..][1..] == f[k + 1..];
    }
    assert c[0..] == c && f[0..] == f;
    assert Interleave(c[6..], f[6..]) == c[6];
  }

  /** `needle` appears in `hay` as a contiguous run starting at `k`. */
  predicate OccursAt(needle: string, hay: string, k: nat)
  {
    k + |needle| <= |hay| && hay[k..k + |needle|] == needle
  }

  /** `needle` appears somewhere in `hay`. */
  ghost predicate Occurs(needle: string, hay: string)
  {
    exists k: nat :: OccursAt(needle, hay, k)
  }

  /** Every field occurs verbatim in the filled template, right after the
      template text up to its hole. */
  lemma InterleaveShowsField(chunks: seq<string>, fields: seq<string>, i: nat)
    requires |chunks| == |fields| + 1
    requires i < |fields|
    ensures OccursAt(fields[i], Interleave(chunks, fields), |Interleave(chunks[..i + 1], fields[..i])|)
    ensures Occurs(fields[i], Interleave(chunks, fields))
  {
    InterleaveAt(chunks, fields, i);
    var pre := Interleave(chunks[..i + 1], fields[..i]);
    var post := Interleave(chunks[i + 1..], fields[i + 1..]);
    assert (pre + fields[i] + post)[|pre|..|pre| + |fields[i]|] == fields[i];
    assert OccursAt(fields[i], Interleave(chunks, fields), |pre|);
  }

  /** The parts glued together with nothing in between. */
  function Concat(parts: seq<string>): string
    decreases |parts|
  {
    if |parts| == 0 then "" else parts[0] + Concat(parts[1..])
  }

  lemma {:induction false} ConcatAppend(a: seq<string>, b: seq<string>)
    ensures Concat(a + b) == Concat(a) + Concat(b)
    decreases |a|
  {
    if |a| == 0 {
      assert a + b == b;
    } else {
      assert (a + b)[1..] == a[1..] + b;
      ConcatAppend(a[1..], b);
    }
  }

  lemma AppendAssoc(a: string, b: string, c: string)
    ensures (a + b) + c == a + (b + c)
  {
  }

  /** `xs.map(f)`. */
  function MapSeq<T>(xs: seq<T>, f: T --> string): (ys: seq<string>)
    requires forall i :: 0 <= i < |xs| ==> f.requires(xs[i])
    ensures |ys| == |xs|
  {
    seq(|xs|, i requires 0 <= i < |xs| => f(xs[i]))
  }

  /** Mapping commutes with taking a slice. */
  lemma MapSeqSlice<T>(xs: seq<T>, f: T --> string, lo: nat, hi: nat)
    requires forall i :: 0 <= i < |xs| ==> f.requires(xs[i])
    requires lo <= hi <= |xs|
    ensures forall i :: 0 <= i < |xs[lo..hi]| ==> f.requires(xs[lo..hi][i])
    ensures MapSeq(xs, f)[lo..hi] == MapSeq(xs[lo..hi], f)
  {
    assert forall i :: 0 <= i < hi - lo ==> xs[lo..hi][i] == xs[lo + i];
  }

  /** Mapping one more element adds its image at the end. */
  lemma MapSeqSnoc<T>(xs: seq<T>, f: T --> string, i: nat)
    requires i < |xs|
    requires forall k :: 0 <= k < i + 1 ==> f.requires(xs[k])
    ensures var pre := xs[..i + 1]; forall k :: 0 <= k < |pre| ==> f.requires(pre[k])
    ensures forall k :: 0 <= k < |xs[..i]| ==> f.requires(xs[..i][k])
    ensures MapSeq(xs[..i + 1], f) == MapSeq(xs[..i], f) + [f(xs[i])]
  {
    assert forall k :: 0 <= k < i + 1 ==> xs[..i + 1][k] == xs[k];
    assert forall k :: 0 <= k < i ==> xs[..i][k] == xs[k];
  }

  /** `a + b + c` starts with `a` and ends with `c`. */
  lemma FramedBy(a: string, b: string, c: string)
    ensures (a + b + c)[..|a|] == a
    ensures (a + b + c)[|a + b + c| - |c|..] == c
  {
  }

  lemma ConcatSnoc(parts: seq<string>, last: string)
    ensures Concat(parts + [last]) == Concat(parts) + last
  {
    ConcatAppend(parts, [last]);
    assert Concat([last]) == last + Concat([]);
  }

  /** Part `i` sits, unchanged, between the parts before it and those after it. */
  lemma {:induction false} ConcatAt(parts: seq<string>, i: nat)
    requires i < |parts|
    ensures Concat(parts) == Concat(parts[..i]) + parts[i] + Concat(parts[i + 1..])
    decreases i
  {
    if i > 0 {
      ConcatAt(parts[1..], i - 1);
      assert parts[1..][..i - 1] == parts[..i][1..];
      assert parts[1..][i..] == parts[i + 1..];
      AppendAssoc(parts[0], Concat(parts[..i][1..]) + parts[i], Concat(parts[i + 1..]));
      AppendAssoc(parts[0], Concat(parts[..i][1..]), parts[i]);
    }
  }
}
