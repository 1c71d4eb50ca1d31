/**
 * Joining item texts with a separator (the library's `utils::join`, which is
 * not part of this model; it is taken to be the conventional join: the items
 * in order with one separator between neighbours and none at either end).
 *
 * `Join` is the recursive definition; `Laid` is an independent, positional
 * one (where each item and each separator sits in the result), and
 * `JoinLaid`/`LaidIsJoin` prove that the two agree.
 */
module Text {

  /** The separator every list clause uses. */
  const Comma := ", "

  /** The text of each item, in list order. */
  function Texts<T>(items: seq<T>, show: T -> string): seq<string>
  {
    seq(|items|, i requires 0 <= i < |items| => show(items[i]))
  }

  function Join(parts: seq<string>, sep: string): string
  {
    if |parts| == 0 then ""
    else if |parts| == 1 then parts[0]
    else parts[0] + sep + Join(parts[1..], sep)
  }

  /** Where part `i` starts: the widths of the parts before it, each followed by one separator. */
  function Offset(parts: seq<string>, sep: string, i: nat): nat
    requires i <= |parts|
  {
    if i == 0 then 0 else |parts[0]| + |sep| + Offset(parts[1..], sep, i - 1)
  }

  /** The width of the joined text: it ends where the last part ends. */
  function Width(parts: seq<string>, sep: string): nat
  {
    if |parts| == 0 then 0 else Offset(parts, sep, |parts| - 1) + |parts[|parts| - 1]|
  }

  /** `s` occurs in `r` starting at position `at`. */
  ghost predicate Segment(r: string, at: nat, s: string)
  {
    at + |s| <= |r| && r[at..at + |s|] == s
  }

  /** Part `i` of `parts` sits at its offset in `r`, for every `i`. */
  ghost predicate PartsAt(r: string, parts: seq<string>, sep: string)
  {
    forall i {:trigger Offset(parts, sep, i)} :: 0 <= i < |parts| ==> Segment(r, Offset(parts, sep, i), parts[i])
  }

  /** One separator follows every part but the last. */
  ghost predicate SepsAt(r: string, parts: seq<string>, sep: string)
  {
    forall i {:trigger Offset(parts, sep, i)} :: 0 <= i < |parts| - 1 ==> Segment(r, Offset(parts, sep, i) + |parts[i]|, sep)
  }

  /**
   * `r` is laid out as `parts` separated by `sep`: it has the joined width,
   * each part sits at its offset, and one separator follows every part but the last.
   */
  ghost predicate Laid(r: string, parts: seq<string>, sep: string)
  {
    |r| == Width(parts, sep) && PartsAt(r, parts, sep) && SepsAt(r, parts, sep)
  }

  /** The text of a list clause: `head` (keyword and space), then the parts separated by `", "`. */
  ghost predicate Listed(r: string, head: string, parts: seq<string>)
  {
    |head| <= |r| && r[..|head|] == head && Laid(r[|head|..], parts, Comma)
  }

  lemma SegmentShift(pre: string, r: string, at: nat, s: string)
    requires Segment(r, at, s)
    ensures Segment(pre + r, |pre| + at, s)
  {
    assert (pre + r)[|pre| + at..|pre| + at + |s|] == r[at..at + |s|];
  }

  lemma SegmentUnshift(r: string, k: nat, at: nat, s: string)
    requires k <= |r| && Segment(r, k + at, s)
    ensures Segment(r[k..], at, s)
  {
    assert r[k..][at..at + |s|] == r[k + at..k + at + |s|];
  }

  /** A list of two or more parts: the offsets and width of its tail, shifted by the first part and a separator. */
  lemma TailShift(parts: seq<string>, sep: string)
    requires |parts| > 1
    ensures Width(parts, sep) == |parts[0]| + |sep| + Width(parts[1..], sep)
    ensures forall i :: 0 <= i < |parts| - 1 ==>
      Offset(parts, sep, i + 1) == |parts[0]| + |sep| + Offset(parts[1..], sep, i)
  {
  }

  /** Putting the first part and a separator before a laid-out tail lays out the whole list: parts. */
  lemma PartsCons(parts: seq<string>, sep: string, tail: string)
    requires |parts| > 1 && PartsAt(tail, parts[1..], sep)
    ensures PartsAt(parts[0] + sep + tail, parts, sep)
  {
    var pre := parts[0] + sep;
    var r := pre + tail;
    TailShift(parts, sep);
    forall i | 0 <= i < |parts|
      ensures Segment(r, Offset(parts, sep, i), parts[i])
    {
      if i == 0 {
        assert r[0..|parts[0]|] == parts[0];
      } else {
        SegmentShift(pre, tail, Offset(parts[1..], sep, i - 1), parts[1..][i - 1]);
      }
    }
  }

  /** Putting the first part and a separator before a laid-out tail lays out the whole list: separators. */
  lemma SepsCons(parts: seq<string>, sep: string, tail: string)
    requires |parts| > 1 && SepsAt(tail, parts[1..], sep)
    ensures SepsAt(parts[0] + sep + tail, parts, sep)
  {
    var pre := parts[0] + sep;
    var r := pre + tail;
    TailShift(parts, sep);
    forall i | 0 <= i < |parts| - 1
      ensures Segment(r, Offset(parts, sep, i) + |parts[i]|, sep)
    {
      if i == 0 {
        assert r[|parts[0]|..|parts[0]| + |sep|] == sep;
      } else {
        SegmentShift(pre, tail, Offset(parts[1..], sep, i - 1) + |parts[1..][i - 1]|, sep);
      }
    }
  }

  /** The recursive join satisfies the positional definition. */
  lemma {:induction false} JoinLaid(parts: seq<string>, sep: string)
    ensures Laid(Join(parts, sep), parts, sep)
  {
    if |parts| == 1 {
      assert Join(parts, sep)[0..|parts[0]|] == parts[0];
    } else if |parts| > 1 {
      var tail := Join(parts[1..], sep);
      JoinLaid(parts[1..], sep);
      TailShift(parts, sep);
      PartsCons(parts, sep, tail);
      SepsCons(parts, sep, tail);
    }
  }

  /** Dropping the first part and its separator from a laid-out text lays out the tail: parts. */
  lemma PartsUncons(r: string, parts: seq<string>, sep: string)
    requires |parts| > 1 && |parts[0]| + |sep| <= |r| && PartsAt(r, parts, sep)
    ensures PartsAt(r[|parts[0]| + |sep|..], parts[1..], sep)
  {
    var k := |parts[0]| + |sep|;
    var rest := parts[1..];
    TailShift(parts, sep);
    forall i | 0 <= i < |rest|
      ensures Segment(r[k..], Offset(rest, sep, i), rest[i])
    {
      assert Segment(r, Offset(parts, sep, i + 1), parts[i + 1]);
      SegmentUnshift(r, k, Offset(rest, sep, i), rest[i]);
    }
  }

  /** Dropping the first part and its separator from a laid-out text lays out the tail: separators. */
  lemma SepsUncons(r: string, parts: seq<string>, sep: string)
    requires |parts| > 1 && |parts[0]| + |sep| <= |r| && SepsAt(r, parts, sep)
    ensures SepsAt(r[|parts[0]| + |sep|..], parts[1..], sep)
  {
    var k := |parts[0]| + |sep|;
    var rest := parts[1..];
    TailShift(parts, sep);
    forall i | 0 <= i < |rest| - 1
      ensures Segment(r[k..], Offset(rest, sep, i) + |rest[i]|, sep)
    {
      assert Segment(r, Offset(parts, sep, i + 1) + |parts[i + 1]|, sep);
      SegmentUnshift(r, k, Offset(rest, sep, i) + |rest[i]|, sep);
    }
  }

  /** The positional definition determines the text: whatever is laid out as `parts` is their join. */
  lemma {:induction false} LaidIsJoin(r: string, parts: seq<string>, sep: string)
    requires Laid(r, parts, sep)
    ensures r == Join(parts, sep)
  {
    if |parts| == 1 {
      assert Segment(r, Offset(parts, sep, 0), parts[0]);
      assert r == r[0..|parts[0]|];
    } else if |parts| > 1 {
      var k := |parts[0]| + |sep|;
      TailShift(parts, sep);
      assert Segment(r, Offset(parts, sep, 0), parts[0]);
      assert Segment(r, Offset(parts, sep, 0) + |parts[0]|, sep);
      PartsUncons(r, parts, sep);
      SepsUncons(r, parts, sep);
      LaidIsJoin(r[k..], parts[1..], sep);
      assert r == r[..|parts[0]|] + r[|parts[0]|..k] + r[k..];
    }
  }

  /** Joining two non-empty lists: the first list's join, one separator, the second's. */
  lemma {:induction false} JoinAppend(a: seq<string>, b: seq<string>, sep: string)
    requires |a| > 0 && |b| > 0
    ensures Join(a + b, sep) == Join(a, sep) + sep + Join(b, sep)
  {
    if |a| > 1 {
      assert (a + b)[1..] == a[1..] + b;
      JoinAppend(a[1..], b, sep);
    }
  }

  /** The positional and the recursive definition agree, in both directions. */
  lemma LaidIffJoin(r: string, parts: seq<string>, sep: string)
    ensures Laid(r, parts, sep) <==> r == Join(parts, sep)
  {
    JoinLaid(parts, sep);
    if Laid(r, parts, sep) {
      LaidIsJoin(r, parts, sep);
    }
  }

  /** The text of a list clause: `head` followed by the parts joined with `", "`. */
  function ListText(head: string, parts: seq<string>): string
  {
    head + Join(parts, Comma)
  }

  /** A list clause's text is laid out as its head, then its parts in order with a separator between neighbours. */
  lemma ListTextListed(head: string, parts: seq<string>)
    ensures Listed(ListText(head, parts), head, parts)
  {
    var r := ListText(head, parts);
    JoinLaid(parts, Comma);
    assert r[..|head|] == head && r[|head|..] == Join(parts, Comma);
  }

  lemma Regroup<T>(w: seq<T>, x: seq<T>, y: seq<T>, z: seq<T>)
    ensures w + (x + y + z) == (w + x) + y + z
  {
  }

  /** Appending parts to a non-empty list clause appends a separator and their join to its text. */
  lemma ListTextAppend(head: string, a: seq<string>, b: seq<string>)
    requires |a| > 0 && |b| > 0
    ensures ListText(head, a + b) == ListText(head, a) + Comma + Join(b, Comma)
  {
    var ja, jb := Join(a, Comma), Join(b, Comma);
    JoinAppend(a, b, Comma);
    Regroup(head, ja, Comma, jb);
  }

  /** A list clause over no items is its head alone, keyword and trailing space. */
  lemma ListedEmpty(r: string, head: string)
    requires Listed(r, head, [])
    ensures r == head
  {
    assert r == r[..|head|] + r[|head|..];
  }

  /** Whatever is laid out as a list clause is `head` followed by the join. */
  lemma ListedIsListText(r: string, head: string, parts: seq<string>)
    requires Listed(r, head, parts)
    ensures r == ListText(head, parts)
  {
    LaidIsJoin(r[|head|..], parts, Comma);
    assert r == r[..|head|] + r[|head|..];
  }
}
