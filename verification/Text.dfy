/** Go's string splitting and joining on a one-character separator. */
module Text {

  /** The index of the first `c` in `s`. */
  function IndexOf(s: string, c: char): (i: nat)
    requires c in s
    ensures i < |s| && s[i] == c && c !in s[..i]
  {
    if s[0] == c then 0 else 1 + IndexOf(s[1..], c)
  }

  lemma {:induction false} IndexOfUnique(s: string, c: char, k: nat)
    requires k < |s| && s[k] == c && c !in s[..k]
    ensures IndexOf(s, c) == k
  {
    if k > 0 {
      assert s[..k][0] == s[0];
      assert s[1..][..k - 1] == s[..k][1..];
      IndexOfUnique(s[1..], c, k - 1);
    }
  }

  /** `strings.Split`: the pieces of `s` between separators, at least one. */
  function Split(s: string, sep: char): (parts: seq<string>)
    ensures |parts| >= 1
    decreases |s|
  {
    if sep !in s then [s]
    else
      var i := IndexOf(s, sep);
      [s[..i]] + Split(s[i + 1..], sep)
  }

  /** `strings.SplitN` with a limit of two: cut at the first separator only. */
  function SplitFirst(s: string, sep: char): (parts: seq<string>)
    ensures 1 <= |parts| <= 2
    ensures |parts| == 2 <==> sep in s
  {
    if sep !in s then [s]
    else
      var i := IndexOf(s, sep);
      [s[..i], s[i + 1..]]
  }

  function Join(parts: seq<string>, sep: char): string {
    if |parts| == 0 then ""
    else if |parts| == 1 then parts[0]
    else parts[0] + [sep] + Join(parts[1..], sep)
  }

  /** Cutting `head + [sep] + tail` at its first separator gives back both sides. */
  lemma CutAt(head: string, sep: char, tail: string)
    requires sep !in head
    ensures sep in head + [sep] + tail
    ensures IndexOf(head + [sep] + tail, sep) == |head|
    ensures (head + [sep] + tail)[..|head|] == head
    ensures (head + [sep] + tail)[|head| + 1..] == tail
  {
    var s := head + [sep] + tail;
    assert s[|head|] == sep;
    assert s[..|head|] == head;
    IndexOfUnique(s, sep, |head|);
  }

  /** Joining then splitting is the identity on separator-free pieces. */
  lemma {:induction false} SplitJoin(parts: seq<string>, sep: char)
    requires |parts| >= 1
    requires forall p :: p in parts ==> sep !in p
    ensures Split(Join(parts, sep), sep) == parts
  {
    if |parts| > 1 {
      CutAt(parts[0], sep, Join(parts[1..], sep));
      SplitJoin(parts[1..], sep);
    }
  }

  /** Splitting then joining is the identity on every string. */
  lemma {:induction false} JoinSplit(s: string, sep: char)
    ensures Join(Split(s, sep), sep) == s
    decreases |s|
  {
    if sep in s {
      var i := IndexOf(s, sep);
      JoinSplit(s[i + 1..], sep);
      assert Split(s, sep)[1..] == Split(s[i + 1..], sep);
      assert s == s[..i] + [sep] + s[i + 1..];
    }
  }

  /** No piece of a split holds the separator. */
  lemma {:induction false} PiecesFree(s: string, sep: char)
    ensures forall p :: p in Split(s, sep) ==> sep !in p
    decreases |s|
  {
    if sep in s {
      PiecesFree(s[IndexOf(s, sep) + 1..], sep);
    }
  }
}
