/**
 * The string operations the benchmarks use: `str.lower()`, the `in` test for
 * substrings, and `str.replace(pattern, '')`.
 */
module Text {

  /** `c.lower()` for one character; only ASCII letters are folded. */
  function LowerChar(c: char): (d: char)
    ensures 'A' <= c <= 'Z' ==> d as int == c as int + 32
    ensures !('A' <= c <= 'Z') ==> d == c
  {
    if 'A' <= c <= 'Z' then (c as int + 32) as char else c
  }

  /** `s.lower()`. */
  function Lower(s: string): (t: string)
    ensures |t| == |s|
    ensures forall i :: 0 <= i < |s| ==> t[i] == LowerChar(s[i])
  {
    if s == [] then [] else [LowerChar(s[0])] + Lower(s[1..])
  }

  /** `p` occurs in `s` at position `i`. */
  ghost predicate OccursAt(p: string, s: string, i: int) {
    0 <= i && i + |p| <= |s| && s[i..i + |p|] == p
  }

  /** The specification of Python's `p in s` on strings. */
  ghost predicate Occurs(p: string, s: string) {
    exists i :: OccursAt(p, s, i)
  }

  /** An occurrence in `s[1..]` is an occurrence in `s`, one place further on. */
  lemma OccursInTail(p: string, s: string)
    requires s != []
    ensures Occurs(p, s[1..]) ==> Occurs(p, s)
  {
    if Occurs(p, s[1..]) {
      var i :| OccursAt(p, s[1..], i);
      OccursShift(p, s, i);
    }
  }

  /** When `p` does not start `s`, every occurrence of `p` in `s` lies in `s[1..]`. */
  lemma OccursPastHead(p: string, s: string)
    requires s != [] && !(p <= s)
    ensures Occurs(p, s) ==> Occurs(p, s[1..])
  {
    if Occurs(p, s) {
      var i :| OccursAt(p, s, i);
      assert i != 0;
      assert s[1..][i - 1..i - 1 + |p|] == s[i..i + |p|];
      assert OccursAt(p, s[1..], i - 1);
    }
  }

  /** In an `s` no longer than `p`, the only place `p` can occur is the start. */
  lemma NoRoom(p: string, s: string)
    requires |s| <= |p|
    ensures Occurs(p, s) ==> p <= s
  {
    if Occurs(p, s) {
      var i :| OccursAt(p, s, i);
      assert i == 0 && s == p;
    }
  }

  /** `p in s`, computed by trying every start position in turn. */
  function Contains(p: string, s: string): (b: bool)
    ensures b <==> Occurs(p, s)
  {
    if p <= s then
      assert OccursAt(p, s, 0);
      true
    else if |s| <= |p| then
      NoRoom(p, s);
      false
    else
      OccursInTail(p, s);
      OccursPastHead(p, s);
      Contains(p, s[1..])
  }

  /** The case-insensitive test both adapters apply: `p.lower() in s.lower()`. */
  function ContainsIgnoringCase(p: string, s: string): (b: bool)
    ensures b <==> Occurs(Lower(p), Lower(s))
  {
    Contains(Lower(p), Lower(s))
  }

  /** `s.replace(p, '')`: every non-overlapping occurrence, scanned from the left, removed. */
  function RemoveAll(s: string, p: string): (t: string)
    requires p != []
    ensures |t| <= |s|
    ensures Occurs(p, s) ==> |t| <= |s| - |p|
    ensures !Occurs(p, s) ==> t == s
    decreases |s|
  {
    if |s| < |p| then
      s
    else if s[..|p|] == p then
      assert OccursAt(p, s, 0);
      RemoveAll(s[|p|..], p)
    else
      var rest := RemoveAll(s[1..], p);
      OccursInTail(p, s);
      OccursPastHead(p, s);
      assert !Occurs(p, s) ==> s == [s[0]] + s[1..];
      [s[0]] + rest
  }

  /**
   * The leftmost occurrence of `p` in `x + p + y` is the one after `x`: the
   * replacement keeps `x`, drops that occurrence and carries on in `y`.
   */
  lemma {:induction false} RemoveFirst(x: string, p: string, y: string)
    requires p != []
    requires forall i :: 0 <= i < |x| ==> !OccursAt(p, x + p + y, i)
    ensures RemoveAll(x + p + y, p) == x + RemoveAll(y, p)
  {
    if x == [] {
      assert x + p + y == p + y;
      assert (p + y)[..|p|] == p && (p + y)[|p|..] == y;
    } else {
      NoneInTail(x, p, y);
      RemoveFirst(x[1..], p, y);
      KeepHead(x, p, y);
      Reattach(x, RemoveAll(y, p));
    }
  }

  /** When `p` does not start `x + p + y`, the replacement keeps the first character of `x`. */
  lemma KeepHead(x: string, p: string, y: string)
    requires p != [] && x != [] && !OccursAt(p, x + p + y, 0)
    ensures RemoveAll(x + p + y, p) == [x[0]] + RemoveAll(x[1..] + p + y, p)
  {
    var s := x + p + y;
    assert s[1..] == x[1..] + p + y;
  }

  /** Putting the first character back in front of `x[1..] + r` gives `x + r`. */
  lemma Reattach(x: string, r: string)
    requires x != []
    ensures [x[0]] + (x[1..] + r) == x + r
  {
    assert [x[0]] + x[1..] == x;
  }

  /** No early occurrence in `x + p + y` means none in `x[1..] + p + y` either. */
  lemma NoneInTail(x: string, p: string, y: string)
    requires x != []
    requires forall i :: 0 <= i < |x| ==> !OccursAt(p, x + p + y, i)
    ensures !OccursAt(p, x + p + y, 0)
    ensures forall i :: 0 <= i < |x[1..]| ==> !OccursAt(p, x[1..] + p + y, i)
  {
    var s := x + p + y;
    assert s[1..] == x[1..] + p + y;
    forall i | 0 <= i < |x[1..]|
      ensures !OccursAt(p, x[1..] + p + y, i)
    {
      OccursShift(p, s, i);
    }
  }

  /** An occurrence at `i` in `s[1..]` is an occurrence at `i + 1` in `s`. */
  lemma OccursShift(p: string, s: string, i: int)
    requires s != []
    ensures OccursAt(p, s[1..], i) ==> OccursAt(p, s, i + 1)
  {
    if OccursAt(p, s[1..], i) {
      assert s[i + 1..i + 1 + |p|] == s[1..][i..i + |p|];
    }
  }
}
