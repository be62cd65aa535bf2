/** The few string operations of JavaScript that the modelled code uses. */
module Strings {

  predicate HasPrefix(s: string, p: string) {
    |p| <= |s| && s[..|p|] == p
  }

  predicate HasSuffix(s: string, p: string) {
    |p| <= |s| && s[|s| - |p|..] == p
  }

  /** `s.split(c)` for a one-character separator. */
  function Split(s: string, c: char): (parts: seq<string>)
    ensures |parts| >= 1
    ensures forall i :: 0 <= i < |parts| ==> c !in parts[i]
  {
    if s == [] then [[]]
    else
      var rest := Split(s[1..], c);
      if s[0] == c then [[]] + rest else [[s[0]] + rest[0]] + rest[1..]
  }

  /** `parts.join(c)` */
  function Join(parts: seq<string>, c: char): string {
    if parts == [] then []
    else if |parts| == 1 then parts[0]
    else parts[0] + [c] + Join(parts[1..], c)
  }

  /** Splitting a part that lacks the separator, followed by one, peels that part off. */
  lemma {:induction false} SplitPeels(p: string, s: string, c: char)
    requires c !in p
    ensures Split(p + [c] + s, c) == [p] + Split(s, c)
    decreases |p|
  {
    if p == [] {
      assert p + [c] + s == [c] + s;
      assert ([c] + s)[1..] == s;
    } else {
      assert (p + [c] + s)[1..] == p[1..] + [c] + s;
      assert (p + [c] + s)[0] == p[0];
      SplitPeels(p[1..], s, c);
      assert [p[0]] + p[1..] == p;
    }
  }

  lemma {:induction false} SplitWhole(p: string, c: char)
    requires c !in p
    ensures Split(p, c) == [p]
    decreases |p|
  {
    if p == [] {
    } else {
      SplitWhole(p[1..], c);
      assert [p[0]] + p[1..] == p;
    }
  }

  /** Splitting undoes joining. */
  lemma {:induction false} SplitUndoesJoin(parts: seq<string>, c: char)
    requires |parts| >= 1 && forall i :: 0 <= i < |parts| ==> c !in parts[i]
    ensures Split(Join(parts, c), c) == parts
    decreases |parts|
  {
    if |parts| == 1 {
      SplitWhole(parts[0], c);
    } else {
      SplitUndoesJoin(parts[1..], c);
      SplitPeels(parts[0], Join(parts[1..], c), c);
    }
  }

  /** Joining undoes splitting. */
  lemma {:induction false} JoinUndoesSplit(s: string, c: char)
    ensures Join(Split(s, c), c) == s
    decreases |s|
  {
    if s == [] {
    } else {
      JoinUndoesSplit(s[1..], c);
      var rest := Split(s[1..], c);
      if s[0] == c {
        assert ([[]] + rest)[1..] == rest;
        assert Split(s, c) == [[]] + rest;
        assert Join(Split(s, c), c) == [] + [c] + Join(rest, c);
      } else {
        var parts := [[s[0]] + rest[0]] + rest[1..];
        assert Split(s, c) == parts;
        if |rest| == 1 {
          assert parts == [[s[0]] + rest[0]];
        } else {
          assert parts[1..] == rest[1..];
        }
      }
    }
  }
}
