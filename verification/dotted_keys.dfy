/** Python's `key.split('.')` and its inverse `'.'.join(parts)`, the path syntax of the settings. */
module DottedKeys {

  const Dot: char := '.'

  /** A path segment: any string without a dot, the empty string included. */
  predicate IsSegment(s: string) {
    Dot !in s
  }

  /** `'.'.join(parts)`. */
  function Join(parts: seq<string>): string
    requires |parts| >= 1
  {
    if |parts| == 1 then parts[0] else parts[0] + [Dot] + Join(parts[1..])
  }

  /** `s.split('.')`: always at least one part, none containing a dot, and joining them gives `s`
      back (so "" splits to [""] and "a..b" to ["a", "", "b"]). */
  function Split(s: string): (parts: seq<string>)
    ensures |parts| >= 1
    ensures forall i :: 0 <= i < |parts| ==> IsSegment(parts[i])
    ensures Join(parts) == s
  {
    if |s| == 0 then [""]
    else
      var rest := Split(s[1..]);
      if s[0] == Dot then
        assert ([""] + rest)[1..] == rest;
        [""] + rest
      else
        var parts := [[s[0]] + rest[0]] + rest[1..];
        assert parts[1..] == rest[1..];
        assert IsSegment(parts[0]) by {
          assert forall i :: 0 <= i < |rest[0]| ==> parts[0][i + 1] == rest[0][i];
        }
        parts
  }

  /** Splitting a join of dot-free parts gives the parts back: together with `Split`'s contract,
      `Split` and `Join` are inverse bijections between strings and non-empty lists of segments. */
  lemma {:induction false} SplitJoin(parts: seq<string>)
    requires |parts| >= 1
    requires forall i :: 0 <= i < |parts| ==> IsSegment(parts[i])
    ensures Split(Join(parts)) == parts
    decreases |parts|, |parts[0]|
  {
    var head := parts[0];
    if |parts| == 1 {
      SplitSegment(head);
    } else if |head| == 0 {
      var tail := parts[1..];
      SplitJoin(tail);
      var s := Join(parts);
      assert s == [Dot] + Join(tail);
      assert s[1..] == Join(tail);
      assert parts == [""] + tail;
    } else {
      var shorter := [head[1..]] + parts[1..];
      assert IsSegment(head[1..]) by {
        assert forall i :: 0 <= i < |head[1..]| ==> head[1..][i] == head[i + 1];
      }
      assert forall i :: 1 <= i < |shorter| ==> shorter[i] == parts[i];
      SplitJoin(shorter);
      var s := Join(parts);
      assert shorter[1..] == parts[1..];
      assert s == [head[0]] + Join(shorter);
      assert s[1..] == Join(shorter);
      assert head[0] != Dot by {
        assert head[0] in head;
      }
      assert [head[0]] + head[1..] == head;
      assert [head] + parts[1..] == parts;
    }
  }

  /** A string without a dot is a single segment. */
  lemma {:induction false} SplitSegment(s: string)
    requires IsSegment(s)
    ensures Split(s) == [s]
    decreases |s|
  {
    if |s| > 0 {
      assert s[0] in s;
      assert IsSegment(s[1..]) by {
        forall i | 0 <= i < |s[1..]| ensures s[1..][i] != Dot {
          assert s[1..][i] == s[i + 1];
          assert s[i + 1] in s;
        }
      }
      SplitSegment(s[1..]);
      assert [s[0]] + s[1..] == s;
    }
  }
}
