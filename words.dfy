/**
 * The starting-words setting is a space-separated list, split with
 * JavaScript's `String.prototype.split(" ")` (index.js:44): every single
 * space separates two pieces, empty pieces are kept, and a string without a
 * space gives one piece, so the list is never empty.
 */
module Words {

  /** `s.split(" ")`. */
  function Split(s: string): (pieces: seq<string>)
    ensures |pieces| >= 1
    ensures forall i :: 0 <= i < |pieces| ==> ' ' !in pieces[i]
    decreases |s|
  {
    if |s| == 0 then [""]
    else
      var rest := Split(s[1..]);
      if s[0] == ' ' then [""] + rest
      else [[s[0]] + rest[0]] + rest[1..]
  }

  /** `pieces.join(" ")`, the inverse of Split. */
  function Join(pieces: seq<string>): string
    requires |pieces| >= 1
    decreases |pieces|
  {
    if |pieces| == 1 then pieces[0] else pieces[0] + " " + Join(pieces[1..])
  }

  /** Joining the pieces with single spaces gives back the setting. */
  lemma {:induction false} JoinSplit(s: string)
    ensures Join(Split(s)) == s
    decreases |s|
  {
    if |s| > 0 {
      var rest := Split(s[1..]);
      JoinSplit(s[1..]);
      if s[0] == ' ' {
        assert Split(s) == [""] + rest;
        assert Join(Split(s)) == "" + " " + Join(rest);
        assert s == [s[0]] + s[1..];
      } else if |rest| == 1 {
        assert Join(Split(s)) == [s[0]] + rest[0];
        assert s == [s[0]] + s[1..];
      } else {
        var pieces := Split(s);
        assert pieces[1..] == rest[1..];
        assert Join(pieces) == ([s[0]] + rest[0]) + " " + Join(rest[1..]);
        assert Join(rest) == rest[0] + " " + Join(rest[1..]);
        assert s == [s[0]] + s[1..];
      }
    }
  }

  /** A word without spaces splits into itself. */
  lemma {:induction false} SplitWord(w: string)
    requires ' ' !in w
    ensures Split(w) == [w]
    decreases |w|
  {
    if |w| > 0 {
      assert w[0] != ' ' && ' ' !in w[1..];
      SplitWord(w[1..]);
      assert w == [w[0]] + w[1..];
    }
  }

  /** A space after a word without spaces ends that word's piece. */
  lemma {:induction false} SplitAfterWord(w: string, t: string)
    requires ' ' !in w
    ensures Split(w + " " + t) == [w] + Split(t)
    decreases |w|
  {
    if |w| == 0 {
      assert w + " " + t == [' '] + t;
      assert (w + " " + t)[1..] == t;
    } else {
      var s := w + " " + t;
      assert s[0] == w[0] && w[0] != ' ';
      assert s[1..] == w[1..] + " " + t;
      assert ' ' !in w[1..];
      SplitAfterWord(w[1..], t);
      var rest := Split(s[1..]);
      assert rest[0] == w[1..] && rest[1..] == Split(t);
      assert [w[0]] + w[1..] == w;
    }
  }

  /** Splitting a list of words joined by single spaces gives the list back. */
  lemma {:induction false} SplitJoin(pieces: seq<string>)
    requires |pieces| >= 1
    requires forall i :: 0 <= i < |pieces| ==> ' ' !in pieces[i]
    ensures Split(Join(pieces)) == pieces
    decreases |pieces|
  {
    if |pieces| == 1 {
      SplitWord(pieces[0]);
    } else {
      SplitJoin(pieces[1..]);
      SplitAfterWord(pieces[0], Join(pieces[1..]));
      assert pieces == [pieces[0]] + pieces[1..];
    }
  }
}
