/**
 * JavaScript's `s.split(" ")` on strings, and the "second word" both token
 * gates take from the `Authorization` header.
 */
module Text {
  import opened Wrappers

  /** `parts.join(" ")`. */
  function Join(parts: seq<string>): string
  {
    if parts == [] then ""
    else if |parts| == 1 then parts[0]
    else parts[0] + " " + Join(parts[1..])
  }

  /** `s.split(" ")`: the maximal space-free pieces between single spaces (empty pieces included). */
  function Split(s: string): (parts: seq<string>)
    ensures |parts| >= 1
    ensures forall i :: 0 <= i < |parts| ==> ' ' !in parts[i]
  {
    if s == [] then [""]
    else
      var rest := Split(s[1..]);
      if s[0] == ' ' then [""] + rest
      else [[s[0]] + rest[0]] + rest[1..]
  }

  /** Splitting and joining again gives back the string. */
  lemma {:induction false} JoinSplit(s: string)
    ensures Join(Split(s)) == s
  {
    if s != [] {
      var rest := Split(s[1..]);
      JoinSplit(s[1..]);
      if s[0] == ' ' {
        assert Split(s) == [""] + rest;
        assert Join(Split(s)) == "" + " " + Join(rest);
        assert s == [' '] + s[1..];
      } else {
        var parts := Split(s);
        assert parts == [[s[0]] + rest[0]] + rest[1..];
        if |rest| == 1 {
          assert Join(parts) == [s[0]] + rest[0];
        } else {
          assert parts[1..] == rest[1..];
          assert Join(parts) == [s[0]] + rest[0] + " " + Join(rest[1..]);
          assert Join(rest) == rest[0] + " " + Join(rest[1..]);
        }
        assert s == [s[0]] + s[1..];
      }
    }
  }

  /** Joining space-free pieces and splitting again gives back the pieces. */
  lemma {:induction false} SplitJoin(parts: seq<string>)
    requires |parts| >= 1
    requires forall i :: 0 <= i < |parts| ==> ' ' !in parts[i]
    ensures Split(Join(parts)) == parts
  {
    if |parts| == 1 {
      SplitSpaceFree(parts[0]);
    } else {
      SplitJoin(parts[1..]);
      SplitWordThenRest(parts[0], Join(parts[1..]));
      assert parts == [parts[0]] + parts[1..];
    }
  }

  /** A space-free string is a single piece. */
  lemma {:induction false} SplitSpaceFree(w: string)
    requires ' ' !in w
    ensures Split(w) == [w]
  {
    if w != [] {
      SplitSpaceFree(w[1..]);
      assert w == [w[0]] + w[1..];
    }
  }

  /** Splitting `w + " " + rest` for a space-free `w` puts `w` first, then the pieces of `rest`. */
  lemma {:induction false} SplitWordThenRest(w: string, rest: string)
    requires ' ' !in w
    ensures Split(w + " " + rest) == [w] + Split(rest)
  {
    if w == [] {
      assert w + " " + rest == [' '] + rest;
      assert (w + " " + rest)[1..] == rest;
    } else {
      SplitWordThenRest(w[1..], rest);
      var s := w + " " + rest;
      assert s[0] == w[0] && s[1..] == w[1..] + " " + rest;
      assert w == [w[0]] + w[1..];
    }
  }

  /** There is more than one piece exactly when the string holds a space. */
  lemma {:induction false} SplitCount(s: string)
    ensures |Split(s)| >= 2 <==> ' ' in s
  {
    if s != [] {
      SplitCount(s[1..]);
      assert ' ' in s <==> s[0] == ' ' || ' ' in s[1..] by {
        assert s == [s[0]] + s[1..];
      }
    }
  }

  /** `s.split(" ")[1]`: the second space-separated piece, if there is one. */
  function SecondWord(s: string): (w: Option<string>)
    ensures w.None? <==> ' ' !in s
    ensures w.Some? ==> ' ' !in w.value
  {
    SplitCount(s);
    var parts := Split(s);
    if |parts| >= 2 then Some(parts[1]) else None
  }

  /** The second word of `first + " " + w` is `w`, whatever the space-free first word is. */
  lemma SecondWordOf(first: string, w: string)
    requires ' ' !in first && ' ' !in w
    ensures SecondWord(first + " " + w) == Some(w)
  {
    SplitJoin([first, w]);
    assert Join([first, w]) == first + " " + w;
  }
}
