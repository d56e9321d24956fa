/** The text that `to_string` produces: every coordinate of every vertex,
    vertex by vertex, separated by single spaces. How one number is written
    (Python's `str` of a float) is a parameter `fmt`. */
module Format {

  /** All coordinates of the vertices in vertex-major order. */
  function Flatten(rows: seq<seq<real>>): seq<real>
    decreases |rows|
  {
    if |rows| == 0 then [] else Flatten(rows[..|rows| - 1]) + rows[|rows| - 1]
  }

  /** Each number written with `fmt`. */
  function Words(xs: seq<real>, fmt: real -> string): seq<string>
  {
    seq(|xs|, k requires 0 <= k < |xs| => fmt(xs[k]))
  }

  /** Each word followed by one space: what the loop of `to_string` accumulates. */
  function Spaced(ws: seq<string>): string
    decreases |ws|
  {
    if |ws| == 0 then "" else Spaced(ws[..|ws| - 1]) + ws[|ws| - 1] + " "
  }

  /** The words separated by single spaces. */
  function Join(ws: seq<string>): string
    decreases |ws|
  {
    if |ws| == 0 then ""
    else if |ws| == 1 then ws[0]
    else Join(ws[..|ws| - 1]) + " " + ws[|ws| - 1]
  }

  /** Python's `s[:-1]`: the string without its last character, "" for "". */
  function DropLast(s: string): string
  {
    if |s| == 0 then "" else s[..|s| - 1]
  }

  /** The pieces of `s` between its spaces (Python's `s.split(' ')`). */
  function Split(s: string): (r: seq<string>)
    ensures |r| > 0
    decreases |s|
  {
    if |s| == 0 then [""]
    else
      var init := Split(s[..|s| - 1]);
      if s[|s| - 1] == ' ' then init + [""]
      else init[..|init| - 1] + [init[|init| - 1] + [s[|s| - 1]]]
  }

  predicate Spaceless(w: string)
  {
    ' ' !in w
  }

  lemma WordsAppend(xs: seq<real>, ys: seq<real>, fmt: real -> string)
    ensures Words(xs + ys, fmt) == Words(xs, fmt) + Words(ys, fmt)
  {
  }

  lemma {:induction false} SpacedAppend(ws: seq<string>, us: seq<string>)
    ensures Spaced(ws + us) == Spaced(ws) + Spaced(us)
    decreases |us|
  {
    if |us| > 0 {
      var n := |us| - 1;
      assert (ws + us)[..|ws + us| - 1] == ws + us[..n];
      SpacedAppend(ws, us[..n]);
    } else {
      assert ws + us == ws;
    }
  }

  /** Dropping the last character of the space-terminated words leaves the
      words joined by single spaces: no space at the end, none doubled. */
  lemma {:induction false} DropLastSpaced(ws: seq<string>)
    ensures DropLast(Spaced(ws)) == Join(ws)
    decreases |ws|
  {
    if |ws| > 0 {
      SpacedIsJoinedPlusSpace(ws);
    }
  }

  lemma {:induction false} SpacedIsJoinedPlusSpace(ws: seq<string>)
    requires |ws| > 0
    ensures Spaced(ws) == Join(ws) + " "
    decreases |ws|
  {
    var n := |ws| - 1;
    if n == 0 {
      assert ws[..n] == [];
    } else {
      SpacedIsJoinedPlusSpace(ws[..n]);
    }
  }

  lemma {:induction false} SplitWord(w: string)
    requires Spaceless(w)
    ensures Split(w) == [w]
    decreases |w|
  {
    if |w| > 0 {
      var n := |w| - 1;
      assert w[..n] + [w[n]] == w;
      SplitWord(w[..n]);
    }
  }

  lemma {:induction false} SplitAfterSpace(t: string, w: string)
    requires Spaceless(w)
    ensures Split(t + " " + w) == Split(t) + [w]
    decreases |w|
  {
    var s := t + " " + w;
    if |w| == 0 {
      assert s[..|s| - 1] == t;
    } else {
      var n := |w| - 1;
      assert s[..|s| - 1] == t + " " + w[..n];
      assert w[..n] + [w[n]] == w;
      SplitAfterSpace(t, w[..n]);
    }
  }

  /** Splitting the joined words at their spaces gives the words back, as long
      as no word contains a space: the text lists every coordinate, in order. */
  lemma {:induction false} SplitJoin(ws: seq<string>)
    requires |ws| > 0
    requires forall k :: 0 <= k < |ws| ==> Spaceless(ws[k])
    ensures Split(Join(ws)) == ws
    decreases |ws|
  {
    var n := |ws| - 1;
    if n == 0 {
      SplitWord(ws[0]);
    } else {
      SplitJoin(ws[..n]);
      SplitAfterSpace(Join(ws[..n]), ws[n]);
      assert ws[..n] + [ws[n]] == ws;
    }
  }
}
