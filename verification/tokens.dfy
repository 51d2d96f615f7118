/** Splitting a string into the maximal runs of characters that are not
    separators, and the inverse operation of writing a list of elements each
    followed by a terminator character.

    Both java.util.StringTokenizer (with a delimiter set) and Python's
    argument-less str.split() compute Runs; a writer that emits every element
    followed by a newline or a ';' computes Terminated. */
module Tokens {

  /** No character of t is a separator. */
  predicate NoSep(t: string, isSep: char -> bool) {
    forall i :: 0 <= i < |t| ==> !isSep(t[i])
  }

  /** Every element is non-empty and free of separators: exactly the lists Runs can produce. */
  predicate WellFormed(es: seq<string>, isSep: char -> bool) {
    forall i :: 0 <= i < |es| ==> es[i] != [] && NoSep(es[i], isSep)
  }

  /** Length of the leading run of non-separator characters of s. */
  function RunLength(s: string, isSep: char -> bool): (n: nat)
    ensures n <= |s|
    ensures NoSep(s[..n], isSep)
    ensures n < |s| ==> isSep(s[n])
  {
    if |s| == 0 || isSep(s[0]) then 0
    else
      var m := RunLength(s[1..], isSep);
      assert s[..1 + m] == [s[0]] + s[1..][..m];
      1 + m
  }

  /** The maximal runs of non-separator characters of s, in order: separators are
      skipped, then a token is everything up to the next separator or the end. */
  function Runs(s: string, isSep: char -> bool): (r: seq<string>)
    ensures WellFormed(r, isSep)
    decreases |s|
  {
    if |s| == 0 then []
    else if isSep(s[0]) then Runs(s[1..], isSep)
    else
      var n := RunLength(s, isSep);
      [s[..n]] + Runs(s[n..], isSep)
  }

  /** Each element followed by the terminator d; the empty list gives the empty string. */
  function Terminated(es: seq<string>, d: char): (r: string)
    ensures es == [] <==> r == []
    ensures es != [] ==> r[|r| - 1] == d
  {
    if es == [] then [] else es[0] + [d] + Terminated(es[1..], d)
  }

  // ---------------------------------------------------------------------------
  // An independent reference definition of Runs: split at EVERY separator,
  // keeping the empty pieces, then drop the empty pieces.
  // ---------------------------------------------------------------------------

  /** The pieces between separators, empty ones included (one more piece than separators). */
  function Pieces(s: string, isSep: char -> bool): (r: seq<string>)
    ensures |r| > 0
  {
    if |s| == 0 then [""]
    else
      var rest := Pieces(s[1..], isSep);
      if isSep(s[0]) then [""] + rest else [[s[0]] + rest[0]] + rest[1..]
  }

  function DropEmpty(ps: seq<string>): seq<string>
  {
    if ps == [] then [] else (if ps[0] == [] then [] else [ps[0]]) + DropEmpty(ps[1..])
  }

  /** A separator-free word glues onto the first piece of what follows it. */
  lemma {:induction false} PiecesOfWord(w: string, t: string, isSep: char -> bool)
    requires NoSep(w, isSep)
    ensures Pieces(w + t, isSep) == [w + Pieces(t, isSep)[0]] + Pieces(t, isSep)[1..]
    decreases |w|
  {
    if |w| > 0 {
      assert (w + t)[1..] == w[1..] + t;
      PiecesOfWord(w[1..], t, isSep);
      assert [w[0]] + (w[1..] + Pieces(t, isSep)[0]) == w + Pieces(t, isSep)[0];
    } else {
      var ps := Pieces(t, isSep);
      assert w + t == t && w + ps[0] == ps[0];
      assert [ps[0]] + ps[1..] == ps;
    }
  }

  /** Runs agrees with the reference definition on every string. */
  lemma {:induction false} RunsAreNonEmptyPieces(s: string, isSep: char -> bool)
    ensures Runs(s, isSep) == DropEmpty(Pieces(s, isSep))
    decreases |s|
  {
    if |s| == 0 {
    } else if isSep(s[0]) {
      RunsAreNonEmptyPieces(s[1..], isSep);
    } else {
      var n := RunLength(s, isSep);
      var w, rest := s[..n], s[n..];
      assert s == w + rest;
      PiecesOfWord(w, rest, isSep);
      if |rest| == 0 {
        assert Pieces(rest, isSep) == [""];
        assert w + "" == w;
        assert Pieces(s, isSep) == [w];
        assert Runs(rest, isSep) == [];
      } else {
        assert isSep(rest[0]);
        RunsAreNonEmptyPieces(rest[1..], isSep);
        assert Pieces(rest, isSep) == [""] + Pieces(rest[1..], isSep);
        assert w + "" == w;
        assert Pieces(s, isSep) == [w] + Pieces(rest[1..], isSep);
        assert Runs(rest, isSep) == Runs(rest[1..], isSep);
      }
    }
  }

  // ---------------------------------------------------------------------------
  // Round trip and normalisation
  // ---------------------------------------------------------------------------

  /** A run stops exactly at the end of a separator-free word followed by a separator (or nothing). */
  lemma {:induction false} RunLengthOfWord(w: string, t: string, isSep: char -> bool)
    requires NoSep(w, isSep)
    requires t == [] || isSep(t[0])
    ensures RunLength(w + t, isSep) == |w|
    decreases |w|
  {
    if |w| > 0 {
      assert (w + t)[1..] == w[1..] + t;
      RunLengthOfWord(w[1..], t, isSep);
    } else {
      assert w + t == t;
    }
  }

  /** Splitting what Terminated wrote gives back the well-formed elements. */
  lemma {:induction false} RunsOfTerminated(es: seq<string>, d: char, isSep: char -> bool)
    requires isSep(d)
    requires WellFormed(es, isSep)
    ensures Runs(Terminated(es, d), isSep) == es
  {
    if es != [] {
      var e, tail := es[0], Terminated(es[1..], d);
      var s := e + ([d] + tail);
      assert Terminated(es, d) == s;
      RunLengthOfWord(e, [d] + tail, isSep);
      assert s[..|e|] == e;
      assert s[|e|..] == [d] + tail;
      assert Runs([d] + tail, isSep) == Runs(tail, isSep) by {
        assert ([d] + tail)[1..] == tail;
      }
      RunsOfTerminated(es[1..], d, isSep);
      assert es == [e] + es[1..];
    }
  }

  /** Writing then splitting then writing again changes nothing. */
  lemma NormalisationIdempotent(s: string, d: char, isSep: char -> bool)
    requires isSep(d)
    ensures Terminated(Runs(Terminated(Runs(s, isSep), d), isSep), d) == Terminated(Runs(s, isSep), d)
  {
    RunsOfTerminated(Runs(s, isSep), d, isSep);
  }

  lemma {:induction false} TerminatedAppend(a: seq<string>, b: seq<string>, d: char)
    ensures Terminated(a + b, d) == Terminated(a, d) + Terminated(b, d)
  {
    if a != [] {
      assert (a + b)[1..] == a[1..] + b;
      TerminatedAppend(a[1..], b, d);
    } else {
      assert a + b == b;
    }
  }

  // ---------------------------------------------------------------------------
  // Leading and trailing separators do not change the runs
  // ---------------------------------------------------------------------------

  function TrimLeft(s: string, isSep: char -> bool): string
  {
    if |s| > 0 && isSep(s[0]) then TrimLeft(s[1..], isSep) else s
  }

  function TrimRight(s: string, isSep: char -> bool): string
  {
    if |s| > 0 && isSep(s[|s| - 1]) then TrimRight(s[..|s| - 1], isSep) else s
  }

  /** Python's str.strip(): separators removed from both ends. */
  function Trim(s: string, isSep: char -> bool): (r: string)
    ensures |r| <= |s|
    ensures r != [] ==> !isSep(r[0]) && !isSep(r[|r| - 1])
  {
    TrimEnds(s, isSep);
    TrimRight(TrimLeft(s, isSep), isSep)
  }

  lemma {:induction false} TrimEnds(s: string, isSep: char -> bool)
    ensures |TrimRight(TrimLeft(s, isSep), isSep)| <= |s|
    ensures var r := TrimRight(TrimLeft(s, isSep), isSep);
      r != [] ==> !isSep(r[0]) && !isSep(r[|r| - 1])
  {
    var l := TrimLeft(s, isSep);
    TrimLeftShape(s, isSep);
    TrimRightShape(l, isSep);
  }

  lemma {:induction false} TrimLeftShape(s: string, isSep: char -> bool)
    ensures |TrimLeft(s, isSep)| <= |s|
    ensures TrimLeft(s, isSep) != [] ==> !isSep(TrimLeft(s, isSep)[0])
    ensures TrimLeft(s, isSep) == s[|s| - |TrimLeft(s, isSep)|..]
  {
    if |s| > 0 && isSep(s[0]) {
      TrimLeftShape(s[1..], isSep);
    }
  }

  lemma {:induction false} TrimRightShape(s: string, isSep: char -> bool)
    ensures |TrimRight(s, isSep)| <= |s|
    ensures var r := TrimRight(s, isSep); r == s[..|r|]
    ensures var r := TrimRight(s, isSep); r != [] ==> !isSep(r[|r| - 1])
    ensures var r := TrimRight(s, isSep); r != [] ==> r[0] == s[0]
  {
    if |s| > 0 && isSep(s[|s| - 1]) {
      TrimRightShape(s[..|s| - 1], isSep);
      var r := TrimRight(s, isSep);
      assert r == s[..|s| - 1][..|r|];
    }
  }

  lemma {:induction false} RunsDropLeading(s: string, isSep: char -> bool)
    ensures Runs(TrimLeft(s, isSep), isSep) == Runs(s, isSep)
  {
    if |s| > 0 && isSep(s[0]) {
      RunsDropLeading(s[1..], isSep);
    }
  }

  /** A trailing separator adds no run. */
  lemma {:induction false} RunsAppendSep(s: string, c: char, isSep: char -> bool)
    requires isSep(c)
    ensures Runs(s + [c], isSep) == Runs(s, isSep)
    decreases |s|
  {
    var t := s + [c];
    if |s| == 0 {
      assert t[1..] == [];
    } else if isSep(s[0]) {
      assert t[1..] == s[1..] + [c];
      RunsAppendSep(s[1..], c, isSep);
    } else {
      var n := RunLength(s, isSep);
      assert s == s[..n] + s[n..];
      RunLengthOfWord(s[..n], s[n..] + [c], isSep);
      assert t == s[..n] + (s[n..] + [c]);
      assert t[..n] == s[..n];
      assert t[n..] == s[n..] + [c];
      RunsAppendSep(s[n..], c, isSep);
    }
  }

  lemma {:induction false} RunsDropTrailing(s: string, isSep: char -> bool)
    ensures Runs(TrimRight(s, isSep), isSep) == Runs(s, isSep)
    decreases |s|
  {
    if |s| > 0 && isSep(s[|s| - 1]) {
      var init := s[..|s| - 1];
      assert s == init + [s[|s| - 1]];
      RunsAppendSep(init, s[|s| - 1], isSep);
      RunsDropTrailing(init, isSep);
    }
  }

  /** Stripping before splitting is redundant. */
  lemma RunsOfTrim(s: string, isSep: char -> bool)
    ensures Runs(Trim(s, isSep), isSep) == Runs(s, isSep)
  {
    RunsDropTrailing(TrimLeft(s, isSep), isSep);
    RunsDropLeading(s, isSep);
  }
}
