/**
 * Display width of text as the Excel-to-Markdown converter measures it
 * (`calc_display_width`): every character whose code point is above 255 is
 * taken to occupy two columns of a monospaced viewer, every other character
 * one. No East-Asian-width table is consulted; the heuristic is kept as is.
 */
module Width {

  /** Columns one character occupies under the converter's heuristic. */
  function CharWidth(c: char): nat
  {
    if c as int > 255 then 2 else 1
  }

  /** Sum of `CharWidth` over the characters of `s`. */
  function DisplayWidth(s: string): (w: nat)
    ensures |s| <= w <= 2 * |s|
  {
    if s == [] then 0 else CharWidth(s[0]) + DisplayWidth(s[1..])
  }

  /**
   * A string is exactly as wide as it is long when none of its characters
   * is above code point 255, and twice as wide when all of them are.
   */
  lemma {:induction false} DisplayWidthExtremes(s: string)
    ensures DisplayWidth(s) == |s| <==> forall i :: 0 <= i < |s| ==> s[i] as int <= 255
    ensures DisplayWidth(s) == 2 * |s| <==> forall i :: 0 <= i < |s| ==> s[i] as int > 255
  {
    if s != [] {
      DisplayWidthExtremes(s[1..]);
      assert forall i :: 1 <= i < |s| ==> s[i] == s[1..][i - 1];
    }
  }

  /** Python's `' ' * count`: `count` spaces, and none at all when `count` is not positive. */
  function Spaces(count: int): (s: string)
    ensures |s| == if count <= 0 then 0 else count
    ensures forall i :: 0 <= i < |s| ==> s[i] == ' '
  {
    if count <= 0 then "" else " " + Spaces(count - 1)
  }

  /** `count` spaces are `count` columns wide. */
  lemma {:induction false} DisplayWidthSpaces(count: int)
    ensures DisplayWidth(Spaces(count)) == if count <= 0 then 0 else count
  {
    if count > 0 {
      DisplayWidthSpaces(count - 1);
      assert Spaces(count)[1..] == Spaces(count - 1);
    }
  }

  /** Display width adds up across concatenation. */
  lemma {:induction false} DisplayWidthAppend(a: string, b: string)
    ensures DisplayWidth(a + b) == DisplayWidth(a) + DisplayWidth(b)
  {
    if a == [] {
      assert a + b == b;
    } else {
      assert (a + b)[1..] == a[1..] + b;
      DisplayWidthAppend(a[1..], b);
    }
  }

  /**
   * Extending a string never makes it narrower: every extra character adds
   * at least one column.
   */
  lemma DisplayWidthPrefix(s: string, t: string)
    requires s <= t
    ensures DisplayWidth(s) + (|t| - |s|) <= DisplayWidth(t)
  {
    assert t == s + t[|s|..];
    DisplayWidthAppend(s, t[|s|..]);
  }
}
