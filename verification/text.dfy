/**
 * String handling used by the command interpreter: Python's `str.lower()`
 * (on ASCII letters), `str.split()` with no separator, `" ".join(...)` and
 * `str.replace('_', ' ')`, plus the fixed-width cell formatting of the map.
 */
module Text {

  /** The characters Python's `str.split()` treats as whitespace. */
  predicate IsSpace(c: char) {
    || ('\t' <= c <= '\r')
    || ('\U{1C}' <= c <= ' ')
    || c == '\U{85}' || c == '\U{A0}' || c == '\U{1680}'
    || ('\U{2000}' <= c <= '\U{200A}')
    || c == '\U{2028}' || c == '\U{2029}' || c == '\U{202F}' || c == '\U{205F}' || c == '\U{3000}'
  }

  predicate NoSpace(s: string) {
    forall i :: 0 <= i < |s| ==> !IsSpace(s[i])
  }

  function LowerChar(c: char): char {
    if 'A' <= c <= 'Z' then (c as int + 32) as char else c
  }

  /** `s.lower()` restricted to ASCII letters. */
  function Lower(s: string): (r: string)
    ensures |r| == |s|
    ensures forall i :: 0 <= i < |s| ==> r[i] == LowerChar(s[i])
    ensures forall i :: 0 <= i < |r| ==> !('A' <= r[i] <= 'Z')
    ensures forall i :: 0 <= i < |s| && !('A' <= s[i] <= 'Z') ==> r[i] == s[i]
  {
    seq(|s|, i requires 0 <= i < |s| => LowerChar(s[i]))
  }

  /** Lowering twice is lowering once. */
  lemma LowerIdempotent(s: string)
    ensures Lower(Lower(s)) == Lower(s)
  {
    assert forall i :: 0 <= i < |s| ==> Lower(Lower(s))[i] == Lower(s)[i];
  }

  /** `s.replace('_', ' ')`. */
  function Underscores(s: string): (r: string)
    ensures |r| == |s|
    ensures forall i :: 0 <= i < |s| ==> r[i] == if s[i] == '_' then ' ' else s[i]
    ensures forall i :: 0 <= i < |r| ==> r[i] != '_'
  {
    seq(|s|, i requires 0 <= i < |s| => if s[i] == '_' then ' ' else s[i])
  }

  /**
   * Lowering and replacing underscores commute, so `take` may do them in
   * either order: it does the typed name one way round and the item names
   * the other.
   */
  lemma LowerUnderscoresCommute(s: string)
    ensures Lower(Underscores(s)) == Underscores(Lower(s))
  {
    assert forall i :: 0 <= i < |s| ==> Lower(Underscores(s))[i] == Underscores(Lower(s))[i];
  }

  /** The characters of `s` that are not whitespace, in order. */
  function Squeeze(s: string): string {
    if s == [] then []
    else if IsSpace(s[0]) then Squeeze(s[1..])
    else [s[0]] + Squeeze(s[1..])
  }

  function Concat(ws: seq<string>): string {
    if ws == [] then [] else ws[0] + Concat(ws[1..])
  }

  lemma {:induction false} SqueezeAppend(a: string, b: string)
    ensures Squeeze(a + b) == Squeeze(a) + Squeeze(b)
  {
    if a == [] {
      assert a + b == b;
    } else {
      assert (a + b)[1..] == a[1..] + b;
      SqueezeAppend(a[1..], b);
    }
  }

  lemma {:induction false} SqueezeNoSpace(s: string)
    requires NoSpace(s)
    ensures Squeeze(s) == s
  {
    if s != [] {
      SqueezeNoSpace(s[1..]);
    }
  }

  /** The longest prefix of `s` that holds no whitespace. */
  function Word(s: string): (w: string)
    ensures |w| <= |s| && w == s[..|w|]
    ensures NoSpace(w)
    ensures |w| < |s| ==> IsSpace(s[|w|])
  {
    if s == [] || IsSpace(s[0]) then [] else [s[0]] + Word(s[1..])
  }

  /**
   * `s.split()`: the maximal runs of non-whitespace characters of `s`.
   * Every token is non-empty and free of whitespace, and together the tokens
   * hold exactly the non-whitespace characters of `s`, in order.
   */
  function Split(s: string): (r: seq<string>)
    ensures forall i :: 0 <= i < |r| ==> r[i] != [] && NoSpace(r[i])
    ensures Concat(r) == Squeeze(s)
    decreases |s|
  {
    if s == [] then []
    else if IsSpace(s[0]) then Split(s[1..])
    else
      var w := Word(s);
      var rest := s[|w|..];
      assert s == w + rest;
      SqueezeAppend(w, rest);
      SqueezeNoSpace(w);
      [w] + Split(rest)
  }

  /** `" ".join(ws)`. */
  function JoinSpace(ws: seq<string>): string {
    if ws == [] then []
    else if |ws| == 1 then ws[0]
    else ws[0] + " " + JoinSpace(ws[1..])
  }

  lemma {:induction false} WordOfPrefix(w: string, rest: string)
    requires w != [] && NoSpace(w)
    requires rest == [] || IsSpace(rest[0])
    ensures Word(w + rest) == w
  {
    if |w| == 1 {
      assert (w + rest)[1..] == rest;
    } else {
      assert (w + rest)[1..] == w[1..] + rest;
      WordOfPrefix(w[1..], rest);
    }
  }

  /**
   * The first token is a maximal run: after leading whitespace `p`, a
   * whitespace-free `x` that ends the string or is followed by whitespace
   * is the first token, and splitting goes on with what follows it.
   */
  lemma {:induction false} SplitRun(p: string, x: string, q: string)
    requires forall i :: 0 <= i < |p| ==> IsSpace(p[i])
    requires x != [] && NoSpace(x)
    requires q == [] || IsSpace(q[0])
    ensures Split(p + x + q) == [x] + Split(q)
  {
    if p == [] {
      assert p + x + q == x + q;
      WordOfPrefix(x, q);
      assert (x + q)[|x|..] == q;
    } else {
      assert (p + x + q)[1..] == p[1..] + x + q;
      SplitRun(p[1..], x, q);
    }
  }

  /**
   * Splitting a space-joined list of tokens gives the tokens back: the
   * arguments `take` re-joins are exactly the words the player typed.
   */
  lemma {:induction false} SplitJoin(ws: seq<string>)
    requires forall i :: 0 <= i < |ws| ==> ws[i] != [] && NoSpace(ws[i])
    ensures Split(JoinSpace(ws)) == ws
  {
    if ws == [] {
    } else if |ws| == 1 {
      WordOfPrefix(ws[0], []);
      assert ws[0] + [] == ws[0];
      assert ws[0][|ws[0]|..] == [];
    } else {
      var s := JoinSpace(ws);
      var tail := " " + JoinSpace(ws[1..]);
      assert s == ws[0] + tail;
      WordOfPrefix(ws[0], tail);
      assert s[|ws[0]|..] == tail;
      assert tail[1..] == JoinSpace(ws[1..]);
      SplitJoin(ws[1..]);
      assert ws == [ws[0]] + ws[1..];
    }
  }

  /** `s.ljust(width)`. */
  function LeftJustify(s: string, width: int): (r: string)
    ensures |s| <= width ==> |r| == width && r[..|s|] == s
    ensures |s| >= width ==> r == s
  {
    if |s| < width then s + seq(width - |s|, _ => ' ') else s
  }
}
