/** The ECMAScript string built-ins that the storefront widgets rely on:
    `String.prototype.toLowerCase`, `String.prototype.trim` and
    `String.prototype.split(',')`, with `Array.prototype.join(',')` as the
    partner that `split` inverts. */
module JsString {

  /** WhiteSpace and LineTerminator code points (ECMA-262, sections 12.2 and 12.3),
      the characters `trim` removes: TAB, LF, VT, FF, CR, the space separators of
      Unicode category Zs, LINE SEPARATOR, PARAGRAPH SEPARATOR and the BOM. */
  predicate IsSpace(c: char) {
    c == '\U{9}' || c == '\U{A}' || c == '\U{B}' || c == '\U{C}' || c == '\U{D}'
    || c == ' ' || c == '\U{A0}' || c == '\U{1680}' || ('\U{2000}' <= c <= '\U{200A}')
    || c == '\U{2028}' || c == '\U{2029}' || c == '\U{202F}' || c == '\U{205F}'
    || c == '\U{3000}' || c == '\U{FEFF}'
  }

  /** Upper-case letters whose lower-case form lies 32 code points higher:
      ASCII A-Z and the Latin-1 capitals from U+00C0 to U+00DE except U+00D7. */
  predicate IsUpper(c: char) {
    ('A' <= c <= 'Z') || ('\U{C0}' <= c <= '\U{DE}' && c != '\U{D7}')
  }

  function LowerChar(c: char): (r: char)
    ensures !IsUpper(r)
    ensures !IsUpper(c) ==> r == c
    ensures IsUpper(c) ==> r as int == c as int + 32
    ensures IsSpace(r) <==> IsSpace(c)
  {
    if IsUpper(c) then (c as int + 32) as char else c
  }

  /** `s.toLowerCase()`: same length, every upper-case letter replaced by its
      lower-case form 32 code points higher, everything else kept. */
  function Lower(s: string): (r: string)
    ensures |r| == |s|
    ensures forall i :: 0 <= i < |s| ==> !IsUpper(r[i])
    ensures forall i :: 0 <= i < |s| ==> !IsUpper(s[i]) ==> r[i] == s[i]
    ensures forall i :: 0 <= i < |s| && IsUpper(s[i]) ==> r[i] as int == s[i] as int + 32
    ensures forall i :: 0 <= i < |s| ==> (IsSpace(r[i]) <==> IsSpace(s[i]))
  {
    seq(|s|, i requires 0 <= i < |s| => LowerChar(s[i]))
  }

  /** Lowering twice is lowering once. */
  lemma LowerIdempotent(s: string)
    ensures Lower(Lower(s)) == Lower(s)
  {
  }

  /** Length of the run of whitespace at the start of `s`. */
  function LeadingSpaces(s: string): (n: nat)
    ensures n <= |s|
    ensures forall i :: 0 <= i < n ==> IsSpace(s[i])
    ensures n < |s| ==> !IsSpace(s[n])
  {
    if s == [] || !IsSpace(s[0]) then 0 else 1 + LeadingSpaces(s[1..])
  }

  /** Length of the run of whitespace at the end of `s`. */
  function TrailingSpaces(s: string): (n: nat)
    ensures n <= |s|
    ensures forall i :: |s| - n <= i < |s| ==> IsSpace(s[i])
    ensures n < |s| ==> !IsSpace(s[|s| - 1 - n])
  {
    if s == [] || !IsSpace(s[|s| - 1]) then 0 else 1 + TrailingSpaces(s[..|s| - 1])
  }

  /** `s.trim()`: the infix of `s` that starts at its first non-whitespace
      character and ends at its last one; every character outside it is whitespace. */
  function Trim(s: string): (r: string)
    ensures r == [] || (!IsSpace(r[0]) && !IsSpace(r[|r| - 1]))
    ensures LeadingSpaces(s) + |r| <= |s|
    ensures s[LeadingSpaces(s)..LeadingSpaces(s) + |r|] == r
    ensures forall i :: 0 <= i < |s| && !IsSpace(s[i]) ==> LeadingSpaces(s) <= i < LeadingSpaces(s) + |r|
  {
    var a := LeadingSpaces(s);
    var rest := s[a..];
    rest[..|rest| - TrailingSpaces(rest)]
  }

  /** Lowering a comma-free string leaves it comma-free. */
  lemma LowerKeepsCommaFree(s: string)
    requires ',' !in s
    ensures ',' !in Lower(s)
  {
    forall i | 0 <= i < |s| ensures Lower(s)[i] != ',' {
      var c := s[i];
      assert Lower(s)[i] == LowerChar(c);
      assert c != ',';
    }
  }

  /** Trimming a comma-free string leaves it comma-free. */
  lemma TrimKeepsCommaFree(s: string)
    requires ',' !in s
    ensures ',' !in Trim(s)
  {
    var r := Trim(s);
    var a := LeadingSpaces(s);
    forall i | 0 <= i < |r| ensures r[i] != ',' {
      assert r[i] == s[a + i];
    }
  }

  /** A string with no whitespace at either end is its own trim. */
  lemma TrimOfTrimmed(s: string)
    requires s == [] || (!IsSpace(s[0]) && !IsSpace(s[|s| - 1]))
    ensures Trim(s) == s
  {
  }

  /** `pieces.join(',')`. */
  function Join(pieces: seq<string>): string
  {
    if pieces == [] then ""
    else if |pieces| == 1 then pieces[0]
    else pieces[0] + "," + Join(pieces[1..])
  }

  /** Number of commas in `s`. */
  function Commas(s: string): nat
  {
    if s == [] then 0 else (if s[0] == ',' then 1 else 0) + Commas(s[1..])
  }

  /** Prefixing the first piece with a character prefixes the joined string with it. */
  lemma {:induction false} JoinConsChar(c: char, pieces: seq<string>)
    requires |pieces| >= 1
    ensures Join([[c] + pieces[0]] + pieces[1..]) == [c] + Join(pieces)
  {
    var q := [[c] + pieces[0]] + pieces[1..];
    assert q[1..] == pieces[1..];
    if |pieces| > 1 {
      calc {
        Join(q);
        ([c] + pieces[0]) + "," + Join(pieces[1..]);
        [c] + (pieces[0] + "," + Join(pieces[1..]));
      }
    }
  }

  /** `s.split(',')`: one piece per comma plus one, no piece holds a comma, and
      joining the pieces with commas gives `s` back. */
  function Split(s: string): (pieces: seq<string>)
    ensures |pieces| == Commas(s) + 1
    ensures forall i :: 0 <= i < |pieces| ==> ',' !in pieces[i]
    ensures Join(pieces) == s
    decreases |s|
  {
    if s == [] then [""]
    else
      var rest := Split(s[1..]);
      if s[0] == ',' then
        var pieces := [""] + rest;
        assert pieces[1..] == rest;
        assert forall i :: 1 <= i < |pieces| ==> pieces[i] == rest[i - 1];
        pieces
      else
        var pieces := [[s[0]] + rest[0]] + rest[1..];
        JoinConsChar(s[0], rest);
        assert [s[0]] + s[1..] == s;
        assert forall i :: 1 <= i < |pieces| ==> pieces[i] == rest[i];
        pieces
  }

  /** One step of `Split`: how the first character joins the pieces of the rest. */
  lemma SplitCons(c: char, t: string)
    ensures Split([c] + t) ==
      if c == ',' then [""] + Split(t) else [[c] + Split(t)[0]] + Split(t)[1..]
  {
    var s := [c] + t;
    assert s[0] == c && s[1..] == t;
  }

  /** Splitting a comma-free string gives the string alone. */
  lemma {:induction false} SplitCommaFree(x: string)
    requires ',' !in x
    ensures Split(x) == [x]
  {
    if x != [] {
      assert x == [x[0]] + x[1..];
      assert ',' !in x[1..];
      SplitCommaFree(x[1..]);
      SplitCons(x[0], x[1..]);
    }
  }

  /** Splitting `x,t` where `x` holds no comma gives `x` followed by the pieces of `t`. */
  lemma {:induction false} SplitAfterPiece(x: string, t: string)
    requires ',' !in x
    ensures Split(x + "," + t) == [x] + Split(t)
    decreases |x|
  {
    if x == [] {
      assert x + "," + t == [','] + t;
      SplitCons(',', t);
    } else {
      var u := x[1..] + "," + t;
      assert x + "," + t == [x[0]] + u;
      assert ',' !in x[1..];
      SplitAfterPiece(x[1..], t);
      SplitCons(x[0], u);
      assert [x[0]] + x[1..] == x;
    }
  }

  /** `split` inverts `join`: comma-free pieces joined with commas split back
      into exactly those pieces. With the ensures of `Split` this makes the two
      functions inverse to each other. */
  lemma {:induction false} SplitJoin(pieces: seq<string>)
    requires |pieces| >= 1
    requires forall i :: 0 <= i < |pieces| ==> ',' !in pieces[i]
    ensures Split(Join(pieces)) == pieces
    decreases |pieces|
  {
    if |pieces| == 1 {
      SplitCommaFree(pieces[0]);
    } else {
      SplitJoin(pieces[1..]);
      SplitAfterPiece(pieces[0], Join(pieces[1..]));
      assert [pieces[0]] + pieces[1..] == pieces;
    }
  }
}
