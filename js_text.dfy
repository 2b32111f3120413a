/**
 * The JavaScript string primitives the receipt pipeline relies on:
 * the whitespace class shared by the regular-expression escape `\s` and by
 * `String.prototype.trim`, trimming itself, and `Array.prototype.join`.
 * Strings are sequences of characters; no encoding is modelled.
 */
module JsText {

  /** ECMAScript WhiteSpace or LineTerminator: what `\s` matches and `trim()` removes. */
  predicate IsSpace(c: char) {
    c == '\t' || c == '\n' || c == '\U{000B}' || c == '\U{000C}' || c == '\r' || c == ' '
    || c == '\U{00A0}' || c == '\U{1680}' || ('\U{2000}' <= c <= '\U{200A}')
    || c == '\U{2028}' || c == '\U{2029}' || c == '\U{202F}' || c == '\U{205F}'
    || c == '\U{3000}' || c == '\U{FEFF}'
  }

  predicate AllSpace(s: string) {
    forall i :: 0 <= i < |s| ==> IsSpace(s[i])
  }

  /** `s.trimStart()`: the suffix of `s` left after its leading whitespace. */
  function TrimStart(s: string): (r: string)
    ensures |r| <= |s| && r == s[|s| - |r|..]
    ensures AllSpace(s[..|s| - |r|])
    ensures r == [] || !IsSpace(r[0])
  {
    if s != [] && IsSpace(s[0]) then
      var r := TrimStart(s[1..]);
      assert s[..|s| - |r|] == [s[0]] + s[1..][..|s| - 1 - |r|];
      r
    else
      s
  }

  /** `s.trimEnd()`: the prefix of `s` left after its trailing whitespace. */
  function TrimEnd(s: string): (r: string)
    ensures |r| <= |s| && r == s[..|r|]
    ensures AllSpace(s[|r|..])
    ensures r == [] || !IsSpace(r[|r| - 1])
  {
    if AllSpace(s) then
      []
    else
      var r := TrimEnd(s[1..]);
      assert s[1..][|r|..] == s[|r| + 1..];
      [s[0]] + r
  }

  /** `s.trim()`: the slice of `s` between its leading and its trailing whitespace. */
  function Trim(s: string): (r: string)
    ensures r == [] || (!IsSpace(r[0]) && !IsSpace(r[|r| - 1]))
    ensures |r| <= |s|
  {
    TrimEnd(TrimStart(s))
  }

  lemma {:induction false} TrimStartSkipsSpace(w: string, y: string)
    requires AllSpace(w)
    ensures TrimStart(w + y) == TrimStart(y)
  {
    if w != [] {
      assert (w + y)[0] == w[0] && (w + y)[1..] == w[1..] + y;
      TrimStartSkipsSpace(w[1..], y);
    } else {
      assert w + y == y;
    }
  }

  lemma {:induction false} TrimStartAppend(x: string, y: string)
    requires !AllSpace(x)
    ensures TrimStart(x + y) == TrimStart(x) + y
  {
    if IsSpace(x[0]) {
      assert (x + y)[1..] == x[1..] + y;
      TrimStartAppend(x[1..], y);
    }
  }

  lemma {:induction false} TrimEndDropsSpace(c: string, t: string)
    requires AllSpace(t)
    requires c == [] || !IsSpace(c[|c| - 1])
    ensures TrimEnd(c + t) == c
  {
    if c != [] {
      assert (c + t)[|c| - 1] == c[|c| - 1];
      assert (c + t)[1..] == c[1..] + t;
      TrimEndDropsSpace(c[1..], t);
      assert c == [c[0]] + c[1..];
    }
  }

  /** Trim removes exactly the whitespace around a core that neither starts nor ends with whitespace. */
  lemma TrimSurrounded(lead: string, core: string, trail: string)
    requires AllSpace(lead) && AllSpace(trail)
    requires core == [] || (!IsSpace(core[0]) && !IsSpace(core[|core| - 1]))
    ensures Trim(lead + core + trail) == core
  {
    assert lead + core + trail == lead + (core + trail);
    TrimStartSkipsSpace(lead, core + trail);
    if core == [] {
      assert TrimStart(trail) == [];
    } else {
      assert TrimStart(core + trail) == core + trail;
    }
    TrimEndDropsSpace(core, trail);
  }

  /** `!s.trim()` holds exactly when `s` is whitespace only (the empty string included). */
  lemma TrimBlankIffAllSpace(s: string)
    ensures Trim(s) == [] <==> AllSpace(s)
  {
    if AllSpace(s) {
      TrimSurrounded(s, [], []);
      assert s + [] + [] == s;
    }
  }

  /** `parts.join(sep)` over element texts already converted to strings. */
  function Join(parts: seq<string>, sep: string): string {
    if |parts| == 0 then ""
    else if |parts| == 1 then parts[0]
    else parts[0] + sep + Join(parts[1..], sep)
  }

  /** Joining builds the same text when read from the right: one more part adds one separator. */
  lemma {:induction false} JoinSnoc(parts: seq<string>, p: string, sep: string)
    requires parts != []
    ensures Join(parts + [p], sep) == Join(parts, sep) + sep + p
  {
    if |parts| > 1 {
      assert (parts + [p])[1..] == parts[1..] + [p];
      JoinSnoc(parts[1..], p, sep);
    }
  }
}
