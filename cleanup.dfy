/**
 * The text cleanup `parseAnalysis` applies before decoding (src/App.jsx:281-282):
 * `replace(/```json\s*|\s*```/g, '')` followed by `replace(/\\/g, '')`.
 */
module Cleanup {
  import opened JsText
  import opened Unescape

  const OpenFence: string := "```json"
  const Fence: string := "```"
  /** A closing fence on a line of its own. */
  const Closing: string := "\n```"

  /** `s` starts with "```". */
  predicate StartsWithFence(s: string) {
    |s| >= 3 && s[0] == '`' && s[1] == '`' && s[2] == '`'
  }

  /** `s` starts with "```json". */
  predicate StartsWithOpenFence(s: string) {
    StartsWithFence(s) && |s| >= 7 && s[3] == 'j' && s[4] == 's' && s[5] == 'o' && s[6] == 'n'
  }

  /** "```" occurs somewhere in `s`. */
  predicate ContainsFence(s: string) {
    StartsWithFence(s) || (|s| > 3 && ContainsFence(s[1..]))
  }

  /**
   * `s.replace(/```json\s*|\s*```/g, '')`. The pattern has no anchors and no
   * look-behind, so whether it matches at a position depends only on the suffix
   * from there. At each position the first alternative is tried before the second
   * and `\s*` is greedy (the second alternative, backtracking, can only succeed after
   * the whole run of whitespace); a character where neither matches is kept.
   */
  function StripFences(s: string): (r: string)
    ensures |r| <= |s|
    decreases |s|
  {
    if s == [] then []
    else if StartsWithOpenFence(s) then StripFences(TrimStart(s[7..]))
    else if StartsWithFence(TrimStart(s)) then StripFences(TrimStart(s)[3..])
    else [s[0]] + StripFences(s[1..])
  }

  /** The text handed to `JSON.parse`; it never contains a backslash. */
  function Clean(text: string): (r: string)
    ensures '\\' !in r
    ensures |r| <= |text|
  {
    RemoveBackslashes(StripFences(text))
  }

  /** The answer a model gives when it wraps its JSON in a fenced code block. */
  function Fenced(p: string): string {
    OpenFence + "\n" + p + Closing
  }

  // ---------------------------------------------------------------------------
  // Fences: facts about where "```" can start

  lemma {:induction false} NoFenceInSuffix(s: string, k: nat)
    requires !ContainsFence(s) && k <= |s|
    ensures !ContainsFence(s[k..])
  {
    if k > 0 {
      assert s[k..] == s[1..][k - 1..];
      NoFenceInSuffix(s[1..], k - 1);
    }
  }

  lemma {:induction false} NoFenceAfterPlain(x: string, y: string)
    requires forall i :: 0 <= i < |x| ==> x[i] != '`'
    requires !ContainsFence(y)
    ensures !ContainsFence(x + y)
  {
    if x != [] {
      assert (x + y)[0] == x[0];
      assert (x + y)[1..] == x[1..] + y;
      NoFenceAfterPlain(x[1..], y);
    } else {
      assert x + y == y;
    }
  }

  /** No fence starts at the front of `x + y` when `x` holds none and `y` does not open with a backtick. */
  lemma FenceNotAtFront(x: string, y: string)
    requires !ContainsFence(x)
    requires y != [] && y[0] != '`'
    ensures !StartsWithFence(x + y)
  {
    if |x| < 3 {
      assert (x + y)[|x|] == y[0];
    } else {
      assert (x + y)[0] == x[0] && (x + y)[1] == x[1] && (x + y)[2] == x[2];
    }
  }

  lemma LanguageTagHasNoFence(p: string)
    requires !ContainsFence(p)
    ensures !ContainsFence("json\n" + p)
  {
    NoFenceAfterPlain("json\n", p);
  }

  // ---------------------------------------------------------------------------
  // Fences: one step of the replacement

  lemma StripKeeps(s: string)
    requires s != [] && !StartsWithOpenFence(s) && !StartsWithFence(TrimStart(s))
    ensures StripFences(s) == [s[0]] + StripFences(s[1..])
  {
  }

  lemma StripCloses(s: string)
    requires s != [] && !StartsWithOpenFence(s) && StartsWithFence(TrimStart(s))
    ensures StripFences(s) == StripFences(TrimStart(s)[3..])
  {
  }

  lemma StripOpens(s: string)
    requires StartsWithOpenFence(s)
    ensures StripFences(s) == StripFences(TrimStart(s[7..]))
  {
  }

  // ---------------------------------------------------------------------------
  // Fences: text without "```"

  /** Where `s` holds no fence, neither alternative matches at its first position. */
  lemma NoFenceNoMatch(s: string)
    requires s != [] && !ContainsFence(s)
    ensures !StartsWithOpenFence(s) && !StartsWithFence(TrimStart(s))
  {
    var t := TrimStart(s);
    NoFenceInSuffix(s, |s| - |t|);
  }

  lemma NoFenceStep(s: string)
    requires s != [] && !ContainsFence(s)
    ensures StripFences(s) == [s[0]] + StripFences(s[1..])
    ensures !ContainsFence(s[1..])
    ensures [s[0]] + s[1..] == s
  {
    NoFenceNoMatch(s);
    StripKeeps(s);
    NoFenceInSuffix(s, 1);
  }

  /** Text without "```" passes the fence removal unchanged. */
  lemma {:induction false} NoFenceUnchanged(s: string)
    requires !ContainsFence(s)
    ensures StripFences(s) == s
  {
    if s != [] {
      NoFenceStep(s);
      NoFenceUnchanged(s[1..]);
    }
  }

  // ---------------------------------------------------------------------------
  // Fences: the closing fence

  lemma ClosingSplit(q: string)
    ensures q + Closing == (q + "\n") + Fence
  {
  }

  lemma FenceFront(q: string)
    ensures (q + Closing)[0] == if q == [] then '\n' else q[0]
  {
  }

  lemma SpaceBeforeClosing(q: string)
    requires AllSpace(q)
    ensures TrimStart(q + Closing) == Fence
    ensures (q + Closing)[0] != '`'
  {
    ClosingSplit(q);
    assert AllSpace(q + "\n");
    TrimStartSkipsSpace(q + "\n", Fence);
    assert TrimStart(Fence) == Fence;
    FenceFront(q);
  }

  lemma StripsToNothing(s: string)
    requires s != [] && s[0] != '`' && TrimStart(s) == Fence
    ensures StripFences(s) == []
  {
    StripCloses(s);
    assert TrimStart(s)[3..] == [];
  }

  /** A closing fence on its own line, with any whitespace before it, is removed. */
  lemma ClosingFenceAfterSpace(q: string)
    requires AllSpace(q)
    ensures StripFences(q + Closing) == []
  {
    SpaceBeforeClosing(q);
    StripsToNothing(q + Closing);
  }

  lemma NoFenceBeforeClosing(q: string)
    requires !ContainsFence(q) && !AllSpace(q)
    ensures !StartsWithOpenFence(q + Closing)
    ensures !StartsWithFence(TrimStart(q + Closing))
  {
    FenceNotAtFront(q, Closing);
    TrimStartAppend(q, Closing);
    var t := TrimStart(q);
    NoFenceInSuffix(q, |q| - |t|);
    FenceNotAtFront(t, Closing);
  }

  lemma KeepsBeforeClosing(q: string)
    requires !ContainsFence(q) && !AllSpace(q)
    ensures StripFences(q + Closing) == [q[0]] + StripFences(q[1..] + Closing)
  {
    NoFenceBeforeClosing(q);
    var s := q + Closing;
    assert s[0] == q[0];
    assert s[1..] == q[1..] + Closing;
    StripKeeps(s);
  }

  /** A closing fence on its own line is removed together with the whitespace before it. */
  lemma {:induction false} ClosingFenceRemoved(q: string)
    requires !ContainsFence(q)
    ensures StripFences(q + Closing) == TrimEnd(q)
  {
    if AllSpace(q) {
      ClosingFenceAfterSpace(q);
    } else {
      KeepsBeforeClosing(q);
      NoFenceInSuffix(q, 1);
      ClosingFenceRemoved(q[1..]);
    }
  }

  // ---------------------------------------------------------------------------
  // Fences: a wrapped payload

  lemma FencedOpens(p: string)
    ensures StartsWithOpenFence(Fenced(p))
    ensures Fenced(p)[7..] == "\n" + (p + Closing)
  {
  }

  lemma OpeningFenceRemoved(p: string)
    ensures StripFences(Fenced(p)) == StripFences(TrimStart(p + Closing))
  {
    FencedOpens(p);
    StripOpens(Fenced(p));
    TrimStartSkipsSpace("\n", p + Closing);
  }

  lemma LoneFenceRemoved()
    ensures StripFences(Fence) == []
  {
    assert !StartsWithOpenFence(Fence);
    assert TrimStart(Fence) == Fence;
    StripCloses(Fence);
    assert Fence[3..] == [];
  }

  /** Removing the fences of a wrapped payload leaves the payload without its outer whitespace. */
  lemma FencedStripsToTrim(p: string)
    requires !ContainsFence(p)
    ensures StripFences(Fenced(p)) == Trim(p)
  {
    OpeningFenceRemoved(p);
    if AllSpace(p) {
      SpaceBeforeClosing(p);
      LoneFenceRemoved();
      TrimBlankIffAllSpace(p);
    } else {
      TrimStartAppend(p, Closing);
      var t := TrimStart(p);
      NoFenceInSuffix(p, |p| - |t|);
      ClosingFenceRemoved(t);
    }
  }

  /** The cleaned form of a wrapped payload is the cleaned payload without its outer whitespace. */
  lemma CleanFenced(p: string)
    requires !ContainsFence(p)
    ensures Clean(Fenced(p)) == RemoveBackslashes(Trim(p))
  {
    FencedStripsToTrim(p);
  }

  lemma CleanWithoutFence(p: string)
    requires !ContainsFence(p)
    ensures Clean(p) == RemoveBackslashes(p)
  {
    NoFenceUnchanged(p);
  }

  /** Cleaning text without "```" only drops backslashes; surrounding whitespace stays. */
  lemma CleanSurrounded(lead: string, core: string, trail: string)
    requires AllSpace(lead) && AllSpace(trail)
    requires !ContainsFence(lead + core + trail)
    ensures Clean(lead + core + trail) == lead + RemoveBackslashes(core) + trail
  {
    CleanWithoutFence(lead + core + trail);
    RemoveBackslashesAround(lead, core, trail);
  }

  // ---------------------------------------------------------------------------
  // Fences: leftmost alternation

  lemma FencedAfterFence(p: string)
    ensures StartsWithFence(Fenced(p))
    ensures Fenced(p)[3..] == ("json\n" + p) + Closing
  {
  }

  lemma IndentNotOpening(w: string, p: string)
    requires w != [] && AllSpace(w)
    ensures !StartsWithOpenFence(w + Fenced(p))
  {
    assert (w + Fenced(p))[0] == w[0];
  }

  lemma IndentTrimmed(w: string, p: string)
    requires AllSpace(w)
    ensures TrimStart(w + Fenced(p)) == Fenced(p)
  {
    TrimStartSkipsSpace(w, Fenced(p));
    assert Fenced(p)[0] == '`';
  }

  /**
   * Whitespace before the opening fence: the first alternative cannot match at a
   * blank, so `\s*```` takes the blanks and the backticks and leaves "json" behind.
   */
  lemma IndentedFenceClosed(w: string, p: string)
    requires w != [] && AllSpace(w)
    ensures StripFences(w + Fenced(p)) == StripFences(("json\n" + p) + Closing)
  {
    IndentNotOpening(w, p);
    IndentTrimmed(w, p);
    FencedAfterFence(p);
    StripCloses(w + Fenced(p));
  }

  lemma IndentedFenceStrips(w: string, p: string)
    requires w != [] && AllSpace(w)
    requires !ContainsFence(p)
    ensures StripFences(w + Fenced(p)) == TrimEnd("json\n" + p)
  {
    IndentedFenceClosed(w, p);
    LanguageTagHasNoFence(p);
    ClosingFenceRemoved("json\n" + p);
  }

  lemma OpenFenceTail(rest: string)
    ensures StartsWithFence(OpenFence + rest)
    ensures (OpenFence + rest)[3..] == "json" + rest
  {
  }

  lemma IndentNotOpeningAny(w: string, rest: string)
    requires w != [] && AllSpace(w)
    ensures !StartsWithOpenFence(w + (OpenFence + rest))
  {
    assert (w + (OpenFence + rest))[0] == w[0];
  }

  lemma IndentTrimmedAny(w: string, rest: string)
    requires AllSpace(w)
    ensures TrimStart(w + (OpenFence + rest)) == OpenFence + rest
  {
    TrimStartSkipsSpace(w, OpenFence + rest);
    assert (OpenFence + rest)[0] == '`';
  }

  /** After "json" nothing matches at the first position, so the "j" is kept. */
  lemma LanguageTagKept(rest: string)
    ensures StripFences("json" + rest) == "j" + StripFences("son" + rest)
  {
    var s := "json" + rest;
    assert s[0] == 'j' && s[1..] == "son" + rest;
    assert TrimStart(s) == s;
    StripKeeps(s);
  }

  /**
   * Whatever follows, an answer starting with whitespace and then "```json" loses the
   * whitespace and the backticks but keeps "json", so it cleans to text starting with "j".
   */
  lemma IndentedOpenFenceCleansToJson(w: string, rest: string)
    requires w != [] && AllSpace(w)
    ensures Clean(w + (OpenFence + rest)) != [] && Clean(w + (OpenFence + rest))[0] == 'j'
  {
    var s := w + (OpenFence + rest);
    IndentNotOpeningAny(w, rest);
    IndentTrimmedAny(w, rest);
    OpenFenceTail(rest);
    StripCloses(s);
    LanguageTagKept(rest);
    var t := StripFences(s);
    assert t == "j" + StripFences("son" + rest);
    assert RemoveBackslashes(t) == [t[0]] + RemoveBackslashes(t[1..]);
  }

  /** Inside the wrapper, whitespace and then "```json" go with the opening fence. */
  lemma FencedIndentedFence(w: string, rest: string)
    requires AllSpace(w)
    ensures StripFences(Fenced(w + (OpenFence + rest))) == StripFences(OpenFence + (rest + Closing))
  {
    OpeningFenceRemoved(w + (OpenFence + rest));
    Regroup(w, OpenFence, rest, Closing);
    TrimStartSkipsSpace(w, OpenFence + (rest + Closing));
    OpenFenceNotTrimmed(rest + Closing);
  }

  lemma Regroup(a: string, b: string, c: string, d: string)
    ensures (a + (b + c)) + d == a + (b + (c + d))
  {
  }

  lemma OpenFenceNotTrimmed(x: string)
    ensures TrimStart(OpenFence + x) == OpenFence + x
  {
    assert (OpenFence + x)[0] == '`';
  }

  /** "```json" directly followed by a fence-free text and a closing fence strips to that text's trimmed end. */
  lemma OpenFenceThenClosing(q: string)
    requires !ContainsFence(q) && q != [] && !IsSpace(q[0])
    ensures StripFences(OpenFence + (q + Closing)) == TrimEnd(q)
  {
    var s := OpenFence + (q + Closing);
    assert StartsWithOpenFence(s);
    StripOpens(s);
    assert s[7..] == q + Closing;
    assert (q + Closing)[0] == q[0];
    ClosingFenceRemoved(q);
  }
}
