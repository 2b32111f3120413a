/** The second cleanup step of `parseAnalysis` (src/App.jsx:282): `replace(/\\/g, '')`. */
module Unescape {
  import opened JsText

  /** `s.replace(/\\/g, '')`: every backslash removed. */
  function RemoveBackslashes(s: string): (r: string)
    ensures '\\' !in r
    ensures |r| <= |s|
  {
    if s == [] then []
    else (if s[0] == '\\' then [] else [s[0]]) + RemoveBackslashes(s[1..])
  }

  /** Every character other than a backslash is kept, as often as it occurs. */
  lemma {:induction false} RemoveBackslashesKeepsOthers(s: string)
    ensures multiset(RemoveBackslashes(s)) == multiset(s)['\\' := 0]
  {
    if s != [] {
      assert s == [s[0]] + s[1..];
      RemoveBackslashesKeepsOthers(s[1..]);
    }
  }

  lemma {:induction false} RemoveBackslashesAppend(a: string, b: string)
    ensures RemoveBackslashes(a + b) == RemoveBackslashes(a) + RemoveBackslashes(b)
  {
    if a == [] {
      assert a + b == b;
    } else {
      assert (a + b)[0] == a[0] && (a + b)[1..] == a[1..] + b;
      RemoveBackslashesAppend(a[1..], b);
    }
  }

  lemma {:induction false} RemoveBackslashesKeepsSpace(w: string)
    requires AllSpace(w)
    ensures RemoveBackslashes(w) == w
  {
    if w != [] {
      RemoveBackslashesKeepsSpace(w[1..]);
      assert w == [w[0]] + w[1..];
    }
  }

  lemma RemoveBackslashesSpaceAfter(x: string, t: string)
    requires AllSpace(t)
    ensures RemoveBackslashes(x + t) == RemoveBackslashes(x) + t
  {
    RemoveBackslashesAppend(x, t);
    RemoveBackslashesKeepsSpace(t);
  }

  lemma RemoveBackslashesSpaceBefore(l: string, x: string)
    requires AllSpace(l)
    ensures RemoveBackslashes(l + x) == l + RemoveBackslashes(x)
  {
    RemoveBackslashesAppend(l, x);
    RemoveBackslashesKeepsSpace(l);
  }

  lemma RemoveBackslashesAround(lead: string, core: string, trail: string)
    requires AllSpace(lead) && AllSpace(trail)
    ensures RemoveBackslashes(lead + core + trail) == lead + RemoveBackslashes(core) + trail
  {
    RemoveBackslashesSpaceAfter(lead + core, trail);
    RemoveBackslashesSpaceBefore(lead, core);
  }
}
