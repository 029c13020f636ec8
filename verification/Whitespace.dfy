/** Stripping white space off both ends of a text: Python's `str.strip` and a script's `trim`. */
module Whitespace {
  datatype Language = Python | Script

  /** The characters both languages count as white space, and those only one of them does. */
  predicate Space(l: Language, c: char) {
    var n := c as int;
    || 9 <= n <= 13 || n == 32 || n == 0xA0 || n == 0x1680 || 0x2000 <= n <= 0x200A
    || n == 0x2028 || n == 0x2029 || n == 0x202F || n == 0x205F || n == 0x3000
    || (if l.Python? then 28 <= n <= 31 || n == 0x85 else n == 0xFEFF)
  }

  function TrimLeft(l: Language, s: string): string {
    if s != "" && Space(l, s[0]) then TrimLeft(l, s[1..]) else s
  }

  function TrimRight(l: Language, s: string): string {
    if s != "" && Space(l, s[|s| - 1]) then TrimRight(l, s[..|s| - 1]) else s
  }

  function Strip(l: Language, s: string): string {
    TrimRight(l, TrimLeft(l, s))
  }

  ghost predicate AllSpace(l: Language, s: string) {
    forall i :: 0 <= i < |s| ==> Space(l, s[i])
  }

  /** Trimming on the right keeps a front part, and all of a text that ends in no space. */
  lemma {:induction false} TrimRightFacts(l: Language, s: string)
    ensures TrimRight(l, s) <= s
    ensures s == "" || !Space(l, s[|s| - 1]) ==> TrimRight(l, s) == s
  {
    if s != "" && Space(l, s[|s| - 1]) { TrimRightFacts(l, s[..|s| - 1]); }
  }

  /** White space at the end of a text is trimmed back to its last character that is none. */
  lemma {:induction false} TrimRightOfAppend(l: Language, a: string, b: string)
    requires a != "" && !Space(l, a[|a| - 1])
    ensures TrimRight(l, a + b) == a + TrimRight(l, b)
  {
    if b == "" {
      assert a + b == a;
    } else {
      assert (a + b)[..|a + b| - 1] == a + b[..|b| - 1];
      if Space(l, b[|b| - 1]) { TrimRightOfAppend(l, a, b[..|b| - 1]); }
    }
  }

  lemma {:induction false} TrimRightSkips(l: Language, s: string, blank: string)
    requires AllSpace(l, blank)
    ensures TrimRight(l, s + blank) == TrimRight(l, s)
  {
    if blank == "" {
      assert s + blank == s;
    } else {
      assert (s + blank)[..|s + blank| - 1] == s + blank[..|blank| - 1];
      TrimRightSkips(l, s, blank[..|blank| - 1]);
    }
  }

  lemma {:induction false} TrimLeftSkips(l: Language, blank: string, s: string)
    requires AllSpace(l, blank)
    ensures TrimLeft(l, blank + s) == TrimLeft(l, s)
  {
    if blank == "" {
      assert blank + s == s;
    } else {
      assert (blank + s)[1..] == blank[1..] + s;
      TrimLeftSkips(l, blank[1..], s);
    }
  }

  /** Trimming on the left keeps what follows, unless nothing before it is left. */
  lemma {:induction false} TrimLeftOfAppend(l: Language, s: string, blank: string)
    requires AllSpace(l, blank)
    ensures TrimLeft(l, s + blank) == if TrimLeft(l, s) == "" then "" else TrimLeft(l, s) + blank
  {
    if s == "" {
      TrimLeftSkips(l, blank, "");
      assert s + blank == blank == blank + "";
    } else if Space(l, s[0]) {
      assert (s + blank)[1..] == s[1..] + blank;
      TrimLeftOfAppend(l, s[1..], blank);
    }
  }

  /** White space around a text makes no difference. */
  lemma StripOfPadded(l: Language, before: string, s: string, after: string)
    requires AllSpace(l, before) && AllSpace(l, after)
    ensures Strip(l, before + s + after) == Strip(l, s)
  {
    assert before + s + after == before + (s + after);
    TrimLeftSkips(l, before, s + after);
    TrimLeftOfAppend(l, s, after);
    TrimRightSkips(l, TrimLeft(l, s), after);
  }
}
