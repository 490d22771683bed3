/** The JavaScript string operations the message handler relies on:
    `trim`, `split(/\s+/)`, `Array.prototype.join`, `toLowerCase` and `endsWith`. */
module JsText {

  /** The KELVIN SIGN, the one non-ASCII code point whose lower case is an ASCII letter ('k'). */
  const KelvinSign: char := '\U{212A}'

  /** ECMAScript WhiteSpace and LineTerminator code points: what `trim` strips and `\s` matches. */
  const SpaceChars: set<char> := {
    '\t', '\n', '\U{B}', '\U{C}', '\r', ' ', '\U{A0}', '\U{1680}',
    '\U{2000}', '\U{2001}', '\U{2002}', '\U{2003}', '\U{2004}', '\U{2005}',
    '\U{2006}', '\U{2007}', '\U{2008}', '\U{2009}', '\U{200A}',
    '\U{2028}', '\U{2029}', '\U{202F}', '\U{205F}', '\U{3000}', '\U{FEFF}'
  }

  predicate IsSpace(c: char) {
    c in SpaceChars
  }

  predicate AllSpace(s: string) {
    forall k | 0 <= k < |s| :: IsSpace(s[k])
  }

  predicate NoSpace(s: string) {
    forall k | 0 <= k < |s| :: !IsSpace(s[k])
  }

  /** Neither end of `s` is whitespace (true of the empty string). */
  predicate Trimmed(s: string) {
    s == "" || (!IsSpace(s[0]) && !IsSpace(s[|s| - 1]))
  }

  /** Non-empty pieces free of whitespace: the words of a text. */
  predicate Words(ws: seq<string>) {
    forall j | 0 <= j < |ws| :: ws[j] != "" && NoSpace(ws[j])
  }

  // ---------------------------------------------------------------- scanning

  /** The index of the first non-whitespace character of `s` at or after `i`, or `|s|`. */
  function SkipSpaces(s: string, i: nat): (j: nat)
    requires i <= |s|
    ensures i <= j <= |s|
    ensures forall k | i <= k < j :: IsSpace(s[k])
    ensures j < |s| ==> !IsSpace(s[j])
    decreases |s| - i
  {
    if i < |s| && IsSpace(s[i]) then SkipSpaces(s, i + 1) else i
  }

  /** The index of the first whitespace character of `s` at or after `i`, or `|s|`. */
  function NextSpace(s: string, i: nat): (j: nat)
    requires i <= |s|
    ensures i <= j <= |s|
    ensures forall k | i <= k < j :: !IsSpace(s[k])
    ensures j < |s| ==> IsSpace(s[j])
    decreases |s| - i
  {
    if i < |s| && !IsSpace(s[i]) then NextSpace(s, i + 1) else i
  }

  /** The least `j` in `lo..hi` such that `s[j..hi]` is all whitespace. */
  function SkipSpacesBack(s: string, lo: nat, hi: nat): (j: nat)
    requires lo <= hi <= |s|
    ensures lo <= j <= hi
    ensures forall k | j <= k < hi :: IsSpace(s[k])
    ensures j > lo ==> !IsSpace(s[j - 1])
    decreases hi - lo
  {
    if lo < hi && IsSpace(s[hi - 1]) then SkipSpacesBack(s, lo, hi - 1) else hi
  }

  // ---------------------------------------------------------------- trim

  /** `String.prototype.trim`: what is left of `s` between a whitespace prefix and a
      whitespace suffix, neither end of it whitespace; empty exactly when `s` is all whitespace. */
  function Trim(s: string): (r: string)
    ensures Trimmed(r)
    ensures r == "" <==> AllSpace(s)
    ensures exists lead, trail :: s == lead + r + trail && AllSpace(lead) && AllSpace(trail)
  {
    var a := SkipSpaces(s, 0);
    var b := SkipSpacesBack(s, a, |s|);
    assert s == s[..a] + s[a..b] + s[b..];
    assert AllSpace(s[..a]) && AllSpace(s[b..]);
    s[a..b]
  }

  // ---------------------------------------------------------------- split and join

  /** `s.split(/\s+/)`: the pieces between the maximal whitespace runs of `s`,
      a leading or trailing run giving an empty first or last piece. */
  function Split(s: string): (parts: seq<string>)
    ensures |parts| >= 1
    ensures forall j | 0 <= j < |parts| :: NoSpace(parts[j])
  {
    SplitFrom(s, 0)
  }

  /** The pieces of `s[i..]`, scanning from `i` as the regular-expression split does. */
  function SplitFrom(s: string, i: nat): (parts: seq<string>)
    requires i <= |s|
    ensures |parts| >= 1
    ensures forall j | 0 <= j < |parts| :: NoSpace(parts[j])
    decreases |s| - i
  {
    var j := NextSpace(s, i);
    if j == |s| then [s[i..]]
    else [s[i..j]] + SplitFrom(s, SkipSpaces(s, j))
  }

  /** `parts.join(sep)`. */
  function Join(parts: seq<string>, sep: string): string
    decreases |parts|
  {
    if |parts| == 0 then ""
    else if |parts| == 1 then parts[0]
    else parts[0] + sep + Join(parts[1..], sep)
  }

  /** Reference definition: `s` with every maximal whitespace run replaced by one space. */
  function Collapse(s: string): string {
    CollapseFrom(s, 0)
  }

  function CollapseFrom(s: string, i: nat): string
    requires i <= |s|
    decreases |s| - i
  {
    if i == |s| then ""
    else if IsSpace(s[i]) then " " + CollapseFrom(s, SkipSpaces(s, i))
    else [s[i]] + CollapseFrom(s, i + 1)
  }

  /** A trimmed, non-empty string splits into non-empty words. */
  lemma SplitTrimmedWords(s: string)
    requires s != "" && Trimmed(s)
    ensures forall j | 0 <= j < |Split(s)| :: Split(s)[j] != ""
  {
    SplitFromWords(s, 0);
  }

  lemma {:induction false} SplitFromWords(s: string, i: nat)
    requires i < |s| && !IsSpace(s[i]) && !IsSpace(s[|s| - 1])
    ensures forall j | 0 <= j < |SplitFrom(s, i)| :: SplitFrom(s, i)[j] != ""
    decreases |s| - i
  {
    var j := NextSpace(s, i);
    if j < |s| {
      var next := SkipSpaces(s, j);
      assert next < |s|;
      SplitFromWords(s, next);
      assert SplitFrom(s, i) == [s[i..j]] + SplitFrom(s, next);
    }
  }

  /** A whitespace-free stretch `s[i..j]` is copied unchanged by `CollapseFrom`. */
  lemma {:induction false} CollapseWord(s: string, i: nat, j: nat)
    requires i <= j <= |s|
    requires forall k | i <= k < j :: !IsSpace(s[k])
    ensures CollapseFrom(s, i) == s[i..j] + CollapseFrom(s, j)
    decreases j - i
  {
    if i < j {
      CollapseWord(s, i + 1, j);
      CollapseCopies(s, i);
      PrependSlice(s, i, j, CollapseFrom(s, j));
    } else {
      assert s[i..j] + CollapseFrom(s, j) == CollapseFrom(s, j);
    }
  }

  lemma CollapseCopies(s: string, i: nat)
    requires i < |s| && !IsSpace(s[i])
    ensures CollapseFrom(s, i) == [s[i]] + CollapseFrom(s, i + 1)
  {
  }

  lemma PrependSlice(s: string, i: nat, j: nat, t: string)
    requires i < j <= |s|
    ensures [s[i]] + (s[i + 1..j] + t) == s[i..j] + t
  {
    assert s[i..j] == [s[i]] + s[i + 1..j];
  }

  /** Joining the pieces of `s.split(/\s+/)` with single spaces collapses every
      whitespace run of `s` to one space. */
  lemma JoinSplitCollapses(s: string)
    ensures Join(Split(s), " ") == Collapse(s)
  {
    JoinSplitFromCollapses(s, 0);
  }

  lemma {:induction false} JoinSplitFromCollapses(s: string, i: nat)
    requires i <= |s|
    ensures Join(SplitFrom(s, i), " ") == CollapseFrom(s, i)
    decreases |s| - i
  {
    var j := NextSpace(s, i);
    CollapseWord(s, i, j);
    if j == |s| {
      assert s[i..j] + "" == s[i..];
    } else {
      var next := SkipSpaces(s, j);
      JoinSplitFromCollapses(s, next);
      var parts := SplitFrom(s, i);
      assert parts[1..] == SplitFrom(s, next);
    }
  }

  /** Splitting words joined by single spaces gives the words back. */
  lemma SplitJoinRoundTrip(ws: seq<string>)
    requires |ws| >= 1
    requires Words(ws)
    ensures Split(Join(ws, " ")) == ws
  {
    SplitFromJoin("", ws);
    assert "" + Join(ws, " ") == Join(ws, " ");
  }

  lemma {:induction false} SplitFromJoin(p: string, ws: seq<string>)
    requires |ws| >= 1
    requires Words(ws)
    ensures SplitFrom(p + Join(ws, " "), |p|) == ws
    decreases |ws|
  {
    var s := p + Join(ws, " ");
    var w := ws[0];
    var e := |p| + |w|;
    if |ws| == 1 {
      assert s[|p|..] == w;
      assert NextSpace(s, |p|) == e by {
        assert forall k | |p| <= k < e :: s[k] == w[k - |p|];
      }
    } else {
      var p' := p + w + " ";
      var tail := Join(ws[1..], " ");
      assert s == p' + tail;
      assert s[|p|..e] == w;
      assert s[e] == ' ';
      assert NextSpace(s, |p|) == e by {
        assert forall k | |p| <= k < e :: s[k] == w[k - |p|];
      }
      JoinWordsStart(ws[1..]);
      assert s[e + 1] == tail[0];
      assert SkipSpaces(s, e) == |p'|;
      SplitFromJoin(p', ws[1..]);
      assert ws == [w] + ws[1..];
    }
  }

  lemma JoinWordsStart(ws: seq<string>)
    requires |ws| >= 1
    requires Words(ws)
    ensures Join(ws, " ") != "" && !IsSpace(Join(ws, " ")[0])
  {
    assert ws[0][0] == Join(ws, " ")[0];
  }

  /** Words joined by spaces are empty exactly when there are no words. */
  lemma JoinWordsEmpty(ws: seq<string>)
    requires Words(ws)
    ensures Join(ws, " ") == "" <==> ws == []
  {
    if ws != [] {
      JoinWordsStart(ws);
    }
  }

  lemma {:induction false} JoinCons(h: string, ws: seq<string>)
    requires ws != []
    ensures Join([h] + ws, " ") == h + " " + Join(ws, " ")
  {
    assert ([h] + ws)[1..] == ws;
  }

  // ---------------------------------------------------------------- case and suffix

  /** `toLowerCase` on one code point, as far as it can yield an ASCII character:
      'A'..'Z' and the KELVIN SIGN; every other code point is left as it is. */
  function LowerChar(c: char): char {
    if 'A' <= c <= 'Z' then (c as int + 32) as char
    else if c == KelvinSign then 'k'
    else c
  }

  /** `s.toLowerCase()`, code point by code point. */
  function Lower(s: string): string {
    seq(|s|, k requires 0 <= k < |s| => LowerChar(s[k]))
  }

  /** Characters that command keys are written in: lower-case ASCII letters and '.'. */
  predicate KeyChar(c: char) {
    ('a' <= c <= 'z') || c == '.'
  }

  /** Text written in key characters is its own lower case. */
  lemma LowerOfKeyText(s: string)
    requires forall k | 0 <= k < |s| :: KeyChar(s[k])
    ensures Lower(s) == s
  {
    assert forall k | 0 <= k < |s| :: LowerChar(s[k]) == s[k];
  }

  /** `a` is a spelling of the key character `b` in any case. */
  predicate SpellsKeyChar(a: char, b: char) {
    || a == b
    || ('a' <= b <= 'z' && a as int == b as int - 32)
    || (b == 'k' && a == KelvinSign)
  }

  /** A token lower-cases to a command key exactly when it spells that key
      character by character in any case. */
  lemma {:induction false} LowerEqualsKey(t: string, key: string)
    requires forall k | 0 <= k < |key| :: KeyChar(key[k])
    ensures Lower(t) == key <==> |t| == |key| && forall k | 0 <= k < |t| :: SpellsKeyChar(t[k], key[k])
  {
    if |t| == |key| {
      forall k | 0 <= k < |t|
        ensures LowerChar(t[k]) == key[k] <==> SpellsKeyChar(t[k], key[k])
      {
        assert KeyChar(key[k]);
      }
      if forall k | 0 <= k < |t| :: SpellsKeyChar(t[k], key[k]) {
        assert Lower(t) == key;
      }
    }
  }

  /** `s.endsWith(suffix)`. */
  function EndsWith(s: string, suffix: string): bool {
    |s| >= |suffix| && s[|s| - |suffix|..] == suffix
  }

  /** `s` ends with `suffix` exactly when it is some string followed by `suffix`. */
  lemma EndsWithIff(s: string, suffix: string)
    ensures EndsWith(s, suffix) <==> exists p :: s == p + suffix
  {
    if EndsWith(s, suffix) {
      assert s == s[..|s| - |suffix|] + suffix;
    }
    if exists p :: s == p + suffix {
      var p :| s == p + suffix;
      assert s[|s| - |suffix|..] == suffix;
    }
  }
}
