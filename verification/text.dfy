/** The handful of Python string operations the conversation core relies on:
    `str.strip`, `str.startswith`, `str.split()[-1]`, `int(...)`, `str(int)`
    and `str.join`, stated over `seq<char>`. */
module Text {
  import opened Wrappers

  /** Python's `str.isspace()` for a single character (the Unicode White_Space
      characters plus the ASCII information separators 0x1C-0x1F). */
  predicate IsSpace(c: char) {
    var n := c as int;
    || (9 <= n <= 13)
    || (28 <= n <= 32)
    || n == 0x85 || n == 0xA0 || n == 0x1680
    || (0x2000 <= n <= 0x200A)
    || n == 0x2028 || n == 0x2029 || n == 0x202F || n == 0x205F || n == 0x3000
  }

  /** Every character of `s` in `[lo, hi)` is whitespace. */
  predicate SpaceBetween(s: string, lo: int, hi: int)
    requires 0 <= lo && hi <= |s|
  {
    forall k :: lo <= k < hi ==> IsSpace(s[k])
  }

  predicate AllSpace(s: string) {
    SpaceBetween(s, 0, |s|)
  }

  predicate NoSpace(s: string) {
    forall k :: 0 <= k < |s| ==> !IsSpace(s[k])
  }

  /** `t` occurs in `s` starting at index `i`. */
  predicate InfixAt<T(==)>(t: seq<T>, s: seq<T>, i: int) {
    0 <= i && i + |t| <= |s| && s[i..i + |t|] == t
  }

  /** `t` sits right after `a` in `a + t + b`. */
  lemma InfixOfConcat<T>(a: seq<T>, t: seq<T>, b: seq<T>)
    ensures InfixAt(t, a + t + b, |a|)
  {
    assert (a + t + b)[|a|..|a| + |t|] == t;
  }

  /** A piece of a piece is a piece of the whole, at the summed offset. */
  lemma InfixWithin<T>(t: seq<T>, u: seq<T>, s: seq<T>, j: int, i: int)
    requires InfixAt(t, u, j) && InfixAt(u, s, i)
    ensures InfixAt(t, s, i + j)
  {
    forall k | 0 <= k < |t|
      ensures s[i + j + k] == t[k]
    {
      assert s[i + j + k] == s[i..i + |u|][j + k];
      assert t[k] == u[j..j + |t|][k];
    }
    assert s[i + j..i + j + |t|] == t;
  }

  /** Appending `y` to the middle of `[a] + xs + [z]` keeps everything up
      to the end of `xs`. */
  lemma GrowMiddle<T>(a: T, xs: seq<T>, y: T, z: T)
    ensures [a] + (xs + [y]) + [z] == ([a] + xs + [z])[..|xs| + 1] + [y, z]
  {
    assert ([a] + xs + [z])[..|xs| + 1] == [a] + xs;
  }

  /** Python's `s.startswith(p)`. */
  predicate StartsWith(s: string, p: string) {
    |p| <= |s| && s[..|p|] == p
  }

  lemma LeadOfConcat(lead: string, rest: string)
    ensures StartsWith(lead + rest, lead)
  {
    assert (lead + rest)[..|lead|] == lead;
  }

  /** A text made of a fixed lead, a slot and a fixed tail starts with the
      lead and holds the slot right after it. */
  lemma OneSlot(lead: string, t: string, tail: string)
    ensures StartsWith(lead + t + tail, lead)
    ensures InfixAt(t, lead + t + tail, |lead|)
  {
    var s := lead + t + tail;
    assert s[..|lead|] == lead;
    assert s[|lead|..|lead| + |t|] == t;
  }

  /** The same for two slots separated by fixed text `mid`. */
  lemma TwoSlots(lead: string, t: string, mid: string, u: string, tail: string)
    ensures StartsWith(lead + t + mid + u + tail, lead)
    ensures InfixAt(t, lead + t + mid + u + tail, |lead|)
    ensures InfixAt(u, lead + t + mid + u + tail, |lead| + |t| + |mid|)
  {
    var s := lead + t + mid + u + tail;
    var o := |lead| + |t| + |mid|;
    assert s[..|lead|] == lead;
    assert s[|lead|..|lead| + |t|] == t;
    assert s[o..o + |u|] == u;
  }

  /** The first index at or after `from` that holds no whitespace, or `|s|`. */
  function SkipSpace(s: string, from: nat): (k: nat)
    requires from <= |s|
    ensures from <= k <= |s|
    ensures SpaceBetween(s, from, k)
    ensures k < |s| ==> !IsSpace(s[k])
    decreases |s| - from
  {
    if from == |s| || !IsSpace(s[from]) then from else SkipSpace(s, from + 1)
  }

  /** The end of `s[..hi]` once its trailing whitespace is dropped. */
  function SkipSpaceBack(s: string, hi: nat): (k: nat)
    requires hi <= |s|
    ensures k <= hi
    ensures SpaceBetween(s, k, hi)
    ensures k > 0 ==> !IsSpace(s[k - 1])
    decreases hi
  {
    if hi == 0 || !IsSpace(s[hi - 1]) then hi else SkipSpaceBack(s, hi - 1)
  }

  /** Python's `s.strip()`: the part of `s` between its leading and trailing
      whitespace. */
  function Strip(s: string): (r: string)
    ensures exists i :: InfixAt(r, s, i) && SpaceBetween(s, 0, i) && SpaceBetween(s, i + |r|, |s|)
    ensures r == [] || (!IsSpace(r[0]) && !IsSpace(r[|r| - 1]))
    ensures r == [] <==> AllSpace(s)
  {
    var i := SkipSpace(s, 0);
    var j := SkipSpaceBack(s, |s|);
    if j <= i then
      assert InfixAt([], s, 0);
      []
    else
      assert InfixAt(s[i..j], s, i);
      s[i..j]
  }

  /** A string with no whitespace at either end is its own strip. */
  lemma StripNoEdgeSpace(s: string)
    requires s == [] || (!IsSpace(s[0]) && !IsSpace(s[|s| - 1]))
    ensures Strip(s) == s
  {
  }

  /** Stripping a text whose non-space run `s[lo..hi]` is padded only by
      whitespace gives that run. */
  lemma StripWindow(s: string, lo: nat, hi: nat)
    requires lo < hi <= |s|
    requires SpaceBetween(s, 0, lo) && SpaceBetween(s, hi, |s|)
    requires !IsSpace(s[lo]) && !IsSpace(s[hi - 1])
    ensures Strip(s) == s[lo..hi]
  {
    var r := Strip(s);
    var i :| InfixAt(r, s, i) && SpaceBetween(s, 0, i) && SpaceBetween(s, i + |r|, |s|);
    assert !AllSpace(s);
    assert r != [];
    assert r[0] == s[i] && r[|r| - 1] == s[i + |r| - 1];
    assert i <= lo && i + |r| >= hi;
    assert i == lo && i + |r| == hi;
  }

  predicate IsDigit(c: char) {
    '0' <= c <= '9'
  }

  predicate AllDigits(s: string) {
    forall i :: 0 <= i < |s| ==> IsDigit(s[i])
  }

  function DigitChar(d: nat): (c: char)
    requires d < 10
    ensures IsDigit(c)
  {
    (('0' as int) + d) as char
  }

  function DigitValue(c: char): nat
    requires IsDigit(c)
  {
    (c as int) - ('0' as int)
  }

  /** Python's `str(n)` for a non-negative integer: its decimal digits. */
  function NatToString(n: nat): (r: string)
    ensures r != [] && AllDigits(r)
    decreases n
  {
    if n < 10 then [DigitChar(n)] else NatToString(n / 10) + [DigitChar(n % 10)]
  }

  /** Python's `str(i)` for any integer. */
  function IntToString(i: int): (r: string)
    ensures r != [] && NoSpace(r)
  {
    if i < 0 then "-" + NatToString(-i) else NatToString(i)
  }

  /** The value of a string of decimal digits, most significant first. */
  function DigitsValue(s: string): nat
    requires AllDigits(s)
    decreases |s|
  {
    if s == [] then 0 else 10 * DigitsValue(s[..|s| - 1]) + DigitValue(s[|s| - 1])
  }

  /** Python's `int(w)` for a word `w` without whitespace: an optional sign
      followed by at least one ASCII digit; `None` stands for the ValueError. */
  function ParseInt(w: string): Option<int>
  {
    if |w| > 0 && (w[0] == '+' || w[0] == '-') then
      var digits := w[1..];
      if digits != [] && AllDigits(digits) then
        var v: int := DigitsValue(digits);
        Some(if w[0] == '-' then -v else v)
      else
        None
    else if w != [] && AllDigits(w) then
      Some(DigitsValue(w))
    else
      None
  }

  lemma {:induction false} DigitsValueOfNatToString(n: nat)
    ensures DigitsValue(NatToString(n)) == n
    decreases n
  {
    if n >= 10 {
      var s := NatToString(n / 10) + [DigitChar(n % 10)];
      assert s[..|s| - 1] == NatToString(n / 10);
      DigitsValueOfNatToString(n / 10);
    }
  }

  /** `int(str(i)) == i`: printing an integer and parsing it back is the identity. */
  lemma ParseIntOfIntToString(i: int)
    ensures ParseInt(IntToString(i)) == Some(i)
  {
    if i < 0 {
      var digits := NatToString(-i);
      var w := "-" + digits;
      assert IntToString(i) == w;
      assert w[0] == '-' && w[1..] == digits;
      DigitsValueOfNatToString(-i);
    } else {
      var w := NatToString(i);
      assert IntToString(i) == w;
      assert IsDigit(w[0]);
      DigitsValueOfNatToString(i);
    }
  }

  /** The start of the run of non-whitespace characters that ends at `hi`. */
  function WordStart(s: string, hi: nat): (k: nat)
    requires hi <= |s|
    ensures k <= hi
    ensures forall m :: k <= m < hi ==> !IsSpace(s[m])
    ensures k > 0 ==> IsSpace(s[k - 1])
    decreases hi
  {
    if hi == 0 || IsSpace(s[hi - 1]) then hi else WordStart(s, hi - 1)
  }

  /** Python's `s.split()[-1]`: the last maximal run of non-whitespace
      characters. `None` when `s.split()` is empty, where Python raises
      IndexError. */
  function LastWord(s: string): (r: Option<string>)
    ensures r.Some? <==> !AllSpace(s)
    ensures r.Some? ==> r.value != [] && NoSpace(r.value)
    ensures r.Some? ==>
      exists k :: InfixAt(r.value, s, k) && (k == 0 || IsSpace(s[k - 1])) && SpaceBetween(s, k + |r.value|, |s|)
  {
    var e := SkipSpaceBack(s, |s|);
    if e == 0 then
      None
    else
      var k := WordStart(s, e);
      assert InfixAt(s[k..e], s, k);
      Some(s[k..e])
  }

  lemma {:induction false} WordStartAfterSpace(p: string, w: string, hi: nat)
    requires NoSpace(w)
    requires |p| + 1 <= hi <= |p| + 1 + |w|
    ensures WordStart(p + " " + w, hi) == |p| + 1
    decreases hi
  {
    var s := p + " " + w;
    if |p| + 1 < hi {
      assert s[hi - 1] == w[hi - |p| - 2];
      WordStartAfterSpace(p, w, hi - 1);
    } else {
      assert s[hi - 1] == ' ';
    }
  }

  /** The last word of `p + " " + w` is `w`, whatever `p` holds. */
  lemma LastWordAfterSpace(p: string, w: string)
    requires w != [] && NoSpace(w)
    ensures LastWord(p + " " + w) == Some(w)
  {
    var s := p + " " + w;
    assert s[|s| - 1] == w[|w| - 1];
    WordStartAfterSpace(p, w, |s|);
    assert SkipSpaceBack(s, |s|) == |s|;
    assert s[|p| + 1..|s|] == w;
  }

  /** Python's `sep.join(parts)`. */
  function Join(sep: string, parts: seq<string>): string
    decreases |parts|
  {
    if |parts| == 0 then []
    else if |parts| == 1 then parts[0]
    else Join(sep, parts[..|parts| - 1]) + sep + parts[|parts| - 1]
  }

  /** Where `parts[i]` starts inside `Join(sep, parts)`. */
  function JoinOffset(sep: string, parts: seq<string>, i: nat): nat
    requires i <= |parts|
  {
    if i == 0 then 0 else |Join(sep, parts[..i])| + |sep|
  }

  lemma {:induction false} JoinPrefix(sep: string, parts: seq<string>, j: nat)
    requires 1 <= j <= |parts|
    ensures |Join(sep, parts[..j])| <= |Join(sep, parts)|
    ensures Join(sep, parts)[..|Join(sep, parts[..j])|] == Join(sep, parts[..j])
    decreases |parts|
  {
    if j < |parts| {
      var init := parts[..|parts| - 1];
      assert init[..j] == parts[..j];
      JoinPrefix(sep, init, j);
    } else {
      assert parts[..j] == parts;
    }
  }

  /** Every part appears in the joined string at its offset, the parts appear
      in order, and consecutive parts are exactly one separator apart. */
  lemma JoinPlacesParts(sep: string, parts: seq<string>, i: nat)
    requires i < |parts|
    ensures InfixAt(parts[i], Join(sep, parts), JoinOffset(sep, parts, i))
    ensures i + 1 < |parts| ==>
      JoinOffset(sep, parts, i + 1) == JoinOffset(sep, parts, i) + |parts[i]| + |sep|
  {
    var upTo := parts[..i + 1];
    JoinPrefix(sep, parts, i + 1);
    if i > 0 {
      assert upTo[..i] == parts[..i];
    }
    var whole := Join(sep, parts);
    var off := JoinOffset(sep, parts, i);
    assert whole[off..off + |parts[i]|] == Join(sep, upTo)[off..];
  }

  /** Python's `s.split(sep)` for a one-character separator: the pieces
      between separators, empty ones included; never an empty list. */
  function Split(s: string, sep: char): (r: seq<string>)
    ensures |r| >= 1
    decreases |s|
  {
    if s == [] then [[]]
    else
      var pieces := Split(s[..|s| - 1], sep);
      var c := s[|s| - 1];
      if c == sep then pieces + [[]]
      else pieces[..|pieces| - 1] + [pieces[|pieces| - 1] + [c]]
  }

  /** Joining the pieces with the separator gives the string back. */
  lemma {:induction false} JoinSplit(s: string, sep: char)
    ensures Join([sep], Split(s, sep)) == s
    decreases |s|
  {
    if s != [] {
      var front := s[..|s| - 1];
      var c := s[|s| - 1];
      assert s == front + [c];
      JoinSplit(front, sep);
      JoinSplitSnoc(front, c, sep);
    }
  }

  /** One more character: a separator opens a new, empty piece, any other
      character extends the last piece. */
  lemma JoinSplitSnoc(front: string, c: char, sep: char)
    requires Join([sep], Split(front, sep)) == front
    ensures Join([sep], Split(front + [c], sep)) == front + [c]
  {
    var s := front + [c];
    var pieces := Split(front, sep);
    assert s[..|s| - 1] == front && s[|s| - 1] == c;
    if c == sep {
      assert Split(s, sep) == pieces + [[]];
      JoinEmptyLast([sep], pieces);
    } else {
      assert Split(s, sep) == pieces[..|pieces| - 1] + [pieces[|pieces| - 1] + [c]];
      JoinExtendLast([sep], pieces, c);
    }
  }

  /** An empty last part adds just one separator. */
  lemma JoinEmptyLast(sep: string, parts: seq<string>)
    requires |parts| >= 1
    ensures Join(sep, parts + [[]]) == Join(sep, parts) + sep
  {
    assert (parts + [[]])[..|parts|] == parts;
  }

  /** A character added to the last part lands at the end of the join. */
  lemma JoinExtendLast(sep: string, parts: seq<string>, c: char)
    requires |parts| >= 1
    ensures Join(sep, parts[..|parts| - 1] + [parts[|parts| - 1] + [c]]) == Join(sep, parts) + [c]
  {
    var m := |parts|;
    var last := parts[m - 1];
    var extended := parts[..m - 1] + [last + [c]];
    if m >= 2 {
      var head := Join(sep, parts[..m - 1]);
      assert extended[..m - 1] == parts[..m - 1];
      assert Join(sep, extended) == head + sep + (last + [c]);
      assert Join(sep, parts) == head + sep + last;
      assert head + sep + (last + [c]) == (head + sep + last) + [c];
    } else {
      assert Join(sep, extended) == last + [c];
    }
  }
}
