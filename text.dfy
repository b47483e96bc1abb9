/** Character classes and the whitespace helpers that every extractor shares:
    Python's `str.strip()`, `re.sub(r'\s+', ' ', s).strip()` and the greedy
    `\s*` / `\d+` steps of the short anchored patterns, plus a first-match
    search over positions (what `re.search` does for a pattern that can only
    match in one way at a given position). */
module Text {
  import opened Wrappers

  /** Python's `\s` in a `str` pattern, which is also the set `str.strip()`
      removes: the characters for which `str.isspace()` holds. */
  predicate IsSpace(c: char) {
    var n := c as int;
    if n <= 32 then 9 <= n <= 13 || 28 <= n
    else if n < 0x2000 then n == 0x85 || n == 0xA0 || n == 0x1680
    else n <= 0x200A || n == 0x2028 || n == 0x2029 || n == 0x202F || n == 0x205F || n == 0x3000
  }

  /** `\d`, restricted to the ASCII digits. */
  predicate IsDigit(c: char) {
    '0' <= c <= '9'
  }

  predicate AllDigits(s: string) {
    forall i :: 0 <= i < |s| ==> IsDigit(s[i])
  }

  lemma DigitsOfSlice(s: string, a: nat, b: nat)
    requires a <= b <= |s| && AllDigits(s[a..b])
    ensures forall i :: a <= i < b ==> IsDigit(s[i])
  {
    forall i | a <= i < b ensures IsDigit(s[i]) {
      assert s[i] == s[a..b][i - a];
    }
  }

  predicate NoSpace(s: string) {
    forall i :: 0 <= i < |s| ==> !IsSpace(s[i])
  }

  lemma DigitsNoSpace(a: string)
    requires AllDigits(a)
    ensures NoSpace(a)
  {
  }

  lemma NoSpaceConcat(a: string, b: string)
    requires NoSpace(a) && NoSpace(b)
    ensures NoSpace(a + b)
  {
    forall i | 0 <= i < |a + b| ensures !IsSpace((a + b)[i]) {
      if i >= |a| { assert (a + b)[i] == b[i - |a|]; }
    }
  }

  predicate AllSpace(s: string) {
    forall i :: 0 <= i < |s| ==> IsSpace(s[i])
  }

  /** `str.lstrip()` */
  function TrimStart(s: string): (r: string)
    ensures |r| <= |s| && r == s[|s| - |r|..]
    ensures r == [] || !IsSpace(r[0])
    ensures forall i :: 0 <= i < |s| - |r| ==> IsSpace(s[i])
  {
    if |s| > 0 && IsSpace(s[0]) then
      var r := TrimStart(s[1..]);
      assert forall i :: 1 <= i < |s| - |r| ==> s[i] == s[1..][i - 1];
      r
    else s
  }

  /** `str.rstrip()` */
  function TrimEnd(s: string): (r: string)
    ensures |r| <= |s| && r == s[..|r|]
    ensures r == [] || !IsSpace(r[|r| - 1])
    ensures forall i :: |r| <= i < |s| ==> IsSpace(s[i])
  {
    if |s| > 0 && IsSpace(s[|s| - 1]) then
      var r := TrimEnd(s[..|s| - 1]);
      assert forall i :: |r| <= i < |s| - 1 ==> s[i] == s[..|s| - 1][i];
      r
    else s
  }

  /** `str.strip()`: the slice of `s` between its first and its last
      non-whitespace character; empty exactly when `s` is all whitespace. */
  function Strip(s: string): (r: string)
    decreases |s|
    ensures |r| <= |s|
    ensures r == [] || (!IsSpace(r[0]) && !IsSpace(r[|r| - 1]))
    ensures r == [] <==> AllSpace(s)
  {
    if s != [] && IsSpace(s[0]) then Strip(s[1..])
    else
      assert s != [] ==> TrimEnd(s) != [] && TrimEnd(s)[0] == s[0];
      TrimEnd(s)
  }

  /** Where the stripped text starts inside `s`: past the leading whitespace. */
  function StripStart(s: string): (k: nat)
    decreases |s|
    ensures k + |Strip(s)| <= |s|
  {
    if s != [] && IsSpace(s[0]) then 1 + StripStart(s[1..]) else 0
  }

  /** The stripped text is a slice of `s`. */
  lemma {:induction false} StripIsSlice(s: string)
    decreases |s|
    ensures Strip(s) == s[StripStart(s)..StripStart(s) + |Strip(s)|]
  {
    if s != [] && IsSpace(s[0]) {
      var t := s[1..];
      StripIsSlice(t);
      var k := StripStart(t);
      var r := Strip(t);
      assert Strip(s) == r && StripStart(s) == k + 1;
      SliceOfTail(s, k, |r|);
    } else {
      assert Strip(s) == TrimEnd(s) && StripStart(s) == 0;
    }
  }

  /** What stripping cuts off on either side of that slice is whitespace. */
  lemma {:induction false} StripCutsSpace(s: string)
    decreases |s|
    ensures forall i :: 0 <= i < StripStart(s) ==> IsSpace(s[i])
    ensures forall i :: StripStart(s) + |Strip(s)| <= i < |s| ==> IsSpace(s[i])
  {
    if s != [] && IsSpace(s[0]) {
      var t := s[1..];
      StripCutsSpace(t);
      assert StripStart(s) == StripStart(t) + 1 && Strip(s) == Strip(t);
      forall i | 1 <= i < |s| ensures s[i] == t[i - 1] { }
    } else {
      assert Strip(s) == TrimEnd(s) && StripStart(s) == 0;
    }
  }

  /** `str.strip()` is determined by its shape: whitespace, then text that
      starts and ends with a non-whitespace character, then whitespace,
      strips to that text. */
  lemma {:induction false} StripUnique(s: string, p: string, m: string, q: string)
    requires s == p + m + q && AllSpace(p) && AllSpace(q)
    requires m == [] || (!IsSpace(m[0]) && !IsSpace(m[|m| - 1]))
    ensures Strip(s) == m
    decreases |p|
  {
    if p != [] {
      assert s[1..] == p[1..] + m + q;
      StripUnique(s[1..], p[1..], m, q);
    } else if m == [] {
      assert s == q;
    } else {
      assert s == m + q && s[0] == m[0];
      TrimEndUnique(m, q);
    }
  }

  lemma {:induction false} TrimEndUnique(m: string, q: string)
    requires m != [] && !IsSpace(m[|m| - 1]) && AllSpace(q)
    ensures TrimEnd(m + q) == m
    decreases |q|
  {
    if q == [] {
      assert m + q == m;
    } else {
      var q' := q[..|q| - 1];
      assert (m + q)[..|m + q| - 1] == m + q';
      TrimEndUnique(m, q');
    }
  }

  lemma SliceOfTail<T>(s: seq<T>, k: nat, m: nat)
    requires s != [] && k + m <= |s| - 1
    ensures s[1..][k..k + m] == s[k + 1..k + 1 + m]
  {
  }

  /** Stripping adds no character. */
  lemma StripKeepsOut(s: string, c: char)
    requires c !in s
    ensures c !in Strip(s)
  {
    StripIsSlice(s);
    var k := StripStart(s);
    var r := Strip(s);
    forall j | 0 <= j < |r| ensures r[j] != c {
      assert r[j] == s[k + j];
    }
  }

  /** Stripping keeps a single-spaced string single-spaced. */
  lemma StripSingleSpaced(s: string)
    requires SingleSpaced(s)
    ensures SingleSpaced(Strip(s))
  {
    StripIsSlice(s);
    SlicesStaySingleSpaced(s);
  }

  /** A collapsed string has nothing to strip. */
  lemma StripCollapsed(s: string)
    requires IsCollapsed(s)
    ensures Strip(s) == s
  {
    if s != [] {
      assert TrimStart(s) == s;
      assert TrimEnd(s) == s;
    }
  }

  /** No whitespace character other than ' ', and never two in a row. */
  predicate SingleSpaced(s: string) {
    && (forall i :: 0 <= i < |s| && IsSpace(s[i]) ==> s[i] == ' ')
    && (forall i :: 0 <= i < |s| - 1 ==> !(IsSpace(s[i]) && IsSpace(s[i + 1])))
  }

  /** The shape of `re.sub(r'\s+', ' ', s).strip()`: single spaces between
      words and no whitespace at either end. */
  predicate IsCollapsed(s: string) {
    SingleSpaced(s) && (s == [] || (!IsSpace(s[0]) && !IsSpace(s[|s| - 1])))
  }

  /** `re.sub(r'\s+', ' ', s)`: every maximal run of whitespace becomes one ' '. */
  function Squeeze(s: string): (r: string)
    decreases |s|
    ensures r == [] <==> s == []
    ensures s != [] ==> (IsSpace(r[0]) <==> IsSpace(s[0]))
    ensures SingleSpaced(r)
  {
    if s == [] then []
    else if IsSpace(s[0]) then " " + Squeeze(TrimStart(s))
    else [s[0]] + Squeeze(s[1..])
  }

  /** `re.sub(r'\s+', ' ', s).strip()` */
  function Collapse(s: string): (r: string)
    ensures IsCollapsed(r)
    ensures r == [] <==> AllSpace(s)
  {
    var q := Squeeze(s);
    StripSingleSpaced(q);
    AllSpaceSqueeze(s);
    Strip(q)
  }

  lemma SlicesStaySingleSpaced(s: string)
    requires SingleSpaced(s)
    ensures forall a, b :: 0 <= a <= b <= |s| ==> SingleSpaced(s[a..b])
  {
    forall a, b | 0 <= a <= b <= |s| ensures SingleSpaced(s[a..b]) {
      var t := s[a..b];
      forall i | 0 <= i < |t| - 1 ensures !(IsSpace(t[i]) && IsSpace(t[i + 1])) {
        assert t[i] == s[a + i] && t[i + 1] == s[a + i + 1];
      }
    }
  }

  lemma TailSingleSpaced(s: string)
    requires SingleSpaced(s) && s != []
    ensures SingleSpaced(s[1..])
  {
    var t := s[1..];
    forall i | 0 <= i < |t| - 1 ensures !(IsSpace(t[i]) && IsSpace(t[i + 1])) {
      assert t[i] == s[i + 1] && t[i + 1] == s[i + 2];
    }
  }

  /** A string squeezes to all-whitespace exactly when it is all whitespace. */
  lemma AllSpaceSqueeze(s: string)
    ensures AllSpace(Squeeze(s)) <==> AllSpace(s)
  {
    if s != [] && IsSpace(s[0]) {
      var t := TrimStart(s);
      var q := Squeeze(t);
      assert Squeeze(s) == " " + q;
      if q != [] {
        assert (" " + q)[1] == q[0];
      }
    }
  }

  /** Squeezing leaves a single-spaced string unchanged. */
  lemma {:induction false} SqueezeSingleSpaced(s: string)
    requires SingleSpaced(s)
    ensures Squeeze(s) == s
    decreases |s|
  {
    if s != [] {
      TailSingleSpaced(s);
      if IsSpace(s[0]) {
        var t := s[1..];
        assert t == [] || !IsSpace(t[0]);
        assert TrimStart(t) == t;
        assert TrimStart(s) == t;
        SqueezeSingleSpaced(t);
        assert s[0] == ' ';
        assert s == " " + t;
      } else {
        SqueezeSingleSpaced(s[1..]);
        assert s == [s[0]] + s[1..];
      }
    }
  }

  /** Collapsing is idempotent: an already collapsed string is its own image. */
  lemma CollapseCollapsed(s: string)
    requires IsCollapsed(s)
    ensures Collapse(s) == s
  {
    SqueezeSingleSpaced(s);
    StripCollapsed(s);
  }

  /** Leading whitespace that stops inside `x` is trimmed inside `x`. */
  lemma {:induction false} TrimStartAppend(x: string, y: string)
    requires !AllSpace(x)
    ensures TrimStart(x + y) == TrimStart(x) + y
    decreases |x|
  {
    if IsSpace(x[0]) {
      assert (x + y)[1..] == x[1..] + y;
      TrimStartAppend(x[1..], y);
    }
  }

  /** Whitespace followed by a non-whitespace character is trimmed up to it. */
  lemma {:induction false} TrimStartBlank(x: string, y: string)
    requires AllSpace(x) && (y == [] || !IsSpace(y[0]))
    ensures TrimStart(x + y) == y
    decreases |x|
  {
    if x == [] {
      assert x + y == y;
    } else {
      assert (x + y)[1..] == x[1..] + y;
      TrimStartBlank(x[1..], y);
    }
  }

  /** The whitespace runs of `x + y` are those of `x` and of `y` when the
      two do not meet in one run. */
  lemma {:induction false} SqueezeAppend(x: string, y: string)
    requires x == [] || y == [] || !IsSpace(x[|x| - 1]) || !IsSpace(y[0])
    ensures Squeeze(x + y) == Squeeze(x) + Squeeze(y)
    decreases |x|
  {
    if x == [] {
      assert x + y == y;
    } else if !IsSpace(x[0]) {
      var x' := x[1..];
      assert x' == [] || x'[|x'| - 1] == x[|x| - 1];
      SqueezeAppend(x', y);
      SqueezeWordStep(x, y);
    } else if AllSpace(x) {
      SqueezeBlankStep(x, y);
    } else {
      var t := TrimStart(x);
      assert t[|t| - 1] == x[|x| - 1];
      SqueezeAppend(t, y);
      SqueezeRunStep(x, y);
    }
  }

  lemma SqueezeWordStep(x: string, y: string)
    requires x != [] && !IsSpace(x[0])
    requires Squeeze(x[1..] + y) == Squeeze(x[1..]) + Squeeze(y)
    ensures Squeeze(x + y) == Squeeze(x) + Squeeze(y)
  {
    var c, t := x[0], x[1..];
    ConsSplit(x, y);
    SqueezeCons(c, t + y);
    SqueezeCons(c, t);
    AppendAssoc([c], Squeeze(t), Squeeze(y));
  }

  lemma ConsSplit<T>(x: seq<T>, y: seq<T>)
    requires x != []
    ensures x == [x[0]] + x[1..] && x + y == [x[0]] + (x[1..] + y)
  {
  }

  lemma SqueezeCons(c: char, t: string)
    requires !IsSpace(c)
    ensures Squeeze([c] + t) == [c] + Squeeze(t)
  {
    assert ([c] + t)[0] == c && ([c] + t)[1..] == t;
  }

  lemma SqueezeBlankStep(x: string, y: string)
    requires x != [] && AllSpace(x) && (y == [] || !IsSpace(y[0]))
    ensures Squeeze(x + y) == Squeeze(x) + Squeeze(y)
  {
    SqueezeBlank(x);
    var xy := x + y;
    assert xy[0] == x[0];
    TrimStartBlank(x, y);
    assert Squeeze(xy) == " " + Squeeze(TrimStart(xy));
  }

  lemma SqueezeRunStep(x: string, y: string)
    requires x != [] && IsSpace(x[0]) && !AllSpace(x)
    requires Squeeze(TrimStart(x) + y) == Squeeze(TrimStart(x)) + Squeeze(y)
    ensures Squeeze(x + y) == Squeeze(x) + Squeeze(y)
  {
    assert Squeeze(x + y) == " " + Squeeze(TrimStart(x) + y) by {
      TrimStartAppend(x, y);
      assert (x + y)[0] == x[0];
    }
    assert Squeeze(x) == " " + Squeeze(TrimStart(x));
    AppendAssoc(" ", Squeeze(TrimStart(x)), Squeeze(y));
  }

  lemma AppendAssoc<T>(a: seq<T>, b: seq<T>, c: seq<T>)
    ensures a + (b + c) == (a + b) + c
  {
  }

  /** A whitespace run squeezes to one space. */
  lemma SqueezeBlank(w: string)
    requires w != [] && AllSpace(w)
    ensures Squeeze(w) == " "
  {
    TrimStartBlank(w, []);
    assert w + [] == w;
  }

  /** Squeezing keeps a final non-whitespace character in place. */
  lemma SqueezeLast(s: string)
    requires s != [] && !IsSpace(s[|s| - 1])
    ensures Squeeze(s) != [] && Squeeze(s)[|Squeeze(s)| - 1] == s[|s| - 1]
  {
    var c := s[|s| - 1];
    assert s == s[..|s| - 1] + [c];
    SqueezeAppend(s[..|s| - 1], [c]);
    assert Squeeze([c]) == [c] + Squeeze([]);
  }

  /** `re.sub(r'\s+', ' ', s).strip()` keeps the text: two pieces joined by
      any whitespace run collapse to the collapsed pieces joined by one
      space. */
  lemma CollapseJoin(a: string, w: string, b: string)
    requires a != [] && !IsSpace(a[|a| - 1])
    requires w != [] && AllSpace(w)
    requires b != [] && !IsSpace(b[0])
    ensures Collapse(a + (w + b)) == Collapse(a) + ([' '] + Collapse(b))
  {
    SqueezeJoin(a, w, b);
    SqueezeLast(a);
    AllSpaceSqueeze(a);
    AllSpaceSqueeze(b);
    var p := StripTail(Squeeze(a));
    var q := StripHead(Squeeze(b));
    var m := Collapse(a) + ([' '] + Collapse(b));
    Regroup(p, Collapse(a), " ", Collapse(b), q);
    StripUnique(Squeeze(a + (w + b)), p, m, q);
  }

  /** The squeezed pieces joined by one space. */
  lemma SqueezeJoin(a: string, w: string, b: string)
    requires a != [] && !IsSpace(a[|a| - 1])
    requires w != [] && AllSpace(w)
    requires b != [] && !IsSpace(b[0])
    ensures Squeeze(a + (w + b)) == Squeeze(a) + ([' '] + Squeeze(b))
  {
    SqueezeAppend(a, w + b);
    SqueezeAppend(w, b);
    SqueezeBlank(w);
  }

  /** Text ending in a non-whitespace character is the whitespace its strip
      cuts off at the front, then the stripped text. */
  lemma StripTail(s: string) returns (p: string)
    requires s != [] && !IsSpace(s[|s| - 1])
    ensures s == p + Strip(s) && AllSpace(p)
  {
    StripIsSlice(s);
    StripCutsSpace(s);
    var k := StripStart(s);
    p := s[..k];
  }

  /** Text starting with a non-whitespace character is its stripped text,
      then the whitespace its strip cuts off at the back. */
  lemma StripHead(s: string) returns (q: string)
    requires s != [] && !IsSpace(s[0])
    ensures s == Strip(s) + q && AllSpace(q)
  {
    StripIsSlice(s);
    StripCutsSpace(s);
    assert StripStart(s) == 0;
    q := s[|Strip(s)|..];
  }

  lemma Regroup<T>(p: seq<T>, a: seq<T>, sep: seq<T>, b: seq<T>, q: seq<T>)
    ensures (p + a) + (sep + (b + q)) == p + (a + (sep + b)) + q
  {
  }

  /** A word without whitespace, any whitespace run, then more text:
      collapsing keeps the word and one space. */
  lemma WordJoin(t: string, w: string, b: string)
    requires t != [] && NoSpace(t)
    requires w != [] && AllSpace(w)
    requires b != [] && !IsSpace(b[0])
    ensures Collapse(t + (w + b)) == t + ([' '] + Collapse(b))
  {
    CollapseJoin(t, w, b);
    CollapseCollapsed(t);
  }

  /** Stripping any slice of a collapsed string gives a collapsed string. */
  lemma StripSliceCollapsed(s: string, a: nat, b: nat)
    requires IsCollapsed(s) && a <= b <= |s|
    ensures IsCollapsed(Strip(s[a..b]))
  {
    SlicesStaySingleSpaced(s);
    StripSingleSpaced(s[a..b]);
  }

  /** Length of the run of ASCII digits starting at position i (greedy `\d*`). */
  function DigitRun(s: string, i: nat): (n: nat)
    requires i <= |s|
    decreases |s| - i
    ensures i + n <= |s|
    ensures forall j :: i <= j < i + n ==> IsDigit(s[j])
    ensures i + n == |s| || !IsDigit(s[i + n])
  {
    if i < |s| && IsDigit(s[i]) then 1 + DigitRun(s, i + 1) else 0
  }

  /** Position of the first non-whitespace character at or after i (greedy `\s*`). */
  function SkipSpace(s: string, i: nat): (j: nat)
    requires i <= |s|
    decreases |s| - i
    ensures i <= j <= |s|
    ensures forall k :: i <= k < j ==> IsSpace(s[k])
    ensures j == |s| || !IsSpace(s[j])
  {
    if i < |s| && IsSpace(s[i]) then SkipSpace(s, i + 1) else i
  }

  /** The run length is determined by where the digits stop. */
  lemma DigitRunIs(s: string, i: nat, n: nat)
    requires i + n <= |s|
    requires forall j :: i <= j < i + n ==> IsDigit(s[j])
    requires i + n == |s| || !IsDigit(s[i + n])
    ensures DigitRun(s, i) == n
  {
  }

  /** The skip target is determined by where the whitespace stops. */
  lemma SkipSpaceIs(s: string, i: nat, j: nat)
    requires i <= j <= |s|
    requires forall k :: i <= k < j ==> IsSpace(s[k])
    requires j == |s| || !IsSpace(s[j])
    ensures SkipSpace(s, i) == j
  {
  }

  /** Value of one decimal digit; a non-digit counts as 0 (never used on one). */
  function DigitValue(c: char): nat {
    if IsDigit(c) then c as int - '0' as int else 0
  }

  /** Value of a decimal digit string, as Python's `int()` reads it. */
  function DecimalValue(s: string): nat
    decreases |s|
  {
    if s == [] then 0 else DecimalValue(s[..|s| - 1]) * 10 + DigitValue(s[|s| - 1])
  }

  lemma DecimalValueSnoc(s: string, c: char)
    ensures DecimalValue(s + [c]) == DecimalValue(s) * 10 + DigitValue(c)
  {
    assert (s + [c])[..|s|] == s;
  }

  /** Appending two more digits shifts the value by two decimal places. */
  lemma DecimalValueAppend2(s: string, t: string)
    requires |t| == 2
    ensures DecimalValue(s + t) == DecimalValue(s) * 100 + DecimalValue(t)
  {
    assert s + t == (s + [t[0]]) + [t[1]];
    DecimalValueSnoc(s + [t[0]], t[1]);
    DecimalValueSnoc(s, t[0]);
    assert t == ([] + [t[0]]) + [t[1]];
    DecimalValueSnoc([t[0]], t[1]);
    DecimalValueSnoc([], t[0]);
  }

  /** A prefix grows by the next element. */
  lemma TakeOneMore<T>(s: seq<T>, i: nat)
    requires i < |s|
    ensures s[..i + 1] == s[..i] + [s[i]]
  {
  }

  /** The first position in [i, n) at which p holds, as `re.search` reports the
      leftmost match. */
  function FirstFrom(p: nat -> bool, i: nat, n: nat): (r: Option<nat>)
    decreases n - i
    ensures r.Some? ==> i <= r.value < n && p(r.value)
    ensures r.Some? ==> forall j :: i <= j < r.value ==> !p(j)
    ensures r.None? ==> forall j :: i <= j < n ==> !p(j)
  {
    if i >= n then None else if p(i) then Some(i) else FirstFrom(p, i + 1, n)
  }

  /** The leftmost position is pinned down by where p first holds. */
  lemma FirstFromIs(p: nat -> bool, i: nat, n: nat, k: nat)
    requires i <= k < n && p(k)
    requires forall j :: i <= j < k ==> !p(j)
    ensures FirstFrom(p, i, n) == Some(k)
  {
  }
}
