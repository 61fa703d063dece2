/** The small part of Python's `str` behaviour the processors rely on:
    joining, splitting on one character, stripping, ASCII lower-casing,
    substring tests, decimal formatting of integers and `int()` parsing. */
module Strings {
  import opened Values

  /** `sep.join(parts)`. */
  function Join(parts: seq<string>, sep: string): string
  {
    if |parts| == 0 then ""
    else if |parts| == 1 then parts[0]
    else parts[0] + sep + Join(parts[1..], sep)
  }

  /** `"".join(parts)`: plain concatenation. */
  function Concat(parts: seq<string>): string
  {
    if |parts| == 0 then "" else parts[0] + Concat(parts[1..])
  }

  lemma {:induction false} ConcatAppend(parts: seq<string>, last: string)
    ensures Concat(parts + [last]) == Concat(parts) + last
  {
    if |parts| == 0 {
      assert parts + [last] == [last];
    } else {
      assert (parts + [last])[1..] == parts[1..] + [last];
      ConcatAppend(parts[1..], last);
    }
  }

  lemma {:induction false} ConcatSplit(a: seq<string>, b: seq<string>)
    ensures Concat(a + b) == Concat(a) + Concat(b)
  {
    if |a| == 0 {
      assert a + b == b;
    } else {
      assert (a + b)[1..] == a[1..] + b;
      ConcatSplit(a[1..], b);
    }
  }

  /** Python's `[x] * n`: `n` copies of `x`, none when `n <= 0`. */
  function Repeat<T>(x: T, n: int): (r: seq<T>)
    ensures |r| == if n <= 0 then 0 else n
    ensures forall i :: 0 <= i < |r| ==> r[i] == x
  {
    if n <= 0 then [] else [x] + Repeat(x, n - 1)
  }

  predicate StartsWith(s: string, prefix: string)
  {
    |prefix| <= |s| && s[..|prefix|] == prefix
  }

  predicate EndsWith(s: string, suffix: string)
  {
    |suffix| <= |s| && s[|s| - |suffix|..] == suffix
  }

  /** Python's `sub in s` for strings. */
  predicate Contains(s: string, sub: string)
    decreases |s|
  {
    StartsWith(s, sub) || (|s| > 0 && Contains(s[1..], sub))
  }

  /** `s.replace(a, b)` for single characters. */
  function ReplaceChar(s: string, a: char, b: char): (r: string)
    ensures |r| == |s|
    ensures forall i :: 0 <= i < |s| ==> r[i] == (if s[i] == a then b else s[i])
  {
    if |s| == 0 then "" else [if s[0] == a then b else s[0]] + ReplaceChar(s[1..], a, b)
  }

  /** ASCII lower-casing; see the README for why this agrees with Python's
      `str.lower()` on every comparison the processors make. */
  function LowerChar(c: char): char
  {
    if 'A' <= c <= 'Z' then (c as int + 32) as char else c
  }

  function Lower(s: string): (r: string)
    ensures |r| == |s|
    ensures forall i :: 0 <= i < |s| ==> r[i] == LowerChar(s[i])
  {
    if |s| == 0 then "" else [LowerChar(s[0])] + Lower(s[1..])
  }

  // ---------------------------------------------------------------------------
  // Whitespace and strip()

  /** The characters Python's `str.strip()` removes (`str.isspace()`). */
  predicate IsSpace(c: char)
  {
    var n := c as int;
    n == 0x20 || (0x09 <= n <= 0x0D) || (0x1C <= n <= 0x1F) || n == 0x85 || n == 0xA0
    || n == 0x1680 || (0x2000 <= n <= 0x200A) || n == 0x2028 || n == 0x2029
    || n == 0x202F || n == 0x205F || n == 0x3000
  }

  function StripLeft(s: string): (r: string)
    ensures |r| <= |s| && r == s[|s| - |r|..]
    ensures forall i :: 0 <= i < |s| - |r| ==> IsSpace(s[i])
    ensures |r| > 0 ==> !IsSpace(r[0])
  {
    if |s| > 0 && IsSpace(s[0]) then StripLeft(s[1..]) else s
  }

  function StripRight(s: string): (r: string)
    ensures |r| <= |s| && r == s[..|r|]
    ensures forall i :: |r| <= i < |s| ==> IsSpace(s[i])
    ensures |r| > 0 ==> !IsSpace(r[|r| - 1])
  {
    if |s| > 0 && IsSpace(s[|s| - 1]) then StripRight(s[..|s| - 1]) else s
  }

  /** `s.strip()`: the longest infix of `s` that neither starts nor ends with
      whitespace, obtained by removing only whitespace. */
  function Strip(s: string): string
  {
    StripRight(StripLeft(s))
  }

  /** `s.strip()` is empty exactly when `s` is all whitespace. */
  lemma StripEmptyIff(s: string)
    ensures Strip(s) == "" <==> forall i :: 0 <= i < |s| ==> IsSpace(s[i])
  {
    var l := StripLeft(s);
    if |l| > 0 {
      assert !IsSpace(l[0]);
      assert Strip(s) != "";
      assert !IsSpace(s[|s| - |l|]);
    }
  }

  // ---------------------------------------------------------------------------
  // Splitting on one character

  /** Index of the first `c` in `s`. */
  function IndexOf(s: string, c: char): (i: nat)
    requires c in s
    ensures i < |s| && s[i] == c && c !in s[..i]
  {
    if s[0] == c then 0 else 1 + IndexOf(s[1..], c)
  }

  /** `s.split(c)`. */
  function Split(s: string, c: char): (parts: seq<string>)
    ensures |parts| >= 1
    ensures forall k :: 0 <= k < |parts| ==> c !in parts[k]
    ensures (c in s) <==> |parts| >= 2
    decreases |s|
  {
    if c !in s then [s]
    else
      var i := IndexOf(s, c);
      [s[..i]] + Split(s[i + 1..], c)
  }

  /** Joining the parts with the separator gives the text back. */
  lemma {:induction false} SplitJoin(s: string, c: char)
    ensures Join(Split(s, c), [c]) == s
    decreases |s|
  {
    if c in s {
      var i := IndexOf(s, c);
      var rest := Split(s[i + 1..], c);
      SplitJoin(s[i + 1..], c);
      assert Split(s, c) == [s[..i]] + rest;
      assert ([s[..i]] + rest)[1..] == rest;
      assert s == s[..i] + [c] + s[i + 1..];
    }
  }

  /** Where the text after the last `c` in `s` starts: just past that `c`,
      or 0 when there is none. */
  function LastStart(s: string, c: char): (k: nat)
    ensures k <= |s|
    ensures k > 0 ==> s[k - 1] == c
    ensures forall j :: k <= j < |s| ==> s[j] != c
  {
    if |s| == 0 then 0
    else if s[|s| - 1] == c then |s|
    else LastStart(s[..|s| - 1], c)
  }

  /** `s.split(c)[-1]`: the text after the last `c`, or all of `s`. */
  function LastPart(s: string, c: char): (r: string)
    ensures c !in r
    ensures |r| <= |s| && r == s[|s| - |r|..]
    ensures |r| < |s| ==> s[|s| - |r| - 1] == c
    ensures c !in s ==> r == s
    ensures c in s ==> |r| < |s|
  {
    s[LastStart(s, c)..]
  }

  /** Two suffixes of `s`: the longer holds the character in front of the shorter. */
  lemma SuffixesNest(s: string, long: string, short: string)
    requires |short| < |long| <= |s|
    requires long == s[|s| - |long|..] && short == s[|s| - |short|..]
    ensures long[|long| - |short| - 1] == s[|s| - |short| - 1]
  {
  }

  /** A suffix free of `c` with `c` in front of it is the last part. */
  lemma LastPartAfter(s: string, c: char, t: string)
    requires |t| < |s| && s[|s| - |t| - 1] == c && s[|s| - |t|..] == t && c !in t
    ensures LastPart(s, c) == t
  {
    var r := LastPart(s, c);
    if |r| > |t| {
      SuffixesNest(s, r, t);
    } else if |r| < |t| {
      SuffixesNest(s, t, r);
    }
  }

  /** The last part is `t` exactly when `s` ends with `c` followed by `t`,
      or has no `c` at all and is `t`. */
  lemma LastPartIs(s: string, c: char, t: string)
    requires c !in t
    ensures LastPart(s, c) == t <==> EndsWith(s, [c] + t) || (c !in s && s == t)
  {
    if EndsWith(s, [c] + t) {
      LastPartEndsWith(s, c, t);
    }
    if LastPart(s, c) == t && c in s {
      LastPartPreceded(s, c);
    }
  }

  lemma LastPartEndsWith(s: string, c: char, t: string)
    requires c !in t && EndsWith(s, [c] + t)
    ensures LastPart(s, c) == t
  {
    var w := [c] + t;
    var k := |s| - |w|;
    assert s[k..] == w;
    assert s[k] == w[0] == c;
    assert s[k + 1..] == s[k..][1..] == w[1..] == t;
    LastPartAfter(s, c, t);
  }

  lemma LastPartPreceded(s: string, c: char)
    requires c in s
    ensures EndsWith(s, [c] + LastPart(s, c))
  {
    SuffixPreceded(s, c, LastPart(s, c));
  }

  /** A proper suffix with `c` in front of it ends the text together with `c`. */
  lemma SuffixPreceded(s: string, c: char, r: string)
    requires |r| < |s| && r == s[|s| - |r|..] && s[|s| - |r| - 1] == c
    ensures EndsWith(s, [c] + r)
  {
    var k := |s| - |r| - 1;
    assert s[k..] == [s[k]] + s[k + 1..];
  }

  /** `.` is in the lower-cased text exactly when it is in the text. */
  lemma LowerKeepsDot(s: string)
    ensures '.' in Lower(s) <==> '.' in s
  {
    if '.' in s {
      var i :| 0 <= i < |s| && s[i] == '.';
      assert Lower(s)[i] == '.';
    }
    if '.' in Lower(s) {
      var i :| 0 <= i < |s| && Lower(s)[i] == '.';
      assert s[i] == '.';
    }
  }

  /** `os.path.basename` (POSIX): the text after the last `/`. */
  function Basename(path: string): string
  {
    LastPart(path, '/')
  }

  /** `PurePosixPath(path).name`: pathlib splits the path on `/`, drops the
      empty and `.` components, and names the last one left, or gives ""
      when none is left. A path whose text after the last `/` is an
      ordinary component is named by that text, as `os.path.basename`
      names it. */
  function PathName(path: string): (r: string)
    ensures '/' !in r && r != "."
    ensures LastPart(path, '/') != "" && LastPart(path, '/') != "." ==> r == LastPart(path, '/')
    decreases |path|
  {
    var last := LastPart(path, '/');
    if last != "" && last != "." then last
    else if '/' in path then
      var k := LastStart(path, '/');
      assert k > 0 by {
        var j :| 0 <= j < |path| && path[j] == '/';
      }
      PathName(path[..k - 1])
    else ""
  }

  /** A trailing `/` or `/.` does not change the name, and a lone `.` has
      none. */
  lemma PathNameDropsTrailing(path: string, dot: string)
    requires dot == ['.']
    ensures PathName(path + ['/']) == PathName(path)
    ensures PathName(path + ['/'] + dot) == PathName(path)
    ensures PathName(dot) == ""
  {
    var a := path + ['/'];
    assert a[|a| - 1] == '/';
    assert a[..|a| - 1] == path;
    PathNameSkips(a, |a|);
    var b := a + dot;
    assert b[|b| - 1] == '.' && b[..|b| - 1] == a;
    assert LastStart(b, '/') == |a|;
    assert b[|a|..] == dot;
    assert b[..|a| - 1] == path;
    PathNameSkips(b, |a|);
    assert LastPart(dot, '/') == dot;
  }

  /** A last component that is empty or `.` is skipped: the name is that
      of the text before its `/`. */
  lemma PathNameSkips(p: string, k: nat)
    requires 0 < k <= |p| && p[k - 1] == '/' && LastStart(p, '/') == k
    requires p[k..] == "" || p[k..] == "."
    ensures PathName(p) == PathName(p[..k - 1])
  {
  }

  /** `PurePath.stem` of the name `PathName(path)`. */
  function Stem(path: string): (r: string)
  {
    NameStem(PathName(path))
  }

  /** The stem of a name: the name without its last suffix; a dot that
      starts the name or ends it does not start a suffix. */
  function NameStem(name: string): (r: string)
    ensures StartsWith(name, r)
    ensures '.' !in name ==> r == name
    ensures r != name ==> 0 < |r| && |r| + 1 < |name| && name[|r|] == '.' && '.' !in name[|r| + 1..]
  {
    var ext := LastPart(name, '.');
    if '.' in name && |ext| > 0 && |name| - |ext| - 1 > 0 then name[..|name| - |ext| - 1] else name
  }

  /** A file name `base.ext` with a non-empty base and extension has the
      stem `base`. */
  lemma NameStemOfSuffixed(base: string, ext: string)
    requires '.' !in ext && base != "" && ext != ""
    ensures NameStem(base + ['.'] + ext) == base
  {
    var name := base + ['.'] + ext;
    assert name[|base|..] == ['.'] + ext;
    LastPartEndsWith(name, '.', ext);
    assert name[..|base|] == base;
  }

  /** A component of more than one character without `/` is the name of
      itself and of any path it ends after a `/`. */
  lemma NameOfComponent(dir: string, name: string)
    requires '/' !in name && |name| > 1
    ensures PathName(name) == name
    ensures PathName(dir + ['/'] + name) == name
  {
    var p := dir + ['/'] + name;
    assert p[|p| - |name| - 1..] == ['/'] + name;
    LastPartEndsWith(p, '/', name);
  }

  /** The stem pathlib gives an uploaded file name: `dir/base.ext` and
      `base.ext` give `base`. */
  lemma StemOfUpload(dir: string, name: string, base: string, ext: string)
    requires name == base + ['.'] + ext
    requires '/' !in base && '/' !in ext && '.' !in ext && base != "" && ext != ""
    ensures Stem(name) == base
    ensures Stem(dir + ['/'] + name) == base
  {
    NameOfComponent(dir, name);
    NameStemOfSuffixed(base, ext);
  }

  /** A trailing `/` or `/.` is dropped before the suffix is removed, so
      `report.pdf/` has the stem of `report.pdf`; a lone `.` has the stem "". */
  lemma StemDropsTrailing(path: string, dot: string)
    requires dot == ['.']
    ensures Stem(path + ['/']) == Stem(path)
    ensures Stem(path + ['/'] + dot) == Stem(path)
    ensures Stem(dot) == ""
  {
    PathNameDropsTrailing(path, dot);
  }

  // ---------------------------------------------------------------------------
  // Decimal numbers

  function DigitChar(d: nat): (c: char)
    requires d < 10
  {
    (48 + d) as char
  }

  predicate IsDigit(c: char)
  {
    '0' <= c <= '9'
  }

  /** The decimal text of `n`, as Python's `str(n)` / `f"{n}"` prints it. */
  function Digits(n: nat): (r: string)
    ensures |r| >= 1
    ensures forall i :: 0 <= i < |r| ==> IsDigit(r[i])
    ensures n >= 10 ==> |r| >= 2
  {
    if n < 10 then [DigitChar(n)] else Digits(n / 10) + [DigitChar(n % 10)]
  }

  /** `f"{i}"` for any integer. */
  function IntToString(i: int): string
  {
    if i < 0 then "-" + Digits(-i) else Digits(i)
  }

  lemma {:induction false} DigitsInjective(a: nat, b: nat)
    requires Digits(a) == Digits(b)
    ensures a == b
  {
    if a >= 10 && b >= 10 {
      var da, db := Digits(a), Digits(b);
      assert da[|da| - 1] == DigitChar(a % 10) && db[|db| - 1] == DigitChar(b % 10);
      assert Digits(a / 10) == da[..|da| - 1] == db[..|db| - 1] == Digits(b / 10);
      DigitsInjective(a / 10, b / 10);
    }
  }

  lemma {:induction false} IndexOfAfterPrefix(x: string, y: string, c: char)
    requires c !in x
    ensures IndexOf(x + [c] + y, c) == |x|
  {
    if |x| > 0 {
      assert (x + [c] + y)[1..] == x[1..] + [c] + y;
      IndexOfAfterPrefix(x[1..], y, c);
    }
  }

  /** A first-occurrence split is unique: if `x + [c] + y == x' + [c] + y'`
      and neither `x` nor `x'` contains `c`, the two splits coincide. */
  lemma SplitAtFirst(x: string, y: string, x': string, y': string, c: char)
    requires c !in x && c !in x'
    requires x + [c] + y == x' + [c] + y'
    ensures x == x' && y == y'
  {
    var s := x + [c] + y;
    IndexOfAfterPrefix(x, y, c);
    IndexOfAfterPrefix(x', y', c);
    assert x == s[..|x|] == x';
    assert y == s[|x| + 1..] == y';
  }

  /** The value of a run of ASCII digits and underscores (underscores skipped). */
  function DigitRunValue(s: string): nat
    requires forall i :: 0 <= i < |s| ==> IsDigit(s[i]) || s[i] == '_'
  {
    if |s| == 0 then 0
    else if s[|s| - 1] == '_' then DigitRunValue(s[..|s| - 1])
    else
      assert IsDigit(s[|s| - 1]);
      DigitRunValue(s[..|s| - 1]) * 10 + (s[|s| - 1] as int - 48)
  }

  /** Underscores are allowed only between two digits, as in Python literals. */
  predicate WellFormedDigitRun(s: string)
  {
    && |s| > 0
    && (forall i :: 0 <= i < |s| ==> IsDigit(s[i]) || s[i] == '_')
    && IsDigit(s[0]) && IsDigit(s[|s| - 1])
    && (forall i :: 0 <= i < |s| - 1 ==> s[i] == '_' ==> s[i + 1] != '_')
  }

  /** Python's `int(s)`: surrounding whitespace, an optional sign, then ASCII
      digits with single underscores between them; anything else raises. */
  function ParseInt(s: string): (r: Option<int>)
  {
    var t := Strip(s);
    if |t| > 0 && (t[0] == '+' || t[0] == '-') then
      var body := t[1..];
      if WellFormedDigitRun(body) then
        Some(if t[0] == '-' then -(DigitRunValue(body) as int) else DigitRunValue(body) as int)
      else None
    else if WellFormedDigitRun(t) then Some(DigitRunValue(t) as int)
    else None
  }

  lemma {:induction false} DigitRunValueOfDigits(n: nat)
    ensures DigitRunValue(Digits(n)) == n
  {
    var d := Digits(n);
    if n >= 10 {
      assert d[..|d| - 1] == Digits(n / 10);
      DigitRunValueOfDigits(n / 10);
    }
  }

  /** `int(str(n)) == n` for every natural number. */
  lemma ParseIntOfDigits(n: nat)
    ensures ParseInt(Digits(n)) == Some(n)
  {
    var d := Digits(n);
    assert IsDigit(d[0]) && IsDigit(d[|d| - 1]);
    assert !IsSpace(d[0]) && !IsSpace(d[|d| - 1]);
    assert StripLeft(d) == d;
    assert StripRight(d) == d;
    assert Strip(d) == d;
    assert d[0] != '+' && d[0] != '-';
    assert WellFormedDigitRun(d);
    DigitRunValueOfDigits(n);
  }
}
