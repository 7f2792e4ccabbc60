/**
 * Values and text operations shared by the whole model.
 *
 * The application is written in Python and runs on Windows, so the string
 * helpers below reproduce Python's `str` methods and the Windows flavour of
 * `os.path` (backslash and slash are both separators). Characters are Unicode
 * code points, as in Python 3.
 */
module Common {

  datatype Option<T> = None | Some(value: T)

  // ---------------------------------------------------------------------
  // Characters

  /** Python's `str.isspace()`: what `str.strip()` removes and what `\s` matches in a `str` regex. */
  predicate IsSpace(c: char) {
    (0x09 <= c as int <= 0x0D) || (0x1C <= c as int <= 0x20) || c as int == 0x85 || c as int == 0xA0
    || c as int == 0x1680 || (0x2000 <= c as int <= 0x200A) || c as int == 0x2028 || c as int == 0x2029
    || c as int == 0x202F || c as int == 0x205F || c as int == 0x3000
  }

  /** `[ \t]` in a regex. */
  predicate IsBlank(c: char) { c == ' ' || c == '\t' }

  predicate IsDigit(c: char) { '0' <= c <= '9' }

  predicate IsAsciiLetter(c: char) { ('a' <= c <= 'z') || ('A' <= c <= 'Z') }

  /** KELVIN SIGN, the one non-ASCII code point whose lower case is a single ASCII letter. */
  const Kelvin: char := 0x212A as char

  /** Lower-casing of ASCII letters and of the Kelvin sign. Python's `str.lower()` agrees
      with it on every comparison the model makes against an ASCII literal: no other code
      point lower-cases to a lone ASCII character. */
  function LowerChar(c: char): (r: char)
    ensures 'A' <= c <= 'Z' ==> r as int == c as int + 32
    ensures c == Kelvin ==> r == 'k'
    ensures !('A' <= c <= 'Z') && c != Kelvin ==> r == c
  {
    if 'A' <= c <= 'Z' then (c as int + 32) as char else if c == Kelvin then 'k' else c
  }

  /** Whether text character `c` matches the ASCII pattern character `p` under `re.IGNORECASE`
      on a `str` pattern: the same character, the other ASCII case, and the Unicode extras
      `i` ~ U+0130, U+0131, `s` ~ U+017F and `k` ~ KELVIN SIGN. */
  predicate CaseMatch(c: char, p: char) {
    c == p || LowerChar(c) == LowerChar(p)
    || (LowerChar(p) == 'i' && (c as int == 0x130 || c as int == 0x131))
    || (LowerChar(p) == 's' && c as int == 0x17F)
  }

  predicate CaseMatches(t: string, p: string)
    requires |t| == |p|
  {
    forall i :: 0 <= i < |p| ==> CaseMatch(t[i], p[i])
  }

  /** Upper-casing of ASCII letters (`str.upper()` on ASCII text). */
  function UpperChar(c: char): (r: char)
    ensures 'a' <= c <= 'z' ==> r as int == c as int - 32
    ensures !('a' <= c <= 'z') ==> r == c
  {
    if 'a' <= c <= 'z' then (c as int - 32) as char else c
  }

  function Upper(s: string): (r: string)
    ensures |r| == |s|
    ensures forall i :: 0 <= i < |s| ==> r[i] == UpperChar(s[i])
  {
    seq(|s|, i requires 0 <= i < |s| => UpperChar(s[i]))
  }

  function Lower(s: string): (r: string)
    ensures |r| == |s|
    ensures forall i :: 0 <= i < |s| ==> r[i] == LowerChar(s[i])
  {
    seq(|s|, i requires 0 <= i < |s| => LowerChar(s[i]))
  }

  /** Lower-casing works character by character, so it distributes over concatenation. */
  lemma LowerAppend(a: string, b: string)
    ensures Lower(a + b) == Lower(a) + Lower(b)
  {
    var l := Lower(a + b);
    forall i | 0 <= i < |l| ensures l[i] == (Lower(a) + Lower(b))[i] {
      if i < |a| { assert (a + b)[i] == a[i]; } else { assert (a + b)[i] == b[i - |a|]; }
    }
  }

  // ---------------------------------------------------------------------
  // Ordering: Python compares strings code point by code point

  predicate StrLess(a: string, b: string)
    decreases |a|
  {
    if a == [] then b != []
    else if b == [] then false
    else if a[0] != b[0] then a[0] < b[0]
    else StrLess(a[1..], b[1..])
  }

  lemma {:induction false} StrLessIrreflexive(a: string)
    ensures !StrLess(a, a)
    decreases |a|
  {
    if a != [] { StrLessIrreflexive(a[1..]); }
  }

  lemma {:induction false} StrLessTransitive(a: string, b: string, c: string)
    requires StrLess(a, b) && StrLess(b, c)
    ensures StrLess(a, c)
    decreases |a|
  {
    if a != [] && b != [] && c != [] && a[0] == b[0] && b[0] == c[0] {
      StrLessTransitive(a[1..], b[1..], c[1..]);
    }
  }

  /** Two different strings are ordered one way or the other. */
  lemma {:induction false} StrLessTotal(a: string, b: string)
    requires a != b
    ensures StrLess(a, b) || StrLess(b, a)
    decreases |a|
  {
    if a != [] && b != [] && a[0] == b[0] {
      assert a == [a[0]] + a[1..] && b == [b[0]] + b[1..];
      StrLessTotal(a[1..], b[1..]);
    }
  }

  // ---------------------------------------------------------------------
  // Whitespace

  predicate AllSpace(s: string) { forall i :: 0 <= i < |s| ==> IsSpace(s[i]) }

  /** `s.lstrip()`. */
  function LStrip(s: string): (r: string)
    ensures |r| <= |s| && r == s[|s| - |r|..]
    ensures AllSpace(s[..|s| - |r|])
    ensures r == [] || !IsSpace(r[0])
  {
    if s != [] && IsSpace(s[0]) then LStrip(s[1..]) else s
  }

  /** `s.rstrip()`. */
  function RStrip(s: string): (r: string)
    ensures |r| <= |s| && r == s[..|r|]
    ensures AllSpace(s[|r|..])
    ensures r == [] || !IsSpace(r[|r| - 1])
  {
    if s != [] && IsSpace(s[|s| - 1]) then
      var r := RStrip(s[..|s| - 1]);
      assert s[|r|..] == s[..|s| - 1][|r|..] + [s[|s| - 1]];
      r
    else s
  }

  /** `s.strip()`: the longest infix without surrounding whitespace. */
  function Strip(s: string): (r: string)
    ensures r == [] || (!IsSpace(r[0]) && !IsSpace(r[|r| - 1]))
    ensures |r| <= |s|
  {
    RStrip(LStrip(s))
  }

  /** Leading whitespace never reaches the stripped value. */
  lemma {:induction false} LStripSkipsSpace(a: string, t: string)
    requires AllSpace(a)
    ensures LStrip(a + t) == LStrip(t)
  {
    if a != [] {
      assert IsSpace(a[0]) && (a + t)[0] == a[0];
      assert (a + t)[1..] == a[1..] + t;
      assert LStrip(a + t) == LStrip(a[1..] + t);
      LStripSkipsSpace(a[1..], t);
    } else {
      assert a + t == t;
    }
  }

  lemma StripSkipsSpace(a: string, t: string)
    requires AllSpace(a)
    ensures Strip(a + t) == Strip(t)
  {
    LStripSkipsSpace(a, t);
  }

  /** Text with no surrounding whitespace is its own `strip()`. */
  lemma StripFixed(s: string)
    requires s == [] || (!IsSpace(s[0]) && !IsSpace(s[|s| - 1]))
    ensures Strip(s) == s
  {
  }

  /** `strip()` is idempotent. */
  lemma StripIdempotent(s: string)
    ensures Strip(Strip(s)) == Strip(s)
  {
    StripFixed(Strip(s));
  }

  /** Drops `[ \t]*` from the front, as a greedy regex run does. */
  function SkipBlanks(s: string): (r: string)
    ensures |r| <= |s| && r == s[|s| - |r|..]
    ensures forall i :: 0 <= i < |s| - |r| ==> IsBlank(s[i])
    ensures r == [] || !IsBlank(r[0])
  {
    if s != [] && IsBlank(s[0]) then
      var r := SkipBlanks(s[1..]);
      assert forall i :: 1 <= i < |s| - |r| ==> s[i] == s[1..][i - 1];
      r
    else s
  }

  // ---------------------------------------------------------------------
  // Searching and splitting

  /** Index of the first occurrence of `c` (a character of a text, an item of a list), or `|s|` when there is none. */
  function IndexOf<T(==)>(s: seq<T>, c: T): (i: nat)
    ensures i <= |s|
    ensures i < |s| ==> s[i] == c
    ensures forall j :: 0 <= j < i ==> s[j] != c
  {
    if s == [] then 0 else if s[0] == c then 0 else 1 + IndexOf(s[1..], c)
  }

  predicate StartsWith(s: string, prefix: string) { |prefix| <= |s| && s[..|prefix|] == prefix }

  predicate EndsWith(s: string, suffix: string) { |suffix| <= |s| && s[|s| - |suffix|..] == suffix }


  /** Index of the first occurrence of `needle` (`str.find`), or `|s|` when there is none. */
  function Find(s: string, needle: string): (i: nat)
    requires needle != []
    ensures i <= |s|
    ensures i < |s| ==> StartsWith(s[i..], needle)
    ensures forall j :: 0 <= j < i ==> !StartsWith(s[j..], needle)
    decreases |s|
  {
    if s == [] then 0
    else if StartsWith(s, needle) then 0
    else
      var k := Find(s[1..], needle);
      assert forall j :: 1 <= j <= k ==> s[j..] == s[1..][j - 1..];
      1 + k
  }

  /** Python's `needle in s` for a non-empty needle. */
  predicate Contains(s: string, needle: string)
    requires needle != []
  {
    Find(s, needle) < |s|
  }

  /** A needle whose first character does not occur is not found. */
  lemma FindAbsent(s: string, needle: string)
    requires needle != [] && needle[0] !in s
    ensures Find(s, needle) == |s|
  {
    forall j | 0 <= j < |s| ensures !StartsWith(s[j..], needle) {
      assert s[j..][0] == s[j] && s[j] in s;
    }
  }

  /** `s.split(sep)[0]` for a non-empty separator: what comes before its first occurrence. */
  function BeforeFirst(s: string, sep: string): (r: string)
    requires sep != []
    ensures |r| <= |s| && r == s[..|r|]
    ensures |r| < |s| ==> StartsWith(s[|r|..], sep)
  {
    s[..Find(s, sep)]
  }

  /** `s.split(sep)` for a one-character separator; always at least one part. */
  function Split(s: string, sep: char): (parts: seq<string>)
    ensures |parts| >= 1
    ensures forall k :: 0 <= k < |parts| ==> sep !in parts[k]
    decreases |s|
  {
    var i := IndexOf(s, sep);
    if i == |s| then [s] else [s[..i]] + Split(s[i + 1..], sep)
  }

  /** `sep.join(parts)`. */
  function Join(parts: seq<string>, sep: char): string {
    if parts == [] then "" else if |parts| == 1 then parts[0] else parts[0] + [sep] + Join(parts[1..], sep)
  }

  /** Joining what was split on the same character gives the text back. */
  lemma {:induction false} JoinSplit(s: string, sep: char)
    ensures Join(Split(s, sep), sep) == s
    decreases |s|
  {
    var i := IndexOf(s, sep);
    if i < |s| {
      var p := Split(s[i + 1..], sep);
      assert Split(s, sep) == [s[..i]] + p;
      JoinSplit(s[i + 1..], sep);
      JoinCons(s[..i], p, sep);
      assert s[i] == sep;
      SplitAround(s, i);
    } else {
      assert Split(s, sep) == [s];
    }
  }

  /** Concatenation regroups freely. */
  lemma AppendAssoc<T>(a: seq<T>, b: seq<T>, c: seq<T>)
    ensures a + (b + c) == (a + b) + c
  {
  }

  lemma SplitAround<T>(s: seq<T>, i: nat)
    requires i < |s|
    ensures s[..i] + [s[i]] + s[i + 1..] == s
  {
  }

  lemma JoinCons(a: string, p: seq<string>, sep: char)
    requires p != []
    ensures Join([a] + p, sep) == a + [sep] + Join(p, sep)
  {
    assert ([a] + p)[1..] == p;
  }

  /** The parts of a text that does not contain the separator. */
  lemma SplitWithoutSeparator(s: string, sep: char)
    requires sep !in s
    ensures Split(s, sep) == [s]
  {
    assert IndexOf(s, sep) == |s|;
  }

  /** Splitting `a + sep + b` where `a` holds no separator. */
  lemma SplitAtFirst(a: string, b: string, sep: char)
    requires sep !in a
    ensures Split(a + [sep] + b, sep) == [a] + Split(b, sep)
  {
    var s := a + [sep] + b;
    assert s[|a|] == sep;
    assert forall j :: 0 <= j < |a| ==> s[j] == a[j];
    assert IndexOf(s, sep) == |a|;
    assert s[..|a|] == a && s[|a| + 1..] == b;
  }

  /** `s.rstrip('/')`. */
  function RStripSlash(s: string): (r: string)
    ensures |r| <= |s| && r == s[..|r|]
    ensures r == [] || r[|r| - 1] != '/'
    ensures forall i :: |r| <= i < |s| ==> s[i] == '/'
  {
    if s != [] && s[|s| - 1] == '/' then RStripSlash(s[..|s| - 1]) else s
  }

  /** Stripping trailing slashes never reaches into a part that ends in something else. */
  lemma {:induction false} RStripSlashAppend(a: string, b: string)
    requires a != [] && a[|a| - 1] != '/'
    ensures RStripSlash(a + b) == a + RStripSlash(b)
    decreases |b|
  {
    if b == [] {
      assert a + b == a;
    } else if b[|b| - 1] == '/' {
      assert (a + b)[..|a + b| - 1] == a + b[..|b| - 1];
      RStripSlashAppend(a, b[..|b| - 1]);
    }
  }

  /** A text that ends in the separator splits into parts the last of which is empty. */
  lemma {:induction false} SplitTrailingSeparator(s: string, sep: char)
    requires s != [] && s[|s| - 1] == sep
    ensures Split(s, sep)[|Split(s, sep)| - 1] == []
    decreases |s|
  {
    var i := IndexOf(s, sep);
    var t := s[i + 1..];
    if t != [] {
      assert t[|t| - 1] == sep;
      SplitTrailingSeparator(t, sep);
    }
  }

  /** The images under `f` of the elements `keep` accepts, in order: a loop that appends `f(x)` for each kept `x`. */
  function FilterMap<A, B>(xs: seq<A>, keep: A -> bool, f: A -> B): (r: seq<B>)
    ensures |r| <= |xs|
  {
    if xs == [] then []
    else FilterMap(xs[..|xs| - 1], keep, f) + (if keep(xs[|xs| - 1]) then [f(xs[|xs| - 1])] else [])
  }

  /** Every kept element contributes its image, and nothing else appears. */
  lemma {:induction false} FilterMapMembers<A, B>(xs: seq<A>, keep: A -> bool, f: A -> B, y: B)
    ensures y in FilterMap(xs, keep, f) <==> exists x :: x in xs && keep(x) && y == f(x)
  {
    if xs != [] {
      var front, last := xs[..|xs| - 1], xs[|xs| - 1];
      assert xs == front + [last];
      FilterMapMembers(front, keep, f, y);
      if y in FilterMap(xs, keep, f) && y !in FilterMap(front, keep, f) {
        assert keep(last) && y == f(last);
      }
      if exists x :: x in xs && keep(x) && y == f(x) {
        var x :| x in xs && keep(x) && y == f(x);
        if x != last {
          assert x in front;
        }
      }
    }
  }

  /** Putting one element in front puts its image in front when it is kept. */
  lemma {:induction false} FilterMapCons<A, B>(x: A, xs: seq<A>, keep: A -> bool, f: A -> B)
    ensures FilterMap([x] + xs, keep, f) == (if keep(x) then [f(x)] else []) + FilterMap(xs, keep, f)
  {
    if xs != [] {
      var front, last := xs[..|xs| - 1], xs[|xs| - 1];
      FilterMapCons(x, front, keep, f);
      assert ([x] + xs)[..|xs|] == [x] + front;
      assert ([x] + xs)[|xs|] == last;
    }
  }

  /** The identity: a filter that keeps elements unchanged. */
  function Identity<T>(x: T): T { x }

  /** Appending one element appends its image when it is kept. */
  lemma FilterMapSnoc<A, B>(xs: seq<A>, x: A, keep: A -> bool, f: A -> B)
    ensures FilterMap(xs + [x], keep, f) == FilterMap(xs, keep, f) + (if keep(x) then [f(x)] else [])
  {
    assert (xs + [x])[..|xs|] == xs;
  }

  /** One more element of a prefix: the loop step of a filter-and-map. */
  lemma FilterMapStep<A, B>(xs: seq<A>, i: nat, keep: A -> bool, f: A -> B)
    requires i < |xs|
    ensures FilterMap(xs[..i + 1], keep, f) == FilterMap(xs[..i], keep, f) + (if keep(xs[i]) then [f(xs[i])] else [])
  {
    assert xs[..i + 1][..i] == xs[..i];
  }

  /** `[f(x) for x in xs]`. */
  function Map<A, B>(xs: seq<A>, f: A -> B): (r: seq<B>)
    ensures |r| == |xs|
    ensures forall i :: 0 <= i < |xs| ==> r[i] == f(xs[i])
  {
    if xs == [] then [] else [f(xs[0])] + Map(xs[1..], f)
  }

  /** Where an image in a map comes from. */
  lemma MapMember<A, B>(xs: seq<A>, f: A -> B, y: B) returns (q: nat)
    requires y in Map(xs, f)
    ensures q < |xs| && f(xs[q]) == y
  {
    var r := Map(xs, f);
    q :| q < |r| && r[q] == y;
  }

  /** One more element of a prefix: the loop step of a map. */
  lemma MapStep<A, B>(xs: seq<A>, i: nat, f: A -> B)
    requires i < |xs|
    ensures Map(xs[..i + 1], f) == Map(xs[..i], f) + [f(xs[i])]
  {
    assert xs[..i + 1] == xs[..i] + [xs[i]];
    MapAppend(xs[..i], [xs[i]], f);
    MapSingle(xs[i], f);
  }

  lemma MapAppend<A, B>(a: seq<A>, b: seq<A>, f: A -> B)
    ensures Map(a + b, f) == Map(a, f) + Map(b, f)
  {
  }

  lemma MultisetRemove<A>(b: seq<A>, j: nat)
    requires j < |b|
    ensures multiset(b[..j] + b[j + 1..]) == multiset(b) - multiset{b[j]}
  {
    assert b == b[..j] + [b[j]] + b[j + 1..];
  }

  /** The images of a sequence, cut around one position. */
  lemma MapAround<A, B>(b: seq<A>, j: nat, f: A -> B)
    requires j < |b|
    ensures Map(b, f) == Map(b[..j], f) + [f(b[j])] + Map(b[j + 1..], f)
  {
    var front, x, back := b[..j], b[j], b[j + 1..];
    SplitAround(b, j);
    assert Map(b, f) == Map(front + [x] + back, f);
    MapAppend(front + [x], back, f);
    MapAppend(front, [x], f);
    MapSingle(x, f);
  }

  lemma MapSingle<A, B>(x: A, f: A -> B)
    ensures Map([x], f) == [f(x)]
  {
    assert [x][1..] == [];
  }

  /** Removing one element removes its image from the images' multiset. */
  lemma MapMultisetRemove<A, B>(b: seq<A>, j: nat, f: A -> B)
    requires j < |b|
    ensures multiset(Map(b[..j] + b[j + 1..], f)) == multiset(Map(b, f)) - multiset{f(b[j])}
    ensures f(b[j]) in multiset(Map(b, f))
  {
    MapAppend(b[..j], b[j + 1..], f);
    MapAround(b, j, f);
  }

  /** Matching the first element of `a` with an equal element of `b` leaves equal rests. */
  lemma MultisetRests<A>(a: seq<A>, b: seq<A>, j: nat)
    requires multiset(a) == multiset(b) && a != [] && j < |b| && b[j] == a[0]
    ensures multiset(a[1..]) == multiset(b[..j] + b[j + 1..])
  {
    MultisetRemove(b, j);
    assert a == [a[0]] + a[1..];
  }

  /** Some position of `b` holds each element of its multiset. */
  lemma PositionOf<A>(b: seq<A>, x: A) returns (j: nat)
    requires x in multiset(b)
    ensures j < |b| && b[j] == x
  {
    assert x in b;
    j :| 0 <= j < |b| && b[j] == x;
  }

  /** The images' multiset of a non-empty sequence: the first image and those of the rest. */
  lemma MapConsMultiset<A, B>(a: seq<A>, f: A -> B)
    requires a != []
    ensures multiset(Map(a, f)) == multiset{f(a[0])} + multiset(Map(a[1..], f))
  {
    assert Map(a, f) == [f(a[0])] + Map(a[1..], f);
  }

  /** Taking one occurrence out of a multiset and putting it back gives the multiset. */
  lemma AddBack<B>(m: multiset<B>, y: B)
    requires y in m
    ensures multiset{y} + (m - multiset{y}) == m
  {
  }

  /** Reordering a sequence reorders its images the same way. */
  lemma {:induction false} MapMultiset<A, B>(a: seq<A>, b: seq<A>, f: A -> B)
    requires multiset(a) == multiset(b)
    ensures multiset(Map(a, f)) == multiset(Map(b, f))
  {
    if a == [] {
      assert |b| == |multiset(b)| == 0;
    } else {
      var j := PositionOf(b, a[0]);
      var rest := b[..j] + b[j + 1..];
      MultisetRests(a, b, j);
      MapMultiset(a[1..], rest, f);
      MapMultisetRemove(b, j, f);
      MapConsMultiset(a, f);
      AddBack(multiset(Map(b, f)), f(b[j]));
    }
  }

  /** The number of elements `keep` accepts. */
  function Count<A>(xs: seq<A>, keep: A -> bool): (n: nat)
    ensures n <= |xs|
  {
    if xs == [] then 0 else Count(xs[..|xs| - 1], keep) + (if keep(xs[|xs| - 1]) then 1 else 0)
  }

  /** One more element of a prefix: the loop step of a count. */
  lemma CountStep<A>(xs: seq<A>, i: nat, keep: A -> bool)
    requires i < |xs|
    ensures Count(xs[..i + 1], keep) == Count(xs[..i], keep) + (if keep(xs[i]) then 1 else 0)
  {
    assert xs[..i + 1][..i] == xs[..i];
  }

  /** The elements that are kept and whose image is `y`. */
  function KeptAs<A, B(==)>(keep: A -> bool, f: A -> B, y: B): A -> bool {
    (x: A) => keep(x) && f(x) == y
  }

  /** `y` occurs in a filter-map as often as there are kept elements with image `y`. */
  lemma {:induction false} FilterMapMultiplicity<A, B>(xs: seq<A>, keep: A -> bool, f: A -> B, y: B)
    ensures multiset(FilterMap(xs, keep, f))[y] == Count(xs, KeptAs(keep, f, y))
  {
    if xs != [] {
      FilterMapMultiplicity(xs[..|xs| - 1], keep, f, y);
    }
  }

  /** Counting with two tests that agree on every element gives the same number. */
  lemma {:induction false} CountSame<A>(xs: seq<A>, p: A -> bool, q: A -> bool)
    requires forall i :: 0 <= i < |xs| ==> p(xs[i]) == q(xs[i])
    ensures Count(xs, p) == Count(xs, q)
  {
    if xs != [] {
      CountSame(xs[..|xs| - 1], p, q);
    }
  }

  /** Nothing is counted when no element passes the test. */
  lemma {:induction false} CountNone<A>(xs: seq<A>, keep: A -> bool)
    requires forall i :: 0 <= i < |xs| ==> !keep(xs[i])
    ensures Count(xs, keep) == 0
  {
    if xs != [] {
      CountNone(xs[..|xs| - 1], keep);
    }
  }

  lemma FilterMapCount<A, B>(xs: seq<A>, keep: A -> bool, f: A -> B)
    ensures |FilterMap(xs, keep, f)| == Count(xs, keep)
  {
  }

  // ---------------------------------------------------------------------
  // Decimal numbers

  function DigitValue(c: char): nat requires IsDigit(c) { c as int - '0' as int }

  predicate AllDigits(s: string) { forall i :: 0 <= i < |s| ==> IsDigit(s[i]) }

  /** `int(s)` for a string of ASCII digits. */
  function DigitsValue(s: string): nat
    requires AllDigits(s)
  {
    if s == [] then 0 else DigitsValue(s[..|s| - 1]) * 10 + DigitValue(s[|s| - 1])
  }

  /** `str(n)` for a natural number. */
  function NatToString(n: nat): (s: string)
    ensures s != [] && AllDigits(s)
    ensures DigitsValue(s) == n
    ensures 1 <= n <= 9 ==> |s| == 1
  {
    if n < 10 then [('0' as int + n) as char]
    else
      var s := NatToString(n / 10) + [('0' as int + n % 10) as char];
      assert s[..|s| - 1] == NatToString(n / 10);
      s
  }

  /** `str(n)` for any integer. */
  function IntToString(n: int): (s: string)
    ensures s != []
  {
    if n < 0 then "-" + NatToString(-n) else NatToString(n)
  }

  // ---------------------------------------------------------------------
  // Paths (`ntpath`)

  predicate IsSep(c: char) { c == '/' || c == '\\' }

  /** Index just past the last path separator; 0 when there is none. */
  function NameStart(p: string): (k: nat)
    ensures k <= |p|
    ensures k > 0 ==> IsSep(p[k - 1])
    ensures forall i :: k <= i < |p| ==> !IsSep(p[i])
  {
    if p == [] then 0 else if IsSep(p[|p| - 1]) then |p| else NameStart(p[..|p| - 1])
  }

  /** `os.path.basename`: the part after the last separator, once a drive such as `C:` is removed. */
  function Basename(p: string): (b: string)
    ensures forall i :: 0 <= i < |b| ==> !IsSep(b[i])
    ensures |b| <= |p| && b == p[|p| - |b|..]
    ensures (forall i :: 0 <= i < |p| ==> !IsSep(p[i])) && !(|p| >= 2 && p[1] == ':') ==> b == p
  {
    var q := if |p| >= 2 && !IsSep(p[0]) && p[1] == ':' then p[2..] else p;
    q[NameStart(q)..]
  }

  /** Index of the last `.` in `s`, or -1. */
  function LastDot(s: string): (d: int)
    ensures -1 <= d < |s|
    ensures d >= 0 ==> s[d] == '.'
    ensures forall i :: d < i < |s| ==> s[i] != '.'
  {
    if s == [] then -1 else if s[|s| - 1] == '.' then |s| - 1 else LastDot(s[..|s| - 1])
  }

  /** The extension of a file name that has no separator: from its last dot, provided
      something other than a dot comes before that dot (so `.profile` has none). */
  function NameExt(name: string): (e: string)
    ensures e == [] || (|e| < |name| && e[0] == '.' && e == name[|name| - |e|..])
    ensures forall i :: 1 <= i < |e| ==> e[i] != '.'
  {
    var d := LastDot(name);
    if d > 0 && !(forall i :: 0 <= i < d ==> name[i] == '.') then name[d..] else ""
  }

  /** `os.path.splitext(p)[1]`. */
  function Ext(p: string): (e: string)
    ensures e == [] || (|e| <= |p| && e[0] == '.' && e == p[|p| - |e|..])
    ensures forall i :: 0 <= i < |e| ==> !IsSep(e[i])
  {
    NameExt(p[NameStart(p)..])
  }

  /** Text in front of a name that has a dot does not move which dot is the last. */
  lemma {:induction false} LastDotAppend(a: string, b: string)
    requires LastDot(b) >= 0
    ensures LastDot(a + b) == |a| + LastDot(b)
    decreases |b|
  {
    if b[|b| - 1] != '.' {
      assert (a + b)[..|a + b| - 1] == a + b[..|b| - 1];
      LastDotAppend(a, b[..|b| - 1]);
    }
  }

  /** A path without separators is its own name. */
  lemma NoSeparatorName(p: string)
    requires forall i :: 0 <= i < |p| ==> !IsSep(p[i])
    ensures NameStart(p) == 0 && Ext(p) == NameExt(p)
  {
  }

  /** Putting text without separators in front of a name keeps the name's extension,
      when the name has one. */
  lemma ExtAfterPrefix(a: string, name: string)
    requires forall i :: 0 <= i < |a| ==> !IsSep(a[i])
    requires forall i :: 0 <= i < |name| ==> !IsSep(name[i])
    requires Ext(name) != []
    ensures Ext(a + name) == Ext(name)
  {
    NoSeparatorName(name);
    NoSepAppend(a, name);
    NoSeparatorName(a + name);
    NameExtAppend(a, name);
  }

  /** Text in front of a name with an extension leaves that extension alone. */
  lemma NameExtAppend(a: string, name: string)
    requires NameExt(name) != []
    ensures NameExt(a + name) == NameExt(name)
  {
    var d := LastDot(name);
    assert exists j :: 0 <= j < d && name[j] != '.';
    var j :| 0 <= j < d && name[j] != '.';
    var p := a + name;
    LastDotAppend(a, name);
    assert p[|a| + j] == name[j];
    NameExtAt(p, |a| + d, |a| + j);
    DropAppend(a, name, d);
  }

  /** Dropping past the front part of a concatenation drops into the back part. */
  lemma DropAppend<T>(a: seq<T>, b: seq<T>, k: nat)
    requires k <= |b|
    ensures (a + b)[|a| + k..] == b[k..]
  {
  }

  /** Joining two texts without separators gives a text without separators. */
  lemma NoSepAppend(a: string, b: string)
    requires forall i :: 0 <= i < |a| ==> !IsSep(a[i])
    requires forall i :: 0 <= i < |b| ==> !IsSep(b[i])
    ensures forall i :: 0 <= i < |a + b| ==> !IsSep((a + b)[i])
  {
    forall i | 0 <= i < |a + b| ensures !IsSep((a + b)[i]) {
      if i >= |a| {
        assert (a + b)[i] == b[i - |a|];
      }
    }
  }

  /** The extension of `stem + ext`, for a stem with no dot and an extension with one leading dot. */
  lemma ExtOfStemAndExt(stem: string, ext: string)
    requires stem != [] && '.' !in stem && forall i :: 0 <= i < |stem| ==> !IsSep(stem[i])
    requires |ext| >= 1 && ext[0] == '.' && '.' !in ext[1..] && forall i :: 0 <= i < |ext| ==> !IsSep(ext[i])
    ensures Ext(stem + ext) == ext
  {
    var p := stem + ext;
    NoSeparatorName(p);
    assert LastDot(ext) == 0 by {
      assert forall i :: 0 < i < |ext| ==> ext[i] == ext[1..][i - 1];
    }
    LastDotAppend(stem, ext);
    assert p[0] == stem[0] && stem[0] != '.';
    NameExtAt(p, |stem|, 0);
    assert p[|stem|..] == ext;
  }

  /** A name whose last dot has something other than a dot before it has its extension from that dot. */
  lemma NameExtAt(name: string, d: nat, j: nat)
    requires LastDot(name) == d && j < d && name[j] != '.'
    ensures NameExt(name) == name[d..]
  {
  }

  /** `os.path.splitext(p)[1].lower()`, the form in which every extension is compared. */
  function LowerExt(path: string): string { Lower(Ext(path)) }

  /** `os.path.join(dir, name)` for a plain name (one with no separator and no drive). */
  function JoinPath(dir: string, name: string): (p: string)
    ensures EndsWith(p, name)
  {
    if dir == [] || IsSep(dir[|dir| - 1]) then dir + name else dir + "\\" + name
  }

  /** The five script types the application knows, as lower-cased extensions. */
  predicate IsScriptExt(ext: string) { ext in [".ps1", ".py", ".bat", ".cmd", ".exe"] }

  /** `os.path.splitext(p)[0]`. */
  function Root(p: string): (r: string)
    ensures r + Ext(p) == p
  {
    p[..|p| - |Ext(p)|]
  }

  // ---------------------------------------------------------------------
  // Reading text files

  /** What `open(path, 'r').read()` yields: text mode turns `\r\n` and a lone `\r` into `\n`. */
  function TranslateNewlines(s: string): (r: string)
    ensures '\r' !in r
    ensures |r| <= |s|
  {
    if s == [] then ""
    else if s[0] == '\r' then
      if |s| > 1 && s[1] == '\n' then "\n" + TranslateNewlines(s[2..]) else "\n" + TranslateNewlines(s[1..])
    else [s[0]] + TranslateNewlines(s[1..])
  }

  /** Text that holds no carriage return is read back unchanged, also in front of anything else. */
  lemma {:induction false} TranslateKeepsPrefix(a: string, b: string)
    requires '\r' !in a
    ensures TranslateNewlines(a + b) == a + TranslateNewlines(b)
  {
    if a != [] {
      assert a[0] in a;
      assert (a + b)[0] == a[0] && (a + b)[1..] == a[1..] + b;
      assert TranslateNewlines(a + b) == [a[0]] + TranslateNewlines(a[1..] + b);
      TranslateKeepsPrefix(a[1..], b);
      assert a == [a[0]] + a[1..];
    } else {
      assert a + b == b;
    }
  }

  /** Taking past a prefix keeps the prefix whole. */
  lemma TakeAppend(a: string, b: string, n: nat)
    requires |a| <= n
    ensures Take(a + b, n) == a + Take(b, n - |a|)
  {
    if |a + b| > n {
      assert (a + b)[..n] == a + b[..n - |a|];
    }
  }

  /** `s[:n]` in Python (never fails). */
  function Take(s: string, n: nat): (r: string)
    ensures |r| == (if |s| < n then |s| else n)
    ensures r == s[..|r|]
  {
    if |s| <= n then s else s[..n]
  }
}
