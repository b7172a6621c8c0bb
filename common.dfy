/** Shared vocabulary of the model: optional values, order-preserving filters,
    a stable sort, the string helpers the UI relies on (trimming, ASCII case
    mapping, substring search, splitting on a separator) and the integer form of
    `Math.round` applied to a percentage. */
module Common {

  datatype Option<T> = None | Some(value: T) {
    function GetOr(default: T): T {
      match this
      case Some(v) => v
      case None => default
    }
  }

  // ---------------------------------------------------------------------------
  // Filtering and counting (Array.prototype.filter / a counting loop)
  // ---------------------------------------------------------------------------

  /** The elements of `s` that satisfy `p`, in their original order. */
  function Filter<T>(s: seq<T>, p: T -> bool): (r: seq<T>)
    ensures |r| <= |s|
    ensures forall x :: x in r ==> p(x)
  {
    if s == [] then []
    else Filter(s[..|s| - 1], p) + (if p(s[|s| - 1]) then [s[|s| - 1]] else [])
  }

  lemma {:induction false} FilterMembership<T>(s: seq<T>, p: T -> bool, x: T)
    ensures x in Filter(s, p) <==> x in s && p(x)
  {
    if s != [] {
      FilterMembership(s[..|s| - 1], p, x);
      assert s == s[..|s| - 1] + [s[|s| - 1]];
    }
  }

  /** Filtering keeps every occurrence of an accepted element and none of a
      rejected one: the result is a sub-multiset of the input. */
  lemma {:induction false} FilterMultiset<T>(s: seq<T>, p: T -> bool, x: T)
    ensures multiset(Filter(s, p))[x] == if p(x) then multiset(s)[x] else 0
  {
    if s != [] {
      FilterMultiset(s[..|s| - 1], p, x);
      assert s == s[..|s| - 1] + [s[|s| - 1]];
    }
  }

  /** Filtering distributes over concatenation, which is what makes it order
      preserving. */
  lemma {:induction false} FilterAppend<T>(s: seq<T>, t: seq<T>, p: T -> bool)
    ensures Filter(s + t, p) == Filter(s, p) + Filter(t, p)
    decreases |t|
  {
    if t == [] {
      assert s + t == s;
    } else {
      assert (s + t)[..|s + t| - 1] == s + t[..|t| - 1];
      FilterAppend(s, t[..|t| - 1], p);
    }
  }

  /** A filter that accepts every element returns its input unchanged. */
  lemma {:induction false} FilterAll<T>(s: seq<T>, p: T -> bool)
    requires forall x :: x in s ==> p(x)
    ensures Filter(s, p) == s
  {
    if s != [] {
      FilterAll(s[..|s| - 1], p);
      assert s == s[..|s| - 1] + [s[|s| - 1]];
    }
  }

  /** The number of elements of `s` that satisfy `p`. */
  function Count<T>(s: seq<T>, p: T -> bool): (n: nat)
    ensures n <= |s|
  {
    if s == [] then 0
    else Count(s[..|s| - 1], p) + (if p(s[|s| - 1]) then 1 else 0)
  }

  /** When every element passes, all are counted. */
  lemma {:induction false} CountAll<T>(s: seq<T>, p: T -> bool)
    requires forall x :: x in s ==> p(x)
    ensures Count(s, p) == |s|
  {
    if s != [] {
      CountAll(s[..|s| - 1], p);
    }
  }

  /** When no element passes, none is counted. */
  lemma {:induction false} CountNone<T>(s: seq<T>, p: T -> bool)
    requires forall x :: x in s ==> !p(x)
    ensures Count(s, p) == 0
  {
    if s != [] {
      CountNone(s[..|s| - 1], p);
    }
  }

  lemma {:induction false} CountIsFilterLength<T>(s: seq<T>, p: T -> bool)
    ensures Count(s, p) == |Filter(s, p)|
  {
    if s != [] {
      CountIsFilterLength(s[..|s| - 1], p);
    }
  }

  /** Two predicates that never hold together count at most the whole sequence. */
  lemma {:induction false} CountDisjoint<T>(s: seq<T>, p: T -> bool, q: T -> bool)
    requires forall x :: x in s ==> !(p(x) && q(x))
    ensures Count(s, p) + Count(s, q) <= |s|
  {
    if s != [] {
      CountDisjoint(s[..|s| - 1], p, q);
    }
  }

  // ---------------------------------------------------------------------------
  // A stable sort (Array.prototype.sort with a comparator is stable)
  // ---------------------------------------------------------------------------

  ghost predicate TotalPreorder<T(!new)>(leq: (T, T) -> bool) {
    (forall a, b :: leq(a, b) || leq(b, a)) &&
    (forall a, b, c :: leq(a, b) && leq(b, c) ==> leq(a, c))
  }

  ghost predicate SortedBy<T>(s: seq<T>, leq: (T, T) -> bool) {
    forall i, j :: 0 <= i < j < |s| ==> leq(s[i], s[j])
  }

  /** Inserts `x` before the first element it does not come after. */
  function Insert<T>(x: T, s: seq<T>, leq: (T, T) -> bool): (r: seq<T>)
    ensures multiset(r) == multiset(s) + multiset{x}
  {
    if s == [] then [x]
    else if leq(x, s[0]) then [x] + s
    else
      assert s == [s[0]] + s[1..];
      [s[0]] + Insert(x, s[1..], leq)
  }

  /** Insertion sort. An element is inserted in front of the elements that
      compare equal to it and come later in the input, so the sort is stable. */
  function SortBy<T>(s: seq<T>, leq: (T, T) -> bool): (r: seq<T>)
    ensures multiset(r) == multiset(s)
  {
    if s == [] then []
    else
      assert s == [s[0]] + s[1..];
      Insert(s[0], SortBy(s[1..], leq), leq)
  }

  /** A sorted sequence stays sorted under an element that comes before all
      of it. */
  lemma ConsSorted<T>(y: T, s: seq<T>, leq: (T, T) -> bool)
    requires SortedBy(s, leq)
    requires forall z :: z in s ==> leq(y, z)
    ensures SortedBy([y] + s, leq)
  {
    var r := [y] + s;
    forall i, j | 0 <= i < j < |r| ensures leq(r[i], r[j]) {
      assert r[j] == s[j - 1];
      if i > 0 {
        assert r[i] == s[i - 1];
      }
    }
  }

  lemma {:induction false} InsertSorted<T(!new)>(x: T, s: seq<T>, leq: (T, T) -> bool)
    requires TotalPreorder(leq)
    requires SortedBy(s, leq)
    ensures SortedBy(Insert(x, s, leq), leq)
  {
    if s == [] {
    } else if leq(x, s[0]) {
      forall z | z in s ensures leq(x, z) {
        var k :| 0 <= k < |s| && s[k] == z;
        assert k == 0 || leq(s[0], s[k]);
      }
      ConsSorted(x, s, leq);
    } else {
      var rest := Insert(x, s[1..], leq);
      InsertSorted(x, s[1..], leq);
      forall y | y in rest ensures leq(s[0], y) {
        assert y in multiset(rest);
        if y != x {
          assert y in s[1..];
          var k :| 0 <= k < |s[1..]| && s[1..][k] == y;
          assert s[k + 1] == y;
        }
      }
      ConsSorted(s[0], rest, leq);
    }
  }

  lemma {:induction false} SortBySorted<T(!new)>(s: seq<T>, leq: (T, T) -> bool)
    requires TotalPreorder(leq)
    ensures SortedBy(SortBy(s, leq), leq)
  {
    if s != [] {
      SortBySorted(s[1..], leq);
      InsertSorted(s[0], SortBy(s[1..], leq), leq);
    }
  }

  /** Filtering a sequence that starts with `a`. */
  lemma FilterCons<T>(a: T, t: seq<T>, p: T -> bool)
    ensures Filter([a] + t, p) == (if p(a) then [a] else []) + Filter(t, p)
  {
    assert Filter([a], p) == (if p(a) then [a] else []) by {
      assert [a][..0] == [];
    }
    FilterAppend([a], t, p);
  }

  /** Inserting `x` puts it among the elements of a class of mutually equal
      ones before those already there. `SortBy` inserts each head into its
      sorted tail, so the class keeps its input order. */
  lemma {:induction false} InsertFilter<T>(x: T, s: seq<T>, leq: (T, T) -> bool, p: T -> bool)
    requires forall a, b :: p(a) && p(b) ==> leq(a, b)
    ensures Filter(Insert(x, s, leq), p) == (if p(x) then [x] else []) + Filter(s, p)
  {
    if s == [] {
      FilterCons(x, [], p);
    } else if leq(x, s[0]) {
      FilterCons(x, s, p);
    } else {
      var rest := Insert(x, s[1..], leq);
      var px := if p(x) then [x] else [];
      var p0 := if p(s[0]) then [s[0]] else [];
      calc {
        Filter(Insert(x, s, leq), p);
        { assert Insert(x, s, leq) == [s[0]] + rest; }
        Filter([s[0]] + rest, p);
        { FilterCons(s[0], rest, p); }
        p0 + Filter(rest, p);
        { InsertFilter(x, s[1..], leq, p); }
        p0 + (px + Filter(s[1..], p));
        { assert p0 == [] || px == []; }
        px + (p0 + Filter(s[1..], p));
        { FilterCons(s[0], s[1..], p); assert s == [s[0]] + s[1..]; }
        px + Filter(s, p);
      }
    }
  }

  /** The sort is stable: elements that all compare equal to one another
      (those `p` picks out) come out in the order they went in. */
  lemma {:induction false} SortByStable<T>(s: seq<T>, leq: (T, T) -> bool, p: T -> bool)
    requires forall a, b :: p(a) && p(b) ==> leq(a, b)
    ensures Filter(SortBy(s, leq), p) == Filter(s, p)
  {
    if s != [] {
      var rest := SortBy(s[1..], leq);
      var p0 := if p(s[0]) then [s[0]] else [];
      calc {
        Filter(SortBy(s, leq), p);
        Filter(Insert(s[0], rest, leq), p);
        { InsertFilter(s[0], rest, leq, p); }
        p0 + Filter(rest, p);
        { SortByStable(s[1..], leq, p); }
        p0 + Filter(s[1..], p);
        { FilterCons(s[0], s[1..], p); assert s == [s[0]] + s[1..]; }
        Filter(s, p);
      }
    }
  }

  lemma SortByMembership<T>(s: seq<T>, leq: (T, T) -> bool, x: T)
    ensures x in SortBy(s, leq) <==> x in s
  {
    assert x in SortBy(s, leq) <==> x in multiset(SortBy(s, leq));
  }

  lemma SortedTail<T>(s: seq<T>, leq: (T, T) -> bool)
    requires s != [] && SortedBy(s, leq)
    ensures SortedBy(s[1..], leq)
    ensures forall y :: y in s[1..] ==> leq(s[0], y)
  {
    forall i, j | 0 <= i < j < |s| - 1 ensures leq(s[1..][i], s[1..][j]) {
      assert s[1..][i] == s[i + 1] && s[1..][j] == s[j + 1];
    }
  }

  lemma MultisetTail<T>(s: seq<T>)
    requires s != []
    ensures multiset(s[1..]) == multiset(s) - multiset{s[0]}
  {
    assert s == [s[0]] + s[1..];
  }

  lemma SortedHeads<T>(a: seq<T>, b: seq<T>, leq: (T, T) -> bool)
    requires forall x, y :: leq(x, y) && leq(y, x) ==> x == y
    requires a != [] && b != [] && SortedBy(a, leq) && SortedBy(b, leq)
    requires multiset(a) == multiset(b)
    ensures a[0] == b[0]
  {
    assert b[0] in multiset(a) && a[0] in multiset(b);
    var j :| 0 <= j < |a| && a[j] == b[0];
    var i :| 0 <= i < |b| && b[i] == a[0];
    if j != 0 && i != 0 {
      assert leq(a[0], a[j]) && leq(b[0], b[i]);
    }
  }

  /** Under an antisymmetric order there is only one sorted arrangement of a
      multiset of values. */
  lemma {:induction false} SortedUnique<T>(a: seq<T>, b: seq<T>, leq: (T, T) -> bool)
    requires forall x, y :: leq(x, y) && leq(y, x) ==> x == y
    requires SortedBy(a, leq) && SortedBy(b, leq)
    requires multiset(a) == multiset(b)
    ensures a == b
    decreases |a|
  {
    assert |a| == |multiset(a)| == |multiset(b)| == |b|;
    if a != [] {
      assert a[0] == b[0] by { SortedHeads(a, b, leq); }
      assert multiset(a[1..]) == multiset(b[1..]) by { MultisetTail(a); MultisetTail(b); }
      assert SortedBy(a[1..], leq) && SortedBy(b[1..], leq) by { SortedTail(a, leq); SortedTail(b, leq); }
      SortedUnique(a[1..], b[1..], leq);
      assert a == [a[0]] + a[1..] && b == [b[0]] + b[1..];
    }
  }

  // ---------------------------------------------------------------------------
  // Strings
  // ---------------------------------------------------------------------------

  /** The characters `String.prototype.trim` removes: the white space and
      line terminators of ECMAScript (tab, vertical tab, form feed, space,
      no-break space, the byte order mark, the space separators of Unicode,
      line feed, carriage return, and the line and paragraph separators). */
  predicate IsSpace(c: char) {
    c == '\t' || c == '\U{000B}' || c == '\U{000C}' || c == ' ' || c == '\U{00A0}' || c == '\U{FEFF}' ||
    c == '\U{1680}' || ('\U{2000}' <= c <= '\U{200A}') || c == '\U{202F}' || c == '\U{205F}' || c == '\U{3000}' ||
    c == '\n' || c == '\r' || c == '\U{2028}' || c == '\U{2029}'
  }

  predicate IsBlank(s: string) {
    forall i :: 0 <= i < |s| ==> IsSpace(s[i])
  }

  function TrimStart(s: string): (r: string)
    ensures |r| <= |s| && r == s[|s| - |r|..]
    ensures r != [] ==> !IsSpace(r[0])
    ensures IsBlank(s[..|s| - |r|])
  {
    if s != [] && IsSpace(s[0]) then TrimStart(s[1..]) else s
  }

  function TrimEnd(s: string): (r: string)
    ensures |r| <= |s| && r == s[..|r|]
    ensures r != [] ==> !IsSpace(r[|r| - 1])
    ensures IsBlank(s[|r|..])
  {
    if s != [] && IsSpace(s[|s| - 1]) then TrimEnd(s[..|s| - 1]) else s
  }

  /** `s.trim()`: `s` with its leading and trailing whitespace removed; it is a
      piece of `s`, and it is empty exactly when `s` is blank. */
  function Trim(s: string): (r: string)
    ensures r == [] || (!IsSpace(r[0]) && !IsSpace(r[|r| - 1]))
    ensures r == [] <==> IsBlank(s)
    ensures Contains(s, r)
  {
    TrimBlank(s);
    TrimPiece(s);
    TrimEnd(TrimStart(s))
  }

  lemma TrimPiece(s: string)
    ensures Contains(s, TrimEnd(TrimStart(s)))
  {
    var t := TrimStart(s);
    var r := TrimEnd(t);
    assert s[|s| - |t|..][..|r|] == r;
    assert OccursAt(s, r, |s| - |t|);
  }

  lemma TrimBlank(s: string)
    ensures TrimEnd(TrimStart(s)) == [] <==> IsBlank(s)
  {
    var t := TrimStart(s);
    var k := |s| - |t|;
    if IsBlank(s) {
      BlankTrimStart(s);
    }
    if TrimEnd(t) == [] {
      assert IsBlank(t) by { assert t[0..] == t; }
      BlankConcat(s[..k], t);
      assert s[..k] + t == s;
    }
  }

  lemma {:induction false} BlankTrimStart(s: string)
    requires IsBlank(s)
    ensures TrimStart(s) == []
  {
    if s != [] {
      BlankTrimStart(s[1..]);
    }
  }

  lemma BlankConcat(a: string, b: string)
    requires IsBlank(a) && IsBlank(b)
    ensures IsBlank(a + b)
  {
    forall i | 0 <= i < |a + b| ensures IsSpace((a + b)[i]) {
      if i >= |a| { assert (a + b)[i] == b[i - |a|]; }
    }
  }

  function LowerChar(c: char): char {
    if 'A' <= c <= 'Z' then (c as int + 32) as char else c
  }

  function UpperChar(c: char): char {
    if 'a' <= c <= 'z' then (c as int - 32) as char else c
  }

  /** `toLowerCase`, on the ASCII letters. */
  function Lower(s: string): (r: string)
    ensures |r| == |s|
    ensures forall i :: 0 <= i < |s| ==> r[i] == LowerChar(s[i])
  {
    if s == [] then [] else [LowerChar(s[0])] + Lower(s[1..])
  }

  /** `toUpperCase`, on the ASCII letters. */
  function Upper(s: string): (r: string)
    ensures |r| == |s|
    ensures forall i :: 0 <= i < |s| ==> r[i] == UpperChar(s[i])
  {
    if s == [] then [] else [UpperChar(s[0])] + Upper(s[1..])
  }

  lemma LowerIdempotent(s: string)
    ensures Lower(Lower(s)) == Lower(s)
  {
  }

  predicate OccursAt(hay: string, needle: string, i: nat) {
    i + |needle| <= |hay| && hay[i..i + |needle|] == needle
  }

  /** `hay.includes(needle)`. */
  predicate Contains(hay: string, needle: string) {
    exists i: nat | i <= |hay| :: OccursAt(hay, needle, i)
  }

  lemma ContainsEmpty(hay: string)
    ensures Contains(hay, "")
  {
    assert OccursAt(hay, "", 0);
  }

  lemma ContainsSelf(s: string)
    ensures Contains(s, s)
  {
    assert OccursAt(s, s, 0);
  }

  /** Lower-casing both sides keeps an occurrence where it was. */
  lemma LowerContains(hay: string, needle: string)
    requires Contains(hay, needle)
    ensures Contains(Lower(hay), Lower(needle))
  {
    var i: nat :| i <= |hay| && OccursAt(hay, needle, i);
    assert Lower(hay)[i..i + |needle|] == Lower(needle) by {
      forall k | 0 <= k < |needle| ensures Lower(hay)[i..i + |needle|][k] == Lower(needle)[k] {
        assert hay[i..i + |needle|][k] == needle[k];
      }
    }
    assert OccursAt(Lower(hay), Lower(needle), i);
  }

  /** Every occurrence of `from` replaced by `to` (`s.replace(/x/g, y)` for a
      one-character pattern). */
  function ReplaceChar(s: string, from: char, to: char): (r: string)
    ensures |r| == |s|
    ensures forall i :: 0 <= i < |s| ==> r[i] == if s[i] == from then to else s[i]
  {
    if s == [] then [] else [if s[0] == from then to else s[0]] + ReplaceChar(s[1..], from, to)
  }

  /** `s.split(sep)` for a one-character separator: always at least one piece. */
  function Split(s: string, sep: char): (r: seq<string>)
    ensures |r| >= 1
    ensures r[0] <= s && (s != [] && s[0] != sep ==> r[0] != [])
    ensures forall w :: w in r ==> sep !in w
  {
    if sep !in s then [s]
    else
      var i := IndexOf(s, sep);
      [s[..i]] + Split(s[i + 1..], sep)
  }

  function IndexOf(s: string, c: char): (i: nat)
    requires c in s
    ensures i < |s| && s[i] == c && c !in s[..i]
  {
    if s[0] == c then 0 else 1 + IndexOf(s[1..], c)
  }

  /** `words.join(sep)`. */
  function Join(words: seq<string>, sep: char): string
    requires |words| >= 1
  {
    if |words| == 1 then words[0] else words[0] + [sep] + Join(words[1..], sep)
  }

  /** Splitting and joining with the same separator gives back the input. */
  lemma {:induction false} JoinSplit(s: string, sep: char)
    ensures Join(Split(s, sep), sep) == s
    decreases |s|
  {
    if sep in s {
      var i := IndexOf(s, sep);
      var rest := s[i + 1..];
      var parts := Split(s, sep);
      assert parts == [s[..i]] + Split(rest, sep);
      assert parts[1..] == Split(rest, sep);
      JoinSplit(rest, sep);
      assert Join(parts, sep) == s[..i] + [sep] + rest;
      assert s == s[..i] + [sep] + rest;
    }
  }

  /** Code-unit lexicographic order: the order of the default
      `Array.prototype.sort` on strings, also standing in for `localeCompare`. */
  predicate StringLeq(a: string, b: string) {
    a == [] || (b != [] && (a[0] < b[0] || (a[0] == b[0] && StringLeq(a[1..], b[1..]))))
  }

  lemma {:induction false} StringLeqTotal(a: string, b: string)
    ensures StringLeq(a, b) || StringLeq(b, a)
  {
    if a != [] && b != [] && a[0] == b[0] {
      StringLeqTotal(a[1..], b[1..]);
    }
  }

  lemma {:induction false} StringLeqTransitive(a: string, b: string, c: string)
    requires StringLeq(a, b) && StringLeq(b, c)
    ensures StringLeq(a, c)
  {
    if a != [] && a[0] == b[0] && b[0] == c[0] {
      StringLeqTransitive(a[1..], b[1..], c[1..]);
    }
  }

  lemma {:induction false} StringLeqAntisymmetric(a: string, b: string)
    requires StringLeq(a, b) && StringLeq(b, a)
    ensures a == b
  {
    if a != [] {
      StringLeqAntisymmetric(a[1..], b[1..]);
      assert a == [a[0]] + a[1..] && b == [b[0]] + b[1..];
    }
  }

  lemma StringLeqIsTotalPreorder()
    ensures TotalPreorder(StringLeq)
  {
    forall a, b ensures StringLeq(a, b) || StringLeq(b, a) {
      StringLeqTotal(a, b);
    }
    forall a, b, c | StringLeq(a, b) && StringLeq(b, c) ensures StringLeq(a, c) {
      StringLeqTransitive(a, b, c);
    }
  }

  // ---------------------------------------------------------------------------
  // Percentages
  // ---------------------------------------------------------------------------

  /** `Math.round(part / whole * 100)`, computed exactly: the integer nearest to
      100 * part / whole, halves rounded up. */
  function RoundedPercent(part: nat, whole: nat): (r: nat)
    requires whole > 0
    ensures 2 * whole * r <= 200 * part + whole < 2 * whole * (r + 1)
  {
    DivBounds(200 * part + whole, 2 * whole);
    (200 * part + whole) / (2 * whole)
  }

  lemma DivBounds(a: nat, b: nat)
    requires b > 0
    ensures b * (a / b) <= a < b * (a / b + 1)
  {
  }

  /** A share of a whole is a percentage between 0 and 100; the whole gives
      exactly 100 and nothing gives exactly 0. */
  lemma RoundedPercentRange(part: nat, whole: nat)
    requires whole > 0 && part <= whole
    ensures RoundedPercent(part, whole) <= 100
    ensures part == whole ==> RoundedPercent(part, whole) == 100
    ensures part == 0 ==> RoundedPercent(part, whole) == 0
  {
    var r := RoundedPercent(part, whole);
    var w2 := 2 * whole;
    assert w2 * r <= 200 * part + whole < w2 * (r + 1);
    if r > 100 {
      MulMonotone(w2, 101, r);
    }
    if part == whole && r < 100 {
      MulMonotone(w2, r + 1, 100);
    }
    if part == 0 && r > 0 {
      MulMonotone(w2, 1, r);
    }
  }

  lemma MulMonotone(a: nat, b: int, c: int)
    requires b <= c
    ensures a * b <= a * c
  {
  }

  // ---------------------------------------------------------------------------
  // Initials (`name.split(" ").map(p => p[0]).slice(0, 2).join("").toUpperCase() || "?"`)
  // ---------------------------------------------------------------------------

  /** What `p[0]` contributes to the join: the first character of a word, and
      nothing for an empty word (`p[0]` is `undefined` there, which `join`
      writes as the empty string). */
  function FirstChar(w: string): (r: string)
    ensures |r| <= 1 && (r == [] <==> w == [])
  {
    if w == [] then [] else [w[0]]
  }

  /** The first characters of the words, joined. */
  function FirstChars(words: seq<string>): (r: string)
    ensures |r| <= |words|
  {
    if words == [] then [] else FirstChar(words[0]) + FirstChars(words[1..])
  }

  /** `slice(0, 2)`. */
  function FirstTwo<T>(s: seq<T>): (r: seq<T>)
    ensures |r| <= 2 && r <= s
    ensures |s| <= 2 ==> r == s
  {
    if |s| <= 2 then s else s[..2]
  }

  /** The avatar initials of a name: the upper-cased first characters of its
      first two space-separated words, or "?" when those give nothing. */
  function Initials(name: string): (r: string)
    ensures 1 <= |r| <= 2
  {
    var shown := Upper(FirstChars(FirstTwo(Split(name, ' '))));
    if shown == [] then "?" else shown
  }

  lemma SplitFirstWord(w: string, rest: string)
    requires ' ' !in w
    ensures Split(w + [' '] + rest, ' ') == [w] + Split(rest, ' ')
  {
    var s := w + [' '] + rest;
    assert s[|w|] == ' ';
    assert s[..|w|] == w;
    assert IndexOf(s, ' ') == |w|;
    assert s[|w| + 1..] == rest;
  }

  /** An empty name has no initials. */
  lemma InitialsEmpty()
    ensures Initials("") == "?"
  {
    assert Split("", ' ') == [""];
    assert FirstChars([""]) == "";
  }

  /** A one-word name gives its upper-cased first character. */
  lemma InitialsOneWord(w: string)
    requires w != [] && ' ' !in w
    ensures Initials(w) == [UpperChar(w[0])]
  {
    assert Split(w, ' ') == [w];
    assert FirstChars([w]) == FirstChar(w) + FirstChars([]);
  }

  /** A name whose first two words are not empty gives their upper-cased
      first characters, whatever follows. */
  lemma InitialsTwoWords(a: string, b: string, rest: string)
    requires a != [] && b != [] && ' ' !in a && ' ' !in b
    ensures Initials(a + [' '] + b + rest) == [UpperChar(a[0]), UpperChar(b[0])]
  {
    var second := Split(b + rest, ' ')[0];
    assert second != [] && second[0] == b[0] by {
      assert (b + rest)[0] == b[0];
    }
    assert a + [' '] + b + rest == a + [' '] + (b + rest);
    SplitFirstWord(a, b + rest);
    var two := FirstTwo(Split(a + [' '] + b + rest, ' '));
    assert two == [a, second];
    assert FirstChars([second]) == FirstChar(second) + FirstChars([]);
    assert FirstChars(two) == FirstChar(a) + FirstChars([second]);
  }

  // ---------------------------------------------------------------------------
  // Subsequences
  // ---------------------------------------------------------------------------

  /** `a` is `b` with some elements left out, the rest kept in order. */
  predicate Subsequence<T(==)>(a: seq<T>, b: seq<T>) {
    if a == [] then true
    else if b == [] then false
    else (a[|a| - 1] == b[|b| - 1] && Subsequence(a[..|a| - 1], b[..|b| - 1])) ||
         Subsequence(a, b[..|b| - 1])
  }

  /** A filter keeps the order of what it keeps. */
  lemma {:induction false} FilterSubsequence<T>(s: seq<T>, p: T -> bool)
    ensures Subsequence(Filter(s, p), s)
  {
    if s != [] {
      var init := s[..|s| - 1];
      FilterSubsequence(init, p);
      if p(s[|s| - 1]) {
        SubsequenceAppend(Filter(init, p), init, s[|s| - 1]);
        assert init + [s[|s| - 1]] == s;
      } else {
        SubsequenceExtend(Filter(init, p), init, s[|s| - 1]);
        assert init + [s[|s| - 1]] == s;
        assert Filter(s, p) == Filter(init, p);
      }
    }
  }

  lemma SubsequenceAppend<T>(a: seq<T>, b: seq<T>, x: T)
    requires Subsequence(a, b)
    ensures Subsequence(a + [x], b + [x])
  {
    assert (a + [x])[..|a|] == a;
    assert (b + [x])[..|b|] == b;
  }

  lemma SubsequenceExtend<T>(a: seq<T>, b: seq<T>, x: T)
    requires Subsequence(a, b)
    ensures Subsequence(a, b + [x])
  {
    assert (b + [x])[..|b|] == b;
  }
}
