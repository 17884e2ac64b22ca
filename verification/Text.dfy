/**
 Byte strings and the string operations of the source's standard library that the
 parsers and the redactor rely on. A byte is a `char` with a code below 256.
 */
module Text {

  datatype Option<+T> = None | Some(value: T)

  /** `pat` occurs in `s` at offset `i`. */
  predicate OccursAt(s: string, pat: string, i: int) {
    0 <= i && i + |pat| <= |s| && s[i..i + |pat|] == pat
  }

  /** `str::find` with a string pattern: the first occurrence. */
  function Find(s: string, pat: string): (r: Option<nat>)
    ensures r.None? ==> forall i: int :: !OccursAt(s, pat, i)
    ensures r.Some? ==> OccursAt(s, pat, r.value) && forall i: int :: i < r.value ==> !OccursAt(s, pat, i)
  {
    FindFrom(s, pat, 0)
  }

  function FindFrom(s: string, pat: string, from: nat): (r: Option<nat>)
    requires from <= |s|
    ensures r.None? ==> forall i: int :: from <= i ==> !OccursAt(s, pat, i)
    ensures r.Some? ==> from <= r.value && OccursAt(s, pat, r.value)
    ensures r.Some? ==> forall i: int :: from <= i < r.value ==> !OccursAt(s, pat, i)
    decreases |s| - from
  {
    if OccursAt(s, pat, from) then Some(from)
    else if from == |s| then None
    else FindFrom(s, pat, from + 1)
  }

  /** Each character of a pattern that occurs is there. */
  lemma FoundHolds(s: string, pat: string, k: nat)
    requires k < |pat|
    ensures Find(s, pat).Some? ==> pat[k] in s
  {
    match Find(s, pat)
    case None =>
    case Some(i) => assert s[i + k] == s[i..i + |pat|][k];
  }

  /** `str::find` with a set of characters. */
  function FindAny(s: string, chars: set<char>): (r: nat)
    ensures r <= |s|
    ensures forall i :: 0 <= i < r ==> s[i] !in chars
    ensures r < |s| ==> s[r] in chars
  {
    if s == [] || s[0] in chars then 0 else 1 + FindAny(s[1..], chars)
  }

  /** The split point `FindAny` reports is the only one there is. */
  lemma FindAnyAt(a: string, b: string, chars: set<char>)
    requires forall i :: 0 <= i < |a| ==> a[i] !in chars
    requires b == [] || b[0] in chars
    ensures FindAny(a + b, chars) == |a|
  {
    assert forall i :: 0 <= i < |a| ==> (a + b)[i] == a[i];
    assert b != [] ==> (a + b)[|a|] == b[0];
  }

  /** `str::split_once` with a character: cut at the first one. */
  function SplitOnce(s: string, c: char): (r: Option<(string, string)>)
    ensures r.None? <==> c !in s
    ensures r.Some? ==> s == r.value.0 + [c] + r.value.1 && c !in r.value.0
  {
    var i := FindAny(s, {c});
    if i == |s| then None
    else
      assert s == s[..i] + [c] + s[i + 1..];
      Some((s[..i], s[i + 1..]))
  }

  lemma SplitOnceAt(a: string, c: char, b: string)
    requires c !in a
    ensures SplitOnce(a + [c] + b, c) == Some((a, b))
  {
    var s := a + [c] + b;
    assert s[|a|] == c;
    var (x, y) := SplitOnce(s, c).value;
    FirstCut(a, b, x, y, c);
  }

  /** Cutting at the first `c` is unambiguous. */
  lemma FirstCut(a: string, b: string, x: string, y: string, c: char)
    requires a + [c] + b == x + [c] + y
    requires c !in a && c !in x
    ensures a == x && b == y
  {
    var s, t := a + [c] + b, x + [c] + y;
    assert s[|a|] == c && t[|x|] == c;
    assert forall i :: 0 <= i < |a| ==> s[i] == a[i];
    assert forall i :: 0 <= i < |x| ==> t[i] == x[i];
    assert |a| == |x|;
    assert a == s[..|a|] && x == t[..|x|];
    assert b == s[|a| + 1..] && y == t[|x| + 1..];
  }

  /** Cutting at the last `c` is unambiguous. */
  lemma LastCut(a: string, b: string, x: string, y: string, c: char)
    requires a + [c] + b == x + [c] + y
    requires c !in b && c !in y
    ensures a == x && b == y
  {
    var s, t := a + [c] + b, x + [c] + y;
    assert s[|a|] == c && t[|x|] == c;
    assert forall i :: |a| < i < |s| ==> s[i] == b[i - |a| - 1];
    assert forall i :: |x| < i < |t| ==> t[i] == y[i - |x| - 1];
    assert |a| == |x|;
    assert a == s[..|a|] && x == t[..|x|];
    assert b == s[|a| + 1..] && y == t[|x| + 1..];
  }

  /** `split` with a character: always at least one piece. */
  function Split(s: string, c: char): (r: seq<string>)
    ensures |r| > 0
    ensures forall p :: p in r ==> c !in p
    decreases |s|
  {
    match SplitOnce(s, c)
    case None => [s]
    case Some((a, b)) => [a] + Split(b, c)
  }

  lemma SplitCons(a: string, c: char, b: string)
    requires c !in a
    ensures Split(a + [c] + b, c) == [a] + Split(b, c)
  {
    SplitOnceAt(a, c, b);
  }

  function Join(parts: seq<string>, c: char): string {
    if parts == [] then []
    else if |parts| == 1 then parts[0]
    else parts[0] + [c] + Join(parts[1..], c)
  }

  lemma {:induction false} JoinSplit(s: string, c: char)
    ensures Join(Split(s, c), c) == s
    decreases |s|
  {
    match SplitOnce(s, c)
    case None =>
    case Some((a, b)) =>
      JoinSplit(b, c);
      assert Split(s, c)[1..] == Split(b, c);
  }

  lemma {:induction false} SplitJoin(parts: seq<string>, c: char)
    requires |parts| > 0
    requires forall p :: p in parts ==> c !in p
    ensures Split(Join(parts, c), c) == parts
  {
    if |parts| > 1 {
      var rest := Join(parts[1..], c);
      SplitJoin(parts[1..], c);
      SplitCons(parts[0], c, rest);
      assert Split(parts[0] + [c] + rest, c) == [parts[0]] + parts[1..] == parts;
    }
  }

  lemma JoinKeepsOut(parts: seq<string>, c: char, d: char)
    requires c != d
    requires forall p :: p in parts ==> d !in p
    ensures d !in Join(parts, c)
  {
    if |parts| > 1 {
      assert forall p :: p in parts[1..] ==> p in parts;
      JoinKeepsOut(parts[1..], c, d);
    }
  }

  predicate StartsWith(s: string, prefix: string) {
    |prefix| <= |s| && s[..|prefix|] == prefix
  }

  predicate EndsWith(s: string, suffix: string) {
    |suffix| <= |s| && s[|s| - |suffix|..] == suffix
  }

  /** `strip_prefix(..).unwrap_or(..)` */
  function StripPrefix(s: string, prefix: string): string {
    if StartsWith(s, prefix) then s[|prefix|..] else s
  }

  /** `strip_suffix(..).unwrap_or(..)` */
  function StripSuffix(s: string, suffix: string): string {
    if EndsWith(s, suffix) then s[..|s| - |suffix|] else s
  }

  lemma SuffixChar(s: string, suffix: string, k: nat)
    requires k < |suffix|
    ensures EndsWith(s, suffix) ==> s[|s| - |suffix| + k] == suffix[k]
  {
    if EndsWith(s, suffix) {
      assert s[|s| - |suffix|..][k] == suffix[k];
    }
  }

  lemma PrefixChar(s: string, prefix: string, k: nat)
    requires k < |prefix|
    ensures StartsWith(s, prefix) ==> s[k] == prefix[k]
  {
    if StartsWith(s, prefix) {
      assert s[..|prefix|][k] == prefix[k];
    }
  }

  lemma StripSuffixAt(a: string, suffix: string)
    ensures StripSuffix(a + suffix, suffix) == a
  {
    assert (a + suffix)[|a + suffix| - |suffix|..] == suffix;
    assert (a + suffix)[..|a|] == a;
  }

  lemma StripPrefixAt(prefix: string, a: string)
    ensures StartsWith(prefix + a, prefix)
    ensures StripPrefix(prefix + a, prefix) == a
  {
    assert (prefix + a)[..|prefix|] == prefix;
    assert (prefix + a)[|prefix|..] == a;
  }
}
