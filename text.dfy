/** String operations of Python's `str` used by the resource layer, on
    `seq<char>`. Letters are ASCII: `[A-Z]` in a regular expression and the
    upper-case letters that `str.lower` changes. */
module Text {
  import opened Wrappers

  predicate IsUpper(c: char) {
    'A' <= c <= 'Z'
  }

  /** `c.lower()` for an ASCII letter; every other character is kept. */
  function LowerChar(c: char): (r: char)
    ensures !IsUpper(r)
    ensures !IsUpper(c) ==> r == c
    ensures r == '-' <==> c == '-'
  {
    if IsUpper(c) then (c as int + 32) as char else c
  }

  /** `s.lower()` for a text whose letters are ASCII. */
  function Lower(s: string): (r: string)
    ensures |r| == |s|
  {
    if s == [] then [] else [LowerChar(s[0])] + Lower(s[1..])
  }

  /** Truthiness of an optional string: neither `None` nor `""`. */
  predicate Truthy(o: Option<string>) {
    o.Some? && o.value != ""
  }

  /** `f"{o}"` for an optional string: Python renders `None` as "None". */
  function Render(o: Option<string>): string {
    if o.Some? then o.value else "None"
  }

  predicate IsPrefix(p: string, s: string) {
    |p| <= |s| && s[..|p|] == p
  }

  predicate HasSuffix(s: string, suffix: string) {
    |suffix| <= |s| && s[|s| - |suffix|..] == suffix
  }

  /** `sub` occurs in `s` at index `j`. */
  predicate Occurs(s: string, sub: string, j: int) {
    0 <= j && j + |sub| <= |s| && s[j..j + |sub|] == sub
  }

  /** Python's `sub in s`. */
  predicate Contains(s: string, sub: string)
    decreases |s|
  {
    IsPrefix(sub, s) || (|s| > 0 && Contains(s[1..], sub))
  }

  /** An occurrence at any index makes `Contains` hold. */
  lemma {:induction false} OccursContains(s: string, sub: string, j: int)
    requires Occurs(s, sub, j)
    ensures Contains(s, sub)
    decreases j
  {
    if j > 0 {
      assert s[1..][j - 1..j - 1 + |sub|] == s[j..j + |sub|];
      OccursContains(s[1..], sub, j - 1);
    }
  }

  /** `Contains` is witnessed by an occurrence at some index. */
  lemma {:induction false} ContainsOccurs(s: string, sub: string) returns (j: int)
    requires Contains(s, sub)
    ensures Occurs(s, sub, j)
    decreases |s|
  {
    if IsPrefix(sub, s) {
      j := 0;
    } else {
      var k := ContainsOccurs(s[1..], sub);
      assert s[1..][k..k + |sub|] == s[k + 1..k + 1 + |sub|];
      j := k + 1;
    }
  }

  /** A text never contains anything longer than itself. */
  lemma ContainsLonger(s: string, sub: string)
    requires |s| < |sub|
    ensures !Contains(s, sub)
  {
    if Contains(s, sub) {
      var j := ContainsOccurs(s, sub);
      assert false;
    }
  }

  /** Index of the last `c` in `s` (Python's `s.rfind(c)`), -1 when absent. */
  function LastIndexOf(s: string, c: char): (r: int)
    ensures -1 <= r < |s|
    ensures r >= 0 ==> s[r] == c
    ensures forall j :: r < j < |s| ==> s[j] != c
  {
    if |s| == 0 then -1
    else if s[|s| - 1] == c then |s| - 1
    else LastIndexOf(s[..|s| - 1], c)
  }

  /** Start of the last piece of Python's `s.split(m)`: the scan has found no
      separator in `[start, p)` and the current piece starts at `start`.
      Separators are found left to right and do not overlap. */
  function SplitScan(s: string, m: string, start: nat, p: nat): (q: nat)
    requires |m| > 0 && start <= p <= |s|
    requires forall j :: start <= j < p ==> !Occurs(s, m, j)
    ensures start <= q <= |s|
    ensures q == start || (|m| <= q && Occurs(s, m, q - |m|))
    ensures forall j :: q <= j ==> !Occurs(s, m, j)
    decreases |s| - p
  {
    if p + |m| > |s| then start
    else if s[p..p + |m|] == m then SplitScan(s, m, p + |m|, p + |m|)
    else SplitScan(s, m, start, p + 1)
  }

  /** Python's `s.split(m)[-1]`. */
  function LastPiece(s: string, m: string): (r: string)
    requires |m| > 0
  {
    s[SplitScan(s, m, 0, 0)..]
  }

  /** The last piece of a split holds no separator. */
  lemma LastPieceHasNoSeparator(s: string, m: string)
    requires |m| > 0
    ensures !Contains(LastPiece(s, m), m)
  {
    var q := SplitScan(s, m, 0, 0);
    SuffixWithoutOccurrence(s, m, q);
  }

  lemma SuffixWithoutOccurrence(s: string, m: string, q: nat)
    requires q <= |s|
    requires forall j :: q <= j ==> !Occurs(s, m, j)
    ensures !Contains(s[q..], m)
  {
    if Contains(s[q..], m) {
      var j := ContainsOccurs(s[q..], m);
      assert s[q..][j..j + |m|] == s[q + j..q + j + |m|];
      assert Occurs(s, m, q + j);
      assert false;
    }
  }

  /** When `s` holds a separator, the last piece is what follows one. */
  lemma LastPieceFollowsSeparator(s: string, m: string) returns (q: nat)
    requires |m| > 0 && Contains(s, m)
    ensures |m| <= q <= |s| && Occurs(s, m, q - |m|) && LastPiece(s, m) == s[q..]
  {
    q := SplitScan(s, m, 0, 0);
    var j := ContainsOccurs(s, m);
    if q == 0 {
      assert false;
    }
  }

  /** Without a separator, the last piece is the whole text. */
  lemma LastPieceWithoutSeparator(s: string, m: string)
    requires |m| > 0 && !Contains(s, m)
    ensures LastPiece(s, m) == s
  {
    var q := SplitScan(s, m, 0, 0);
    if q != 0 {
      OccursContains(s, m, q - |m|);
      assert false;
    }
  }

  /** Python's `s.replace(pat, "")`: occurrences are removed left to right,
      without rescanning the text that results. */
  function RemoveAll(s: string, pat: string): (r: string)
    requires |pat| > 0
    ensures |r| <= |s|
    ensures !Contains(s, pat) ==> r == s
    decreases |s|
  {
    if |s| == 0 then ""
    else if IsPrefix(pat, s) then RemoveAll(s[|pat|..], pat)
    else [s[0]] + RemoveAll(s[1..], pat)
  }

  /** Python's `s.replace(a, b)` for single characters. */
  function ReplaceChar(s: string, a: char, b: char): (r: string)
    ensures |r| == |s|
    ensures forall i :: 0 <= i < |s| ==> r[i] == (if s[i] == a then b else s[i])
  {
    seq(|s|, i requires 0 <= i < |s| => if s[i] == a then b else s[i])
  }

  /** `s` with every `c` left out. */
  function RemoveChar(s: string, c: char): (r: string)
    ensures forall i :: 0 <= i < |r| ==> r[i] != c
  {
    if |s| == 0 then "" else (if s[0] == c then "" else [s[0]]) + RemoveChar(s[1..], c)
  }

  lemma {:induction false} RemoveCharConcat(a: string, b: string, c: char)
    ensures RemoveChar(a + b, c) == RemoveChar(a, c) + RemoveChar(b, c)
  {
    if |a| > 0 {
      assert (a + b)[1..] == a[1..] + b;
      RemoveCharConcat(a[1..], b, c);
    } else {
      assert a + b == b;
    }
  }

  /** Python's `sep.join(parts)`. */
  function Join(parts: seq<string>, sep: string): string {
    if |parts| == 0 then ""
    else if |parts| == 1 then parts[0]
    else Join(parts[..|parts| - 1], sep) + sep + parts[|parts| - 1]
  }

  /** Every part followed by `sep`: what a loop of `statement += part + sep`
      appends. */
  function Terminated(parts: seq<string>, sep: string): string {
    if |parts| == 0 then ""
    else Terminated(parts[..|parts| - 1], sep) + parts[|parts| - 1] + sep
  }

  /** One more part appends that part and its separator. */
  lemma TerminatedStep(parts: seq<string>, i: nat, sep: string)
    requires i < |parts|
    ensures Terminated(parts[..i + 1], sep) == Terminated(parts[..i], sep) + (parts[i] + sep)
  {
    assert parts[..i + 1][..i] == parts[..i];
    assert Terminated(parts[..i], sep) + parts[i] + sep == Terminated(parts[..i], sep) + (parts[i] + sep);
  }

  /** Dropping the separator after the last part of a terminated list leaves
      exactly the joined list: the slice `statement[:-len(sep)]` leaves no
      trailing separator. */
  lemma {:induction false} TerminatedIsJoin(parts: seq<string>, sep: string)
    requires |parts| > 0
    ensures Terminated(parts, sep) == Join(parts, sep) + sep
    decreases |parts|
  {
    var init := parts[..|parts| - 1];
    if |parts| == 1 {
      assert Terminated(init, sep) == "";
    } else {
      TerminatedIsJoin(init, sep);
      assert Terminated(parts, sep) == (Join(init, sep) + sep) + parts[|parts| - 1] + sep;
    }
  }

  function Digit(d: nat): (c: char)
    requires d < 10
    ensures '0' <= c <= '9'
  {
    ('0' as int + d) as char
  }

  /** Python's `str(n)` for a natural number. */
  function NatToString(n: nat): (r: string)
    ensures |r| > 0
    ensures forall i :: 0 <= i < |r| ==> '0' <= r[i] <= '9'
  {
    if n < 10 then [Digit(n)] else NatToString(n / 10) + [Digit(n % 10)]
  }

  /** Python's `str(i)` for an integer. */
  function IntToString(i: int): (r: string)
    ensures |r| > 0
    ensures (r[0] == '-') <==> i < 0
  {
    if i < 0 then "-" + NatToString(-i) else NatToString(i)
  }
}
