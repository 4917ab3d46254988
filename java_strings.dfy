/**
  The handful of java.lang.String operations the parser relies on, modelled on
  `seq<char>`: `indexOf(c, from)`, `trim()` and `replaceAll("\\s", "")`
  (the parser also uses `"\\s+"`, which removes the same characters).
 */
module JavaStrings {

  /** `c` occurs in `s` at or after position `from`. */
  predicate OccursFrom(s: string, c: char, from: nat) {
    exists j :: from <= j < |s| && s[j] == c
  }

  /** `s.indexOf(c, from)`: the first position at or after `from` holding `c`, or -1. */
  function IndexOf(s: string, c: char, from: nat): (r: int)
    ensures r == -1 <==> !OccursFrom(s, c, from)
    ensures r != -1 ==> from <= r < |s| && s[r] == c
    ensures r != -1 ==> forall j :: from <= j < r ==> s[j] != c
    decreases |s| - from
  {
    if from >= |s| then -1
    else if s[from] == c then from
    else IndexOf(s, c, from + 1)
  }

  /** Any position holding `c` with no earlier `c` from `from` on is what `indexOf` returns. */
  lemma {:induction false} IndexOfIs(s: string, c: char, from: nat, q: nat)
    requires from <= q < |s| && s[q] == c
    requires forall j :: from <= j < q ==> s[j] != c
    ensures IndexOf(s, c, from) == q
  {
  }

  /** The class `\s` of java.util.regex: space, tab, line feed, vertical tab, form feed, carriage return. */
  predicate IsRegexSpace(c: char) {
    c == ' ' || c == '\t' || c == '\n' || c == '\U{0B}' || c == '\U{0C}' || c == '\r'
  }

  /** What `String.trim()` strips from both ends: every character up to U+0020. */
  predicate IsTrimmable(c: char) {
    c <= ' '
  }

  /** `s.replaceAll("\\s", "")`: `s` without its `\s` characters, the others kept in order. */
  function RemoveSpaces(s: string): (r: string)
    ensures |r| <= |s|
    ensures forall k :: 0 <= k < |r| ==> !IsRegexSpace(r[k])
    ensures forall k :: 0 <= k < |s| && !IsRegexSpace(s[k]) ==> s[k] in r
    ensures forall k :: 0 <= k < |r| ==> r[k] in s
    ensures (forall k :: 0 <= k < |s| ==> IsRegexSpace(s[k])) <==> r == []
  {
    if s == [] then []
    else if IsRegexSpace(s[0]) then RemoveSpaces(s[1..])
    else [s[0]] + RemoveSpaces(s[1..])
  }

  /** Removing `\s` characters distributes over concatenation: the kept characters stay in order. */
  lemma {:induction false} RemoveSpacesAppend(a: string, b: string)
    ensures RemoveSpaces(a + b) == RemoveSpaces(a) + RemoveSpaces(b)
    decreases |a|
  {
    if a == [] {
      assert a + b == b;
    } else {
      assert (a + b)[0] == a[0] && (a + b)[1..] == a[1..] + b;
      RemoveSpacesAppend(a[1..], b);
    }
  }

  /** The first character left by `replaceAll("\\s", "")` is the first non-`\s` character of the input. */
  lemma {:induction false} RemoveSpacesFirst(s: string, p: nat)
    requires p < |s| && !IsRegexSpace(s[p])
    requires forall k :: 0 <= k < p ==> IsRegexSpace(s[k])
    ensures RemoveSpaces(s) != [] && RemoveSpaces(s)[0] == s[p]
    decreases p
  {
    if p > 0 {
      RemoveSpacesFirst(s[1..], p - 1);
    }
  }

  /** `s` with its leading trimmable characters removed. */
  function TrimStart(s: string): (r: string)
    ensures |r| <= |s| && r == s[|s| - |r|..]
    ensures r == [] || !IsTrimmable(r[0])
    ensures forall k :: 0 <= k < |s| - |r| ==> IsTrimmable(s[k])
  {
    if s != [] && IsTrimmable(s[0]) then TrimStart(s[1..]) else s
  }

  /** `s` with its trailing trimmable characters removed. */
  function TrimEnd(s: string): (r: string)
    ensures |r| <= |s| && r == s[..|r|]
    ensures r == [] || !IsTrimmable(r[|r| - 1])
    ensures forall k :: |r| <= k < |s| ==> IsTrimmable(s[k])
  {
    if s != [] && IsTrimmable(s[|s| - 1]) then TrimEnd(s[..|s| - 1]) else s
  }

  /** `s.trim()`. */
  function Trim(s: string): (r: string)
    ensures |r| <= |s|
    ensures r == [] || (!IsTrimmable(r[0]) && !IsTrimmable(r[|r| - 1]))
    ensures exists a, b :: TrimmableOutside(s, a, b) && r == s[a..b]
  {
    var t := TrimStart(s);
    var r := TrimEnd(t);
    TrimOutside(s, t, r);
    r
  }

  /** What `Trim` keeps is a slice of `s` with only trimmable characters around it. */
  lemma TrimOutside(s: string, t: string, r: string)
    requires |t| <= |s| && t == s[|s| - |t|..] && forall k :: 0 <= k < |s| - |t| ==> IsTrimmable(s[k])
    requires |r| <= |t| && r == t[..|r|] && forall k :: |r| <= k < |t| ==> IsTrimmable(t[k])
    ensures TrimmableOutside(s, |s| - |t|, |s| - |t| + |r|)
    ensures r == s[|s| - |t|..|s| - |t| + |r|]
  {
    var a := |s| - |t|;
    var b := a + |r|;
    assert r == s[a..b] by {
      forall k | 0 <= k < |r| ensures r[k] == s[a + k] {
        assert r[k] == t[k] == s[a + k];
      }
    }
    forall k | b <= k < |s| ensures IsTrimmable(s[k]) {
      assert s[k] == t[k - a];
    }
  }

  /** Every character of `s` before `a` and from `b` on is trimmable. */
  predicate TrimmableOutside(s: string, a: int, b: int) {
    0 <= a <= b <= |s| &&
    (forall k :: 0 <= k < a ==> IsTrimmable(s[k])) &&
    (forall k :: b <= k < |s| ==> IsTrimmable(s[k]))
  }

  /** `s.trim()` is exactly `","` when `s` is a comma surrounded only by trimmable characters. */
  lemma {:induction false} TrimIsComma(s: string)
    ensures Trim(s) == "," <==>
            exists p :: 0 <= p < |s| && s[p] == ',' &&
                        forall k :: 0 <= k < |s| && k != p ==> IsTrimmable(s[k])
  {
    var a := TrimStart(s);
    var r := TrimEnd(a);
    var lead := |s| - |a|;
    if r == "," {
      assert s[lead] == ',' by { assert a[0] == r[0]; }
      forall k | 0 <= k < |s| && k != lead ensures IsTrimmable(s[k]) {
        if k > lead { assert s[k] == a[k - lead]; }
      }
    }
    if p :| 0 <= p < |s| && s[p] == ',' && forall k :: 0 <= k < |s| && k != p ==> IsTrimmable(s[k]) {
      assert lead == p;
      assert a[0] == ',';
      assert |r| == 1;
      assert r == [r[0]];
    }
  }
}
