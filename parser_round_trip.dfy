/**
  What a successful `parse` builds: for every JSON-Lite text described by
  `ObjectOk` members (with any spaces between tokens and after the object),
  `parse` returns exactly the object those members describe, a repeated key
  holding its last value, with the index of the closing `}` as its length.

  The proof follows the scan token by token; nested objects are handled by
  induction on the nesting, each nested `parse` seeing the rest of the text.
 */
module ParserRoundTrip {
  import opened JavaStrings
  import opened JsonValues
  import opened JsonLiteText
  import opened MyJsonParser
  import opened ParserProperties

  /** `t` is written in `s` from position `i` on. */
  predicate At(s: string, i: nat, t: string) {
    i + |t| <= |s| && forall k {:trigger t[k]} :: 0 <= k < |t| ==> s[i + k] == t[k]
  }

  lemma AtSplit(s: string, i: nat, a: string, b: string)
    requires At(s, i, a + b)
    ensures At(s, i, a) && At(s, i + |a|, b)
  {
    forall k | 0 <= k < |a| ensures s[i + k] == a[k] {
      assert (a + b)[k] == a[k];
    }
    forall k | 0 <= k < |b| ensures s[i + |a| + k] == b[k] {
      assert (a + b)[|a| + k] == b[k];
    }
  }

  lemma AtJoin(s: string, i: nat, a: string, b: string)
    requires At(s, i, a) && At(s, i + |a|, b)
    ensures At(s, i, a + b)
  {
    forall k | 0 <= k < |a + b| ensures s[i + k] == (a + b)[k] {
      if k >= |a| {
        assert s[i + |a| + (k - |a|)] == b[k - |a|];
      }
    }
  }

  lemma AtChar(s: string, i: nat, c: char)
    requires At(s, i, [c])
    ensures i < |s| && s[i] == c
  {
    assert s[i + 0] == [c][0];
  }

  lemma AtSuffix(s: string, p: nat, i: nat, t: string)
    requires p <= i && At(s, i, t)
    ensures At(s[p..], i - p, t)
  {
    forall k | 0 <= k < |t| ensures s[p..][i - p + k] == t[k] {
      assert s[p..][i - p + k] == s[i + k];
    }
  }

  /** Where each part of a member is written, when the member starts at `i`. */
  function ValStart(i: nat, m: Member): nat {
    i + |m.lead| + 3 + |m.key| + |m.beforeColon| + |m.afterColon|
  }

  lemma {:induction false} MemberLayout(s: string, i: nat, m: Member)
    requires At(s, i, MemberText(m))
    ensures At(s, i, m.lead)
    ensures s[i + |m.lead|] == '"'
    ensures At(s, i + |m.lead| + 1, m.key)
    ensures s[i + |m.lead| + 1 + |m.key|] == '"'
    ensures At(s, i + |m.lead| + 2 + |m.key|, m.beforeColon)
    ensures s[i + |m.lead| + 2 + |m.key| + |m.beforeColon|] == ':'
    ensures At(s, i + |m.lead| + 3 + |m.key| + |m.beforeColon|, m.afterColon)
    ensures At(s, ValStart(i, m), ValText(m.val))
    ensures At(s, ValStart(i, m) + |ValText(m.val)|, m.trail)
    ensures |MemberText(m)| == ValStart(i, m) - i + |ValText(m.val)| + |m.trail|
  {
    var p1 := m.lead + "\"";
    var p2 := p1 + m.key;
    var p3 := p2 + "\"";
    var p4 := p3 + m.beforeColon;
    var p5 := p4 + ":";
    var p6 := p5 + m.afterColon;
    var p7 := p6 + ValText(m.val);
    assert MemberText(m) == p7 + m.trail;
    AtSplit(s, i, p7, m.trail);
    AtSplit(s, i, p6, ValText(m.val));
    AtSplit(s, i, p5, m.afterColon);
    AtSplit(s, i, p4, ":");
    AtSplit(s, i, p3, m.beforeColon);
    AtSplit(s, i, p2, "\"");
    AtSplit(s, i, p1, m.key);
    AtSplit(s, i, m.lead, "\"");
    AtChar(s, i + |m.lead|, '"');
    AtChar(s, i + |p2|, '"');
    AtChar(s, i + |p4|, ':');
  }

  /** A member list starts with its first member's leading spaces and the quote of its key. */
  lemma {:induction false} AtMembersStart(s: string, i: nat, ms: seq<Member>)
    requires ms != [] && At(s, i, MembersText(ms))
    ensures At(s, i, MemberText(ms[0]))
    ensures At(s, i, ms[0].lead) && i + |ms[0].lead| < |s| && s[i + |ms[0].lead|] == '"'
  {
    if |ms| > 1 {
      AtSplit(s, i, MemberText(ms[0]) + ",", MembersText(ms[1..]));
      AtSplit(s, i, MemberText(ms[0]), ",");
    }
    MemberLayout(s, i, ms[0]);
  }

  /** A member list ends with its last member. */
  lemma {:induction false} AtMembersLast(s: string, i: nat, ms: seq<Member>)
    requires ms != [] && At(s, i, MembersText(ms))
    ensures |MemberText(ms[|ms| - 1])| <= |MembersText(ms)|
    ensures At(s, i + |MembersText(ms)| - |MemberText(ms[|ms| - 1])|, MemberText(ms[|ms| - 1]))
    decreases |ms|
  {
    if |ms| > 1 {
      AtSplit(s, i, MemberText(ms[0]) + ",", MembersText(ms[1..]));
      AtMembersLast(s, i + |MemberText(ms[0])| + 1, ms[1..]);
    }
  }

  lemma NoQuoteSuffix(s: string, p: nat, f: nat)
    requires p <= |s|
    ensures OccursFrom(s[p..], '"', f) <==> OccursFrom(s, '"', p + f)
  {
    if OccursFrom(s, '"', p + f) {
      var j :| p + f <= j < |s| && s[j] == '"';
      assert s[p..][j - p] == '"';
    }
  }

  lemma NoQuoteBefore(s: string, e: nat, a: nat)
    requires e <= a <= |s| && !OccursFrom(s, '"', a)
    requires forall k :: e <= k < a ==> s[k] != '"'
    ensures !OccursFrom(s, '"', e)
  {
  }

  /** Spaces are skipped in every state of the scan. */
  lemma {:induction false} SpacesSkipped(s: string, i: nat, n: nat, completed: bool, passedColon: bool,
                                         key: string, acc: map<string, TreeValue>)
    requires i + n <= |s| && (completed || 0 < i)
    requires forall k :: i <= k < i + n ==> s[k] == ' '
    ensures ScanSpec(s, i, completed, passedColon, key, acc) == ScanSpec(s, i + n, completed, passedColon, key, acc)
    decreases n
  {
    if n > 0 {
      SpaceStep(s, i, completed, passedColon, key, acc);
      SpacesSkipped(s, i + 1, n - 1, completed, passedColon, key, acc);
    }
  }

  /** One space is skipped in every state of the scan. */
  lemma SpaceStep(s: string, i: nat, completed: bool, passedColon: bool, key: string,
                  acc: map<string, TreeValue>)
    requires i < |s| && (completed || 0 < i) && s[i] == ' '
    ensures ScanSpec(s, i, completed, passedColon, key, acc) == ScanSpec(s, i + 1, completed, passedColon, key, acc)
  {
  }

  /** With no key pending and no colon seen, a character that is not a quote, a brace or a colon is skipped. */
  predicate Ignored(c: char) {
    c != '"' && c != '{' && c != '}' && c != ':'
  }

  lemma {:induction false} IgnoredSkipped(s: string, i: nat, n: nat, key: string, acc: map<string, TreeValue>)
    requires i + n <= |s|
    requires forall k :: i <= k < i + n ==> Ignored(s[k])
    ensures ScanSpec(s, i, true, false, key, acc) == ScanSpec(s, i + n, true, false, key, acc)
    decreases n
  {
    if n > 0 {
      IgnoredStep(s, i, key, acc);
      IgnoredSkipped(s, i + 1, n - 1, key, acc);
    }
  }

  lemma IgnoredStep(s: string, i: nat, key: string, acc: map<string, TreeValue>)
    requires i < |s| && Ignored(s[i])
    ensures ScanSpec(s, i, true, false, key, acc) == ScanSpec(s, i + 1, true, false, key, acc)
  {
  }

  lemma AtSpaces(s: string, i: nat, g: string)
    requires At(s, i, g) && Spaces(g)
    ensures forall k :: i <= k < i + |g| ==> s[k] == ' '
  {
    forall k | i <= k < i + |g| ensures s[k] == ' ' {
      assert s[i + (k - i)] == g[k - i];
    }
  }

  /** A quoted span `"x"` with no quote inside ends at the quote after `x`. */
  lemma SpanEnd(s: string, p: nat, x: string)
    requires At(s, p + 1, x) && '"' !in x && p + 1 + |x| < |s| && s[p + 1 + |x|] == '"'
    ensures IndexOf(s, '"', p + 1) == p + 1 + |x| && s[p + 1..p + 1 + |x|] == x
  {
    forall j | p + 1 <= j < p + 1 + |x| ensures s[j] != '"' {
      assert s[p + 1 + (j - p - 1)] == x[j - p - 1];
    }
    IndexOfIs(s, '"', p + 1, p + 1 + |x|);
    assert s[p + 1..p + 1 + |x|] == x;
  }

  /** With no key pending, a quote up to the next quote becomes the pending key. */
  lemma {:induction false} QuotedKey(s: string, p: nat, x: string, passedColon: bool, key: string, acc: map<string, TreeValue>)
    requires 0 < p && p + 1 + |x| < |s| && s[p] == '"'
    requires IndexOf(s, '"', p + 1) == p + 1 + |x| && s[p + 1..p + 1 + |x|] == x
    ensures ScanSpec(s, p, true, passedColon, key, acc) == ScanSpec(s, p + |x| + 2, false, passedColon, x, acc)
  {
  }

  /** With a key pending, a quote up to the next quote is stored as its value. */
  lemma {:induction false} QuotedValue(s: string, p: nat, x: string, passedColon: bool, key: string, acc: map<string, TreeValue>)
    requires 0 < p && p + 1 + |x| < |s| && s[p] == '"'
    requires IndexOf(s, '"', p + 1) == p + 1 + |x| && s[p + 1..p + 1 + |x|] == x
    ensures ScanSpec(s, p, false, passedColon, key, acc) ==
            ScanSpec(s, p + |x| + 2, true, false, key, acc[key := TStr(x)])
  {
  }

  /** The text of a member up to its value: spaces, the quoted key, spaces, the colon, spaces. */
  function HeadText(lead: string, key: string, beforeColon: string, afterColon: string): string {
    lead + "\"" + key + "\"" + beforeColon + ":" + afterColon
  }

  /** Past the leading spaces and the quoted key: the key is pending. */
  lemma KeyScan(s: string, i: nat, lead: string, key: string, key0: string, acc: map<string, TreeValue>)
    requires 0 < i && At(s, i, lead) && Spaces(lead) && '"' !in key
    requires At(s, i + |lead| + 1, key) && i + |lead| + 1 + |key| < |s|
    requires s[i + |lead|] == '"' && s[i + |lead| + 1 + |key|] == '"'
    ensures ScanSpec(s, i, true, false, key0, acc) ==
            ScanSpec(s, i + |lead| + 2 + |key|, false, false, key, acc)
  {
    AtSpaces(s, i, lead);
    SpacesSkipped(s, i, |lead|, true, false, key0, acc);
    SpanEnd(s, i + |lead|, key);
    QuotedKey(s, i + |lead|, key, false, key0, acc);
  }

  /** After a key: the spaces, the colon and the spaces up to the value. */
  lemma ColonScan(s: string, b: nat, beforeColon: string, afterColon: string, key: string,
                  acc: map<string, TreeValue>)
    requires 0 < b && At(s, b, beforeColon) && Spaces(beforeColon)
    requires b + |beforeColon| < |s| && s[b + |beforeColon|] == ':'
    requires At(s, b + |beforeColon| + 1, afterColon) && Spaces(afterColon)
    ensures ScanSpec(s, b, false, false, key, acc) ==
            ScanSpec(s, b + |beforeColon| + 1 + |afterColon|, false, true, key, acc)
  {
    var c := b + |beforeColon|;
    AtSpaces(s, b, beforeColon);
    SpacesSkipped(s, b, |beforeColon|, false, false, key, acc);
    assert ScanSpec(s, c, false, false, key, acc) == ScanSpec(s, c + 1, false, true, key, acc);
    AtSpaces(s, c + 1, afterColon);
    SpacesSkipped(s, c + 1, |afterColon|, false, true, key, acc);
  }

  /** A member's head takes the scan to its value, with the key pending and the colon seen. */
  lemma {:induction false} HeadScan(s: string, i: nat, lead: string, key: string, beforeColon: string, afterColon: string,
                 key0: string, acc: map<string, TreeValue>)
    requires 0 < i && At(s, i, HeadText(lead, key, beforeColon, afterColon))
    requires Spaces(lead) && '"' !in key && Spaces(beforeColon) && Spaces(afterColon)
    ensures |HeadText(lead, key, beforeColon, afterColon)| == |lead| + 3 + |key| + |beforeColon| + |afterColon|
    ensures ScanSpec(s, i, true, false, key0, acc) ==
            ScanSpec(s, i + |HeadText(lead, key, beforeColon, afterColon)|, false, true, key, acc)
  {
    HeadLayout(s, i, lead, key, beforeColon, afterColon);
    KeyScan(s, i, lead, key, key0, acc);
    ColonScan(s, i + |lead| + 2 + |key|, beforeColon, afterColon, key, acc);
  }

  /** Where the pieces of a member's head lie. */
  lemma HeadLayout(s: string, i: nat, lead: string, key: string, beforeColon: string, afterColon: string)
    requires At(s, i, HeadText(lead, key, beforeColon, afterColon))
    ensures |HeadText(lead, key, beforeColon, afterColon)| == |lead| + 3 + |key| + |beforeColon| + |afterColon|
    ensures At(s, i, lead) && At(s, i + |lead| + 1, key) && i + |lead| + 1 + |key| < |s|
    ensures s[i + |lead|] == '"' && s[i + |lead| + 1 + |key|] == '"'
    ensures var b := i + |lead| + 2 + |key|;
            At(s, b, beforeColon) && b + |beforeColon| < |s| && s[b + |beforeColon|] == ':' &&
            At(s, b + |beforeColon| + 1, afterColon)
  {
    var p1 := lead + "\"";
    var p2 := p1 + key;
    var p3 := p2 + "\"";
    var p4 := p3 + beforeColon;
    var p5 := p4 + ":";
    AtSplit(s, i, p5, afterColon);
    AtSplit(s, i, p4, ":");
    AtSplit(s, i, p3, beforeColon);
    AtSplit(s, i, p2, "\"");
    AtSplit(s, i, p1, key);
    AtSplit(s, i, lead, "\"");
    AtChar(s, i + |lead|, '"');
    AtChar(s, i + |p2|, '"');
    AtChar(s, i + |p4|, ':');
  }

  /** The character before a closing `}` passes the check of line 61-62. */
  predicate PrevOk(c: char, acc: map<string, TreeValue>) {
    c == ' ' || c == '"' || (c == '}' && ObjectCount(acc) != 0)
  }

  /** After a member list, the character before the closing `}` is one the parser allows. */
  lemma {:induction false} LastCharOk(s: string, i: nat, ms: seq<Member>, acc: map<string, TreeValue>)
    requires ms != [] && At(s, i, MembersText(ms)) && MembersOk(ms)
    ensures 0 < i + |MembersText(ms)|
    ensures PrevOk(s[i + |MembersText(ms)| - 1], Store(acc, ms))
  {
    var m := ms[|ms| - 1];
    AtMembersLast(s, i, ms);
    var j := i + |MembersText(ms)| - |MemberText(m)|;
    MemberLayout(s, j, m);
    var v := ValStart(j, m);
    var vt := ValText(m.val);
    MembersOkLast(ms);
    if |m.trail| > 0 {
      assert s[v + |vt| + (|m.trail| - 1)] == m.trail[|m.trail| - 1];
    } else {
      assert s[v + (|vt| - 1)] == vt[|vt| - 1];
      if m.val.VObj? {
        StoreLast(acc, ms, |ms| - 1);
      }
    }
  }

  lemma {:induction false} MembersOkLast(ms: seq<Member>)
    requires ms != [] && MembersOk(ms)
    ensures MemberOk(ms[|ms| - 1], true)
    decreases |ms|
  {
    if |ms| > 1 {
      MembersOkLast(ms[1..]);
    }
  }

  /** A `}` followed by spaces, a comma, spaces and the next member's quote closes the object. */
  lemma {:induction false} CloseBeforeMember(s: string, e: nat, trail: string, lead: string, key: string,
                          acc: map<string, TreeValue>)
    requires 0 < e < |s| && s[e] == '}' && PrevOk(s[e - 1], acc)
    requires At(s, e + 1, trail) && Spaces(trail)
    requires At(s, e + 2 + |trail|, lead) && Spaces(lead) && e + 2 + |trail| + |lead| < |s|
    requires s[e + 1 + |trail|] == ',' && s[e + 2 + |trail| + |lead|] == '"'
    ensures ScanSpec(s, e, true, false, key, acc) == Parsed(JsonTree(acc), e)
  {
    var comma := e + 1 + |trail|;
    var q := comma + 1 + |lead|;
    AtSpaces(s, e + 1, trail);
    AtSpaces(s, comma + 1, lead);
    IndexOfIs(s, '"', e, q);
    assert LoneComma(s, e, q, comma);
    CloseRule(s, e, key, acc);
  }

  /** A `}` followed by spaces and then the end, or another `}` with no quote after it, closes the object. */
  lemma {:induction false} CloseAtEnd(s: string, e: nat, trail: string, key: string, acc: map<string, TreeValue>)
    requires 0 < e < |s| && s[e] == '}' && PrevOk(s[e - 1], acc)
    requires At(s, e + 1, trail) && Spaces(trail)
    requires e + 1 + |trail| == |s| || s[e + 1 + |trail|] == '}'
    requires !OccursFrom(s, '"', e)
    ensures ScanSpec(s, e, true, false, key, acc) == Parsed(JsonTree(acc), e)
  {
    var rest := s[e + 1..];
    AtSpaces(s, e + 1, trail);
    if e + 1 + |trail| == |s| {
      assert forall k :: 0 <= k < |rest| ==> IsRegexSpace(rest[k]);
    } else {
      RemoveSpacesFirst(rest, |trail|);
      var t := RemoveSpaces(rest);
      if |t| == 1 {
        assert t == [t[0]];
      }
    }
    CloseRule(s, e, key, acc);
  }

  /** Where the quotes and the content of a string value lie. */
  lemma StrLayout(s: string, p: nat, x: string)
    requires At(s, p, ValText(VStr(x)))
    ensures s[p] == '"' && At(s, p + 1, x) && p + 1 + |x| < |s| && s[p + 1 + |x|] == '"'
  {
    AtSplit(s, p, "\"" + x, "\"");
    AtSplit(s, p, "\"", x);
    AtChar(s, p, '"');
    AtChar(s, p + 1 + |x|, '"');
  }

  /** A string value: the quoted text is stored under the pending key. */
  lemma {:induction false} StrQuoteScan(s: string, p: nat, x: string, key: string, acc: map<string, TreeValue>)
    requires 0 < p && At(s, p, ValText(VStr(x))) && '"' !in x
    ensures ScanSpec(s, p, false, true, key, acc) == ScanSpec(s, p + |x| + 2, true, false, key, acc[key := TStr(x)])
  {
    StrLayout(s, p, x);
    SpanEnd(s, p, x);
    QuotedValue(s, p, x, true, key, acc);
  }

  /** A string value and the spaces after it. */
  lemma {:induction false} StrValueScan(s: string, p: nat, x: string, trail: string, key: string, acc: map<string, TreeValue>)
    requires 0 < p && At(s, p, ValText(VStr(x))) && '"' !in x
    requires At(s, p + |x| + 2, trail) && Spaces(trail)
    ensures ScanSpec(s, p, false, true, key, acc) ==
            ScanSpec(s, p + |x| + 2 + |trail|, true, false, key, acc[key := TStr(x)])
  {
    var acc1 := acc[key := TStr(x)];
    var q := p + |x| + 2;
    StrQuoteScan(s, p, x, key, acc);
    AtSpaces(s, q, trail);
    SpacesSkipped(s, q, |trail|, true, false, key, acc1);
  }

  /**
    What may follow the text of a member (or of an object) that ends at `a`:
    for the last member, the end of the text or a `}`, with no quote from
    there on; otherwise a comma, spaces, and the opening quote of the next key.
    A lemma that only passes this fact on to another states it as
    `Follows(...) == true`, which the verifier checks as one fact instead of
    unfolding it.
   */
  predicate Follows(s: string, a: nat, last: bool, nextLead: string) {
    a <= |s| &&
    if last then (a == |s| || s[a] == '}') && !OccursFrom(s, '"', a)
    else a + 1 + |nextLead| < |s| && s[a] == ',' && At(s, a + 1, nextLead) &&
         Spaces(nextLead) && s[a + 1 + |nextLead|] == '"'
  }

  /** What follows a position is unchanged by cutting off a prefix before it. */
  lemma FollowsSuffix(s: string, p: nat, a: nat, last: bool, nextLead: string)
    requires p <= a && Follows(s, a, last, nextLead) == true
    ensures Follows(s[p..], a - p, last, nextLead)
  {
    if last {
      NoQuoteSuffix(s, p, a - p);
    } else {
      AtSuffix(s, p, a + 1, nextLead);
    }
  }

  /**
    A nested object value and the spaces after it: the nested `parse` of the
    rest of the text returns the object its members describe, and the scan
    resumes after its `}`.
   */
  lemma {:induction false} ObjValueScan(s: string, p: nat, c: seq<Member>, trail: string, key: string,
                     acc: map<string, TreeValue>, last: bool, nextLead: string)
    requires 0 < p && At(s, p, ObjectText(c)) && ObjectOk(c) && key != ""
    requires At(s, p + |ObjectText(c)|, trail) && Spaces(trail)
    requires Follows(s, p + |ObjectText(c)| + |trail|, last, nextLead) == true && (!last ==> !EndsWithObject(c))
    ensures ScanSpec(s, p, false, true, key, acc) ==
            ScanSpec(s, p + |ObjectText(c)| + |trail|, true, false, key, acc[key := TObj(TreeOf(c))])
    decreases MembersSize(c), 5
  {
    var n := |ObjectText(c)|;
    ObjValueChild(s, p, c, trail, last, nextLead);
    NestedValue(s, p, key, acc, TreeOf(c), n);
    AtSpaces(s, p + n, trail);
    SpacesSkipped(s, p + n, |trail|, true, false, key, acc[key := TObj(TreeOf(c))]);
  }

  /** The nested `parse` of the text from a nested object value on returns that object. */
  lemma {:induction false} ObjValueChild(s: string, p: nat, c: seq<Member>, trail: string, last: bool, nextLead: string)
    requires 0 < p && At(s, p, ObjectText(c)) && ObjectOk(c)
    requires At(s, p + |ObjectText(c)|, trail) && Spaces(trail)
    requires Follows(s, p + |ObjectText(c)| + |trail|, last, nextLead) == true && (!last ==> !EndsWithObject(c))
    ensures 1 < |ObjectText(c)| && p + |ObjectText(c)| <= |s| && s[p] == '{'
    ensures ParseSpec(s[p..]) == Parsed(TreeOf(c), |ObjectText(c)| - 1)
    decreases MembersSize(c), 4
  {
    var t := s[p..];
    var n := |ObjectText(c)|;
    AtSuffix(s, p, p, ObjectText(c));
    AtSuffix(s, p, p + n, trail);
    FollowsSuffix(s, p, p + n + |trail|, last, nextLead);
    ObjectParse(t, c, trail, last, nextLead);
    assert s[p] == ObjectText(c)[0] == '{';
  }

  /** A nested object the nested `parse` returns is stored under the pending key. */
  lemma NestedValue(s: string, p: nat, key: string, acc: map<string, TreeValue>, child: JsonTree, n: nat)
    requires 0 < p < |s| && s[p] == '{' && key != "" && 1 < n && p + n <= |s|
    requires ParseSpec(s[p..]) == Parsed(child, n - 1)
    ensures ScanSpec(s, p, false, true, key, acc) == ScanSpec(s, p + n, true, false, key, acc[key := TObj(child)])
  {
  }

  /** A member's head takes the scan to its value, with the key pending and the colon seen. */
  lemma {:induction false} MemberHeadScan(s: string, i: nat, m: Member, key0: string, acc: map<string, TreeValue>)
    requires 0 < i && At(s, i, MemberText(m))
    requires Spaces(m.lead) && '"' !in m.key && Spaces(m.beforeColon) && Spaces(m.afterColon)
    ensures ScanSpec(s, i, true, false, key0, acc) == ScanSpec(s, ValStart(i, m), false, true, m.key, acc)
  {
    MemberLayout(s, i, m);
    KeyScan(s, i, m.lead, m.key, key0, acc);
    ColonScan(s, i + |m.lead| + 2 + |m.key|, m.beforeColon, m.afterColon, m.key, acc);
  }

  /** Where a member's value and trailing spaces lie. */
  lemma {:induction false} MemberValueLayout(s: string, i: nat, m: Member)
    requires At(s, i, MemberText(m))
    ensures At(s, ValStart(i, m), ValText(m.val))
    ensures At(s, ValStart(i, m) + |ValText(m.val)|, m.trail)
    ensures |MemberText(m)| == ValStart(i, m) - i + |ValText(m.val)| + |m.trail|
  {
    MemberLayout(s, i, m);
  }

  /** One member: from its leading spaces to the end of its trailing spaces. */
  lemma MemberScan(s: string, i: nat, m: Member, key0: string, acc: map<string, TreeValue>,
                   last: bool, nextLead: string)
    requires 0 < i && At(s, i, MemberText(m)) && MemberOk(m, last)
    requires m.val.VObj? || !last ==> Follows(s, i + |MemberText(m)|, last, nextLead) == true
    ensures ScanSpec(s, i, true, false, key0, acc) ==
            ScanSpec(s, i + |MemberText(m)|, true, false, m.key, acc[m.key := ValTree(m.val)])
    decreases 1 + ValSize(m.val), 0
  {
    MemberHeadScan(s, i, m, key0, acc);
    MemberValueLayout(s, i, m);
    var v := ValStart(i, m);
    match m.val
    case VStr(x) =>
      StrValueScan(s, v, x, m.trail, m.key, acc);
    case VObj(c) =>
      ObjValueScan(s, v, c, m.trail, m.key, acc, last, nextLead);
  }

  /** A member list, up to the `}` (or end) that follows it. */
  lemma {:induction false} MembersScan(s: string, i: nat, ms: seq<Member>, key0: string,
                                       acc: map<string, TreeValue>)
    requires 0 < i && ms != [] && At(s, i, MembersText(ms)) && MembersOk(ms)
    requires EndsWithObject(ms) ==> Follows(s, i + |MembersText(ms)|, true, "") == true
    ensures ScanSpec(s, i, true, false, key0, acc) ==
            ScanSpec(s, i + |MembersText(ms)|, true, false, ms[|ms| - 1].key, Store(acc, ms))
    decreases MembersSize(ms), 1
  {
    var m := ms[0];
    var acc1 := acc[m.key := ValTree(m.val)];
    if |ms| == 1 {
      MemberScan(s, i, m, key0, acc, true, "");
    } else {
      var rest := ms[1..];
      var a := i + |MemberText(m)|;
      MembersSplit(s, i, ms);
      MemberScan(s, i, m, key0, acc, false, rest[0].lead);
      CommaStep(s, a, m.key, acc1);
      MembersScan(s, a + 1, rest, m.key, acc1);
    }
  }

  /** Where the first member, the comma after it and the other members lie. */
  lemma {:induction false} MembersSplit(s: string, i: nat, ms: seq<Member>)
    requires |ms| > 1 && At(s, i, MembersText(ms)) && MembersOk(ms)
    ensures var a := i + |MemberText(ms[0])|;
            |MembersText(ms)| == |MemberText(ms[0])| + 1 + |MembersText(ms[1..])| &&
            At(s, i, MemberText(ms[0])) && a < |s| && s[a] == ',' && At(s, a + 1, MembersText(ms[1..])) &&
            Follows(s, a, false, ms[1].lead)
  {
    assert MemberOk(ms[1..][0], |ms[1..]| == 1);
    var a := i + |MemberText(ms[0])|;
    AtSplit(s, i, MemberText(ms[0]) + ",", MembersText(ms[1..]));
    AtSplit(s, i, MemberText(ms[0]), ",");
    AtChar(s, a, ',');
    AtMembersStart(s, a + 1, ms[1..]);
  }

  /** A comma with no key pending and no colon seen is skipped. */
  lemma CommaStep(s: string, a: nat, key: string, acc: map<string, TreeValue>)
    requires a < |s| && s[a] == ','
    ensures ScanSpec(s, a, true, false, key, acc) == ScanSpec(s, a + 1, true, false, key, acc)
  {
  }

  /** Where an object's braces and members lie. */
  lemma {:induction false} ObjectLayout(s: string, c: seq<Member>)
    requires At(s, 0, ObjectText(c))
    ensures |ObjectText(c)| == 2 + |MembersText(c)|
    ensures s[0] == '{' && At(s, 1, MembersText(c)) && s[1 + |MembersText(c)|] == '}'
  {
    var body := MembersText(c);
    assert ObjectText(c) == ("{" + body) + "}";
    AtSplit(s, 0, "{" + body, "}");
    AtSplit(s, 0, "{", body);
    AtChar(s, 0, '{');
    AtChar(s, 1 + |body|, '}');
  }

  /** No quote from a `}` on when none follows the spaces after it. */
  lemma CloseNoQuote(t: string, e: nat, trail: string)
    requires e < |t| && t[e] == '}' && At(t, e + 1, trail) && Spaces(trail)
    requires !OccursFrom(t, '"', e + 1 + |trail|)
    ensures !OccursFrom(t, '"', e)
  {
    AtSpaces(t, e + 1, trail);
    NoQuoteBefore(t, e, e + 1 + |trail|);
  }

  /**
    The beginning check passes on any input starting with `{` (the first
    character `clear` keeps is that `{`), and the scan steps over it.
   */
  lemma {:induction false} OpenObject(t: string)
    requires 0 < |t| && t[0] == '{'
    ensures ParseSpec(t) == ScanSpec(t, 1, true, false, "", map[])
  {
    if OccursFrom(t, '"', 0) {
      ClearFirst(t, '"', 0);
    }
  }

  /** A `}` after a value that allows it, followed as a member's text may be, returns the object. */
  lemma {:induction false} CloseFollowed(s: string, e: nat, b: nat, trail: string, last: bool, nextLead: string, key: string,
                      acc: map<string, TreeValue>)
    requires 0 < e < |s| && s[e] == '}' && PrevOk(s[e - 1], acc) && b == e + 1
    requires At(s, b, trail) && Spaces(trail) && Follows(s, b + |trail|, last, nextLead) == true
    ensures ScanSpec(s, e, true, false, key, acc) == Parsed(JsonTree(acc), e)
  {
    if last {
      CloseNoQuote(s, e, trail);
      CloseAtEnd(s, e, trail, key, acc);
    } else {
      CloseBeforeMember(s, e, trail, nextLead, key, acc);
    }
  }

  /**
    An object text at the start of `t`, followed by spaces and then either a
    comma and the next member, or the end / a `}` with no quote after it:
    `parse(t)` returns the object the members describe.
   */
  lemma {:induction false} ObjectParse(t: string, ms: seq<Member>, trail: string, last: bool, nextLead: string)
    requires At(t, 0, ObjectText(ms)) && ObjectOk(ms)
    requires At(t, |ObjectText(ms)|, trail) && Spaces(trail)
    requires Follows(t, |ObjectText(ms)| + |trail|, last, nextLead) == true && (!last ==> !EndsWithObject(ms))
    ensures ParseSpec(t) == Parsed(TreeOf(ms), |ObjectText(ms)| - 1)
    decreases MembersSize(ms), 3
  {
    ObjectLayout(t, ms);
    OpenObject(t);
    ObjectScan(t, ms, trail, last, nextLead);
    ObjectResult(ms);
  }

  /** The object and length `parse` returns at an object's `}`, in terms of its text. */
  lemma {:induction false} ObjectResult(ms: seq<Member>)
    ensures Parsed(JsonTree(Store(map[], ms)), 1 + |MembersText(ms)|) == Parsed(TreeOf(ms), |ObjectText(ms)| - 1)
  {
  }

  /** The scan from just after an object's `{` returns the object at its `}`. */
  lemma ObjectScan(t: string, ms: seq<Member>, trail: string, last: bool, nextLead: string)
    requires At(t, 0, ObjectText(ms)) && ObjectOk(ms)
    requires At(t, |ObjectText(ms)|, trail) && Spaces(trail)
    requires Follows(t, |ObjectText(ms)| + |trail|, last, nextLead) == true && (!last ==> !EndsWithObject(ms))
    ensures ScanSpec(t, 1, true, false, "", map[]) == Parsed(JsonTree(Store(map[], ms)), 1 + |MembersText(ms)|)
    decreases MembersSize(ms), 2
  {
    var e := 1 + |MembersText(ms)|;
    ObjectLayout(t, ms);
    LastCharOk(t, 1, ms, map[]);
    if last {
      CloseNoQuote(t, e, trail);
    }
    MembersScan(t, 1, ms, "", map[]);
    CloseFollowed(t, e, |ObjectText(ms)|, trail, last, nextLead, ms[|ms| - 1].key, Store(map[], ms));
  }

  /**
    The round trip: `parse` of an object text followed by any spaces returns
    exactly the object its members describe, with the index of its `}` as
    length.
   */
  lemma {:induction false} RoundTrip(ms: seq<Member>, ws: string)
    requires ObjectOk(ms) && Spaces(ws)
    ensures ParseSpec(ObjectText(ms) + ws) == Parsed(TreeOf(ms), |ObjectText(ms)| - 1)
  {
    var t := ObjectText(ms) + ws;
    AtSplit(t, 0, ObjectText(ms), ws);
    ObjectParse(t, ms, ws, true, "");
  }

  /** The parsed object has exactly the members' keys. */
  lemma {:induction false} ParsedKeys(ms: seq<Member>, ws: string, k: string)
    requires ObjectOk(ms) && Spaces(ws)
    ensures ParseSpec(ObjectText(ms) + ws).Parsed?
    ensures k in ParseSpec(ObjectText(ms) + ws).tree.entries <==>
            exists j :: 0 <= j < |ms| && ms[j].key == k
  {
    RoundTrip(ms, ws);
    StoreKeys(map[], ms, k);
  }

  /** Last write wins: a key holds the value of the last member written with it. */
  lemma {:induction false} LastWins(ms: seq<Member>, ws: string, j: nat)
    requires ObjectOk(ms) && Spaces(ws) && j < |ms|
    requires forall j' :: j < j' < |ms| ==> ms[j'].key != ms[j].key
    ensures ParseSpec(ObjectText(ms) + ws).Parsed?
    ensures var entries := ParseSpec(ObjectText(ms) + ws).tree.entries;
            ms[j].key in entries && entries[ms[j].key] == ValTree(ms[j].val)
  {
    RoundTrip(ms, ws);
    StoreLast(map[], ms, j);
  }

  /**
    A member list and its closing `}`, with no quote after that `}`: the scan
    arrives at the `}` with every member stored, and the character before it
    passes the check.
   */
  lemma {:induction false} BodyScan(t: string, i: nat, ms: seq<Member>)
    requires 0 < i && ObjectOk(ms) && At(t, i, MembersText(ms) + "}")
    requires !OccursFrom(t, '"', i + |MembersText(ms)|)
    ensures var e := i + |MembersText(ms)|;
            e < |t| && t[e] == '}' && PrevOk(t[e - 1], Store(map[], ms)) &&
            ScanSpec(t, i, true, false, "", map[]) == ScanSpec(t, e, true, false, ms[|ms| - 1].key, Store(map[], ms))
  {
    AtSplit(t, i, MembersText(ms), "}");
    AtChar(t, i + |MembersText(ms)|, '}');
    MembersScan(t, i, ms, "", map[]);
    LastCharOk(t, i, ms, map[]);
  }

  /** `w` is written in `s` from `i` on and holds only skipped characters. */
  lemma AtIgnored(s: string, i: nat, w: string)
    requires At(s, i, w) && forall k :: 0 <= k < |w| ==> Ignored(w[k])
    ensures forall k :: i <= k < i + |w| ==> Ignored(s[k])
  {
    forall k | i <= k < i + |w| ensures Ignored(s[k]) {
      assert s[i + (k - i)] == w[k - i];
    }
  }

  /** A `}` with no quote after it: the tail rule that applies then. */
  lemma {:induction false} CloseNoQuoteRule(t: string, e: nat, key: string, acc: map<string, TreeValue>)
    requires 0 < e < |t| && t[e] == '}' && PrevOk(t[e - 1], acc) && !OccursFrom(t, '"', e)
    ensures var tail := RemoveSpaces(t[e + 1..]);
            ScanSpec(t, e, true, false, key, acc) ==
            if |tail| == 1 && tail != "}" then Failed(InvalidEnding) else Parsed(JsonTree(acc), e)
  {
    CloseRule(t, e, key, acc);
  }

  /**
    An object text followed by any text without a quote: the object is
    returned exactly when that text, without white space, is not a single
    character other than `}`; otherwise "Invalid ending of JSON-Lite object."
   */
  lemma {:induction false} ObjectTail(t: string, ms: seq<Member>, w: string)
    requires t == ObjectText(ms) + w
    requires ObjectOk(ms) && '"' !in w
    ensures var tail := RemoveSpaces(w);
            ParseSpec(t) ==
            if |tail| == 1 && tail != "}" then Failed(InvalidEnding)
            else Parsed(TreeOf(ms), |ObjectText(ms)| - 1)
  {
    var e := |ObjectText(ms)| - 1;
    assert At(t, 0, t);
    AtSplit(t, 0, ObjectText(ms), w);
    assert ObjectText(ms) == ("{" + MembersText(ms)) + "}";
    AtSplit(t, 0, "{" + MembersText(ms), "}");
    AtChar(t, e, '}');
    NoQuoteAfter(t, e, w);
    OpenBody(t, ms);
    CloseNoQuoteRule(t, e, ms[|ms| - 1].key, Store(map[], ms));
  }

  /** An object text with no quote after it: `parse` arrives at its `}` with every member stored. */
  lemma {:induction false} OpenBody(t: string, ms: seq<Member>)
    requires At(t, 0, ObjectText(ms)) && ObjectOk(ms)
    requires !OccursFrom(t, '"', |ObjectText(ms)| - 1)
    ensures var e := |ObjectText(ms)| - 1;
            0 < e < |t| && t[e] == '}' && PrevOk(t[e - 1], Store(map[], ms)) &&
            ParseSpec(t) == ScanSpec(t, e, true, false, ms[|ms| - 1].key, Store(map[], ms))
  {
    assert ObjectText(ms) == "{" + (MembersText(ms) + "}");
    AtSplit(t, 0, "{", MembersText(ms) + "}");
    AtChar(t, 0, '{');
    OpenObject(t);
    BodyScan(t, 1, ms);
  }

  /** A `}` followed by a text without quotes leaves no quote from the `}` on. */
  lemma NoQuoteAfter(t: string, e: nat, w: string)
    requires e < |t| && t[e] == '}' && At(t, e + 1, w) && e + 1 + |w| == |t| && '"' !in w
    ensures !OccursFrom(t, '"', e) && t[e + 1..] == w
  {
    forall j | e < j < |t| ensures t[j] != '"' {
      assert t[e + 1 + (j - e - 1)] == w[j - e - 1];
    }
    assert t[e + 1..] == w;
  }

  /**
    Characters other than quotes, braces and colons between the opening `{`
    and the first key are skipped: `{,"k":"v"}` is accepted like `{"k":"v"}`.
   */
  lemma {:induction false} StrayPrefix(t: string, ms: seq<Member>, w: string, ws: string)
    requires t == "{" + w + MembersText(ms) + "}" + ws
    requires ObjectOk(ms) && Spaces(ws)
    requires forall k :: 0 <= k < |w| ==> Ignored(w[k])
    ensures ParseSpec(t) == Parsed(TreeOf(ms), |w| + |ObjectText(ms)| - 1)
  {
    StrayLayout(t, w, MembersText(ms), ws);
    StrayScan(t, ms, w, ws);
  }

  /** Where the pieces of `{`, stray characters, members, `}` and spaces lie. */
  lemma StrayLayout(t: string, w: string, body: string, ws: string)
    requires t == "{" + w + body + "}" + ws
    ensures var e := 1 + |w| + |body|;
            At(t, 1 + |w|, body + "}") && At(t, 1, w) && At(t, e + 1, ws) &&
            e + 1 + |ws| == |t| && t[0] == '{' && t[e] == '}'
  {
    var x2 := "{" + w;
    var x3 := x2 + body;
    var x4 := x3 + "}";
    AtConcat(x4, ws);
    AtConcat(x3, "}");
    AtWithin(t, 0, x4, |x3|, "}");
    AtChar(t, |x3|, '}');
    AtWithin(t, 0, x4, 0, x3);
    AtConcat(x2, body);
    AtWithin(t, 0, x3, |x2|, body);
    AtJoin(t, |x2|, body, "}");
    AtWithin(t, 0, x3, 0, x2);
    AtConcat("{", w);
    AtWithin(t, 0, x2, 1, w);
    AtWithin(t, 0, x2, 0, "{");
    AtChar(t, 0, '{');
  }

  /** The two halves of a concatenation lie where they should. */
  lemma AtConcat(a: string, b: string)
    ensures At(a + b, 0, a) && At(a + b, |a|, b)
  {
  }

  /** A piece of a piece of `s` is a piece of `s`. */
  lemma AtWithin(s: string, i: nat, x: string, j: nat, y: string)
    requires At(s, i, x) && At(x, j, y)
    ensures At(s, i + j, y)
  {
    forall k | 0 <= k < |y| ensures s[i + j + k] == y[k] {
      assert x[j + k] == y[k];
    }
  }

  lemma {:induction false} StrayScan(t: string, ms: seq<Member>, w: string, ws: string)
    requires ObjectOk(ms) && Spaces(ws)
    requires forall k :: 0 <= k < |w| ==> Ignored(w[k])
    requires var e := 1 + |w| + |MembersText(ms)|;
             At(t, 1 + |w|, MembersText(ms) + "}") && At(t, 1, w) && At(t, e + 1, ws) &&
             e + 1 + |ws| == |t| && t[0] == '{' && t[e] == '}'
    ensures ParseSpec(t) == Parsed(TreeOf(ms), |w| + |ObjectText(ms)| - 1)
  {
    assert |ObjectText(ms)| == 2 + |MembersText(ms)|;
    StrayOpen(t, w);
    BodyClose(t, 1 + |w|, ms, ws);
  }

  /** `{` and stray characters: scanning goes on after them, still looking for a key. */
  lemma {:induction false} StrayOpen(t: string, w: string)
    requires 0 < |t| && t[0] == '{' && At(t, 1, w)
    requires forall k :: 0 <= k < |w| ==> Ignored(w[k])
    ensures ParseSpec(t) == ScanSpec(t, 1 + |w|, true, false, "", map[])
  {
    OpenObject(t);
    AtIgnored(t, 1, w);
    IgnoredSkipped(t, 1, |w|, "", map[]);
  }

  /** Members, `}` and spaces up to the end of the input: the object is returned. */
  lemma {:induction false} BodyClose(t: string, i: nat, ms: seq<Member>, ws: string)
    requires 0 < i && ObjectOk(ms) && At(t, i, MembersText(ms) + "}") && Spaces(ws)
    requires var e := i + |MembersText(ms)|;
             At(t, e + 1, ws) && e + 1 + |ws| == |t| && t[e] == '}'
    ensures ScanSpec(t, i, true, false, "", map[]) == Parsed(TreeOf(ms), i + |MembersText(ms)|)
  {
    var e := i + |MembersText(ms)|;
    CloseNoQuote(t, e, ws);
    BodyScan(t, i, ms);
    CloseLast(t, e, ws, ms[|ms| - 1].key, Store(map[], ms));
  }

  /** The closing `}` with only spaces after it ends the scan with the object built. */
  lemma {:induction false} CloseLast(t: string, e: nat, ws: string, key: string, acc: map<string, TreeValue>)
    requires 0 < e < |t| && t[e] == '}' && PrevOk(t[e - 1], acc)
    requires At(t, e + 1, ws) && Spaces(ws) && e + 1 + |ws| == |t|
    requires !OccursFrom(t, '"', e)
    ensures ScanSpec(t, e, true, false, key, acc) == Parsed(JsonTree(acc), e)
  {
    CloseAtEnd(t, e, ws, key, acc);
  }
}
