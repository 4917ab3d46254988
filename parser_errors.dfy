/**
  Whole inputs and what `parse` makes of them: each error of the loop for an
  input built around it, and two inputs outside the grammar of the test suite
  that the code nevertheless accepts or rejects.
 */
module ParserErrors {
  import opened JavaStrings
  import opened JsonValues
  import opened JsonLiteText
  import opened MyJsonParser
  import opened ParserProperties
  import opened ParserRoundTrip

  /** Spaces, a quoted key and spaces. */
  function KeyText(lead: string, k: string, g: string): string {
    lead + "\"" + k + "\"" + g
  }

  /** Past spaces, a quoted key and spaces: the key is pending, no colon seen. */
  lemma {:induction false} KeyTextScan(s: string, i: nat, lead: string, k: string, g: string)
    requires 0 < i && At(s, i, KeyText(lead, k, g))
    requires Spaces(lead) && '"' !in k && Spaces(g)
    ensures |KeyText(lead, k, g)| == |lead| + 2 + |k| + |g|
    ensures ScanSpec(s, i, true, false, "", map[]) ==
            ScanSpec(s, i + |KeyText(lead, k, g)|, false, false, k, map[])
  {
    var p1 := lead + "\"";
    var p2 := p1 + k;
    var p3 := p2 + "\"";
    AtSplit(s, i, p3, g);
    AtSplit(s, i, p2, "\"");
    AtSplit(s, i, p1, k);
    AtSplit(s, i, lead, "\"");
    AtChar(s, i + |lead|, '"');
    AtChar(s, i + |p2|, '"');
    KeyScan(s, i, lead, k, "", map[]);
    AtSpaces(s, i + |p3|, g);
    SpacesSkipped(s, i + |p3|, |g|, false, false, k, map[]);
  }

  /** `{`, spaces, a quoted key and spaces: the key is pending, no colon seen. */
  lemma {:induction false} KeyOpen(t: string, lead: string, k: string, g: string)
    requires At(t, 0, "{" + KeyText(lead, k, g))
    requires Spaces(lead) && '"' !in k && Spaces(g)
    ensures var n := 1 + |KeyText(lead, k, g)|;
            n <= |t| && ParseSpec(t) == ScanSpec(t, n, false, false, k, map[])
  {
    AtSplit(t, 0, "{", KeyText(lead, k, g));
    AtChar(t, 0, '{');
    OpenObject(t);
    KeyTextScan(t, 1, lead, k, g);
  }

  /** `{` and a member's head up to the spaces after its colon: the key is pending, the colon seen. */
  lemma {:induction false} HeadOpen(t: string, lead: string, k: string, bc: string, ac: string)
    requires At(t, 0, "{" + HeadText(lead, k, bc, ac))
    requires Spaces(lead) && '"' !in k && Spaces(bc) && Spaces(ac)
    ensures var n := |"{" + HeadText(lead, k, bc, ac)|;
            n <= |t| && ParseSpec(t) == ScanSpec(t, n, false, true, k, map[])
  {
    AtSplit(t, 0, "{", HeadText(lead, k, bc, ac));
    AtChar(t, 0, '{');
    OpenObject(t);
    HeadScan(t, 1, lead, k, bc, ac, "", map[]);
  }

  /** A character that, with a key pending, is neither skipped nor starts a value nor is a colon. */
  predicate Unexpected(c: char) {
    c != ' ' && c != '"' && c != '{' && c != ':'
  }

  /**
    Key without a colon: "Invalid character after given key." when the key
    and its spaces are followed by any other character (a `}` or a `[`), and
    "Incomplete schema." when nothing follows.
   */
  lemma {:induction false} AfterKeyInput(t: string, lead: string, k: string, g: string, u: string)
    requires t == "{" + lead + "\"" + k + "\"" + g + u
    requires Spaces(lead) && '"' !in k && Spaces(g)
    ensures u == [] ==> ParseSpec(t) == Failed(Incomplete)
    ensures u != [] && Unexpected(u[0]) ==> ParseSpec(t) == Failed(InvalidAfterKey)
  {
    var h := KeyText(lead, k, g);
    var n := 1 + |h|;
    assert t == "{" + h + u;
    assert At(t, 0, t);
    AtSplit(t, 0, "{" + h, u);
    KeyOpen(t, lead, k, g);
    if u == [] {
      assert t[|t| - 1] == ("{" + h)[|t| - 1];
      assert h[|h| - 1] == (lead + "\"" + k + "\"" + g)[|h| - 1];
    } else {
      assert t[n] == u[0];
    }
  }

  /**
    Key and colon: "Invalid character after given key." when the colon and
    its spaces are followed by any other character that cannot start a value
    (`{ "name": }"sam doe" }`, `{ "anothaa one": [}} `), "Duplicate colon
    before given value." when a second colon follows, and "Incomplete schema."
    when nothing follows.
   */
  lemma {:induction false} AfterColonInput(t: string, lead: string, k: string, bc: string, ac: string, u: string)
    requires t == "{" + lead + "\"" + k + "\"" + bc + ":" + ac + u
    requires Spaces(lead) && '"' !in k && Spaces(bc) && Spaces(ac)
    ensures u == [] ==> ParseSpec(t) == Failed(Incomplete)
    ensures u != [] && Unexpected(u[0]) ==> ParseSpec(t) == Failed(InvalidAfterKey)
    ensures u != [] && u[0] == ':' ==> ParseSpec(t) == Failed(DuplicateColon)
  {
    var h := "{" + HeadText(lead, k, bc, ac);
    HeadConcat(lead, k, bc, ac, u);
    SuffixLayout(t, h, u);
    HeadLast(lead, k, bc, ac);
    HeadOpen(t, lead, k, bc, ac);
    PendingAt(t, |h|, true, k, map[]);
  }

  /** Where a text and what follows it lie. */
  lemma SuffixLayout(t: string, h: string, u: string)
    requires t == h + u && h != []
    ensures At(t, 0, h) && |t| == |h| + |u|
    ensures u != [] ==> t[|h|] == u[0]
    ensures u == [] ==> t[|t| - 1] == h[|h| - 1]
  {
    assert At(t, 0, t);
    AtSplit(t, 0, h, u);
  }

  /** `{` and a member's head end with its colon or a space. */
  lemma HeadLast(lead: string, k: string, bc: string, ac: string)
    requires Spaces(ac)
    ensures var h := "{" + HeadText(lead, k, bc, ac);
            h[|h| - 1] == ':' || h[|h| - 1] == ' '
  {
    var h := "{" + HeadText(lead, k, bc, ac);
    assert h == ("{" + lead + "\"" + k + "\"" + bc + ":") + ac;
    if ac != [] {
      assert h[|h| - 1] == ac[|ac| - 1];
    }
  }

  /**
    With a key pending, the next character decides: at the end of an input that
    does not end in `}` the schema is incomplete; a character that cannot start
    a value is an error, and so is a second colon.
   */
  lemma {:induction false} PendingAt(t: string, n: nat, passedColon: bool, k: string, acc: map<string, TreeValue>)
    requires 0 < n <= |t|
    ensures n == |t| && t[n - 1] != '}' ==> ScanSpec(t, n, false, passedColon, k, acc) == Failed(Incomplete)
    ensures n < |t| && Unexpected(t[n]) ==> ScanSpec(t, n, false, passedColon, k, acc) == Failed(InvalidAfterKey)
    ensures n < |t| && t[n] == ':' && passedColon ==> ScanSpec(t, n, false, passedColon, k, acc) == Failed(DuplicateColon)
  {
  }

  /** The member head written out is `HeadText`. */
  lemma HeadConcat(lead: string, k: string, bc: string, ac: string, u: string)
    ensures "{" + lead + "\"" + k + "\"" + bc + ":" + ac + u == "{" + HeadText(lead, k, bc, ac) + u
  {
  }

  /**
    "Missing Key.": a second `{` before any key, whatever stray characters
    (other than quotes, braces and colons) stand between the two.
   */
  lemma {:induction false} MissingKeyInput(t: string, w: string, rest: string)
    requires t == "{" + w + "{" + rest
    requires forall k :: 0 <= k < |w| ==> Ignored(w[k])
    ensures ParseSpec(t) == Failed(MissingKey)
  {
    assert At(t, 0, t);
    AtSplit(t, 0, "{" + w + "{", rest);
    AtSplit(t, 0, "{" + w, "{");
    AtSplit(t, 0, "{", w);
    AtChar(t, 0, '{');
    AtChar(t, 1 + |w|, '{');
    OpenObject(t);
    AtIgnored(t, 1, w);
    IgnoredSkipped(t, 1, |w|, "", map[]);
  }

  /**
    "Incomplete schema.": a complete first member followed by anything
    without a quote, brace or colon, for instance `{"uhhh": "uhhhhh" `.
   */
  lemma {:induction false} IncompleteAfterValue(t: string, lead: string, k: string, bc: string, ac: string, v: string,
                             w: string)
    requires t == "{" + HeadText(lead, k, bc, ac) + "\"" + v + "\"" + w
    requires Spaces(lead) && '"' !in k && Spaces(bc) && Spaces(ac) && '"' !in v
    requires forall j :: 0 <= j < |w| ==> Ignored(w[j])
    ensures ParseSpec(t) == Failed(Incomplete)
  {
    var h := "{" + HeadText(lead, k, bc, ac);
    StrTailLayout(t, h, v, w);
    IncompleteScan(t, lead, k, bc, ac, v, w);
  }

  /** `IncompleteAfterValue` on the positions its text occupies. */
  lemma {:induction false} IncompleteScan(t: string, lead: string, k: string, bc: string, ac: string, v: string, w: string)
    requires Spaces(lead) && '"' !in k && Spaces(bc) && Spaces(ac) && '"' !in v
    requires forall j :: 0 <= j < |w| ==> Ignored(w[j])
    requires var h := "{" + HeadText(lead, k, bc, ac);
             At(t, 0, h) && At(t, |h|, ValText(VStr(v))) && At(t, |h| + |v| + 2, w) &&
             |t| == |h| + |v| + 2 + |w| && t[|t| - 1] != '}'
    ensures ParseSpec(t) == Failed(Incomplete)
  {
    var h := "{" + HeadText(lead, k, bc, ac);
    var p := |h|;
    var acc: map<string, TreeValue> := map[];
    var acc1 := acc[k := TStr(v)];
    HeadOpen(t, lead, k, bc, ac);
    StrQuoteScan(t, p, v, k, acc);
    AtIgnored(t, p + |v| + 2, w);
    IgnoredSkipped(t, p + |v| + 2, |w|, k, acc1);
    EndIncomplete(t, p + |v| + 2 + |w|, k, acc1);
  }

  /** The scan reaching the end of a text whose last character is not `}`. */
  lemma {:induction false} EndIncomplete(s: string, i: nat, key: string, acc: map<string, TreeValue>)
    requires i == |s| && 0 < |s| && s[|s| - 1] != '}'
    ensures ScanSpec(s, i, true, false, key, acc) == Failed(Incomplete)
  {
  }

  /** Where a text, a quoted string and the characters after it lie. */
  lemma StrTailLayout(t: string, h: string, v: string, w: string)
    requires t == h + "\"" + v + "\"" + w
    requires forall j :: 0 <= j < |w| ==> Ignored(w[j])
    ensures At(t, 0, h) && At(t, |h|, ValText(VStr(v))) && At(t, |h| + |v| + 2, w)
    ensures |t| == |h| + |v| + 2 + |w| && t[|t| - 1] != '}'
  {
    var q := "\"";
    assert At(t, 0, t);
    AtSplit(t, 0, h + q + v + q, w);
    AtSplit(t, 0, h + q + v, q);
    AtSplit(t, 0, h + q, v);
    AtSplit(t, 0, h, q);
    AtJoin(t, |h|, q, v);
    AtJoin(t, |h|, q + v, q);
    if w == [] {
      assert t[|t| - 1] == ValText(VStr(v))[|v| + 1];
    } else {
      assert t[|t| - 1] == w[|w| - 1];
    }
  }

  /**
    A missing outer `}` is not noticed when the last value is an object: the
    nested parse stops at the end of the input, which ends with the nested
    object's `}`, and the outer object is returned with length -1.
   */
  lemma {:induction false} MissingOuterClose(t: string, lead: string, k: string, bc: string, ac: string, c: seq<Member>)
    requires t == "{" + HeadText(lead, k, bc, ac) + ObjectText(c)
    requires Spaces(lead) && '"' !in k && k != "" && Spaces(bc) && Spaces(ac) && ObjectOk(c)
    ensures ParseSpec(t) == Parsed(JsonTree(map[k := TObj(TreeOf(c))]), -1)
  {
    var h := "{" + HeadText(lead, k, bc, ac);
    assert At(t, 0, t);
    AtSplit(t, 0, h, ObjectText(c));
    assert At(t, |t|, "");
    HeadOpen(t, lead, k, bc, ac);
    ObjValueScan(t, |h|, c, "", k, map[], true, "");
    assert t[|t| - 1] == ObjectText(c)[|ObjectText(c)| - 1] == '}';
  }

  /**
    An object whose `}` is followed by another `}` and then a comma before
    the next quote fails with "Invalid character after given object.": the
    text up to that quote does not trim to one comma.
   */
  lemma {:induction false} InnerCloseFails(s: string, c: seq<Member>, rest: string)
    requires s == ObjectText(c) + "}," + rest
    requires ObjectOk(c) && !EndsWithObject(c) && '"' in rest
    ensures ParseSpec(s) == Failed(InvalidAfterObject)
  {
    var e := 1 + |MembersText(c)|;
    CloseLayout(s, c, rest);
    NoLoneComma(s, e);
    FlatBodyScan(s, c);
    CloseRule(s, e, c[|c| - 1].key, Store(map[], c));
  }

  /**
    An object whose last member is a string: `parse` arrives at its `}` with
    every member stored, whatever follows.
   */
  lemma {:induction false} FlatBodyScan(s: string, c: seq<Member>)
    requires ObjectOk(c) && !EndsWithObject(c)
    requires At(s, 1, MembersText(c)) && s[0] == '{'
    ensures var e := 1 + |MembersText(c)|;
            0 < e && PrevOk(s[e - 1], Store(map[], c)) &&
            ParseSpec(s) == ScanSpec(s, e, true, false, c[|c| - 1].key, Store(map[], c))
  {
    OpenObject(s);
    MembersScan(s, 1, c, "", map[]);
    LastCharOk(s, 1, c, map[]);
  }

  /** Where the pieces of an object followed by `},` and more lie. */
  lemma {:induction false} CloseLayout(s: string, c: seq<Member>, rest: string)
    requires s == ObjectText(c) + "}," + rest && '"' in rest
    ensures var e := 1 + |MembersText(c)|;
            e + 2 < |s| && s[0] == '{' && At(s, 1, MembersText(c)) &&
            s[e] == '}' && s[e + 1] == '}' && s[e + 2] == ',' && OccursFrom(s, '"', e + 3)
  {
    var n := |ObjectText(c)|;
    assert s == ObjectText(c) + ("}," + rest);
    assert At(s, 0, s);
    AtSplit(s, 0, ObjectText(c), "}," + rest);
    ObjectLayout(s, c);
    TailLayout(s, n, rest);
  }

  /** Where `},` and a text holding a quote lie. */
  lemma TailLayout(s: string, a: nat, rest: string)
    requires At(s, a, "}," + rest) && '"' in rest
    ensures a + 1 < |s| && s[a] == '}' && s[a + 1] == ',' && OccursFrom(s, '"', a + 2)
  {
    assert s[a + 0] == ("}," + rest)[0] && s[a + 1] == ("}," + rest)[1];
    var j :| 0 <= j < |rest| && rest[j] == '"';
    assert s[a + (2 + j)] == ("}," + rest)[2 + j];
  }

  /** A `}` followed by `}` and `,`: the text up to the next quote is not one comma. */
  lemma NoLoneComma(s: string, e: nat)
    requires e + 2 < |s| && s[e] == '}' && s[e + 1] == '}' && s[e + 2] == ','
    requires OccursFrom(s, '"', e + 3)
    ensures var q := IndexOf(s, '"', e);
            e + 2 < q && forall p :: !LoneComma(s, e, q, p)
  {
    var q := IndexOf(s, '"', e);
    assert s[e + 1] != ',' && !IsTrimmable(s[e + 1]);
  }

  /** An error in a nested object is the error of the whole input. */
  lemma {:induction false} NestedFails(t: string, lead: string, k: string, bc: string, ac: string, u: string)
    requires t == "{" + HeadText(lead, k, bc, ac) + u
    requires Spaces(lead) && '"' !in k && Spaces(bc) && Spaces(ac)
    requires u != [] && u[0] == '{' && ParseSpec(u).Failed?
    ensures ParseSpec(t) == ParseSpec(u)
  {
    var h := "{" + HeadText(lead, k, bc, ac);
    assert At(t, 0, t);
    AtSplit(t, 0, h, u);
    HeadOpen(t, lead, k, bc, ac);
    assert t[|h|..] == u;
    NestedStep(t, |h|, true, k, map[]);
  }

  /**
    Two objects closing together are refused when another member follows:
    `{"a":{"b":{"c":"d"}},"e":"f"}` is "Invalid character after given
    object.", raised by the innermost object, which reads `},` up to the
    next quote.
   */
  lemma {:induction false} DeepCloseRejected(t: string, l1: string, k1: string, b1: string, a1: string,
                          l2: string, k2: string, b2: string, a2: string, c: seq<Member>, rest: string)
    requires t == "{" + HeadText(l1, k1, b1, a1) + "{" + HeadText(l2, k2, b2, a2) + ObjectText(c) + "}," + rest
    requires Spaces(l1) && '"' !in k1 && Spaces(b1) && Spaces(a1)
    requires Spaces(l2) && '"' !in k2 && Spaces(b2) && Spaces(a2)
    requires ObjectOk(c) && !EndsWithObject(c) && '"' in rest
    ensures ParseSpec(t) == Failed(InvalidAfterObject)
  {
    var inner := ObjectText(c) + "}," + rest;
    var middle := "{" + HeadText(l2, k2, b2, a2) + inner;
    assert t == "{" + HeadText(l1, k1, b1, a1) + middle;
    InnerCloseFails(inner, c, rest);
    NestedFails(middle, l2, k2, b2, a2, inner);
    NestedFails(t, l1, k1, b1, a1, middle);
  }
}
