/**
  The accepted inputs of the test suite (TestMain.java), each with its keys
  and values left free: `parse` returns exactly the object the test then
  reads back. Every shape is an instance of the round trip.
 */
module ParserTestShapes {
  import opened JsonValues
  import opened JsonLiteText
  import opened MyJsonParser
  import opened ParserRoundTrip

  /** A string member with the given spaces around its key and colon, and none after its value. */
  function StrMember(lead: string, k: string, beforeColon: string, afterColon: string, v: string): Member {
    Member(lead, k, beforeColon, afterColon, VStr(v), "")
  }

  lemma {:induction false} OneText(m: Member)
    ensures ObjectText([m]) == "{" + MemberText(m) + "}"
  {
    assert MembersText([m]) == MemberText(m);
  }

  lemma {:induction false} PairText(m1: Member, m2: Member)
    ensures ObjectText([m1, m2]) == "{" + (MemberText(m1) + "," + MemberText(m2)) + "}"
  {
    assert [m1, m2][1..] == [m2];
    assert MembersText([m1, m2]) == MemberText(m1) + "," + MembersText([m2]);
    assert MembersText([m2]) == MemberText(m2);
  }

  lemma {:induction false} OneOk(m: Member)
    requires MemberOk(m, true)
    ensures ObjectOk([m])
  {
    assert MembersOk([m][1..]);
  }

  lemma {:induction false} PairOk(m1: Member, m2: Member)
    requires MemberOk(m1, false) && MemberOk(m2, true)
    ensures ObjectOk([m1, m2])
  {
    assert [m1, m2][1..] == [m2];
    assert MembersOk([m2][1..]);
  }

  lemma OneTree(m: Member)
    ensures TreeOf([m]) == JsonTree(map[m.key := ValTree(m.val)])
  {
    assert Store(map[], [m]) == Store(map[m.key := ValTree(m.val)], []);
  }

  lemma PairTree(m1: Member, m2: Member)
    ensures TreeOf([m1, m2]) == JsonTree(map[m1.key := ValTree(m1.val)][m2.key := ValTree(m2.val)])
  {
    var acc := map[m1.key := ValTree(m1.val)];
    assert [m1, m2][1..] == [m2];
    assert Store(map[], [m1, m2]) == Store(acc, [m2]);
    assert Store(acc, [m2]) == Store(acc[m2.key := ValTree(m2.val)], []);
  }

  /** The text of a string member with no spaces around its colon. */
  lemma TightText(lead: string, k: string, v: string, trail: string)
    ensures MemberText(Member(lead, k, "", "", VStr(v), trail)) == lead + "\"" + k + "\":\"" + v + "\"" + trail
  {
    var m := Member(lead, k, "", "", VStr(v), trail);
    assert MemberText(m) == lead + "\"" + k + "\"" + "" + ":" + "" + ("\"" + v + "\"") + trail;
  }

  /** The text of a string member with one space on either side of its colon. */
  lemma SpacedText(lead: string, k: string, v: string)
    ensures MemberText(StrMember(lead, k, " ", " ", v)) == lead + "\"" + k + "\" : \"" + v + "\""
  {
    var m := StrMember(lead, k, " ", " ", v);
    assert MemberText(m) == lead + "\"" + k + "\"" + " " + ":" + " " + ("\"" + v + "\"") + "";
  }

  /** The text of an object member with no spaces around its colon. */
  lemma NestedText(lead: string, k: string, c: seq<Member>, trail: string)
    ensures MemberText(Member(lead, k, "", "", VObj(c), trail)) == lead + "\"" + k + "\":" + ObjectText(c) + trail
  {
    var m := Member(lead, k, "", "", VObj(c), trail);
    assert MemberText(m) == lead + "\"" + k + "\"" + "" + ":" + "" + ObjectText(c) + trail;
  }

  /** The round trip of the smallest object: `{"k":"v"}` holds `v` under `k`. */
  lemma {:induction false} SingleMember(t: string, k: string, v: string)
    requires t == "{\"" + k + "\":\"" + v + "\"}"
    requires '"' !in k && '"' !in v
    ensures ParseSpec(t) == Parsed(JsonTree(map[k := TStr(v)]), 6 + |k| + |v|)
  {
    var m := StrMember("", k, "", "", v);
    TightText("", k, v, "");
    OneText(m);
    SingleMemberJoin(t, k, v);
    assert MemberOk(m, true);
    OneOk(m);
    OneTree(m);
    RoundTrip([m], "");
  }

  lemma SingleMemberJoin(t: string, k: string, v: string)
    requires t == "{\"" + k + "\":\"" + v + "\"}"
    ensures "{" + ("" + "\"" + k + "\":\"" + v + "\"" + "") + "}" + "" == t
  {
  }

  /** "String Value": `{ "k":"v" } `, spaces around the member and after the object. */
  lemma {:induction false} StringValue(t: string, k: string, v: string)
    requires t == "{ \"" + k + "\":\"" + v + "\" } "
    requires '"' !in k && '"' !in v
    ensures ParseSpec(t) == Parsed(JsonTree(map[k := TStr(v)]), 8 + |k| + |v|)
  {
    var m := Member(" ", k, "", "", VStr(v), " ");
    TightText(" ", k, v, " ");
    OneText(m);
    StringValueJoin(t, k, v);
    assert MemberOk(m, true);
    OneOk(m);
    OneTree(m);
    RoundTrip([m], " ");
  }

  lemma StringValueJoin(t: string, k: string, v: string)
    requires t == "{ \"" + k + "\":\"" + v + "\" } "
    ensures "{" + (" " + "\"" + k + "\":\"" + v + "\"" + " ") + "}" + " " == t
  {
  }

  /** A nested object: `{"k":{"k2":"v"}}` holds under `k` an object holding `v` under `k2`. */
  lemma {:induction false} SingleNested(t: string, k: string, k2: string, v: string)
    requires t == "{\"" + k + "\":{\"" + k2 + "\":\"" + v + "\"}}"
    requires k != "" && '"' !in k && '"' !in k2 && '"' !in v
    ensures ParseSpec(t) == Parsed(JsonTree(map[k := TObj(JsonTree(map[k2 := TStr(v)]))]), 11 + |k| + |k2| + |v|)
  {
    var c := StrMember("", k2, "", "", v);
    var m := Member("", k, "", "", VObj([c]), "");
    SingleNestedText(t, k, k2, v);
    assert MemberOk(c, true);
    OneOk(c);
    OneTree(c);
    assert MemberOk(m, true);
    OneOk(m);
    OneTree(m);
    RoundTrip([m], "");
  }

  lemma SingleNestedText(t: string, k: string, k2: string, v: string)
    requires t == "{\"" + k + "\":{\"" + k2 + "\":\"" + v + "\"}}"
    ensures ObjectText([Member("", k, "", "", VObj([StrMember("", k2, "", "", v)]), "")]) + "" == t
  {
    var c := StrMember("", k2, "", "", v);
    TightText("", k2, v, "");
    OneText(c);
    NestedText("", k, [c], "");
    OneText(Member("", k, "", "", VObj([c]), ""));
    SingleNestedJoin(t, k, k2, v);
  }

  lemma SingleNestedJoin(t: string, k: string, k2: string, v: string)
    requires t == "{\"" + k + "\":{\"" + k2 + "\":\"" + v + "\"}}"
    ensures "{" + ("" + "\"" + k + "\":" + ("{" + ("" + "\"" + k2 + "\":\"" + v + "\"" + "") + "}") + "") + "}" + "" == t
  {
  }

  /** "Unique Keys": `{ "k":"v1", "k" : "v2"}` holds only the second value. */
  lemma {:induction false} UniqueKeys(t: string, k: string, v1: string, v2: string)
    requires t == "{ \"" + k + "\":\"" + v1 + "\", \"" + k + "\" : \"" + v2 + "\"}"
    requires '"' !in k && '"' !in v1 && '"' !in v2
    ensures ParseSpec(t) == Parsed(JsonTree(map[k := TStr(v2)]), 16 + 2 * |k| + |v1| + |v2|)
  {
    var m1 := StrMember(" ", k, "", "", v1);
    var m2 := StrMember(" ", k, " ", " ", v2);
    UniqueKeysText(t, k, v1, v2);
    assert MemberOk(m1, false) && MemberOk(m2, true);
    PairOk(m1, m2);
    PairTree(m1, m2);
    assert map[k := TStr(v1)][k := TStr(v2)] == map[k := TStr(v2)];
    RoundTrip([m1, m2], "");
  }

  lemma UniqueKeysText(t: string, k: string, v1: string, v2: string)
    requires t == "{ \"" + k + "\":\"" + v1 + "\", \"" + k + "\" : \"" + v2 + "\"}"
    ensures ObjectText([StrMember(" ", k, "", "", v1), StrMember(" ", k, " ", " ", v2)]) + "" == t
  {
    var m1 := StrMember(" ", k, "", "", v1);
    var m2 := StrMember(" ", k, " ", " ", v2);
    TightText(" ", k, v1, "");
    SpacedText(" ", k, v2);
    PairText(m1, m2);
    UniqueKeysJoin(t, k, v1, v2);
  }

  lemma UniqueKeysJoin(t: string, k: string, v1: string, v2: string)
    requires t == "{ \"" + k + "\":\"" + v1 + "\", \"" + k + "\" : \"" + v2 + "\"}"
    ensures "{" + ((" " + "\"" + k + "\":\"" + v1 + "\"" + "") + "," + (" " + "\"" + k + "\" : \"" + v2 + "\"")) + "}" + "" == t
  {
  }

  /** "No Whitespace": `{"k":{"k1":"v1","k2":"v2"}}` holds under `k` the object with both strings. */
  lemma {:induction false} NoWhitespace(t: string, k: string, k1: string, v1: string, k2: string, v2: string)
    requires t == "{\"" + k + "\":{\"" + k1 + "\":\"" + v1 + "\",\"" + k2 + "\":\"" + v2 + "\"}}"
    requires k != "" && '"' !in k && '"' !in k1 && '"' !in v1 && '"' !in k2 && '"' !in v2
    ensures ParseSpec(t) == Parsed(JsonTree(map[k := TObj(JsonTree(map[k1 := TStr(v1)][k2 := TStr(v2)]))]),
                                   17 + |k| + |k1| + |v1| + |k2| + |v2|)
  {
    var c1 := StrMember("", k1, "", "", v1);
    var c2 := StrMember("", k2, "", "", v2);
    var m := Member("", k, "", "", VObj([c1, c2]), "");
    NoWhitespaceText(t, k, k1, v1, k2, v2);
    assert MemberOk(c1, false) && MemberOk(c2, true);
    PairOk(c1, c2);
    PairTree(c1, c2);
    assert MemberOk(m, true);
    OneOk(m);
    OneTree(m);
    RoundTrip([m], "");
  }

  lemma NoWhitespaceText(t: string, k: string, k1: string, v1: string, k2: string, v2: string)
    requires t == "{\"" + k + "\":{\"" + k1 + "\":\"" + v1 + "\",\"" + k2 + "\":\"" + v2 + "\"}}"
    ensures ObjectText([Member("", k, "", "", VObj([StrMember("", k1, "", "", v1), StrMember("", k2, "", "", v2)]), "")]) + "" == t
  {
    var c1 := StrMember("", k1, "", "", v1);
    var c2 := StrMember("", k2, "", "", v2);
    TightText("", k1, v1, "");
    TightText("", k2, v2, "");
    PairText(c1, c2);
    NestedText("", k, [c1, c2], "");
    OneText(Member("", k, "", "", VObj([c1, c2]), ""));
    NoWhitespaceJoin(t, k, k1, v1, k2, v2);
  }

  lemma NoWhitespaceJoin(t: string, k: string, k1: string, v1: string, k2: string, v2: string)
    requires t == "{\"" + k + "\":{\"" + k1 + "\":\"" + v1 + "\",\"" + k2 + "\":\"" + v2 + "\"}}"
    ensures "{" + ("" + "\"" + k + "\":" + ("{" + (("" + "\"" + k1 + "\":\"" + v1 + "\"" + "") + "," + ("" + "\"" + k2 + "\":\"" + v2 + "\"" + "")) + "}") + "") + "}" + "" == t
  {
  }

  /** "Object Value": `{ "k":{"k1":"v1", "k2":"v2" } }`, spaces inside and around the nested object. */
  lemma {:induction false} ObjectValue(t: string, k: string, k1: string, v1: string, k2: string, v2: string)
    requires t == "{ \"" + k + "\":{\"" + k1 + "\":\"" + v1 + "\", \"" + k2 + "\":\"" + v2 + "\" } }"
    requires k != "" && '"' !in k && '"' !in k1 && '"' !in v1 && '"' !in k2 && '"' !in v2
    ensures ParseSpec(t) == Parsed(JsonTree(map[k := TObj(JsonTree(map[k1 := TStr(v1)][k2 := TStr(v2)]))]),
                                   21 + |k| + |k1| + |v1| + |k2| + |v2|)
  {
    var c1 := StrMember("", k1, "", "", v1);
    var c2 := Member(" ", k2, "", "", VStr(v2), " ");
    var m := Member(" ", k, "", "", VObj([c1, c2]), " ");
    ObjectValueText(t, k, k1, v1, k2, v2);
    assert MemberOk(c1, false) && MemberOk(c2, true);
    PairOk(c1, c2);
    PairTree(c1, c2);
    assert MemberOk(m, true);
    OneOk(m);
    OneTree(m);
    RoundTrip([m], "");
  }

  lemma ObjectValueText(t: string, k: string, k1: string, v1: string, k2: string, v2: string)
    requires t == "{ \"" + k + "\":{\"" + k1 + "\":\"" + v1 + "\", \"" + k2 + "\":\"" + v2 + "\" } }"
    ensures ObjectText([Member(" ", k, "", "", VObj([StrMember("", k1, "", "", v1), Member(" ", k2, "", "", VStr(v2), " ")]), " ")]) + "" == t
  {
    var c1 := StrMember("", k1, "", "", v1);
    var c2 := Member(" ", k2, "", "", VStr(v2), " ");
    TightText("", k1, v1, "");
    TightText(" ", k2, v2, " ");
    PairText(c1, c2);
    NestedText(" ", k, [c1, c2], " ");
    OneText(Member(" ", k, "", "", VObj([c1, c2]), " "));
    ObjectValueJoin(t, k, k1, v1, k2, v2);
  }

  lemma ObjectValueJoin(t: string, k: string, k1: string, v1: string, k2: string, v2: string)
    requires t == "{ \"" + k + "\":{\"" + k1 + "\":\"" + v1 + "\", \"" + k2 + "\":\"" + v2 + "\" } }"
    ensures "{" + (" " + "\"" + k + "\":" + ("{" + (("" + "\"" + k1 + "\":\"" + v1 + "\"" + "") + "," + (" " + "\"" + k2 + "\":\"" + v2 + "\"" + " ")) + "}") + " ") + "}" + "" == t
  {
  }

  /**
    "String Object Mixed", reduced to its point: `{"k":{"k1":"v1"},"k2":"v2"}`,
    a nested object followed by another member.
   */
  lemma {:induction false} ObjectThenString(t: string, k: string, k1: string, v1: string, k2: string, v2: string)
    requires t == "{\"" + k + "\":{\"" + k1 + "\":\"" + v1 + "\"},\"" + k2 + "\":\"" + v2 + "\"}"
    requires k != "" && '"' !in k && '"' !in k1 && '"' !in v1 && '"' !in k2 && '"' !in v2
    ensures ParseSpec(t) == Parsed(JsonTree(map[k := TObj(JsonTree(map[k1 := TStr(v1)]))][k2 := TStr(v2)]),
                                   17 + |k| + |k1| + |v1| + |k2| + |v2|)
  {
    var c := StrMember("", k1, "", "", v1);
    var m1 := Member("", k, "", "", VObj([c]), "");
    var m2 := StrMember("", k2, "", "", v2);
    ObjectThenStringText(t, k, k1, v1, k2, v2);
    assert MemberOk(c, true);
    OneOk(c);
    OneTree(c);
    assert MemberOk(m1, false) && MemberOk(m2, true);
    PairOk(m1, m2);
    PairTree(m1, m2);
    RoundTrip([m1, m2], "");
  }

  lemma ObjectThenStringText(t: string, k: string, k1: string, v1: string, k2: string, v2: string)
    requires t == "{\"" + k + "\":{\"" + k1 + "\":\"" + v1 + "\"},\"" + k2 + "\":\"" + v2 + "\"}"
    ensures ObjectText([Member("", k, "", "", VObj([StrMember("", k1, "", "", v1)]), ""), StrMember("", k2, "", "", v2)]) + "" == t
  {
    var c := StrMember("", k1, "", "", v1);
    TightText("", k1, v1, "");
    OneText(c);
    NestedText("", k, [c], "");
    TightText("", k2, v2, "");
    PairText(Member("", k, "", "", VObj([c]), ""), StrMember("", k2, "", "", v2));
    ObjectThenStringJoin(t, k, k1, v1, k2, v2);
  }

  lemma ObjectThenStringJoin(t: string, k: string, k1: string, v1: string, k2: string, v2: string)
    requires t == "{\"" + k + "\":{\"" + k1 + "\":\"" + v1 + "\"},\"" + k2 + "\":\"" + v2 + "\"}"
    ensures "{" + (("" + "\"" + k + "\":" + ("{" + ("" + "\"" + k1 + "\":\"" + v1 + "\"" + "") + "}") + "") + "," + ("" + "\"" + k2 + "\":\"" + v2 + "\"" + "")) + "}" + "" == t
  {
  }
}
