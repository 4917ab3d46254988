/**
  Small inputs, each showing on a concrete string one of the behaviours the
  test suite exercises (TestMain.java), including the one the code does not
  meet: an empty object as a value.
 */
module ParserExamples {
  import opened JsonValues
  import opened MyJsonParser
  import opened JavaStrings

  /** "Empty Object": `{ }` parses to no entries, with the index of its `}` as length. */
  lemma EmptyObject()
    ensures ParseSpec("{ }") == Parsed(JsonTree(map[]), 2)
  {
  }

  /** "Empty Object Key", reduced: `{}` as a value is refused. */
  lemma EmptyObjectValue()
    ensures ParseSpec("{\"a\":{}}") == Failed(IllegalAfterValue)
  {
  }

  /** "Missing Key": a second `{` before any key. */
  lemma MissingKeyExample()
    ensures ParseSpec("{{\"a\"") == Failed(MissingKey)
  {
  }

  /** "Illegal character after key", reduced: a `}` where the value of a key should start. */
  lemma AfterKeyExample()
    ensures ParseSpec("{\"a\": }") == Failed(InvalidAfterKey)
  {
  }

  /** "Incomplete Schema", reduced: the input ends before any `}`. */
  lemma IncompleteExample()
    ensures ParseSpec("{\"a\" ") == Failed(Incomplete)
  {
  }

  /** Without any quote the beginning is not checked: `x }` is accepted. */
  lemma NoQuoteAccepted()
    ensures ParseSpec("x }") == Parsed(JsonTree(map[]), 2)
  {
  }

  /** No colon is needed: a second quoted string after a key is that key's value. */
  lemma NoColonNeeded()
    ensures ParseSpec("{\"a\" \"b\"}") == Parsed(JsonTree(map["a" := TStr("b")]), 8)
  {
    var t := "{\"a\" \"b\"}";
    var acc: map<string, TreeValue> := map[];
    var acc1 := acc["a" := TStr("b")];
    IndexOfIs(t, '"', 2, 3);
    IndexOfIs(t, '"', 6, 7);
    assert t[2..3] == "a" && t[6..7] == "b";
    assert ScanSpec(t, 8, true, false, "a", acc1) == Parsed(JsonTree(acc1), 8);
    assert ScanSpec(t, 5, false, false, "a", acc) == ScanSpec(t, 8, true, false, "a", acc1);
    assert ScanSpec(t, 4, false, false, "a", acc) == ScanSpec(t, 5, false, false, "a", acc);
    assert ScanSpec(t, 1, true, false, "", acc) == ScanSpec(t, 4, false, false, "a", acc);
  }

  /**
    A colon with no key before it is accepted: after it a `}` is skipped, and
    the input ends in `}`, so the empty object comes back with length -1.
   */
  lemma ColonOnly()
    ensures ParseSpec("{:}") == Parsed(JsonTree(map[]), -1)
  {
  }

  /** The empty input makes the final check read before the start. */
  lemma EmptyInput()
    ensures ParseSpec("") == Failed(Fault)
  {
  }
}
