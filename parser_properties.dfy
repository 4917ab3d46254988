/**
  What `parse` promises, stated over `ParseSpec` (which the method `Parse` is
  proved to compute): two facts about whole runs of the scan, proved by
  induction along it, and the rules for a character after a key, for a nested
  object and for a closing brace, which the lemmas about whole inputs build on.
 */
module ParserProperties {
  import opened JavaStrings
  import opened JsonValues
  import opened MyJsonParser

  /** No key and no string value, at any depth, contains a quote. */
  predicate QuoteFree(t: JsonTree)
    decreases t
  {
    forall k | k in t.entries ::
      '"' !in k &&
      match t.entries[k]
      case TStr(s) => '"' !in s
      case TObj(c) => QuoteFree(c)
  }

  /** A result a scan can produce: never the beginning error, and a quote-free tree. */
  predicate Sound(r: ParseResult) {
    match r
    case Failed(e) => e != IllegalBeginning
    case Parsed(t, _) => QuoteFree(t)
  }

  /** The text between a quote at `i` and the next quote contains no quote. */
  lemma SpanQuoteFree(text: string, i: nat)
    requires i < |text| && IndexOf(text, '"', i + 1) != -1
    ensures '"' !in text[i + 1..IndexOf(text, '"', i + 1)]
  {
    var span := text[i + 1..IndexOf(text, '"', i + 1)];
    forall k | 0 <= k < |span|
      ensures span[k] != '"'
    {
      assert span[k] == text[i + 1 + k];
    }
  }

  /** Storing a quote-free key and value keeps an object quote-free. */
  lemma StoreQuoteFree(acc: map<string, TreeValue>, key: string, v: TreeValue)
    requires QuoteFree(JsonTree(acc)) && '"' !in key
    requires match v
             case TStr(s) => '"' !in s
             case TObj(c) => QuoteFree(c)
    ensures QuoteFree(JsonTree(acc[key := v]))
  {
  }

  /**
    From any reachable state (a quote-free pending key and quote-free entries
    so far) the scan ends in a sound result.
   */
  lemma {:induction false} ScanSound(text: string, i: nat, completed: bool, passedColon: bool, key: string,
                                     acc: map<string, TreeValue>)
    requires i <= |text| && (completed || 0 < i)
    requires '"' !in key && QuoteFree(JsonTree(acc))
    ensures Sound(ScanSpec(text, i, completed, passedColon, key, acc))
    decreases |text|, 2 * (|text| - i) + (if completed then 0 else 1), 1
  {
    if i < |text| {
      var token := text[i];
      if token == '"' {
        QuoteSound(text, i, completed, passedColon, key, acc);
      } else if token == '{' {
        if !completed {
          NestedSound(text, i, key, acc);
        } else {
          ScanSound(text, i + 1, completed, passedColon, key, acc);
        }
      } else if token == '}' && completed && !passedColon {
      } else if token == ':' {
        ScanSound(text, i + 1, completed, true, key, acc);
      } else {
        ScanSound(text, i + 1, completed, passedColon, key, acc);
      }
    }
  }

  /** The quote step of `ScanSound`. */
  lemma {:induction false} QuoteSound(text: string, i: nat, completed: bool, passedColon: bool, key: string,
                                      acc: map<string, TreeValue>)
    requires i < |text| && text[i] == '"'
    requires '"' !in key && QuoteFree(JsonTree(acc))
    ensures Sound(QuoteSpec(text, i, completed, passedColon, key, acc))
    decreases |text|, 2 * (|text| - i) - 1, 0
  {
    var end := IndexOf(text, '"', i + 1);
    if end != -1 {
      SpanQuoteFree(text, i);
      var span := text[i + 1..end];
      if completed {
        ScanSound(text, end + 1, false, passedColon, span, acc);
      } else {
        StoreQuoteFree(acc, key, TStr(span));
        ScanSound(text, end + 1, true, false, key, acc[key := TStr(span)]);
      }
    }
  }

  /** The nested-object step of `ScanSound`. */
  lemma {:induction false} NestedSound(text: string, i: nat, key: string, acc: map<string, TreeValue>)
    requires 0 < i < |text| && text[i] == '{'
    requires '"' !in key && QuoteFree(JsonTree(acc))
    ensures Sound(NestedSpec(text, i, key, acc))
    decreases |text|, 2 * (|text| - i), 2
  {
    NestedParseSound(text[i..]);
    match ParseSpec(text[i..])
    case Failed(_) =>
    case Parsed(child, len) =>
      var j := i + len;
      if j == 0 || key != "" {
        StoreQuoteFree(acc, key, TObj(child));
        ScanSound(text, j + 1, true, false, key, acc[key := TObj(child)]);
      }
  }

  /**
    A nested parse, whose input starts with `{`, always passes the check of
    the beginning and ends in a sound result.
   */
  lemma {:induction false} NestedParseSound(s: string)
    requires 0 < |s| && s[0] == '{'
    ensures Sound(ParseSpec(s))
    decreases |s|, 2 * |s| + 1, 0
  {
    var c := Clear(s, '"');
    if c.Some? {
      var end := IndexOf(s, '"', 0);
      assert RemoveSpaces(s[..end]) == [s[0]] + RemoveSpaces(s[..end][1..]);
    }
    ScanSound(s, 0, true, false, "", map[]);
  }

  /**
    "Illegal beginning of schema" is reported exactly when the input contains
    a quote and the text before the first one, without its white space, is
    nonempty and does not start with `{`; no later part of the scan, nested
    parses included, reports it.
   */
  lemma {:induction false} IllegalBeginningIff(text: string)
    ensures ParseSpec(text) == Failed(IllegalBeginning) <==>
            OccursFrom(text, '"', 0) &&
            var b := RemoveSpaces(text[..IndexOf(text, '"', 0)]);
            0 < |b| && b[0] != '{'
  {
    ScanSound(text, 0, true, false, "", map[]);
  }

  /** Every key and every string value of a parsed object, at any depth, is free of quotes. */
  lemma {:induction false} ParsedQuoteFree(text: string)
    ensures ParseSpec(text).Parsed? ==> QuoteFree(ParseSpec(text).tree)
  {
    ScanSound(text, 0, true, false, "", map[]);
  }

  /**
    While a key is pending, any character other than a space, a quote, a `{`
    or a colon is an error; a `}` or a `[` included.
   */
  lemma InvalidAfterKeyStep(text: string, i: nat, passedColon: bool, key: string, acc: map<string, TreeValue>)
    requires 0 < i < |text|
    ensures var token := text[i];
            token != ' ' && token != '"' && token != '{' && token != ':' ==>
            ScanSpec(text, i, false, passedColon, key, acc) == Failed(InvalidAfterKey)
    ensures text[i] == ' ' ==> ScanSpec(text, i, false, passedColon, key, acc) == ScanSpec(text, i + 1, false, passedColon, key, acc)
  {
  }

  /**
    A `{` with a key pending parses the strictly shorter suffix that starts
    there and stores the result under the key. When the child recorded its
    length, the parent resumes just after the child's closing `}`; when it
    recorded -1 the parent re-reads that same `{` with no key pending.
   */
  lemma {:induction false} NestedStep(text: string, i: nat, passedColon: bool, key: string, acc: map<string, TreeValue>)
    requires 0 < i < |text| && text[i] == '{'
    ensures |text[i..]| < |text|
    ensures ParseSpec(text[i..]).Failed? ==>
            ScanSpec(text, i, false, passedColon, key, acc) == ParseSpec(text[i..])
    ensures ParseSpec(text[i..]).Parsed? ==>
            var child := ParseSpec(text[i..]);
            var j := i + child.len;
            (child.len != -1 ==> i < j < |text| && text[j] == '}') &&
            ScanSpec(text, i, false, passedColon, key, acc) ==
            if key == "" && j != 0 then Failed(MissingKey)
            else ScanSpec(text, j + 1, true, false, key, acc[key := TObj(child.tree)])
    ensures ParseSpec(text[i..]).Parsed? && ParseSpec(text[i..]).len == -1 && key != "" ==>
            ScanSpec(text, i, false, passedColon, key, acc) ==
            ScanSpec(text, i + 1, true, false, key, acc[key := TObj(ParseSpec(text[i..]).tree)])
  {
    if ParseSpec(text[i..]).Parsed? {
      var child := ParseSpec(text[i..]);
      if child.len != -1 {
        assert text[i..][child.len] == text[i + child.len];
      } else if key != "" {
        var stored := acc[key := TObj(child.tree)];
        assert ScanSpec(text, i, false, passedColon, key, acc) == ScanSpec(text, i, true, false, key, stored);
        assert ScanSpec(text, i, true, false, key, stored) == ScanSpec(text, i + 1, true, false, key, stored);
      }
    }
  }

  /**
    An empty object is never accepted as a value: in the nested parse the `}`
    right after the `{` is preceded by `{`, which is not an allowed character.
   */
  lemma {:induction false} EmptyNestedRejected(text: string, i: nat, passedColon: bool, key: string,
                               acc: map<string, TreeValue>)
    requires 0 < i && i + 1 < |text| && text[i] == '{' && text[i + 1] == '}'
    ensures ScanSpec(text, i, false, passedColon, key, acc) == Failed(IllegalAfterValue)
  {
    var s := text[i..];
    assert s[0] == '{' && s[1] == '}';
    var c := Clear(s, '"');
    if c.Some? {
      var end := IndexOf(s, '"', 0);
      assert RemoveSpaces(s[..end]) == [s[0]] + RemoveSpaces(s[..end][1..]);
    }
    assert ParseSpec(s) == ScanSpec(s, 0, true, false, "", map[]);
    assert ScanSpec(s, 0, true, false, "", map[]) == ScanSpec(s, 1, true, false, "", map[]);
    assert ScanSpec(s, 1, true, false, "", map[]) == CloseSpec(s, 1, map[]) == Failed(IllegalAfterValue);
    assert NestedSpec(text, i, key, acc) == ParseSpec(s);
  }

  /**
    A `}` with no key and no colon pending: the object is returned, with the
    index of that `}` as its length, exactly when the character before it is
    a space, a quote, or a `}` with a nested object stored, and the rest obeys
    the tail rule: up to the next quote there is one comma and otherwise only
    trimmable characters, or, with no quote left, the rest without white space
    is not a single character other than `}`.
   */
  lemma {:induction false} CloseRule(text: string, i: nat, key: string, acc: map<string, TreeValue>)
    requires 0 < i < |text| && text[i] == '}'
    ensures var prev := text[i - 1];
            var prevOk := prev == ' ' || prev == '"' || (prev == '}' && ObjectCount(acc) != 0);
            var q := IndexOf(text, '"', i);
            var tailOk :=
              if q != -1 then exists p :: LoneComma(text, i, q, p)
              else var tail := RemoveSpaces(text[i + 1..]); |tail| != 1 || tail == "}";
            ScanSpec(text, i, true, false, key, acc) ==
            if !prevOk then Failed(IllegalAfterValue)
            else if !tailOk then (if q != -1 then Failed(InvalidAfterObject) else Failed(InvalidEnding))
            else Parsed(JsonTree(acc), i)
  {
    var q := IndexOf(text, '"', i);
    if q != -1 {
      CommaTail(text, i, q);
    }
  }

  /** Strictly between `i` and `q` there is a comma at `p` and otherwise only trimmable characters. */
  predicate LoneComma(text: string, i: nat, q: nat, p: int)
    requires q <= |text|
  {
    i < p < q && text[p] == ',' && forall k :: i < k < q && k != p ==> IsTrimmable(text[k])
  }

  /** A one-character string containing a comma is the comma. */
  lemma OneComma(t: string)
    ensures (|t| == 1 && ',' in t) <==> t == ","
  {
    if |t| == 1 && ',' in t {
      assert t == [t[0]];
    }
  }

  /** A lone comma of `text[i + 1..q]` at `p` is a lone comma of `text` at `i + 1 + p`. */
  lemma LoneCommaOut(text: string, i: nat, q: nat, p: nat)
    requires i < q <= |text|
    requires var mid := text[i + 1..q];
             p < |mid| && mid[p] == ',' && forall k :: 0 <= k < |mid| && k != p ==> IsTrimmable(mid[k])
    ensures LoneComma(text, i, q, i + 1 + p)
  {
    var mid := text[i + 1..q];
    forall k | i < k < q && k != i + 1 + p
      ensures IsTrimmable(text[k])
    {
      assert mid[k - (i + 1)] == text[k];
    }
  }

  /** A lone comma of `text` at `p` between `i` and `q` is a lone comma of `text[i + 1..q]`. */
  lemma LoneCommaIn(text: string, i: nat, q: nat, p: int)
    requires i < q <= |text| && LoneComma(text, i, q, p)
    ensures var mid := text[i + 1..q];
            0 <= p - (i + 1) < |mid| && mid[p - (i + 1)] == ',' &&
            forall k :: 0 <= k < |mid| && k != p - (i + 1) ==> IsTrimmable(mid[k])
  {
    var mid := text[i + 1..q];
    forall k | 0 <= k < |mid| && k != p - (i + 1)
      ensures IsTrimmable(mid[k])
    {
      assert mid[k] == text[i + 1 + k];
    }
  }

  /**
    The comma rule: `text.substring(i + 1, q).trim()` is one character and a
    comma exactly when one comma and otherwise only trimmable characters lie
    strictly between `i` and `q`.
   */
  lemma CommaTail(text: string, i: nat, q: nat)
    requires i < q <= |text|
    ensures var t := Trim(text[i + 1..q]);
            (|t| == 1 && ',' in t) <==> exists p :: LoneComma(text, i, q, p)
  {
    var mid := text[i + 1..q];
    TrimIsComma(mid);
    OneComma(Trim(mid));
    if p :| 0 <= p < |mid| && mid[p] == ',' && forall k :: 0 <= k < |mid| && k != p ==> IsTrimmable(mid[k]) {
      LoneCommaOut(text, i, q, p);
    }
    if p :| LoneComma(text, i, q, p) {
      LoneCommaIn(text, i, q, p);
    }
  }
}
