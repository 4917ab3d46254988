/**
  `MyJSONParser.parse`: a single left-to-right scan with three pieces of state
  (`completed`: no key is pending, `passedColon`: the current member's colon
  was seen, `key`: the last key read) that recurses on the suffix starting at a
  nested `{` and skips ahead by the length the nested call records.

  `ParseSpec`/`ScanSpec` state what one call computes, one scan step per
  recursive call; the method `Parse` is the loop itself, building `MyJSON`
  objects, and is proved to compute exactly `ParseSpec`.
 */
module MyJsonParser {
  import opened JavaStrings
  import opened JsonValues
  import opened MyJson

  /** One outcome per message the parser throws, and `Fault` for an index out of bounds. */
  datatype ParseError =
    | IllegalBeginning    // "Illegal beginning of schema."
    | MissingKey          // "Missing Key."
    | InvalidAfterObject  // "Invalid character after given object."
    | InvalidEnding       // "Invalid ending of JSON-Lite object."
    | IllegalAfterValue   // "Illegal character after object value."
    | DuplicateColon      // "Duplicate colon before given value."
    | InvalidAfterKey     // "Invalid character after given key."
    | Incomplete          // "Incomplete schema."
    | Fault               // charAt or substring out of range

  /** What one call produces: the object and the length it records, or an error. */
  datatype ParseResult = Parsed(tree: JsonTree, len: int) | Failed(err: ParseError)

  /** What the method returns: the object built (its length is in `objectLen`), or an error. */
  datatype Outcome = Ok(obj: MyJSON) | Err(err: ParseError)

  /** After a nested value: the index the scan resumes from (before `++i`), or an error. */
  datatype NestedOutcome = Resume(at: int) | NestFailed(err: ParseError)

  /**
    A recorded length is -1 (the scan ran to the end of its input) or the
    index of the `}` that closed the object, which is never the first character.
   */
  predicate ConsumedOk(text: string, len: int) {
    len == -1 || (0 < len < |text| && text[len] == '}')
  }

  /**
    `clear(text, c, 0)`: nothing when `c` does not occur in `text`, otherwise the
    text before its first occurrence with all `\s` characters removed.
   */
  function Clear(text: string, c: char): (r: Option<string>)
    ensures r.None? <==> !OccursFrom(text, c, 0)
    ensures r.Some? ==> forall k :: 0 <= k < |r.value| ==> !IsRegexSpace(r.value[k]) && r.value[k] != c
    ensures r.Some? ==> (r.value == [] <==> forall k :: 0 <= k < IndexOf(text, c, 0) ==> IsRegexSpace(text[k]))
  {
    var end := IndexOf(text, c, 0);
    if end == -1 then None else Some(RemoveSpaces(text[..end]))
  }

  /**
    What the beginning check looks at: when `c` occurs, the first character
    `clear` leaves is the first non-`\s` character before it.
   */
  lemma {:induction false} ClearFirst(text: string, c: char, p: nat)
    requires OccursFrom(text, c, 0) && p < IndexOf(text, c, 0) && !IsRegexSpace(text[p])
    requires forall k :: 0 <= k < p ==> IsRegexSpace(text[k])
    ensures Clear(text, c).Some? && Clear(text, c).value != [] && Clear(text, c).value[0] == text[p]
  {
    RemoveSpacesFirst(text[..IndexOf(text, c, 0)], p);
  }

  /** What `parse(text)` computes: the check of the beginning, then the scan from index 0. */
  function ParseSpec(text: string): (r: ParseResult)
    ensures r.Parsed? ==> ConsumedOk(text, r.len)
    decreases |text|, 2 * |text| + 1, 0
  {
    match Clear(text, '"')
    case Some(b) =>
      if |b| == 0 then Failed(Fault)  // charAt(0) of an empty string
      else if b[0] != '{' then Failed(IllegalBeginning)
      else ScanSpec(text, 0, true, false, "", map[])
    case None => ScanSpec(text, 0, true, false, "", map[])
  }

  /**
    The scan from index `i` on, in the given state, with `acc` the entries
    stored so far. A pending key (`!completed`) always follows a quote, so
    then `i > 0` and the nested call below is on a strictly shorter input.
   */
  function ScanSpec(text: string, i: nat, completed: bool, passedColon: bool, key: string,
                    acc: map<string, TreeValue>): (r: ParseResult)
    requires i <= |text|
    requires completed || 0 < i
    ensures r.Parsed? ==> ConsumedOk(text, r.len)
    decreases |text|, 2 * (|text| - i) + (if completed then 0 else 1), 1
  {
    if i == |text| then
      if |text| == 0 then Failed(Fault)  // charAt(-1)
      else if text[|text| - 1] != '}' then Failed(Incomplete)
      else Parsed(JsonTree(acc), -1)
    else
      var token := text[i];
      if token == '"' then QuoteSpec(text, i, completed, passedColon, key, acc)
      else if token == '{' then
        if !completed then NestedSpec(text, i, key, acc)
        else if i != 0 && key == "" && !passedColon then Failed(MissingKey)
        else ScanSpec(text, i + 1, completed, passedColon, key, acc)
      else if token == '}' && completed && !passedColon then
        CloseSpec(text, i, acc)
      else if token == ':' then
        if passedColon then Failed(DuplicateColon)
        else ScanSpec(text, i + 1, completed, true, key, acc)
      else if completed then
        if passedColon && token != ',' && token != ' ' && token != '}' then Failed(InvalidAfterKey)
        else ScanSpec(text, i + 1, completed, passedColon, key, acc)
      // the source's test here is `token != ' ' && (token != '{' && !completed)`; the
      // second half always holds at this point
      else if token != ' ' then Failed(InvalidAfterKey)
      else ScanSpec(text, i + 1, completed, passedColon, key, acc)
  }

  /** A quote: the text up to the next quote is the key, or the value of the pending key. */
  function QuoteSpec(text: string, i: nat, completed: bool, passedColon: bool, key: string,
                     acc: map<string, TreeValue>): (r: ParseResult)
    requires i < |text| && text[i] == '"'
    ensures r.Parsed? ==> ConsumedOk(text, r.len)
    decreases |text|, 2 * (|text| - i) - 1, 0
  {
    var end := IndexOf(text, '"', i + 1);
    if end == -1 then Failed(Fault)  // substring(i + 1, -1)
    else if completed then ScanSpec(text, end + 1, false, passedColon, text[i + 1..end], acc)
    else ScanSpec(text, end + 1, true, false, key, acc[key := TStr(text[i + 1..end])])
  }

  /**
    A `{` while a key is pending: the object parsed from the suffix at `i` is
    stored under the key and the scan resumes after the length it recorded.
   */
  function NestedSpec(text: string, i: nat, key: string, acc: map<string, TreeValue>): (r: ParseResult)
    requires 0 < i < |text|
    ensures r.Parsed? ==> ConsumedOk(text, r.len)
    decreases |text|, 2 * (|text| - i), 2
  {
    match ParseSpec(text[i..])
    case Failed(e) => Failed(e)
    case Parsed(child, len) =>
      // i += len, then the Missing Key check (passedColon is false again), then ++i
      var j := i + len;
      if j != 0 && key == "" then Failed(MissingKey)
      else ScanSpec(text, j + 1, true, false, key, acc[key := TObj(child)])
  }

  /**
    A `}` met with no key and no colon pending: the character before it must be
    a space, a quote, or a `}` once an object value is stored; then the text up
    to the next quote must trim to one comma, or, with no quote left, the rest
    without spaces must not be one character other than `}`.
   */
  function CloseSpec(text: string, i: nat, acc: map<string, TreeValue>): (r: ParseResult)
    requires i < |text| && text[i] == '}'
    ensures r.Parsed? ==> r.len == i && 0 < i && r.tree == JsonTree(acc)
  {
    if i == 0 then Failed(Fault)  // charAt(-1)
    else
      var prev := text[i - 1];
      if prev == ' ' || prev == '"' || (prev == '}' && ObjectCount(acc) != 0) then
        var q := IndexOf(text, '"', i);
        if q > 0 then
          var tail := Trim(text[i + 1..q]);
          if |tail| != 1 || ',' !in tail then Failed(InvalidAfterObject)
          else Parsed(JsonTree(acc), i)
        else
          var tail := RemoveSpaces(text[i + 1..]);
          if |tail| == 1 && tail != "}" then Failed(InvalidEnding)
          else Parsed(JsonTree(acc), i)
      else Failed(IllegalAfterValue)
  }

  /**
    `parse(text)`. On success the object is new, valid, holds exactly the tree
    `ParseSpec` describes and records its length in `objectLen`; on failure the
    error is the one `ParseSpec` gives.
   */
  method Parse(text: string) returns (r: Outcome)
    ensures r.Err? ==> ParseSpec(text) == Failed(r.err)
    ensures r.Ok? ==> r.obj.Valid() && fresh(r.obj.Repr)
    ensures r.Ok? ==> ParseSpec(text) == Parsed(r.obj.tree, r.obj.objectLen)
    decreases |text|, 2
  {
    var completed := true;
    var passedColon := false;
    var key := "";
    var obj := new MyJSON();

    var beginning := Clear(text, '"');
    if beginning.Some? {
      if |beginning.value| == 0 {
        return Err(Fault);
      }
      if beginning.value[0] != '{' {
        return Err(IllegalBeginning);
      }
    }

    var endStr := |text|;
    var i := 0;
    ghost var goal := ParseSpec(text);
    while i < endStr
      invariant 0 <= i <= endStr == |text|
      invariant completed || 0 < i
      invariant obj.Valid() && fresh(obj.Repr) && obj.objectLen == -1
      invariant ScanSpec(text, i, completed, passedColon, key, obj.tree.entries) == goal
      decreases 2 * (endStr - i) + (if completed then 0 else 1)
    {
      var stop;
      stop, i, completed, passedColon, key := Step(text, i, completed, passedColon, key, obj);
      if stop.Some? {
        return stop.value;
      }
    }
    if endStr == 0 {
      return Err(Fault);
    }
    if text[endStr - 1] != '}' {
      return Err(Incomplete);
    }
    return Ok(obj);
  }

  /**
    One pass of the loop body of `parse` at index `i`: either the scan stops
    with the method's result (`stop`), or it goes on from the new index and
    state, having stored what it read in `obj`, and the rest of the scan then
    computes what it would have computed from the old index and state.
   */
  method Step(text: string, i: nat, completed: bool, passedColon: bool, key: string, obj: MyJSON)
    returns (stop: Option<Outcome>, i': nat, completed': bool, passedColon': bool, key': string)
    requires i < |text| && (completed || 0 < i)
    requires obj.Valid()
    modifies obj
    ensures obj.Valid() && fresh(obj.Repr - old(obj.Repr))
    ensures stop.None? ==> obj.objectLen == old(obj.objectLen)
    ensures stop.None? ==> i' <= |text| && (completed' || 0 < i')
    ensures stop.None? ==> 2 * (|text| - i') + (if completed' then 0 else 1) < 2 * (|text| - i) + (if completed then 0 else 1)
    ensures stop.None? ==> ScanSpec(text, i', completed', passedColon', key', obj.tree.entries) ==
                           ScanSpec(text, i, completed, passedColon, key, old(obj.tree).entries)
    ensures stop.Some? && stop.value.Err? ==> ScanSpec(text, i, completed, passedColon, key, old(obj.tree).entries) == Failed(stop.value.err)
    ensures stop.Some? && stop.value.Ok? ==> stop.value.obj == obj && ScanSpec(text, i, completed, passedColon, key, old(obj.tree).entries) == Parsed(obj.tree, obj.objectLen)
    decreases |text|, 1
  {
    i', completed', passedColon', key' := i, completed, passedColon, key;
    stop := None;
    var token := text[i];
    if token == '"' {
      var end := IndexOf(text, token, i + 1);
      if end == -1 {
        return Some(Err(Fault)), i', completed', passedColon', key';
      }
      if completed {
        key' := text[i + 1..end];
        completed' := false;
      } else {
        var _ := obj.SetString(key, text[i + 1..end]);
        passedColon' := false;
        completed' := true;
      }
      i' := end;
    } else if token == '{' {
      if !completed {
        var nested := ParseNested(text, i, key, obj);
        if nested.NestFailed? {
          return Some(Err(nested.err)), i', completed', passedColon', key';
        }
        passedColon' := false;
        completed' := true;
        i' := nested.at;
      }
      if i' != 0 && key == "" && !passedColon' {
        return Some(Err(MissingKey)), i', completed', passedColon', key';
      }
    } else if token == '}' && completed && !passedColon {
      var r := CloseObject(text, i, obj);
      return Some(r), i', completed', passedColon', key';
    } else if token == ':' {
      if passedColon {
        return Some(Err(DuplicateColon)), i', completed', passedColon', key';
      }
      passedColon' := true;
    } else if completed {
      if passedColon && token != ',' && token != ' ' && token != '}' {
        return Some(Err(InvalidAfterKey)), i', completed', passedColon', key';
      }
    } else if token != ' ' && (token != '{' && !completed) {
      return Some(Err(InvalidAfterKey)), i', completed', passedColon', key';
    }
    i' := i' + 1;
  }

  /**
    The body of the loop at a `{` while a key is pending: parse the suffix that
    starts at `i`, store the child under `key`, and add the length the child
    recorded to `i` (read back through `getObject(key).getLen()`).
   */
  method ParseNested(text: string, i: nat, key: string, obj: MyJSON) returns (r: NestedOutcome)
    requires 0 < i < |text|
    requires obj.Valid()
    modifies obj
    ensures obj.Valid() && fresh(obj.Repr - old(obj.Repr)) && obj.objectLen == old(obj.objectLen)
    ensures r.NestFailed? ==> ParseSpec(text[i..]) == Failed(r.err)
    ensures r.Resume? ==> ParseSpec(text[i..]).Parsed? && r.at == i + ParseSpec(text[i..]).len
    ensures r.Resume? ==> obj.tree == JsonTree(old(obj.tree).entries[key := TObj(ParseSpec(text[i..]).tree)])
    decreases |text|, 0
  {
    var child := Parse(text[i..]);
    if child.Err? {
      return NestFailed(child.err);
    }
    var _ := obj.SetObject(key, child.obj);
    var stored := obj.GetObject(key);
    var len := stored.value.GetLen();
    return Resume(i + len);
  }

  /**
    The body of the loop at a `}` with no key and no colon pending: check the
    character before it and the text after it, then record `i` as the length.
   */
  method CloseObject(text: string, i: nat, obj: MyJSON) returns (r: Outcome)
    requires i < |text| && text[i] == '}'
    requires obj.Valid()
    modifies obj`objectLen
    ensures r.Err? ==> CloseSpec(text, i, obj.tree.entries) == Failed(r.err) && obj.objectLen == old(obj.objectLen)
    ensures r.Ok? ==> r.obj == obj && obj.Valid()
    ensures r.Ok? ==> CloseSpec(text, i, obj.tree.entries) == Parsed(obj.tree, obj.objectLen)
  {
    if i == 0 {
      return Err(Fault);
    }
    var ctr := obj.GetObjCtr();
    if text[i - 1] == ' ' || text[i - 1] == '"' || (text[i - 1] == '}' && ctr != 0) {
      var q := IndexOf(text, '"', i);
      if q > 0 {
        var tail := Trim(text[i + 1..q]);
        if |tail| != 1 || ',' !in tail {
          return Err(InvalidAfterObject);
        }
      } else {
        var tail := RemoveSpaces(text[i + 1..]);
        if |tail| == 1 && tail != "}" {
          return Err(InvalidEnding);
        }
      }
      obj.SetLen(i);
      return Ok(obj);
    } else {
      return Err(IllegalAfterValue);
    }
  }
}
