# JSON-Lite parser and object store, modelled in Dafny

This project models the JSON-Lite parser of the CodeU coding assessment
(`MyJSONParser.parse` and its helper `clear`) and the object store it builds
(`MyJSON`). It then proves what the parser does with each character, what
it returns and which error it reports.

JSON-Lite objects hold string values and nested objects only. `parse` reads
its input in one left-to-right scan. It keeps three pieces of state:

- `completed`: no key is pending;
- `passedColon`: the current member's colon has been seen;
- `key`: the last key read.

At a `{` that follows a pending key, `parse` calls itself on the suffix that
starts there. It then skips ahead by the length the nested call recorded in
its object (`setLen`/`getLen`).

Files:

- `java_strings.dfy` (module `JavaStrings`): the `java.lang.String` operations the parser relies on, over `seq<char>`:
  - `indexOf(c, from)`;
  - `trim()`;
  - `replaceAll("\\s", "")`.
- `json_values.dfy` (module `JsonValues`): the value view of an object.
  - A `JsonTree` maps keys to values; each value is a string or a nested tree.
  - It also defines the queries `getString`, `getObject`, `getStrings` and `getObjects` answer.
- `my_json.dfy` (module `MyJson`): class `MyJSON` with the fields `mem` and `objectLen`.
  - Each method updates those fields as the Java does.
  - A ghost `tree` holds the object's value view and a ghost `Repr` its footprint.
  - The invariant `Valid()` ties `tree` and `Repr` to `mem`.
- `my_json_parser.dfy` (module `MyJsonParser`):
  - the functions `ParseSpec`, `ScanSpec`, `QuoteSpec`, `NestedSpec` and `CloseSpec`, which state one call of `parse` one scan step at a time;
  - the method `Parse`, whose `while` loop, `MyJSON` updates and recursive call follow the Java and are proved to compute exactly `ParseSpec`;
  - the loop body, as the methods `Step`, `ParseNested` and `CloseObject`.
- `parser_properties.dfy` (module `ParserProperties`):
  - the rule while a key is pending, the nested-object step and the closing-brace rule;
  - two facts about whole runs of the scan, proved by induction along it: nested parses never report "Illegal beginning", and no parsed key or string value contains a quote.
- `json_lite_text.dfy` (module `JsonLiteText`): JSON-Lite text as the test suite writes it.
  - A description of an object is a sequence of members, each with its key, its value (a string or a nested object) and the spaces around its tokens.
  - `ObjectText` renders a description to the characters `parse` reads; `TreeOf` is the object it describes, a later member with the same key overwriting an earlier one (`Store`).
  - `ObjectOk` says which descriptions `parse` accepts as written.
- `parser_round_trip.dfy` (module `ParserRoundTrip`): the round trip. Every accepted description, followed by any spaces, parses to the object it describes, with the index of its last `}` as the length. Also what follows from that: the parsed keys, last write wins, what may follow the object, and stray characters before the first member.
- `parser_test_shapes.dfy` (module `ParserTestShapes`): the valid inputs of the test suite, with their keys and values left free, each parsed to the object the test expects.
- `parser_errors.dfy` (module `ParserErrors`): the error paths on whole inputs. Each lemma names a family of inputs and the error `parse` reports for every member of it.
- `parser_examples.dfy` (module `ParserExamples`): small concrete inputs, reduced from the test suite's cases or showing a behaviour of the code.

Errors: each `IOException` message is a constructor of `ParseError`. The
paths where the Java throws an unchecked index exception all give `Fault`:

- an unclosed quote;
- an input whose text before the first quote is only white space, so `charAt(0)` reads an empty string;
- the empty input;
- a `}` at index 0.

### Where the code departs from the grammar its tests assume (the model follows the code)

The tests in TestMain.java write JSON-Lite as `JsonLiteText` describes it. The code accepts every such object (`ParserRoundTrip.RoundTrip`), but it is more lenient in some places and stricter in others:

- The beginning is checked only when the input contains a quote, so `x }` is accepted (`ParserExamples.NoQuoteAccepted`).
- The length a parse records is the index of the `}` that ends it, or -1 when its scan reaches the end of its input without returning early. The `++i` of the parent's loop then steps over the `}`. After a -1 the parent re-reads the nested `{` with no key pending (`ParserProperties.NestedStep`).
- Stray characters are skipped while no key and no colon are pending, so text between `{` and the first key is ignored (`ParserRoundTrip.StrayPrefix`).
- A colon is never required: a second quoted string after a key is its value (`ParserExamples.NoColonNeeded`). A colon with no key before it is accepted too (`ParserExamples.ColonOnly`).
- `{}` as a value is refused with "Illegal character after object value.", so the "Empty Object Key" test (TestMain.java:174-183) does not hold for this code (`ParserProperties.EmptyNestedRejected`, `ParserExamples.EmptyObjectValue`).
- A missing outer `}` is accepted when the last value is an object: the `}` of that object ends the input (`ParserErrors.MissingOuterClose`).
- A nested object followed by another member is refused with "Invalid character after given object." when it ends with an object member itself: the tail check at the innermost `}` then finds `},` before the next quote, which is not a lone comma (`ParserErrors.DeepCloseRejected`).
- The "Illegal Escape Character" input (TestMain.java:236-243) fails only because it has no closing `}`: it gives "Incomplete schema." (`ParserErrors.IncompleteAfterValue`).
- The "Illegal character after given value" input (TestMain.java:191-198) gives "Invalid ending of JSON-Lite object." (`ParserRoundTrip.ObjectTail`).
- `parse` calls `getObjCtr()`, which `MyJSON` does not define. It is modelled as the number of object-valued entries. That reading is an assumption: it is what the name and the nested tests suggest.

## Model

All source paths are under `src/com/google/codeu/codingchallenge/`.

| member | source | states |
|---|---|---|
| JavaStrings.IndexOf | src/com/google/codeu/codingchallenge/MyJSONParser.java:37 | `indexOf(c, from)` is -1 exactly when `c` does not occur at or after `from`; otherwise it is the first position at or after `from` that holds `c` |
| JavaStrings.IndexOfIs | src/com/google/codeu/codingchallenge/MyJSONParser.java:37 | a position holding `c` with no `c` between `from` and it is what `indexOf(c, from)` returns |
| JavaStrings.RemoveSpaces | src/com/google/codeu/codingchallenge/MyJSONParser.java:71 | `replaceAll("\\s", "")` is no longer than its input, leaves no `\s` character, keeps every other character and adds none, and is empty exactly when the input is all white space |
| JavaStrings.RemoveSpacesAppend | src/com/google/codeu/codingchallenge/MyJSONParser.java:71 | removing `\s` characters from a concatenation is the concatenation of the two results, so the kept characters stay in order and each is kept once |
| JavaStrings.RemoveSpacesFirst | src/com/google/codeu/codingchallenge/MyJSONParser.java:29 | the first character left by `replaceAll("\\s", "")` is the first non-`\s` character of the input |
| JavaStrings.Trim | src/com/google/codeu/codingchallenge/MyJSONParser.java:65 | `trim()` is a slice of its input outside which every character is up to U+0020, and it neither starts nor ends with such a character |
| JavaStrings.TrimIsComma | src/com/google/codeu/codingchallenge/MyJSONParser.java:65-66 | `s.trim()` is `","` exactly when `s` holds one comma and otherwise only characters up to U+0020 |
| JsonValues.Empty | src/com/google/codeu/codingchallenge/MyJSON.java:28-31 | the value view of a new object has no keys |
| JsonValues.StringOf | src/com/google/codeu/codingchallenge/MyJSON.java:47-53 | a string is answered exactly when the key is present and holds a string, and it is that string |
| JsonValues.ObjectOf | src/com/google/codeu/codingchallenge/MyJSON.java:33-39 | an object is answered exactly when the key is present and holds an object, and it is that object |
| JsonValues.StringKeys | src/com/google/codeu/codingchallenge/MyJSON.java:71-79 | a key is collected exactly when it holds a string |
| JsonValues.ObjectKeys | src/com/google/codeu/codingchallenge/MyJSON.java:61-69 | a key is collected exactly when it holds an object |
| JsonValues.ObjectCount | src/com/google/codeu/codingchallenge/MyJSONParser.java:62 | the assumed `getObjCtr()` is zero exactly when no entry holds an object |
| JsonValues.KeysPartition | src/com/google/codeu/codingchallenge/MyJSON.java:61-79 | no key holds both a string and an object, the two key sets together are all keys, and an empty object has neither |
| JsonValues.SetStringView | src/com/google/codeu/codingchallenge/MyJSON.java:55-59 | after storing a string under `k`, `getString(k)` answers it and `getObject(k)` answers nothing; every other key reads as before (last write wins) |
| JsonValues.SetObjectView | src/com/google/codeu/codingchallenge/MyJSON.java:41-45 | after storing an object under `k`, `getObject(k)` answers it and `getString(k)` answers nothing; every other key reads as before |
| JsonLiteText.StoreSnoc | src/com/google/codeu/codingchallenge/MyJSON.java:41-59 | storing one more member is one more `put` of its key and value |
| JsonLiteText.StoreLast | src/com/google/codeu/codingchallenge/MyJSON.java:41-59 | a key holds the value of the last member written with it |
| JsonLiteText.StoreOther | src/com/google/codeu/codingchallenge/MyJSON.java:41-59 | a key no member writes keeps the value it had, or stays absent |
| JsonLiteText.StoreKeys | src/com/google/codeu/codingchallenge/MyJSON.java:41-59 | storing adds exactly the members' keys |
| MyJson.MyJSON.constructor | src/com/google/codeu/codingchallenge/MyJSON.java:28-31 | a new object is valid, has an empty map and recorded length -1 |
| MyJson.MyJSON.GetObject | src/com/google/codeu/codingchallenge/MyJSON.java:33-39 | answers the stored object exactly when the entry is an object, otherwise null; the answer is valid, inside this object's footprint, and its view is the view of that entry; nothing is modified |
| MyJson.MyJSON.SetObject | src/com/google/codeu/codingchallenge/MyJSON.java:41-45 | overwrites only the entry for `name`, keeps the object valid, adds the child's footprint, leaves the length alone and returns the receiver |
| MyJson.MyJSON.GetString | src/com/google/codeu/codingchallenge/MyJSON.java:47-53 | answers the stored string exactly when the entry is a string, otherwise null; nothing is modified |
| MyJson.MyJSON.SetString | src/com/google/codeu/codingchallenge/MyJSON.java:55-59 | overwrites only the entry for `name`, keeps the object valid and its footprint and length unchanged, and returns the receiver |
| MyJson.MyJSON.GetObjects | src/com/google/codeu/codingchallenge/MyJSON.java:61-69 | the loop adds to `names` exactly the keys holding objects; nothing is modified |
| MyJson.MyJSON.GetStrings | src/com/google/codeu/codingchallenge/MyJSON.java:71-79 | the loop adds to `names` exactly the keys holding strings; nothing is modified |
| MyJson.MyJSON.GetObjCtr | src/com/google/codeu/codingchallenge/MyJSONParser.java:62 | the assumed `getObjCtr()` is the number of object-valued entries |
| MyJson.MyJSON.SetLen | src/com/google/codeu/codingchallenge/MyJSON.java:81-83 | records `l` as the length and changes nothing else, so validity is kept |
| MyJson.MyJSON.GetLen | src/com/google/codeu/codingchallenge/MyJSON.java:85-87 | answers the recorded length (-1 from the constructor until `setLen` is called); nothing is modified |
| MyJsonParser.Clear | src/com/google/codeu/codingchallenge/MyJSONParser.java:109-112 | null exactly when `c` does not occur; otherwise a string with no white space and no `c`, empty exactly when only white space precedes the first `c` |
| MyJsonParser.ClearFirst | src/com/google/codeu/codingchallenge/MyJSONParser.java:109-112 | the first character `clear` leaves is the first non-`\s` character before the first `c`, the one the beginning check reads |
| MyJsonParser.ParseSpec | src/com/google/codeu/codingchallenge/MyJSONParser.java:22-31 | a successful parse records -1 or the index, never 0, of a `}` of its input |
| MyJsonParser.ScanSpec | src/com/google/codeu/codingchallenge/MyJSONParser.java:34-106 | from any state the scan terminates, and a success records -1 or the index of a `}` |
| MyJsonParser.QuoteSpec | src/com/google/codeu/codingchallenge/MyJSONParser.java:36-48 | the quote step terminates with the same bound on the recorded length |
| MyJsonParser.NestedSpec | src/com/google/codeu/codingchallenge/MyJSONParser.java:49-58 | the nested step recurses on a strictly shorter input and terminates with the same bound |
| MyJsonParser.CloseSpec | src/com/google/codeu/codingchallenge/MyJSONParser.java:60-83 | an accepted `}` returns exactly the entries read so far, with its own index (never 0) as the length |
| MyJsonParser.Parse | src/com/google/codeu/codingchallenge/MyJSONParser.java:22-107 | `parse` fails with exactly the error `ParseSpec` gives, or returns a new valid object whose entries and recorded length are exactly what `ParseSpec` gives |
| MyJsonParser.Step | src/com/google/codeu/codingchallenge/MyJSONParser.java:35-101 | one pass of the loop body either ends `parse` with the result the rest of the scan gives, or moves to a state whose rest of the scan gives the same result, with a smaller termination measure |
| MyJsonParser.ParseNested | src/com/google/codeu/codingchallenge/MyJSONParser.java:50-55 | the recursive call fails with `ParseSpec`'s error for the suffix, or stores the child's entries under the key and resumes at the index plus the length the child recorded |
| MyJsonParser.CloseObject | src/com/google/codeu/codingchallenge/MyJSONParser.java:60-83 | the closing-brace checks fail with `CloseSpec`'s error, or record the index of the `}` and return the object with the entries `CloseSpec` gives |
| ParserProperties.SpanQuoteFree | src/com/google/codeu/codingchallenge/MyJSONParser.java:37-39 | the text between a quote and the next one holds no quote |
| ParserProperties.StoreQuoteFree | src/com/google/codeu/codingchallenge/MyJSONParser.java:43 | storing a quote-free key and value keeps every key and string, at any depth, quote-free |
| ParserProperties.ScanSound | src/com/google/codeu/codingchallenge/MyJSONParser.java:34-106 | from any state with a quote-free key and quote-free entries, the scan never reports "Illegal beginning", and an object it returns is quote-free at every depth |
| ParserProperties.QuoteSound | src/com/google/codeu/codingchallenge/MyJSONParser.java:36-48 | the same for the quote step |
| ParserProperties.NestedSound | src/com/google/codeu/codingchallenge/MyJSONParser.java:49-58 | the same for the nested-object step |
| ParserProperties.NestedParseSound | src/com/google/codeu/codingchallenge/MyJSONParser.java:28-31 | a nested parse, whose input starts with `{`, always passes the beginning check and ends in a sound result |
| ParserProperties.IllegalBeginningIff | src/com/google/codeu/codingchallenge/MyJSONParser.java:28-31 | "Illegal beginning of schema." is reported exactly when the input holds a quote and the text before the first one, with its white space removed, is nonempty and does not start with `{` |
| ParserProperties.ParsedQuoteFree | src/com/google/codeu/codingchallenge/MyJSONParser.java:36-55 | no key and no string value of a parsed object, at any depth, contains a quote |
| ParserProperties.InvalidAfterKeyStep | src/com/google/codeu/codingchallenge/MyJSONParser.java:99-101 | while a key is pending, any character but a space, quote, `{` or colon is "Invalid character after given key." (so `}` and `[` are); a space is skipped |
| ParserProperties.NestedStep | src/com/google/codeu/codingchallenge/MyJSONParser.java:49-58 | a `{` with a key pending recurses on a strictly shorter suffix. A recorded length lands the parent on the child's `}`, and scanning resumes after it with the child stored under the key. A recorded -1 makes the parent re-read the `{` |
| ParserProperties.EmptyNestedRejected | src/com/google/codeu/codingchallenge/MyJSONParser.java:60-82 | `{}` as a value is always "Illegal character after object value." |
| ParserProperties.CloseRule | src/com/google/codeu/codingchallenge/MyJSONParser.java:60-83 | a `}` with no key and no colon pending is "Illegal character after object value." unless the character before it is a space, a quote, or a `}` once an object is stored. Then, when a quote follows, it is "Invalid character after given object." unless exactly one comma and otherwise only characters up to U+0020 lie before that quote. With no quote left, it is "Invalid ending of JSON-Lite object." when the rest without white space is one character other than `}`. Otherwise the entries read are returned with the `}`'s index as the length |
| ParserProperties.OneComma | src/com/google/codeu/codingchallenge/MyJSONParser.java:66 | `tail.length() != 1 \|\| !tail.contains(",")` is false exactly when `tail` is `","` |
| ParserProperties.LoneCommaOut | src/com/google/codeu/codingchallenge/MyJSONParser.java:65 | a lone comma of `in.substring(i + 1, q)` is a lone comma of `in` between `i` and `q` |
| ParserProperties.LoneCommaIn | src/com/google/codeu/codingchallenge/MyJSONParser.java:65 | a lone comma of `in` between `i` and `q` is a lone comma of `in.substring(i + 1, q)` |
| ParserProperties.CommaTail | src/com/google/codeu/codingchallenge/MyJSONParser.java:64-68 | when a quote follows, the tail passes exactly when one comma lies between the `}` and that quote, with only characters up to U+0020 around it |
| ParserRoundTrip.RoundTrip | src/com/google/codeu/codingchallenge/MyJSONParser.java:22-107 | every object as the tests write it (at least one member, quote-free keys and strings, space-only gaps, a nonempty key before each nested object, no nested object followed by a member that ends with an object), followed by any spaces, parses to exactly the object it describes, with the index of its last `}` as the length |
| ParserRoundTrip.ParsedKeys | src/com/google/codeu/codingchallenge/MyJSONParser.java:22-107 | such an input parses, and a key is in the result exactly when some member has it |
| ParserRoundTrip.LastWins | src/com/google/codeu/codingchallenge/TestMain.java:154-162 | in such an input a key holds the value of the last member written with it, a nested object being the object its own members describe |
| ParserRoundTrip.ObjectTail | src/com/google/codeu/codingchallenge/MyJSONParser.java:70-78 | such an object followed by text with no quote is "Invalid ending of JSON-Lite object." when that text without white space is one character other than `}`, and otherwise parses to the object it describes |
| ParserRoundTrip.StrayPrefix | src/com/google/codeu/codingchallenge/MyJSONParser.java:92-98 | characters other than a quote, brace or colon between the opening `{` and the first member, and spaces after the object, are skipped: the input parses to the object the members describe |
| ParserTestShapes.SingleMember | src/com/google/codeu/codingchallenge/MyJSONParser.java:36-48 | `{"k":"v"}` parses to `v` under `k` for every quote-free `k` and `v` |
| ParserTestShapes.StringValue | src/com/google/codeu/codingchallenge/TestMain.java:46-54 | "String Value": `{ "k":"v" } ` parses to `v` under `k`, so `k` is the one string key |
| ParserTestShapes.SingleNested | src/com/google/codeu/codingchallenge/MyJSONParser.java:49-58 | `{"k":{"k2":"v"}}` parses to an object under `k` holding `v` under `k2` |
| ParserTestShapes.ObjectValue | src/com/google/codeu/codingchallenge/TestMain.java:56-69 | "Object Value": `{ "k":{"k1":"v1", "k2":"v2" } }` parses to an object under `k` holding both strings |
| ParserTestShapes.ObjectThenString | src/com/google/codeu/codingchallenge/TestMain.java:126-139 | "String Object Mixed", reduced: an object member followed by a string member parses to both |
| ParserTestShapes.NoWhitespace | src/com/google/codeu/codingchallenge/TestMain.java:142-152 | "No Whitespace": `{"k":{"k1":"v1","k2":"v2"}}` parses to an object under `k` holding both strings |
| ParserTestShapes.UniqueKeys | src/com/google/codeu/codingchallenge/TestMain.java:154-162 | "Unique Keys": `{ "k":"v1", "k" : "v2"}` holds only the second value |
| ParserErrors.AfterKeyInput | src/com/google/codeu/codingchallenge/TestMain.java:245-251 | a key with no colon is "Incomplete schema." when nothing follows it and its spaces, and "Invalid character after given key." when any character but a space, quote, `{` or colon follows |
| ParserErrors.AfterColonInput | src/com/google/codeu/codingchallenge/TestMain.java:261-267 | a key and colon are "Incomplete schema." when nothing follows, "Invalid character after given key." when any character but a space, quote, `{` or colon follows (a `[` or a `}`), and "Duplicate colon before given value." when a second colon follows |
| ParserErrors.MissingKeyInput | src/com/google/codeu/codingchallenge/TestMain.java:218-225 | a second `{` after only skipped characters and before any key is "Missing Key.", whatever follows |
| ParserErrors.IncompleteAfterValue | src/com/google/codeu/codingchallenge/TestMain.java:227-234 | a member whose value is a string, followed only by skipped characters and no `}`, is "Incomplete schema." |
| ParserErrors.MissingOuterClose | src/com/google/codeu/codingchallenge/MyJSONParser.java:103-106 | a member whose value is an accepted object, with no outer `}`, parses to that member, with length -1 |
| ParserErrors.InnerCloseFails | src/com/google/codeu/codingchallenge/MyJSONParser.java:64-68 | an accepted object not ending with an object member, followed by `},` and text with a quote, is "Invalid character after given object." |
| ParserErrors.NestedFails | src/com/google/codeu/codingchallenge/MyJSONParser.java:49-55 | an error in a nested object is the error of the whole input |
| ParserErrors.DeepCloseRejected | src/com/google/codeu/codingchallenge/MyJSONParser.java:60-68 | a nested object that ends with an object member and is followed by another member is "Invalid character after given object." |
| ParserExamples.EmptyObject | src/com/google/codeu/codingchallenge/TestMain.java:28-44 | `{ }` parses to no entries, so no string or object keys |
| ParserExamples.EmptyObjectValue | src/com/google/codeu/codingchallenge/TestMain.java:174-183 | an empty object as a value is refused with "Illegal character after object value." |
| ParserExamples.MissingKeyExample | src/com/google/codeu/codingchallenge/TestMain.java:218-225 | a second `{` before any key is "Missing Key." |
| ParserExamples.AfterKeyExample | src/com/google/codeu/codingchallenge/TestMain.java:200-207 | a `}` where the value after a key and colon should start is "Invalid character after given key." |
| ParserExamples.IncompleteExample | src/com/google/codeu/codingchallenge/TestMain.java:245-251 | an input that stops after a key is "Incomplete schema." |
| ParserExamples.NoQuoteAccepted | src/com/google/codeu/codingchallenge/MyJSONParser.java:28-31 | without a quote the beginning is never checked, so `x }` is accepted |
| ParserExamples.NoColonNeeded | src/com/google/codeu/codingchallenge/MyJSONParser.java:36-48 | `{"a" "b"}` parses to `b` under `a`: no colon is needed |
| ParserExamples.ColonOnly | src/com/google/codeu/codingchallenge/MyJSONParser.java:84-106 | `{:}` parses to no entries with length -1: after a colon the `}` is skipped and the end check accepts |
| ParserExamples.EmptyInput | src/com/google/codeu/codingchallenge/MyJSONParser.java:103 | the empty input faults at the final check |

## Left out

- The test harness of TestMain.java (`Tester`, `Asserts`, `JSONFactory`) runs the tests and prints; it is not part of this model.
  - The tests' inputs are covered by `ParserTestShapes`, `ParserErrors` and `ParserExamples`, with keys and values left free where the test's own strings do not matter. The literal test strings are not evaluated.
  - "Valid Key", "Valid Value", "Valid Escape Characters" and "Nested Object Value" (TestMain.java:71-113, 164-172) put `{`, `}`, `:`, `,` or backslashes inside strings. `ParserRoundTrip.RoundTrip` covers them, since it allows every quote-free key and string; no separate shape is stated for them.
  - "Depths of Hell" (TestMain.java:115-123) has 13 `{` and 10 `}`. No lemma is stated about that input.
- The `JSON` and `JSONParser` interfaces and `getMem()`: they only expose the store.
- The assertion `(MyJSON)` casts: every object the parser stores is a `MyJSON`.
- Java's exception types are not modelled. Every `IOException` is one `ParseError`, and every unchecked index exception is `Fault`. A `StackOverflowError` from very deep nesting is not modelled.
- The `from` argument of `clear` is modelled only as 0, the one value `parse` passes. The Java searches for the end from 0 whatever `from` is.
- `HashMap` iteration order: `getStrings` and `getObjects` visit the keys in an unspecified order, which the model leaves free.
- MyJson.MyJSON.GetObjects and MyJson.MyJSON.GetStrings: they take a set and return it with the keys added, rather than adding to a caller's `Collection` in place. Duplicate entries in a non-set `Collection` are not modelled.
- MyJson.MyJSON.SetObject: requires that the stored object does not contain the receiver. `MyJSON` could be made cyclic, but `parse` always stores a freshly built child, so cycles are excluded.
- Java `char` is a UTF-16 code unit; the model's `char` is not. The white-space and trim classes are the exact ASCII sets Java uses.
- The loop body of `parse` is the method `Step`, and two of its branches are `ParseNested` and `CloseObject`. This splits the proof into small parts without changing what is computed or the order of the updates to `MyJSON`.
