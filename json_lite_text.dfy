/**
  JSON-Lite text as the test suite writes it: an object is `{`, its members
  separated by commas, then `}`; a member is a quoted key, a colon and a value
  (a quoted string or an object), with runs of spaces allowed around each
  token. `ObjectText` renders such a description to the characters `parse`
  reads, and `TreeOf` is the object it describes, a later member overwriting
  an earlier one with the same key (as `HashMap.put` does).
 */
module JsonLiteText {
  import opened JsonValues

  /** A member with the spaces written before it, around its colon, and after its value. */
  datatype Member = Member(lead: string, key: string, beforeColon: string, afterColon: string,
                           val: Val, trail: string)

  /** A value as written: a quoted string or a nested object. */
  datatype Val = VStr(s: string) | VObj(members: seq<Member>)

  /** A run of space characters. */
  predicate Spaces(g: string) {
    forall k :: 0 <= k < |g| ==> g[k] == ' '
  }

  function ValText(v: Val): string {
    match v
    case VStr(x) => "\"" + x + "\""
    case VObj(ms) => "{" + MembersText(ms) + "}"
  }

  function MemberText(m: Member): string {
    m.lead + "\"" + m.key + "\"" + m.beforeColon + ":" + m.afterColon + ValText(m.val) + m.trail
  }

  /** The members, separated by commas. */
  function MembersText(ms: seq<Member>): string {
    if ms == [] then ""
    else if |ms| == 1 then MemberText(ms[0])
    else MemberText(ms[0]) + "," + MembersText(ms[1..])
  }

  /** The text of an object with the given members. */
  function ObjectText(ms: seq<Member>): string {
    ValText(VObj(ms))
  }

  /** The value a member stores. */
  function ValTree(v: Val): TreeValue {
    match v
    case VStr(x) => TStr(x)
    case VObj(ms) => TObj(TreeOf(ms))
  }

  /** `acc` after storing the members in order. */
  function Store(acc: map<string, TreeValue>, ms: seq<Member>): map<string, TreeValue>
    decreases ms, 0
  {
    if ms == [] then acc
    else Store(acc[ms[0].key := ValTree(ms[0].val)], ms[1..])
  }

  /** The object the members describe. */
  function TreeOf(ms: seq<Member>): JsonTree
    decreases ms, 1
  {
    JsonTree(Store(map[], ms))
  }

  /** The object's last member holds an object. */
  predicate EndsWithObject(ms: seq<Member>) {
    ms != [] && ms[|ms| - 1].val.VObj?
  }

  /**
    The objects `parse` accepts and builds as described: at least one member,
    keys and strings free of quotes, every gap made of spaces, a nonempty key
    in front of every nested object, and no nested object that is followed by
    another member and itself ends with an object member.
   */
  predicate ObjectOk(ms: seq<Member>)
    decreases ms, 1
  {
    ms != [] && MembersOk(ms)
  }

  predicate MembersOk(ms: seq<Member>)
    decreases ms, 0
  {
    ms == [] || (MemberOk(ms[0], |ms| == 1) && MembersOk(ms[1..]))
  }

  /** One member, knowing whether it is the last of its object. */
  predicate MemberOk(m: Member, last: bool) {
    '"' !in m.key &&
    Spaces(m.lead) && Spaces(m.beforeColon) && Spaces(m.afterColon) && Spaces(m.trail) &&
    match m.val
    case VStr(x) => '"' !in x
    case VObj(c) => m.key != "" && ObjectOk(c) && (!last ==> !EndsWithObject(c))
  }

  /** A measure for induction over the nesting. */
  function MembersSize(ms: seq<Member>): nat {
    if ms == [] then 0 else 1 + ValSize(ms[0].val) + MembersSize(ms[1..])
  }

  function ValSize(v: Val): nat {
    match v
    case VStr(_) => 0
    case VObj(ms) => 1 + MembersSize(ms)
  }

  /** Storing one more member is one more `put`. */
  lemma {:induction false} StoreSnoc(acc: map<string, TreeValue>, ms: seq<Member>, m: Member)
    ensures Store(acc, ms + [m]) == Store(acc, ms)[m.key := ValTree(m.val)]
    decreases |ms|
  {
    if ms == [] {
      assert [] + [m] == [m];
    } else {
      assert (ms + [m])[0] == ms[0] && (ms + [m])[1..] == ms[1..] + [m];
      StoreSnoc(acc[ms[0].key := ValTree(ms[0].val)], ms[1..], m);
    }
  }

  /** Last write wins: a key holds the value of the last member written with it. */
  lemma {:induction false} StoreLast(acc: map<string, TreeValue>, ms: seq<Member>, j: nat)
    requires j < |ms|
    requires forall j' :: j < j' < |ms| ==> ms[j'].key != ms[j].key
    ensures ms[j].key in Store(acc, ms) && Store(acc, ms)[ms[j].key] == ValTree(ms[j].val)
    decreases |ms|
  {
    if j == 0 {
      StoreOther(acc[ms[0].key := ValTree(ms[0].val)], ms[1..], ms[0].key);
    } else {
      StoreLast(acc[ms[0].key := ValTree(ms[0].val)], ms[1..], j - 1);
    }
  }

  /** A key no member writes keeps what `acc` had for it (or stays absent). */
  lemma {:induction false} StoreOther(acc: map<string, TreeValue>, ms: seq<Member>, k: string)
    requires forall j :: 0 <= j < |ms| ==> ms[j].key != k
    ensures k in Store(acc, ms) <==> k in acc
    ensures k in acc ==> Store(acc, ms)[k] == acc[k]
    decreases |ms|
  {
    if ms != [] {
      StoreOther(acc[ms[0].key := ValTree(ms[0].val)], ms[1..], k);
    }
  }

  /** Storing adds exactly the members' keys to those of `acc`. */
  lemma {:induction false} StoreKeys(acc: map<string, TreeValue>, ms: seq<Member>, k: string)
    ensures k in Store(acc, ms) <==> k in acc || exists j :: 0 <= j < |ms| && ms[j].key == k
    decreases |ms|
  {
    if ms != [] {
      var acc1 := acc[ms[0].key := ValTree(ms[0].val)];
      StoreKeys(acc1, ms[1..], k);
      if exists j :: 0 <= j < |ms[1..]| && ms[1..][j].key == k {
        var j :| 0 <= j < |ms[1..]| && ms[1..][j].key == k;
        assert ms[j + 1].key == k;
      }
      if exists j :: 0 <= j < |ms| && ms[j].key == k {
        var j :| 0 <= j < |ms| && ms[j].key == k;
        if j > 0 {
          assert ms[1..][j - 1].key == k;
        }
      }
    }
  }
}
