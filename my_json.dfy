/**
  The object store the parser builds: `MyJSON`, a hash map from keys to values
  that are either strings or nested `MyJSON` objects, plus the `objectLen`
  bookkeeping field through which a nested parse reports where it stopped.
 */
module MyJson {
  import opened JsonValues

  /** A stored value: a string or a reference to a nested object. */
  datatype Value = Str(str: string) | Obj(obj: MyJSON)

  class MyJSON {
    var mem: map<string, Value>
    var objectLen: int

    /** The value view of this object and of everything nested in it. */
    ghost var tree: JsonTree
    /** This object and every object reachable through its entries. */
    ghost var Repr: set<object>

    /**
      The object invariant: `tree` has the keys of `mem`, string entries agree,
      and each object entry is a valid object, inside `Repr`, that does not
      reach back to this one (so the nesting is a tree).
     */
    ghost predicate Valid()
      reads this`mem, this`tree, this`Repr, Repr - {this}
      ensures Valid() ==> this in Repr
      decreases Repr
    {
      this in Repr &&
      mem.Keys == tree.entries.Keys &&
      forall k | k in mem ::
        match mem[k]
        case Str(s) => tree.entries[k] == TStr(s)
        case Obj(c) =>
          c in Repr && c.Repr <= Repr && this !in c.Repr && c.Valid() &&
          tree.entries[k] == TObj(c.tree)
    }

    /** `new MyJSON()`: no entries, and length -1 until `setLen` is called. */
    constructor ()
      ensures Valid() && fresh(Repr)
      ensures mem == map[] && tree == Empty() && objectLen == -1
    {
      mem := map[];
      objectLen := -1;
      tree := Empty();
      Repr := {this};
    }

    /** `getObject(name)`: the nested object stored under `name`, or null. */
    method GetObject(name: string) returns (r: Option<MyJSON>)
      requires Valid()
      ensures r == if name in mem && mem[name].Obj? then Some(mem[name].obj) else None
      ensures r.Some? ==> r.value.Valid() && r.value.Repr <= Repr && this !in r.value.Repr
      ensures ObjectOf(tree, name) == if r.Some? then Some(r.value.tree) else None
    {
      if name in mem && mem[name].Obj? {
        r := Some(mem[name].obj);
      } else {
        r := None;
      }
    }

    /** `setObject(name, value)`: stores `value` under `name`, replacing what was there. */
    method SetObject(name: string, value: MyJSON) returns (r: MyJSON)
      requires Valid() && value.Valid() && this !in value.Repr
      modifies this
      ensures r == this && Valid()
      ensures mem == old(mem)[name := Obj(value)]
      ensures tree == JsonTree(old(tree).entries[name := TObj(value.tree)])
      ensures Repr == old(Repr) + value.Repr
      ensures objectLen == old(objectLen)
    {
      ghost var oldMem := mem;
      ghost var oldRepr := Repr;
      mem := mem[name := Obj(value)];
      tree := JsonTree(tree.entries[name := TObj(value.tree)]);
      Repr := Repr + value.Repr;
      r := this;
      forall k | k in oldMem && k != name && oldMem[k].Obj?
        ensures oldMem[k].obj.Valid() && oldMem[k].obj.Repr <= oldRepr && this !in oldMem[k].obj.Repr
      {
      }
      assert value.Valid();
    }

    /** `getString(name)`: the string stored under `name`, or null. */
    method GetString(name: string) returns (r: Option<string>)
      requires Valid()
      ensures r == StringOf(tree, name)
    {
      if name in mem && mem[name].Str? {
        r := Some(mem[name].str);
      } else {
        r := None;
      }
    }

    /** `setString(name, value)`: stores `value` under `name`, replacing what was there. */
    method SetString(name: string, value: string) returns (r: MyJSON)
      requires Valid()
      modifies this
      ensures r == this && Valid()
      ensures mem == old(mem)[name := Str(value)]
      ensures tree == JsonTree(old(tree).entries[name := TStr(value)])
      ensures Repr == old(Repr)
      ensures objectLen == old(objectLen)
    {
      mem := mem[name := Str(value)];
      tree := JsonTree(tree.entries[name := TStr(value)]);
      r := this;
    }

    /** `getObjects(names)`: `names` together with every key holding an object. */
    method GetObjects(names: set<string>) returns (result: set<string>)
      requires Valid()
      ensures result == names + ObjectKeys(tree.entries)
    {
      result := names;
      var rest := mem.Keys;
      while rest != {}
        invariant rest <= mem.Keys
        invariant result == names + set k | k in mem.Keys - rest && mem[k].Obj?
        decreases rest
      {
        var k :| k in rest;
        if mem[k].Obj? {
          result := result + {k};
        }
        rest := rest - {k};
      }
    }

    /** `getStrings(names)`: `names` together with every key holding a string. */
    method GetStrings(names: set<string>) returns (result: set<string>)
      requires Valid()
      ensures result == names + StringKeys(tree.entries)
    {
      result := names;
      var rest := mem.Keys;
      while rest != {}
        invariant rest <= mem.Keys
        invariant result == names + set k | k in mem.Keys - rest && mem[k].Str?
        decreases rest
      {
        var k :| k in rest;
        if mem[k].Str? {
          result := result + {k};
        }
        rest := rest - {k};
      }
    }

    /**
      `getObjCtr()`, which the parser calls but `MyJSON` does not define; taken
      to be the number of object-valued entries.
     */
    method GetObjCtr() returns (n: nat)
      requires Valid()
      ensures n == ObjectCount(tree.entries)
    {
      var objs := set k | k in mem && mem[k].Obj?;
      assert objs == ObjectKeys(tree.entries);
      n := |objs|;
    }

    /** `setLen(l)`. */
    method SetLen(l: int)
      modifies this`objectLen
      ensures objectLen == l && tree == old(tree)
      ensures old(Valid()) ==> Valid()
    {
      objectLen := l;
    }

    /** `getLen()`: the length last recorded by `setLen`, -1 if none was. */
    method GetLen() returns (l: int)
      ensures l == objectLen
    {
      l := objectLen;
    }
  }
}
